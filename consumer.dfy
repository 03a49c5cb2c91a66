/**
 * The queue consumer (RabbitMQConsumer): one flat message with optional
 * fields is classified by which fields are present and routed to one of four
 * notices, each of which yields the (recipient, subject, body) tuples handed
 * to the mail sender, or an error that is logged inside the route or escapes
 * the consumer. The directory lookups by email become partial maps from email
 * to name; a lookup with an absent (null) email finds nothing.
 */
module Consumer {
  import opened Wrappers
  import opened Entities
  import FormUrlDecoding

  // ---------------------------------------------------------------------
  // Messages, directory, outcomes
  // ---------------------------------------------------------------------

  /** A queue message; None is a null field. */
  datatype Message = Message(
    email: Option<string>,              // contact-form sender, set only on contact messages
    message: Option<string>,            // contact-form text, form-urlencoded
    adminEmail: Option<string>,
    doctorEmail: Option<string>,        // the primary doctor
    doctor2Email: Option<string>,       // the second doctor of a doctor-to-doctor consult
    patientEmail: Option<string>,
    senderInquiryEmail: Option<string>,
    appointmentDate: Option<Time>,
    doctorAnswer: Option<string>)

  datatype Name = Name(first: string, last: string)

  /** firstName + " " + lastName, as every body spells a person. */
  function FullName(n: Name): string
  {
    n.first + " " + n.last
  }

  /** What getDoctorByEmail and getPatientByEmail can find. */
  datatype Directory = Directory(doctors: map<string, Name>, patients: map<string, Name>)

  /** A lookup by email: the name, or None where the service throws "not found". */
  function FindByEmail(names: map<string, Name>, email: Option<string>): (r: Option<Name>)
    ensures r.Some? <==> email.Some? && email.value in names
    ensures r.Some? ==> r.value == names[email.value]
  {
    if email.Some? && email.value in names then Some(names[email.value]) else None
  }

  /** Objects.equals on two possibly-null strings: null equals null. */
  predicate SameAddress(a: Option<string>, b: Option<string>)
  {
    a == b
  }

  /** String concatenation of a possibly-null string, as Java renders it. */
  function Show(s: Option<string>): string
  {
    match s
    case None => "null"
    case Some(t) => t
  }

  /** One call of the mail sender. */
  datatype Dispatch = Dispatch(recipient: Option<string>, subject: string, body: string)

  datatype Failure =
    | DoctorNotFound   // getDoctorByEmail threw
    | PatientNotFound  // getPatientByEmail threw
    | NullPatient      // the inquiry body dereferenced the patient that was never looked up
    | NullMessage      // the contact text is null
    | MalformedEscape  // URLDecoder refused the contact text

  /**
   * Sent: the tuples, in sending order. Logged: a route caught the failure
   * and nothing was sent. Thrown: the failure escapes consume; nothing was sent.
   */
  datatype Outcome = Sent(dispatches: seq<Dispatch>) | Logged(failure: Failure) | Thrown(failure: Failure)

  // ---------------------------------------------------------------------
  // Message bodies: their visible text, one line per paragraph
  // ---------------------------------------------------------------------

  ghost predicate OccursAt(t: string, s: string, i: nat)
  {
    i + |t| <= |s| && s[i..i + |t|] == t
  }

  /** t is a contiguous part of s. */
  ghost predicate Contains(s: string, t: string)
  {
    exists i: nat :: OccursAt(t, s, i)
  }

  /** Paragraphs, each ended by a line break. */
  function Lines(ls: seq<string>): string
  {
    if ls == [] then "" else ls[0] + "\n" + Lines(ls[1..])
  }

  /** Every paragraph appears in the text. */
  lemma {:induction false} LinesContain(ls: seq<string>, k: nat)
    requires k < |ls|
    ensures Contains(Lines(ls), ls[k])
  {
    var head := ls[0] + "\n";
    assert Lines(ls) == head + Lines(ls[1..]);
    if k == 0 {
      assert Lines(ls)[0..|ls[0]|] == ls[0];
      assert OccursAt(ls[0], Lines(ls), 0);
    } else {
      LinesContain(ls[1..], k - 1);
      var i: nat :| OccursAt(ls[k], Lines(ls[1..]), i);
      assert Lines(ls)[|head| + i .. |head| + i + |ls[k]|] == Lines(ls[1..])[i .. i + |ls[k]|];
      assert OccursAt(ls[k], Lines(ls), |head| + i);
    }
  }

  const Greeting := "Hi! it's SYMPly - Care"
  const ProfileHint := "For more details, check the website in your profile."

  const AppointmentSubject := "New Appointment Scheduled for You!"
  const InquirySubject := "New Inquiry is waiting for your response!"
  const AnswerSubject := "Your inquiry has been answered!"
  const AdminSubject := "Hello Ezra, You have received a message from someone interested in contacting you regarding your application."

  const AppointmentGreeting := "Hi! It's SYMPly - Care"
  const AppointmentIntro := "We are pleased to inform you that a new meeting has been scheduled for you with the following details:"
  const AppointmentHint := "For more details, please check your profile on our website."

  /** The appointment notice names the doctor and the patient. */
  function AppointmentBody(doctorName: string, patientName: string): (b: string)
    ensures Contains(b, "Doctor: " + doctorName)
    ensures Contains(b, "Patient: " + patientName)
  {
    var lines := [
      AppointmentGreeting,
      AppointmentIntro,
      "Doctor: " + doctorName,
      "Patient: " + patientName,
      AppointmentHint];
    LinesContain(lines, 2);
    LinesContain(lines, 3);
    Lines(lines)
  }

  /** The inquiry notice says who it is from (role label and name) and whom it is for. */
  function InquiryBody(senderLabel: string, senderName: string, recipientName: string): (b: string)
    ensures Contains(b, "From " + senderLabel + ": " + senderName)
    ensures Contains(b, "To you: " + recipientName)
  {
    var lines := [
      Greeting,
      "A new inquiry is waiting for you with these details:",
      "From " + senderLabel + ": " + senderName,
      "To you: " + recipientName,
      ProfileHint];
    LinesContain(lines, 2);
    LinesContain(lines, 3);
    Lines(lines)
  }

  /** The answer notice names the answering doctor and the recipient. */
  function AnswerBody(doctorName: string, recipientName: string): (b: string)
    ensures Contains(b, "Doctor: " + doctorName)
    ensures Contains(b, "To you: " + recipientName)
  {
    var lines := [
      Greeting,
      "A new inquiry has been answered with these details:",
      "Doctor: " + doctorName,
      "To you: " + recipientName,
      ProfileHint];
    LinesContain(lines, 2);
    LinesContain(lines, 3);
    Lines(lines)
  }

  /** The contact notice carries the decoded text and the sender's address verbatim. */
  function AdminBody(text: string, contact: string): (b: string)
    ensures Contains(b, "Message: " + text)
    ensures Contains(b, "From this Email Address: " + contact)
  {
    var lines := [
      Greeting,
      "Information:",
      "Message: " + text,
      "From this Email Address: " + contact,
      ProfileHint];
    LinesContain(lines, 2);
    LinesContain(lines, 3);
    Lines(lines)
  }

  // ---------------------------------------------------------------------
  // Classification
  // ---------------------------------------------------------------------

  datatype Kind = ContactMessage | AppointmentNotice | NewInquiry | InquiryAnswered

  /** The precedence of consume: contact email, then appointment date, then a missing answer. */
  function Classify(m: Message): (k: Kind)
    ensures k == ContactMessage <==> m.email.Some?
    ensures k == AppointmentNotice ==> m.appointmentDate.Some?
    ensures k == NewInquiry ==> m.appointmentDate.None? && m.doctorAnswer.None?
    ensures k == InquiryAnswered ==> m.appointmentDate.None? && m.doctorAnswer.Some?
  {
    if m.email.Some? then ContactMessage
    else if m.appointmentDate.Some? then AppointmentNotice
    else if m.doctorAnswer.None? then NewInquiry
    else InquiryAnswered
  }

  /** Each kind in terms of the fields alone; together they cover every message exactly once. */
  lemma ClassifyByFields(m: Message)
    ensures Classify(m) == ContactMessage <==> m.email.Some?
    ensures Classify(m) == AppointmentNotice <==> m.email.None? && m.appointmentDate.Some?
    ensures Classify(m) == NewInquiry <==> m.email.None? && m.appointmentDate.None? && m.doctorAnswer.None?
    ensures Classify(m) == InquiryAnswered <==> m.email.None? && m.appointmentDate.None? && m.doctorAnswer.Some?
  {
  }

  // ---------------------------------------------------------------------
  // The four routes and consume
  // ---------------------------------------------------------------------

  /** sendAppointmentEmail: the patient lookup is inside the try; then the same notice to the patient and to the doctor. */
  function AppointmentRoute(m: Message, doctor: Name, dir: Directory): (o: Outcome)
    ensures !o.Thrown?
    ensures o.Logged? <==> FindByEmail(dir.patients, m.patientEmail).None?
    ensures o.Sent? ==>
      && |o.dispatches| == 2
      && o.dispatches[0].recipient == m.patientEmail && o.dispatches[1].recipient == m.doctorEmail
      && o.dispatches[0].subject == o.dispatches[1].subject == AppointmentSubject
      && o.dispatches[0].body == o.dispatches[1].body
         == AppointmentBody(FullName(doctor), FullName(FindByEmail(dir.patients, m.patientEmail).value))
  {
    match FindByEmail(dir.patients, m.patientEmail)
    case None => Logged(PatientNotFound)
    case Some(patient) =>
      var body := AppointmentBody(FullName(doctor), FullName(patient));
      Sent([Dispatch(m.patientEmail, AppointmentSubject, body), Dispatch(m.doctorEmail, AppointmentSubject, body)])
  }

  /** The sender label of an inquiry: "Doctor" when the sender is the primary doctor. */
  function SenderLabel(m: Message): (l: string)
    ensures l == "Doctor" || l == "Patient"
    ensures l == "Doctor" <==> m.senderInquiryEmail == m.doctorEmail
  {
    if SameAddress(m.senderInquiryEmail, m.doctorEmail) then "Doctor" else "Patient"
  }

  /**
   * sendInquiryEmail: the counterpart lookup happens before the try, so its
   * failure escapes; inside the try the recipient is chosen by comparing the
   * sender with the primary doctor. In a consult (no patient email) whose
   * sender is not the primary doctor, the body dereferences the patient that
   * was never looked up, and the route logs that failure.
   */
  function InquiryRoute(m: Message, doctor: Name, dir: Directory): (o: Outcome)
    ensures o.Thrown? <==>
      if m.patientEmail.Some? then FindByEmail(dir.patients, m.patientEmail).None?
      else FindByEmail(dir.doctors, m.doctor2Email).None?
    ensures o.Logged? ==> o.failure == NullPatient && m.patientEmail.None? && m.senderInquiryEmail != m.doctorEmail
    ensures o.Sent? ==> |o.dispatches| == 1 && o.dispatches[0].subject == InquirySubject
    ensures o.Sent? && m.patientEmail.None? ==> o.dispatches[0].recipient == m.doctor2Email
  {
    var fromDoctor := SameAddress(m.senderInquiryEmail, m.doctorEmail);
    if m.patientEmail.Some? then
      match FindByEmail(dir.patients, m.patientEmail)
      case None => Thrown(PatientNotFound)
      case Some(patient) =>
        var recipient := if fromDoctor then m.patientEmail else m.doctorEmail;
        var recipientName := if fromDoctor then FullName(patient) else FullName(doctor);
        var senderName := if fromDoctor then FullName(doctor) else FullName(patient);
        Sent([Dispatch(recipient, InquirySubject, InquiryBody(SenderLabel(m), senderName, recipientName))])
    else
      match FindByEmail(dir.doctors, m.doctor2Email)
      case None => Thrown(DoctorNotFound)
      case Some(doctor2) =>
        if fromDoctor then
          Sent([Dispatch(m.doctor2Email, InquirySubject, InquiryBody(SenderLabel(m), FullName(doctor), FullName(doctor2)))])
        else
          Logged(NullPatient)
  }

  /** sendAnswerEmail: whoever did not answer is told; every lookup is inside the try. */
  function AnswerRoute(m: Message, doctor: Name, dir: Directory): (o: Outcome)
    ensures !o.Thrown?
    ensures o.Sent? ==> |o.dispatches| == 1 && o.dispatches[0].subject == AnswerSubject
    ensures o.Sent? ==>
      o.dispatches[0].recipient == (if m.senderInquiryEmail == m.doctor2Email then m.doctorEmail else m.patientEmail)
  {
    if SameAddress(m.senderInquiryEmail, m.doctor2Email) then
      match FindByEmail(dir.doctors, m.doctor2Email)
      case None => Logged(DoctorNotFound)
      case Some(doctor2) =>
        Sent([Dispatch(m.doctorEmail, AnswerSubject, AnswerBody(FullName(doctor2), FullName(doctor)))])
    else
      match FindByEmail(dir.patients, m.patientEmail)
      case None => Logged(PatientNotFound)
      case Some(patient) =>
        Sent([Dispatch(m.patientEmail, AnswerSubject, AnswerBody(FullName(doctor), FullName(patient)))])
  }

  /** sendMessageToAdmin: decode the contact text, then one notice to the admin address. */
  function AdminRoute(m: Message): (o: Outcome)
    ensures !o.Thrown?
    ensures o.Sent? <==> m.message.Some? && FormUrlDecoding.Decode(m.message.value).Some?
    ensures o.Sent? ==> |o.dispatches| == 1 && o.dispatches[0].recipient == m.adminEmail && o.dispatches[0].subject == AdminSubject
  {
    match m.message
    case None => Logged(NullMessage)
    case Some(raw) =>
      match FormUrlDecoding.Decode(raw)
      case None => Logged(MalformedEscape)
      case Some(text) => Sent([Dispatch(m.adminEmail, AdminSubject, AdminBody(text, Show(m.email)))])
  }

  /** consume: the primary doctor is looked up before any non-contact route, outside any try. */
  function Consume(m: Message, dir: Directory): (o: Outcome)
    ensures m.email.Some? ==> !o.Thrown?
    ensures m.email.None? && FindByEmail(dir.doctors, m.doctorEmail).None? ==> o == Thrown(DoctorNotFound)
    ensures o.Sent? ==> 1 <= |o.dispatches| <= 2
    ensures o.Sent? && |o.dispatches| == 2 ==> Classify(m) == AppointmentNotice
  {
    if m.email.None? then
      match FindByEmail(dir.doctors, m.doctorEmail)
      case None => Thrown(DoctorNotFound)
      case Some(doctor) =>
        if m.appointmentDate.Some? then AppointmentRoute(m, doctor, dir)
        else if m.doctorAnswer.None? then InquiryRoute(m, doctor, dir)
        else AnswerRoute(m, doctor, dir)
    else
      AdminRoute(m)
  }

  // ---------------------------------------------------------------------
  // Properties of consume
  // ---------------------------------------------------------------------

  /** consume takes exactly the route the classification names; the doctor lookup failure escapes first. */
  lemma ConsumeFollowsClassification(m: Message, dir: Directory)
    ensures Classify(m) == ContactMessage ==> Consume(m, dir) == AdminRoute(m)
    ensures Classify(m) != ContactMessage && FindByEmail(dir.doctors, m.doctorEmail).None? ==>
      Consume(m, dir) == Thrown(DoctorNotFound)
    ensures Classify(m) != ContactMessage && FindByEmail(dir.doctors, m.doctorEmail).Some? ==>
      var doctor := FindByEmail(dir.doctors, m.doctorEmail).value;
      Consume(m, dir) == match Classify(m)
        case AppointmentNotice => AppointmentRoute(m, doctor, dir)
        case NewInquiry => InquiryRoute(m, doctor, dir)
        case _ => AnswerRoute(m, doctor, dir)
  {
  }

  /** A contact message goes to the admin route whatever the other fields and the directory hold. */
  lemma ContactIgnoresOtherFields(m: Message, dir: Directory, m': Message, dir': Directory)
    requires m.email.Some? && m'.email == m.email
    requires m'.message == m.message && m'.adminEmail == m.adminEmail
    ensures Consume(m', dir') == Consume(m, dir) == AdminRoute(m)
  {
  }

  /**
   * The admin route: nothing is sent for a null or malformed text; otherwise
   * exactly one notice to the admin address carrying the decoded text and the
   * contact address.
   */
  lemma AdminRouteOutcome(m: Message, dir: Directory)
    requires m.email.Some?
    ensures m.message.None? ==> Consume(m, dir) == Logged(NullMessage)
    ensures m.message.Some? && !FormUrlDecoding.WellFormed(m.message.value) ==> Consume(m, dir) == Logged(MalformedEscape)
    ensures m.message.Some? && FormUrlDecoding.WellFormed(m.message.value) ==>
      var o := Consume(m, dir);
      && o.Sent? && |o.dispatches| == 1
      && o.dispatches[0].recipient == m.adminEmail
      && o.dispatches[0].subject == AdminSubject
      && Contains(o.dispatches[0].body, "Message: " + FormUrlDecoding.Decode(m.message.value).value)
      && Contains(o.dispatches[0].body, "From this Email Address: " + m.email.value)
  {
    if m.message.Some? {
      FormUrlDecoding.DecodeSucceedsIff(m.message.value);
    }
  }

  /**
   * The appointment route: if the patient lookup fails nothing is sent and
   * nothing escapes; otherwise two sends with one subject and one body, first
   * to the patient, then to the doctor, the body naming both.
   */
  lemma AppointmentRouteOutcome(m: Message, dir: Directory)
    requires Classify(m) == AppointmentNotice
    requires FindByEmail(dir.doctors, m.doctorEmail).Some?
    ensures FindByEmail(dir.patients, m.patientEmail).None? ==> Consume(m, dir) == Logged(PatientNotFound)
    ensures FindByEmail(dir.patients, m.patientEmail).Some? ==>
      var o := Consume(m, dir);
      var doctor := FindByEmail(dir.doctors, m.doctorEmail).value;
      var patient := FindByEmail(dir.patients, m.patientEmail).value;
      && o.Sent? && |o.dispatches| == 2
      && o.dispatches[0].recipient == m.patientEmail
      && o.dispatches[1].recipient == m.doctorEmail
      && o.dispatches[0].subject == o.dispatches[1].subject == AppointmentSubject
      && o.dispatches[0].body == o.dispatches[1].body
      && Contains(o.dispatches[0].body, "Doctor: " + FullName(doctor))
      && Contains(o.dispatches[0].body, "Patient: " + FullName(patient))
  {
  }

  /** The sender label is "Doctor" exactly when the sender equals the primary doctor's email (null equal to null). */
  lemma SenderLabelIff(m: Message)
    ensures SenderLabel(m) == "Doctor" <==> m.senderInquiryEmail == m.doctorEmail
    ensures SenderLabel(m) != "Doctor" ==> SenderLabel(m) == "Patient"
  {
  }

  /**
   * The inquiry route sends at most once; with a patient email the notice
   * goes to the patient when the doctor sent the inquiry and to the doctor
   * otherwise; without one it goes to the second doctor, sent only when the
   * sender is the primary doctor. Counterpart lookup failures escape.
   */
  lemma InquiryRouteOutcome(m: Message, dir: Directory)
    requires Classify(m) == NewInquiry
    requires FindByEmail(dir.doctors, m.doctorEmail).Some?
    ensures Consume(m, dir).Sent? ==> |Consume(m, dir).dispatches| == 1
    ensures m.patientEmail.Some? && FindByEmail(dir.patients, m.patientEmail).None? ==>
      Consume(m, dir) == Thrown(PatientNotFound)
    ensures m.patientEmail.Some? && FindByEmail(dir.patients, m.patientEmail).Some? ==>
      var o := Consume(m, dir);
      var doctor := FindByEmail(dir.doctors, m.doctorEmail).value;
      var patient := FindByEmail(dir.patients, m.patientEmail).value;
      var fromDoctor := m.senderInquiryEmail == m.doctorEmail;
      && o.Sent?
      && o.dispatches[0].recipient == (if fromDoctor then m.patientEmail else m.doctorEmail)
      && o.dispatches[0].subject == InquirySubject
      && Contains(o.dispatches[0].body, "From " + SenderLabel(m) + ": " + FullName(if fromDoctor then doctor else patient))
      && Contains(o.dispatches[0].body, "To you: " + FullName(if fromDoctor then patient else doctor))
    ensures m.patientEmail.None? && FindByEmail(dir.doctors, m.doctor2Email).None? ==>
      Consume(m, dir) == Thrown(DoctorNotFound)
    ensures m.patientEmail.None? && FindByEmail(dir.doctors, m.doctor2Email).Some? ==>
      var o := Consume(m, dir);
      (if m.senderInquiryEmail == m.doctorEmail
       then o.Sent? && o.dispatches[0].recipient == m.doctor2Email && SenderLabel(m) == "Doctor"
            && Contains(o.dispatches[0].body, "From " + SenderLabel(m) + ": " + FullName(FindByEmail(dir.doctors, m.doctorEmail).value))
            && Contains(o.dispatches[0].body, "To you: " + FullName(FindByEmail(dir.doctors, m.doctor2Email).value))
       else o == Logged(NullPatient))
  {
  }

  /**
   * The answer route: when the answerer is the second doctor, the primary
   * doctor is told and the second doctor is named; otherwise the patient is
   * told and the primary doctor is named. One send when the lookup succeeds,
   * none (logged) when it fails.
   */
  lemma AnswerRouteOutcome(m: Message, dir: Directory)
    requires Classify(m) == InquiryAnswered
    requires FindByEmail(dir.doctors, m.doctorEmail).Some?
    ensures var o := Consume(m, dir); o.Sent? || o.Logged?
    ensures Consume(m, dir).Sent? ==> |Consume(m, dir).dispatches| == 1
    ensures m.senderInquiryEmail == m.doctor2Email ==>
      match FindByEmail(dir.doctors, m.doctor2Email)
      case None => Consume(m, dir) == Logged(DoctorNotFound)
      case Some(doctor2) =>
        var o := Consume(m, dir);
        && o.Sent? && o.dispatches[0].recipient == m.doctorEmail
        && o.dispatches[0].subject == AnswerSubject
        && Contains(o.dispatches[0].body, "Doctor: " + FullName(doctor2))
    ensures m.senderInquiryEmail != m.doctor2Email ==>
      match FindByEmail(dir.patients, m.patientEmail)
      case None => Consume(m, dir) == Logged(PatientNotFound)
      case Some(patient) =>
        var o := Consume(m, dir);
        && o.Sent? && o.dispatches[0].recipient == m.patientEmail
        && o.dispatches[0].subject == AnswerSubject
        && Contains(o.dispatches[0].body, "Doctor: " + FullName(FindByEmail(dir.doctors, m.doctorEmail).value))
        && Contains(o.dispatches[0].body, "To you: " + FullName(patient))
  {
  }

  /** No route sends more than two notices, and only the appointment route sends two. */
  lemma ConsumeSendsAtMostTwo(m: Message, dir: Directory)
    ensures Consume(m, dir).Sent? ==> 1 <= |Consume(m, dir).dispatches| <= 2
    ensures Consume(m, dir).Sent? && |Consume(m, dir).dispatches| == 2 ==> Classify(m) == AppointmentNotice
  {
  }

  // ---------------------------------------------------------------------
  // Worked scenarios
  // ---------------------------------------------------------------------

  /** An inquiry from the primary doctor to a patient is labelled "Doctor" and goes to the patient. */
  lemma DoctorInquiryScenario(doctor: Name, patient: Name)
    ensures
      var m := Message(None, None, None, Some("doc@x.com"), None, Some("pat@y.com"), Some("doc@x.com"), None, None);
      var dir := Directory(map["doc@x.com" := doctor], map["pat@y.com" := patient]);
      && Classify(m) == NewInquiry
      && SenderLabel(m) == "Doctor"
      && Consume(m, dir) == Sent([Dispatch(Some("pat@y.com"), InquirySubject,
           InquiryBody("Doctor", FullName(doctor), FullName(patient)))])
  {
  }

  /** A contact message "Hello%20there" reaches the admin with the decoded text and the visitor's address. */
  lemma ContactScenario(dir: Directory)
    ensures
      var m := Message(Some("visitor@z.com"), Some("Hello%20there"), Some("admin@care.com"), None, None, None, None, None, None);
      && Classify(m) == ContactMessage
      && Consume(m, dir) == Sent([Dispatch(Some("admin@care.com"), AdminSubject, AdminBody("Hello there", "visitor@z.com"))])
      && Contains(Consume(m, dir).dispatches[0].body, "Message: " + "Hello there")
      && Contains(Consume(m, dir).dispatches[0].body, "From this Email Address: " + "visitor@z.com")
  {
    DecodeHelloThere();
  }

  /** "%20" is the escape of a space: "Hello%20there" decodes to "Hello there". */
  lemma DecodeHelloThere()
    ensures FormUrlDecoding.Decode("Hello%20there") == Some("Hello there")
  {
    DecodeSpaceThere();
    FormUrlDecoding.DecodePlainPrefix("Hello", "%20there");
    assert "Hello" + "%20there" == "Hello%20there";
    assert "Hello" + " there" == "Hello there";
  }

  /** The escape "%20" in front of plain text decodes to a space in front of it. */
  lemma DecodeSpaceThere()
    ensures FormUrlDecoding.Decode("%20there") == Some(" there")
  {
    FormUrlDecoding.DecodePlainText("there");
    FormUrlDecoding.DecodeEscape('2', '0', "there");
    assert ['%', '2', '0'] + "there" == "%20there";
    assert [' '] + "there" == " there";
  }
}
