# Symply-care backend: relationship manager and notification router

This project models two parts of the Symply-care backend in Dafny and proves their properties.

- **The relationship manager (`PatientService`).** It is a small object graph. Patients and doctors are linked on both sides. Each doctor and each patient keeps its own list of appointments and inquiries. Login identities (users) carry role lists. The model is one `PatientService` object. Its fields are maps: patients and doctors keyed by id, users keyed by email (a save replaces the record with the same id, and an email held by another record is refused, as the unique email column does), plus the set of role names that the role table holds. Each source method that changes the tables becomes a method with a `modifies this` clause. That method replaces the link lists that the source mutates in place. Its `ensures` give the whole new state and the error cases. The two record builders, `updatePatientDetails` and `mapPatientDTOToPatient`, only compute a record, so they become functions. Three invariants are tracked: link symmetry (`LinksSymmetric`), "no doctor is booked twice at one date" (`NoDoubleBooking`) and "emails and user ids are unique, one account per email" (`UniqueAccounts`). Every mutating method states that it preserves `NoDoubleBooking` and `UniqueAccounts`. All except the five below also state that they preserve `LinksSymmetric`. The five:
  - `DeletePatientFromDoctors` and `DeleteDoctorFromPatients` edit one side only;
  - `CreatePatient` and `CreatePatientIntended` take the patient's doctor list from the client;
  - `SavePatientAndUser` stores whatever record it is given.

  The three loops of the source stay loops: the conflict scan, the sweep over all doctors, and the iterator removal.
- **The queue consumer (`RabbitMQConsumer`).** It takes one flat message with optional (nullable) fields and turns it into zero, one or two mail tuples `(recipient, subject, body)`. `Classify` gives the four-way precedence. `Consume` and the four route functions return an `Outcome`, which is one of three cases:
  - `Sent`: the tuples, in sending order;
  - `Logged`: a route caught the failure and nothing was sent;
  - `Thrown`: the failure escapes `consume`.

  The contact-form text is decoded as `application/x-www-form-urlencoded`, following `java.net.URLDecoder` and the percent-encoding of section 2.1 of RFC 3986. Decoding undoes the encoder on ASCII text.

Files:
- `wrappers.dfy`: `Option`.
- `entities.dfy`: the records.
- `relationships.dfy`: the service.
- `form_url_decoding.dfy`: the decoder and the encoder.
- `consumer.dfy`: the classifier, the routes and their properties.

Inputs that the model turns into parameters:
- the current time `now`;
- the directory that the consumer reads: maps from email to name.

Assumptions about code that is not part of this model:
- `DoctorService.deletePatientFromDoctor(doctorId, patientId)` removes every occurrence of that patient id from that doctor's patient list.
- `getDoctorByEmail` and `getPatientByEmail` throw when nothing matches, including for a null email.
- `new Users()` starts with an empty role list.
- The `Users` entity is not part of this model. It is assumed to be mapped like `User` (src/main/java/com/example/symply_care/entity/User.java:31): the id is the primary key and the email column is not null and unique. So a save replaces the record with the same id, and a save whose email another record holds is refused; the transaction then rolls back, and neither table changes.

## Model

| member | source | states |
|---|---|---|
| `Relationships.PatientService.AddDoctorToPatient` | src/main/java/com/example/symply_care/service/PatientService.java:215-229 | not-found when the patient id is absent, then when the doctor id is absent, with nothing changed; otherwise the doctor is appended to the end of the patient's list and the patient to the end of the doctor's (no deduplication), the patient's list is returned, and link symmetry and no-double-booking are preserved |
| `Relationships.HasAppointmentOn` | src/main/java/com/example/symply_care/service/PatientService.java:238-242 | the scan over the doctor's appointments reports a clash exactly when some appointment has the requested date |
| `Relationships.PatientService.Schedule` | src/main/java/com/example/symply_care/service/PatientService.java:232-261 | patient lookup, then doctor lookup, then the conflict scan, then the date verdict; on any failure neither list changes; on acceptance one appointment (this patient, this doctor, this date) is appended to both lists, the patient's list is returned, and all three invariants are kept |
| `Relationships.PatientService.AddAppointmentToPatient` | src/main/java/com/example/symply_care/service/PatientService.java:231-262 | outcome as the source decides it (`ScheduleCheck`): a clash gives a conflict; a free date after `now` gives "date has already passed"; only a free date not after `now` is booked, in both lists |
| `Relationships.ScheduleCheck` | src/main/java/com/example/symply_care/service/PatientService.java:238-257 | the verdict as written is acceptance, a conflict or "date has already passed", and the last only for a free slot strictly after `now` |
| `Relationships.ScheduleCheckIntended` | src/main/java/com/example/symply_care/service/PatientService.java:238-257 | the corrected verdict is acceptance, a conflict or "date has already passed", and the last only for a free slot not after `now` |
| `Relationships.ScheduleCheckAcceptance` | src/main/java/com/example/symply_care/service/PatientService.java:238-257 | as written, a booking is accepted if and only if the slot is free and the date is not after `now`; a clash is always reported as a conflict, before the date test |
| `Relationships.ScheduleCheckRefusesFutureDate` | src/main/java/com/example/symply_care/service/PatientService.java:243-256 | a free slot one tick after `now` is refused with "date has already passed" as written, and accepted by the intended rule |
| `Relationships.ScheduleCheckIntendedAcceptance` | src/main/java/com/example/symply_care/service/PatientService.java:243-256 | the corrected rule accepts if and only if the slot is free and the date is strictly after `now` |
| `Relationships.PatientService.AddAppointmentToPatientIntended` | src/main/java/com/example/symply_care/service/PatientService.java:231-262 | the same operation with the corrected date rule, with the same state and invariant guarantees |
| `Relationships.PatientService.CreateAppointment` | src/main/java/com/example/symply_care/service/PatientService.java:205-212 | not-found for an unknown patient with nothing changed; otherwise the given appointment is appended to the patient's list only and returned; doctors are untouched; all three invariants are kept |
| `Relationships.PatientService.AddInquiryToPatient` | src/main/java/com/example/symply_care/service/PatientService.java:264-295 | not-found for an unknown patient, then for an unknown doctor, with neither list changed; otherwise one inquiry (this doctor, this patient, these symptoms, `hasAnswered = false`) is appended to the doctor's and the patient's lists and the patient's list is returned |
| `Relationships.RemoveAll` | src/main/java/com/example/symply_care/service/PatientService.java:344 | the patient list with the patient removed holds exactly the other ids it held, and is unchanged when the patient is absent |
| `Relationships.DetachPatient` | src/main/java/com/example/symply_care/service/PatientService.java:341-346 | after the sweep the set of doctors is the same, no doctor lists the patient, every other patient is listed where it was, and no other doctor field changes |
| `Relationships.PatientService.DeletePatientFromDoctors` | src/main/java/com/example/symply_care/service/PatientService.java:341-346 | the loop over all doctors leaves the doctor table equal to `DetachPatient` of the old one and changes nothing else; no-double-booking is kept |
| `Relationships.PatientService.DeletePatient` | src/main/java/com/example/symply_care/service/PatientService.java:152-162 | an unknown id throws and deletes nothing; otherwise every doctor's list is swept first; then a missing user record fails and the transaction rolls back, so nothing changes; otherwise the user record and then the patient record are removed and no doctor lists the patient; all three invariants are kept on every path |
| `Relationships.RemoveFirstOccurrence` | src/main/java/com/example/symply_care/service/PatientService.java:355-362 | the iterator loop computes `RemoveFirst`: it drops the first matching entry and stops |
| `Relationships.RemoveFirst` | src/main/java/com/example/symply_care/service/PatientService.java:355-362 | removing the first match shortens the list by at most one and keeps every other id's membership |
| `Relationships.RemoveFirstAt` | src/main/java/com/example/symply_care/service/PatientService.java:355-362 | removing the first occurrence, at index k, yields the list before k followed by the list after k, so the order of the rest is kept |
| `Relationships.RemoveFirstCounts` | src/main/java/com/example/symply_care/service/PatientService.java:355-362 | exactly one occurrence disappears when there is one (multiset minus one, length minus one); an absent id changes nothing |
| `Relationships.RemoveFirstAbsent` | src/main/java/com/example/symply_care/service/PatientService.java:356-362 | an id that is not in the list leaves it unchanged |
| `Relationships.PatientService.DeleteDoctorFromPatients` | src/main/java/com/example/symply_care/service/PatientService.java:348-365 | for a known patient only its doctor list changes, to `RemoveFirst` of the old list; an unknown patient id is a no-op; doctors are untouched |
| `Relationships.DeleteDoctorBreaksSymmetry` | src/main/java/com/example/symply_care/service/PatientService.java:348-365 | from one symmetric patient–doctor link, the patient table after the removal (doctor table unchanged) is no longer symmetric: the doctor still lists a patient that no longer lists it |
| `Relationships.PatientService.FindRole` | src/main/java/com/example/symply_care/service/PatientService.java:368 | the role lookup finds the role exactly when the role table holds that name; otherwise it yields null |
| `Relationships.PatientService.AddRoleToPatient` | src/main/java/com/example/symply_care/service/PatientService.java:367-380 | not-found for an unknown patient, then for a patient without a user record, with users unchanged; otherwise the looked-up role (or null) is appended to the end of that user's roles, with no deduplication, and the updated user is stored and returned; patients and doctors are untouched, so all three invariants are kept |
| `Relationships.UpdatePatientDetails` | src/main/java/com/example/symply_care/service/PatientService.java:142-150 | first name, last name, city, country, street and birthDay come from the client data; id, email, password, image and all three link lists are unchanged |
| `Relationships.UpdatePatientDetailsIdempotent` | src/main/java/com/example/symply_care/service/PatientService.java:142-150 | applying the same details twice equals applying them once |
| `Relationships.PatientService.UpdatePatient` | src/main/java/com/example/symply_care/service/PatientService.java:130-139 | null data or a null email is invalid input; then an unknown id is not-found; in both cases nothing changes; otherwise the stored patient is replaced by its updated details, and all three invariants are kept |
| `Relationships.PersonFromDto` | src/main/java/com/example/symply_care/service/PatientService.java:73-83 | the person built from client data carries the client's id, first and last name, email, password, image, city, country, street and birthDay |
| `Relationships.MapDtoToPatient` | src/main/java/com/example/symply_care/service/PatientService.java:72-88 | as written, mapping fails (patient not found) exactly when the client id is not stored; otherwise the doctors come from the client data and the appointments and inquiries from the stored patient |
| `Relationships.CreateRefusesNewPatient` | src/main/java/com/example/symply_care/service/PatientService.java:84-86 | for an id that is not stored, the as-written mapping always fails with not-found |
| `Relationships.MapDtoToPatientIntended` | src/main/java/com/example/symply_care/service/PatientService.java:72-88 | the corrected mapping gives a new id empty appointment and inquiry lists, and agrees with the as-written one for stored ids |
| `Relationships.PatientService.SavePatientAndUser` | src/main/java/com/example/symply_care/service/PatientService.java:91-101 | the save is refused with an email-taken error, changing nothing, exactly when another patient or a user with another id holds the email; otherwise the patient is stored under its id, and the user with the patient's id, email and password and the single role `PATIENT` (or null) replaces any user with that id; doctors are untouched, so no-double-booking is kept, and unique accounts are kept |
| `Relationships.PatientService.CreatePatient` | src/main/java/com/example/symply_care/service/PatientService.java:90-102 | as written: an id that is not stored fails with not-found, then a null email is refused, then an email held by another patient or user is refused; in every error case nothing changes; otherwise the mapped patient and its user are stored as in the save, and the client data is returned; no-double-booking and unique accounts are kept |
| `Relationships.PatientService.CreatePatientIntended` | src/main/java/com/example/symply_care/service/PatientService.java:90-102 | corrected: any id is stored (a new one with empty lists) together with its `PATIENT` user; a null email is refused, and so is an email held by another patient or user, with nothing changed; no-double-booking and unique accounts are kept |
| `Relationships.PutUser` | src/main/java/com/example/symply_care/service/PatientService.java:94-100 | saving a user by id: afterwards the user is found under its email, every other entry is an old one with another id, and every old entry with another email and another id survives |
| `Relationships.SaveMovesRecordWithSameId` | src/main/java/com/example/symply_care/service/PatientService.java:94-100 | a user saved with a stored user's id and a new email replaces that record: the only account left is the new one |
| `Relationships.SaveKeepsAccountsUnique` | src/main/java/com/example/symply_care/service/PatientService.java:91-100 | when neither email test refuses, storing the patient and saving its user keeps patient emails distinct, every user filed under its own email and user ids distinct |
| `Consumer.FindByEmail` | src/main/java/com/example/symply_care/Consumer/RabbitMQConsumer.java:40 | a lookup by email finds a name exactly when the email is not null and the directory holds it, and then it is that entry's name |
| `Consumer.Classify` | src/main/java/com/example/symply_care/Consumer/RabbitMQConsumer.java:38-50 | the kind is contact exactly when the contact email is present; an appointment notice has a date; a new inquiry has no date and no answer; an answered inquiry has no date and an answer |
| `Consumer.Consume` | src/main/java/com/example/symply_care/Consumer/RabbitMQConsumer.java:36-55 | a contact message never escapes; otherwise a failed primary-doctor lookup escapes as not-found; every sending outcome holds one or two tuples, two only for an appointment notice |
| `Consumer.AppointmentRoute` | src/main/java/com/example/symply_care/Consumer/RabbitMQConsumer.java:57-82 | never escapes; logged exactly when the patient lookup fails; otherwise two tuples, to the patient email and then the doctor email, with the appointment subject and one body |
| `Consumer.SenderLabel` | src/main/java/com/example/symply_care/Consumer/RabbitMQConsumer.java:97-99 | the label is "Doctor" or "Patient", and "Doctor" exactly when the sender email equals the doctor email |
| `Consumer.InquiryRoute` | src/main/java/com/example/symply_care/Consumer/RabbitMQConsumer.java:84-122 | escapes exactly when the counterpart lookup fails (the patient when a patient email is given, else the second doctor); it logs only the null-patient failure of a consult not sent by the primary doctor; a send is one tuple with the inquiry subject, to `doctor2Email` in a consult |
| `Consumer.AnswerRoute` | src/main/java/com/example/symply_care/Consumer/RabbitMQConsumer.java:126-157 | never escapes; a send is one tuple with the answer subject, to the doctor email when the second doctor answered and to the patient email otherwise |
| `Consumer.AdminRoute` | src/main/java/com/example/symply_care/Consumer/RabbitMQConsumer.java:158-176 | never escapes; sends exactly when the text is present and decodes; a send is one tuple, to the admin address with the admin subject |
| `Consumer.ClassifyByFields` | src/main/java/com/example/symply_care/Consumer/RabbitMQConsumer.java:38-54 | each of the four kinds holds if and only if its field condition holds: the contact email is present; else the appointment date is present; else the answer is absent; else the answer is present |
| `Consumer.ConsumeFollowsClassification` | src/main/java/com/example/symply_care/Consumer/RabbitMQConsumer.java:36-55 | consume takes exactly the route that `Classify` names; for every non-contact kind a failed primary-doctor lookup escapes before any route, with nothing sent |
| `Consumer.ContactIgnoresOtherFields` | src/main/java/com/example/symply_care/Consumer/RabbitMQConsumer.java:38-53 | with the contact email present, the outcome is the admin route's and depends only on the email, message and admin fields, whatever the other fields and the directory hold |
| `Consumer.AdminRouteOutcome` | src/main/java/com/example/symply_care/Consumer/RabbitMQConsumer.java:158-176 | a null text, or one with a malformed escape, is logged and nothing is sent; text that is well formed gives exactly one send, to the admin address, whose body carries the decoded text and the contact email verbatim |
| `Consumer.AdminBody` | src/main/java/com/example/symply_care/Consumer/RabbitMQConsumer.java:164-169 | the admin body contains "Message: " followed by the decoded text, and "From this Email Address: " followed by the contact email |
| `Consumer.AppointmentRouteOutcome` | src/main/java/com/example/symply_care/Consumer/RabbitMQConsumer.java:57-82 | a failed patient lookup is logged and nothing is sent; otherwise exactly two sends with identical subject and body, first to the patient email and then to the doctor email, the body naming both doctor and patient |
| `Consumer.AppointmentBody` | src/main/java/com/example/symply_care/Consumer/RabbitMQConsumer.java:63-75 | the appointment body contains the "Doctor:" line with the doctor's full name and the "Patient:" line with the patient's full name |
| `Consumer.SenderLabelIff` | src/main/java/com/example/symply_care/Consumer/RabbitMQConsumer.java:97-99 | the sender label is "Doctor" if and only if the sender email equals the doctor email (null equals null), and "Patient" otherwise |
| `Consumer.InquiryRouteOutcome` | src/main/java/com/example/symply_care/Consumer/RabbitMQConsumer.java:84-122 | at most one send; a failed counterpart lookup escapes; with a patient email, the recipient is the patient email when the doctor sent the inquiry and the doctor email otherwise, and the body gives the sender's label and name and the recipient's name; without a patient email, the notice goes to `doctor2Email` when the primary doctor sent it and is logged otherwise |
| `Consumer.InquiryBody` | src/main/java/com/example/symply_care/Consumer/RabbitMQConsumer.java:111-116 | the inquiry body contains the "From" line with the label and the sender's name, and the "To you:" line with the recipient's name |
| `Consumer.AnswerRouteOutcome` | src/main/java/com/example/symply_care/Consumer/RabbitMQConsumer.java:126-157 | nothing ever escapes; when the sender equals `doctor2Email`, one send to the doctor email whose Doctor line names doctor2, otherwise one send to the patient email whose Doctor line names the primary doctor and whose "To you" line names the patient; a failed lookup is logged with nothing sent |
| `Consumer.AnswerBody` | src/main/java/com/example/symply_care/Consumer/RabbitMQConsumer.java:145-151 | the answer body contains the "Doctor:" line with the answering doctor's name and the "To you:" line with the recipient's name |
| `Consumer.ConsumeSendsAtMostTwo` | src/main/java/com/example/symply_care/Consumer/RabbitMQConsumer.java:36-55 | every sending outcome holds one or two tuples, and two only for an appointment notice |
| `Consumer.DoctorInquiryScenario` | src/main/java/com/example/symply_care/Consumer/RabbitMQConsumer.java:97-118 | an inquiry whose sender is the primary doctor is classified as a new inquiry, labelled "Doctor", and sent once to the patient |
| `Consumer.ContactScenario` | src/main/java/com/example/symply_care/Consumer/RabbitMQConsumer.java:158-172 | "Hello%20there" from visitor@z.com gives one send to admin@care.com whose body contains "Hello there" and the visitor's address |
| `Consumer.DecodeHelloThere` | src/main/java/com/example/symply_care/Consumer/RabbitMQConsumer.java:161 | "Hello%20there" decodes to "Hello there" |
| `FormUrlDecoding.Decode` | src/main/java/com/example/symply_care/Consumer/RabbitMQConsumer.java:161 | the decoded text is never longer than the input |
| `FormUrlDecoding.DecodeSucceedsIff` | src/main/java/com/example/symply_care/Consumer/RabbitMQConsumer.java:161 | decoding succeeds if and only if every '%' is followed by two hexadecimal digits |
| `FormUrlDecoding.DecodePlainText` | src/main/java/com/example/symply_care/Consumer/RabbitMQConsumer.java:161 | text without '%' and '+' decodes to itself |
| `FormUrlDecoding.DecodeEscape` | src/main/java/com/example/symply_care/Consumer/RabbitMQConsumer.java:161 | an escape "%XY" in front of more text decodes to the character with code XY in front of the rest's decoding |
| `FormUrlDecoding.DecodePlainPrefix` | src/main/java/com/example/symply_care/Consumer/RabbitMQConsumer.java:161 | a plain prefix passes through unchanged in front of the decoding of the rest |
| `FormUrlDecoding.DecodeEncode` | src/main/java/com/example/symply_care/Consumer/RabbitMQConsumer.java:161 | decoding the form-urlencoding of any ASCII text gives the text back |
| `FormUrlDecoding.EncodeWellFormed` | src/main/java/com/example/symply_care/Consumer/RabbitMQConsumer.java:161 | what the encoder produces is always accepted by the decoder |

## Where the code departs from its evident intent (the model follows the code)

- **The date test in `addAppointmentToPatient` is inverted.** It accepts only dates that are not after now (see Findings). `AddAppointmentToPatient` keeps that behaviour. `AddAppointmentToPatientIntended` is the corrected rule.
- **`deleteDoctorFromPatients` edits only the patient's side.** It removes the first matching doctor from the patient's list. The doctor's patient list is not touched, so that operation alone does not keep link symmetry (`DeleteDoctorBreaksSymmetry` gives a two-record witness).
- **`createAppointment` appends to the patient's list only.** So in this model the doctor's conflict scan never sees those appointments. Whether the stored program links them to the doctor depends on the entity mappings, which are not part of this model.
- **`addRoleToPatient` only looks up the role.** When the role is missing, it appends the null that the lookup returned. It never creates a role.
- **In the inquiry route, the consult case needs the primary doctor as sender.** The consult case is the one with no patient email. When its sender is not the primary doctor, the body reads the patient that was never looked up. The route then logs a null dereference and sends nothing.
- **Some lookups in `consume` escape instead of being logged.** The primary-doctor lookup (src/main/java/com/example/symply_care/Consumer/RabbitMQConsumer.java:40) and the inquiry route's counterpart lookups (89-95) run outside any `try`, so their failures leave `consume`. `Consume` and `InquiryRoute` give `Thrown` for them; the other routes catch and log.
- **`createPatient` cannot create a new patient** (see Findings). It also overwrites the patient's doctor list with the client's list, without touching the doctors' side.
- **`updatePatient` ignores the new email.** It refuses a null email, but it never copies the email it checked.

## Left out

- **Persistence and transactions.** Repository `save`/`delete`/`findAll` calls are map updates. `@Transactional` rollback is modelled only where a method fails after changing something: the saves refused by the unique email column, and `DeletePatient`, whose failed `user.get()` undoes the doctor sweep. Flushing and lazy loading are not modelled.
- **Aliasing.** Appointments and inquiries are held by value in both lists, where the source shares one object. Their generated ids and the separate inquiry and appointment tables are left out.
- **DTO mapping and read-only queries.** This covers `mapPatientToPatientDTO`, `getAllPatients`, `getPatientByID`, `getPatientByEmail`, `getDoctorsOfPatient`, `getInquiriesOfPatient` and `getAppointmentsOfPatient`. They are not modelled as operations. `MapDtoToPatient` models only one failure of `getInquiriesOfPatient`: the "Patient not found" throw that `createPatient` hits. Not modelled: `getInquiriesOfPatient` and `getAppointmentsOfPatient` re-read every listed inquiry and appointment from its own table and throw when one is missing (PatientService.java:181-183, 195-197). Those tables are not part of this model (see Aliasing).
- `Relationships.PatientService.UpdatePatient` does not model the failure after the update. The source returns through `mapPatientToPatientDTO` (PatientService.java:138), which re-reads the inquiries and appointments and can throw after the record is saved. The model returns the updated record.
- **Map parsing and Base64.** `convertToDoctor`, `convertToPatient` and `parseImageData` use dynamic map lookups, casts and Base64. `AddInquiryToPatient` takes the doctor id and the symptoms directly, and failures while parsing are not modelled.
- **`uploadImage`.** It is file I/O.
- **Mail sending and logging.** A sent mail is a `Dispatch` tuple, and a log entry is a `Logged` outcome. A mail send that itself throws is not modelled; in the appointment route such a throw would skip the second send.
- **HTML markup in bodies.** Bodies are modelled as their visible text, one line per paragraph. Subjects are verbatim.
- **Nullness of other inputs.**
  - Names and other person fields that could be null are plain strings.
  - `Time` and `Id` cannot be null. So the model has no case for a null date, which throws a `NullPointerException` at `date.after(now)` (PatientService.java:243), and none for a null id, where `findById(null)` throws. The null email refused by `CreatePatient` stands for the store's not-null email column (src/main/java/com/example/symply_care/entity/User.java:31), and the email-taken error for its unique constraint.
- **`FormUrlDecoding.Decode` is weaker than the JDK on some inputs:**
  - it reads each escaped octet as the character with that code, which is the JDK's UTF-8 result only for octets below 0x80; multi-byte sequences and the replacement of malformed sequences are not modelled;
  - it accepts only ASCII hexadecimal digits, while the JDK's digit parser also takes a sign ("%+1") and non-ASCII digits.
- **`Consumer.Consume` takes the queue message's fields from their getters.** The message class, `DoctorService` and the controllers are not part of this model.
- **`Relationships.PatientService.DeletePatientFromDoctors` rests on an assumption.** It assumes that `DoctorService.deletePatientFromDoctor`, which is not part of this model, removes every occurrence of the patient id from that doctor's list. `DeletePatient`'s link-symmetry clause depends on it: `addDoctorToPatient` does not deduplicate, so a doctor can list a patient twice, and a removal of only the first occurrence (as `deleteDoctorFromPatients` does) would leave the deleted patient in that doctor's list.
- **Time, width and concurrency.**
  - `java.util.Date` is an integer timestamp, and `now` is a parameter.
  - Ids are unbounded integers.
  - Everything runs on one thread: concurrent consumers and transaction isolation are out of scope.

## Findings

| source | as written | input that shows it | evidently intended | confidence | as-written member | corrected member |
|---|---|---|---|---|---|---|
| src/main/java/com/example/symply_care/service/PatientService.java:243 | `!date.after(now)` books only dates that are not after now; every later date is refused with "The date has already passed" | a doctor with no appointments, date = now + 1: refused with `DatePassed` | book only dates strictly after now, and refuse the others as passed | high (not executed) | `Relationships.ScheduleCheckRefusesFutureDate` | `Relationships.PatientService.AddAppointmentToPatientIntended` |
| src/main/java/com/example/symply_care/service/PatientService.java:84 | `mapPatientDTOToPatient` calls `getInquiriesOfPatient(dto.id)`, which throws "Patient not found" for any id that is not stored yet, so `createPatient` fails for every new patient | an empty patient table and any client data: `PatientNotFound` | create the patient with empty appointment and inquiry lists | medium (not executed) | `Relationships.CreateRefusesNewPatient` | `Relationships.PatientService.CreatePatientIntended` |
