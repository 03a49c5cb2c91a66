/**
 * The relationship manager of the care directory (PatientService): the
 * mutations that link patients and doctors, book appointments, file inquiries,
 * grant roles, update and create patients and delete them with their links.
 *
 * The repositories become maps owned by one PatientService object: patients
 * and doctors by id, login identities (Users) by email, and the set of role
 * names the role table holds. An entity's list that the source mutates in
 * place becomes a seq field of the record that the method replaces.
 */
module Relationships {
  import opened Wrappers
  import opened Entities

  /** The exceptions the service throws, by cause. */
  datatype ServiceError =
    | PatientNotFound      // no stored patient with the id: "Patient not found with id: ...", or Optional.get() on an empty result
    | DoctorNotFound       // no stored doctor with the id: "Doctor not found with id: ...", or Optional.get() on an empty result
    | UserNotFound         // Optional.get() on a missing Users record
    | AppointmentConflict  // "The doctor already has appointment in this date"
    | DatePassed           // "The date has already passed"
    | InvalidPatientData   // "Invalid patient data." / a null email refused by the store
    | EmailTaken           // the unique email column refuses a second record with that email

  datatype Result<T> = Ok(value: T) | Err(error: ServiceError)

  // ---------------------------------------------------------------------
  // List operations on link lists
  // ---------------------------------------------------------------------

  /** The list without its first occurrence of x; the list itself when x does not occur. */
  function RemoveFirst(s: seq<Id>, x: Id): (r: seq<Id>)
    ensures |r| <= |s| <= |r| + 1
    ensures forall y :: y != x ==> (y in r <==> y in s)
  {
    if s == [] then []
    else if s[0] == x then s[1..]
    else [s[0]] + RemoveFirst(s[1..], x)
  }

  /** Removing the first occurrence drops exactly the element at its index, keeping the order of the rest. */
  lemma {:induction false} RemoveFirstAt(s: seq<Id>, x: Id, k: nat)
    requires k < |s| && s[k] == x && x !in s[..k]
    ensures RemoveFirst(s, x) == s[..k] + s[k + 1..]
  {
    if k > 0 {
      assert s[0] == s[..k][0];
      assert s[1..][..k - 1] == s[..k][1..];
      RemoveFirstAt(s[1..], x, k - 1);
      assert s[..k] == [s[0]] + s[1..][..k - 1];
    }
  }

  /** Removing an id that does not occur changes nothing. */
  lemma {:induction false} RemoveFirstAbsent(s: seq<Id>, x: Id)
    requires x !in s
    ensures RemoveFirst(s, x) == s
  {
    if s != [] {
      RemoveFirstAbsent(s[1..], x);
    }
  }

  /** Exactly one occurrence of x disappears when there is one, and nothing else changes in count. */
  lemma {:induction false} RemoveFirstCounts(s: seq<Id>, x: Id)
    ensures x in s ==> multiset(RemoveFirst(s, x)) == multiset(s) - multiset{x}
    ensures x in s ==> |RemoveFirst(s, x)| == |s| - 1
    ensures x !in s ==> RemoveFirst(s, x) == s
  {
    if s == [] {
    } else if s[0] == x {
      assert s == [s[0]] + s[1..];
    } else {
      RemoveFirstCounts(s[1..], x);
      assert s == [s[0]] + s[1..];
    }
  }

  /** The list without any occurrence of x, the others in their order. */
  function RemoveAll(s: seq<Id>, x: Id): (r: seq<Id>)
    ensures forall y :: y in r <==> y in s && y != x
    ensures x !in s ==> r == s
    ensures |r| <= |s|
  {
    if s == [] then []
    else (if s[0] == x then [] else [s[0]]) + RemoveAll(s[1..], x)
  }

  /** Every doctor's patient list with the patient p taken out (what DoctorService.deletePatientFromDoctor is taken to do). */
  function DetachPatient(ds: map<Id, Doctor>, p: Id): (r: map<Id, Doctor>)
    ensures r.Keys == ds.Keys
    ensures forall d :: d in r ==> p !in r[d].patients
    ensures forall d, q :: d in r && q != p ==> (q in r[d].patients <==> q in ds[d].patients)
    ensures forall d :: d in r ==> r[d] == ds[d].(patients := r[d].patients)
  {
    map d | d in ds :: ds[d].(patients := RemoveAll(ds[d].patients, p))
  }

  /** A set that is not empty has a member (what lets the sweep below pick the next doctor). */
  lemma NonEmptyHasMember(s: set<Id>)
    requires s != {}
    ensures exists x :: x in s
  {
    if forall x :: x !in s {
      assert false;
    }
  }

  // ---------------------------------------------------------------------
  // The appointment rule
  // ---------------------------------------------------------------------

  /** Some appointment in the list is at exactly this date. */
  predicate Booked(appointments: seq<Appointment>, date: Time)
  {
    exists k :: 0 <= k < |appointments| && appointments[k].date == date
  }

  /**
   * The verdict of addAppointmentToPatient on a doctor's existing
   * appointments, as the source writes it: a clash first, then the date
   * test, which refuses every date AFTER now.
   */
  function ScheduleCheck(existing: seq<Appointment>, date: Time, now: Time): (r: Option<ServiceError>)
    ensures r == None || r == Some(AppointmentConflict) || r == Some(DatePassed)
    ensures r == Some(DatePassed) ==> !Booked(existing, date) && now < date
  {
    if Booked(existing, date) then Some(AppointmentConflict)
    else if date > now then Some(DatePassed)
    else None
  }

  /** The evidently intended verdict: a clash first, then refuse dates that are not after now. */
  function ScheduleCheckIntended(existing: seq<Appointment>, date: Time, now: Time): (r: Option<ServiceError>)
    ensures r == None || r == Some(AppointmentConflict) || r == Some(DatePassed)
    ensures r == Some(DatePassed) ==> !Booked(existing, date) && date <= now
  {
    if Booked(existing, date) then Some(AppointmentConflict)
    else if date <= now then Some(DatePassed)
    else None
  }

  /** As written, a booking is accepted exactly when the slot is free and the date is NOT in the future. */
  lemma ScheduleCheckAcceptance(existing: seq<Appointment>, date: Time, now: Time)
    ensures ScheduleCheck(existing, date, now) == None <==> !Booked(existing, date) && date <= now
    ensures Booked(existing, date) ==> ScheduleCheck(existing, date, now) == Some(AppointmentConflict)
  {
  }

  /** The discrepancy: a free slot one tick in the future is refused with "The date has already passed". */
  lemma ScheduleCheckRefusesFutureDate(now: Time)
    ensures ScheduleCheck([], now + 1, now) == Some(DatePassed)
    ensures ScheduleCheckIntended([], now + 1, now) == None
  {
  }

  /** The intended rule accepts exactly the free slots strictly after now. */
  lemma ScheduleCheckIntendedAcceptance(existing: seq<Appointment>, date: Time, now: Time)
    ensures ScheduleCheckIntended(existing, date, now) == None <==> !Booked(existing, date) && now < date
    ensures Booked(existing, date) ==> ScheduleCheckIntended(existing, date, now) == Some(AppointmentConflict)
  {
  }

  /** The conflict scan of addAppointmentToPatient over a doctor's appointments. */
  method HasAppointmentOn(appointments: seq<Appointment>, date: Time) returns (found: bool)
    ensures found <==> Booked(appointments, date)
  {
    var i := 0;
    while i < |appointments|
      invariant 0 <= i <= |appointments|
      invariant forall k :: 0 <= k < i ==> appointments[k].date != date
    {
      if appointments[i].date == date {
        return true;
      }
      i := i + 1;
    }
    return false;
  }

  /** The iterator loop of deleteDoctorFromPatients: drop the first entry equal to id and stop. */
  method RemoveFirstOccurrence(ids: seq<Id>, id: Id) returns (r: seq<Id>)
    ensures r == RemoveFirst(ids, id)
  {
    var i := 0;
    while i < |ids|
      invariant 0 <= i <= |ids|
      invariant id !in ids[..i]
    {
      if ids[i] == id {
        RemoveFirstAt(ids, id, i);
        return ids[..i] + ids[i + 1..];
      }
      assert ids[..i + 1] == ids[..i] + [ids[i]];
      i := i + 1;
    }
    assert ids[..i] == ids;
    RemoveFirstAbsent(ids, id);
    return ids;
  }

  // ---------------------------------------------------------------------
  // Patient records built from client data
  // ---------------------------------------------------------------------

  /** The six fields updatePatientDetails copies from the client data; everything else is kept. */
  function UpdatePatientDetails(p: Patient, dto: PatientDto): (r: Patient)
    ensures r.person.firstName == dto.firstName && r.person.lastName == dto.lastName
    ensures r.person.city == dto.city && r.person.country == dto.country
    ensures r.person.street == dto.street && r.person.birthDay == dto.birthDay
    ensures r.person.id == p.person.id && r.person.email == p.person.email
    ensures r.person.password == p.person.password && r.person.imageData == p.person.imageData
    ensures r.doctors == p.doctors && r.appointments == p.appointments && r.inquiries == p.inquiries
  {
    p.(person := p.person.(
      firstName := dto.firstName, lastName := dto.lastName,
      city := dto.city, country := dto.country,
      street := dto.street, birthDay := dto.birthDay))
  }

  /** Applying the same client data twice is the same as applying it once. */
  lemma UpdatePatientDetailsIdempotent(p: Patient, dto: PatientDto)
    ensures UpdatePatientDetails(UpdatePatientDetails(p, dto), dto) == UpdatePatientDetails(p, dto)
  {
  }

  /** The person part of a patient built from client data with the given email. */
  function PersonFromDto(dto: PatientDto, email: string): (r: Person)
    ensures r.id == dto.id && r.email == email && r.password == dto.password
    ensures r.firstName == dto.firstName && r.lastName == dto.lastName && r.imageData == dto.imageData
    ensures r.city == dto.city && r.country == dto.country && r.street == dto.street && r.birthDay == dto.birthDay
  {
    Person(dto.id, dto.firstName, dto.lastName, email, dto.password,
           dto.city, dto.country, dto.street, dto.imageData, dto.birthDay)
  }

  /**
   * mapPatientDTOToPatient as written: the appointment and inquiry lists are
   * read from the STORED patient with the client's id, so an id that is not
   * stored yet fails with "Patient not found".
   */
  function MapDtoToPatient(dto: PatientDto, email: string, stored: map<Id, Patient>): (r: Result<Patient>)
    ensures r.Err? <==> dto.id !in stored
    ensures r.Err? ==> r.error == PatientNotFound
    ensures r.Ok? ==> r.value.person == PersonFromDto(dto, email) && r.value.doctors == dto.doctors
    ensures r.Ok? ==> r.value.appointments == stored[dto.id].appointments && r.value.inquiries == stored[dto.id].inquiries
  {
    if dto.id !in stored then Err(PatientNotFound)
    else Ok(Patient(PersonFromDto(dto, email), dto.doctors, stored[dto.id].appointments, stored[dto.id].inquiries))
  }

  /** The evidently intended mapping: a patient not stored yet starts with no appointments and no inquiries. */
  function MapDtoToPatientIntended(dto: PatientDto, email: string, stored: map<Id, Patient>): (r: Patient)
    ensures r.person == PersonFromDto(dto, email) && r.doctors == dto.doctors
    ensures dto.id !in stored ==> r.appointments == [] && r.inquiries == []
    ensures dto.id in stored ==> MapDtoToPatient(dto, email, stored) == Ok(r)
  {
    if dto.id in stored then Patient(PersonFromDto(dto, email), dto.doctors, stored[dto.id].appointments, stored[dto.id].inquiries)
    else Patient(PersonFromDto(dto, email), dto.doctors, [], [])
  }

  /** The discrepancy: creating a patient whose id is new fails, whatever the store holds. */
  lemma CreateRefusesNewPatient(dto: PatientDto, email: string, stored: map<Id, Patient>)
    requires dto.id !in stored
    ensures MapDtoToPatient(dto, email, stored) == Err(PatientNotFound)
    ensures MapDtoToPatientIntended(dto, email, stored).person.id == dto.id
  {
  }

  // ---------------------------------------------------------------------
  // Link symmetry
  // ---------------------------------------------------------------------

  /** A patient lists a doctor exactly when that doctor lists the patient. */
  ghost predicate Symmetric(patients: map<Id, Patient>, doctors: map<Id, Doctor>)
  {
    && (forall p, d :: p in patients && d in patients[p].doctors ==> d in doctors && p in doctors[d].patients)
    && (forall d, p :: d in doctors && p in doctors[d].patients ==> p in patients && d in patients[p].doctors)
  }

  /** Deleting a patient after detaching it from every doctor keeps the links symmetric. */
  lemma DeleteKeepsSymmetric(patients: map<Id, Patient>, doctors: map<Id, Doctor>, id: Id)
    requires Symmetric(patients, doctors)
    ensures Symmetric(patients - {id}, DetachPatient(doctors, id))
  {
  }

  /**
   * deleteDoctorFromPatients edits only the patient's side: from a single
   * symmetric link, removing the doctor from the patient's list (the new
   * patient table DeleteDoctorFromPatients states, the doctor table unchanged)
   * leaves the doctor listing a patient that no longer lists it.
   */
  lemma DeleteDoctorBreaksSymmetry(p: Patient, d: Doctor, pid: Id, did: Id)
    requires p.doctors == [did] && d.patients == [pid]
    ensures Symmetric(map[pid := p], map[did := d])
    ensures !Symmetric(map[pid := p.(doctors := RemoveFirst(p.doctors, did))], map[did := d])
  {
    var after := map[pid := p.(doctors := RemoveFirst(p.doctors, did))];
    assert RemoveFirst(p.doctors, did) == [];
    assert did in map[did := d] && pid in map[did := d][did].patients;
    assert did !in after[pid].doctors;
  }

  // ---------------------------------------------------------------------
  // Saving into tables with a unique email column
  // ---------------------------------------------------------------------

  /** Some stored patient other than id already holds the email. */
  predicate PatientEmailTaken(patients: map<Id, Patient>, email: string, id: Id)
  {
    exists q :: q in patients && q != id && patients[q].person.email == email
  }

  /** The login record under the email belongs to a different id. */
  predicate UserEmailTaken(users: map<string, User>, email: string, id: Id)
  {
    email in users && users[email].id != id
  }

  /**
   * usersRepository.save of a user whose id is set: the record with that id,
   * under whatever email it was stored, is replaced by u, stored under u's email.
   */
  function PutUser(users: map<string, User>, u: User): (r: map<string, User>)
    ensures u.email in r && r[u.email] == u
    ensures forall e :: e in r && e != u.email ==> e in users && r[e] == users[e] && r[e].id != u.id
    ensures forall e :: e in users && e != u.email && users[e].id != u.id ==> e in r
  {
    (map e | e in users && users[e].id != u.id :: users[e])[u.email := u]
  }

  /** Saving a login record whose id is stored under another email moves it: no second record with that id remains. */
  lemma SaveMovesRecordWithSameId(stored: User, u: User)
    requires stored.id == u.id && stored.email != u.email
    ensures PutUser(map[stored.email := stored], u) == map[u.email := u]
  {
    assert (map e | e in map[stored.email := stored] && map[stored.email := stored][e].id != u.id :: map[stored.email := stored][e]) == map[];
  }

  /**
   * The accounts are consistent with the store's keys: patient emails are
   * distinct, every login record is filed under its own email, and no two
   * login records share an id.
   */
  ghost predicate AccountsUnique(patients: map<Id, Patient>, users: map<string, User>)
  {
    && (forall p, q :: p in patients && q in patients && p != q ==> patients[p].person.email != patients[q].person.email)
    && (forall e :: e in users ==> users[e].email == e)
    && (forall e, f :: e in users && f in users && e != f ==> users[e].id != users[f].id)
  }

  /** Saving a patient and its login record through the two unique columns keeps the accounts consistent. */
  lemma {:induction false} SaveKeepsAccountsUnique(patients: map<Id, Patient>, users: map<string, User>, patient: Patient, u: User)
    requires AccountsUnique(patients, users)
    requires u.id == patient.person.id && u.email == patient.person.email
    requires !PatientEmailTaken(patients, patient.person.email, patient.person.id)
    requires !UserEmailTaken(users, u.email, u.id)
    ensures AccountsUnique(patients[patient.person.id := patient], PutUser(users, u))
  {
    var ps := patients[patient.person.id := patient];
    var us := PutUser(users, u);
    forall p, q | p in ps && q in ps && p != q
      ensures ps[p].person.email != ps[q].person.email
    {
      if p == patient.person.id {
        assert !(q in patients && q != patient.person.id && patients[q].person.email == patient.person.email);
      } else if q == patient.person.id {
        assert !(p in patients && p != patient.person.id && patients[p].person.email == patient.person.email);
      }
    }
    forall e, f | e in us && f in us && e != f
      ensures us[e].id != us[f].id
    {
    }
  }

  // ---------------------------------------------------------------------
  // The service
  // ---------------------------------------------------------------------

  class PatientService {
    /** Patient table, by id. */
    var patients: map<Id, Patient>
    /** Doctor table, by id. */
    var doctors: map<Id, Doctor>
    /** User table, looked up by email (the column is unique). */
    var users: map<string, User>
    /** The role names the role table holds. */
    var roleNames: set<string>

    constructor (patients0: map<Id, Patient>, doctors0: map<Id, Doctor>, users0: map<string, User>, roleNames0: set<string>)
      ensures patients == patients0 && doctors == doctors0 && users == users0 && roleNames == roleNames0
    {
      patients, doctors, users, roleNames := patients0, doctors0, users0, roleNames0;
    }

    /** Link symmetry of the two tables. */
    ghost predicate LinksSymmetric()
      reads this
    {
      Symmetric(patients, doctors)
    }

    /** No doctor holds two appointments at the same date. */
    ghost predicate NoDoubleBooking()
      reads this
    {
      forall d, i, j :: d in doctors && 0 <= i < j < |doctors[d].appointments| ==>
        doctors[d].appointments[i].date != doctors[d].appointments[j].date
    }

    /** The accounts agree with the store's unique keys. */
    ghost predicate UniqueAccounts()
      reads this
    {
      AccountsUnique(patients, users)
    }

    /** roleRepository.findByRole: the role, or null when the table has no such role. */
    function FindRole(name: string): (r: RoleRef)
      reads this
      ensures r.Role? <==> name in roleNames
      ensures r.Role? ==> r.name == name
    {
      if name in roleNames then Role(name) else MissingRole
    }

    /** addDoctorToPatient: append the doctor to the patient's list and the patient to the doctor's, no deduplication. */
    method AddDoctorToPatient(patientId: Id, doctorId: Id) returns (r: Result<seq<Id>>)
      modifies this
      ensures patientId !in old(patients) ==> r == Err(PatientNotFound)
      ensures patientId in old(patients) && doctorId !in old(doctors) ==> r == Err(DoctorNotFound)
      ensures r.Err? ==> patients == old(patients) && doctors == old(doctors)
      ensures r.Ok? <==> patientId in old(patients) && doctorId in old(doctors)
      ensures r.Ok? ==>
        && r.value == old(patients)[patientId].doctors + [doctorId]
        && patients == old(patients)[patientId := old(patients)[patientId].(doctors := r.value)]
        && doctors == old(doctors)[doctorId := old(doctors)[doctorId].(patients := old(doctors)[doctorId].patients + [patientId])]
      ensures users == old(users) && roleNames == old(roleNames)
      ensures old(LinksSymmetric()) ==> LinksSymmetric()
      ensures old(NoDoubleBooking()) ==> NoDoubleBooking()
      ensures old(UniqueAccounts()) ==> UniqueAccounts()
    {
      if patientId !in patients {
        return Err(PatientNotFound);
      }
      if doctorId !in doctors {
        return Err(DoctorNotFound);
      }
      var patient := patients[patientId];
      var doctor := doctors[doctorId];
      var linked := patient.doctors + [doctorId];
      patients := patients[patientId := patient.(doctors := linked)];
      doctors := doctors[doctorId := doctor.(patients := doctor.patients + [patientId])];
      r := Ok(linked);
    }

    /**
     * The shared body of addAppointmentToPatient: look up both parties, scan
     * the doctor's appointments for the date, apply the date verdict, and on
     * acceptance append one appointment to both lists.
     */
    method Schedule(patientId: Id, doctorId: Id, date: Time, dateAccepted: bool) returns (r: Result<seq<Appointment>>)
      modifies this
      ensures patientId !in old(patients) ==> r == Err(PatientNotFound)
      ensures patientId in old(patients) && doctorId !in old(doctors) ==> r == Err(DoctorNotFound)
      ensures patientId in old(patients) && doctorId in old(doctors) ==>
        r == (if Booked(old(doctors)[doctorId].appointments, date) then Err(AppointmentConflict)
              else if !dateAccepted then Err(DatePassed)
              else Ok(old(patients)[patientId].appointments + [Appointment(patientId, doctorId, date)]))
      ensures r.Err? ==> patients == old(patients) && doctors == old(doctors)
      ensures r.Ok? ==>
        && patients == old(patients)[patientId := old(patients)[patientId].(appointments := r.value)]
        && doctors == old(doctors)[doctorId := old(doctors)[doctorId].(appointments :=
             old(doctors)[doctorId].appointments + [Appointment(patientId, doctorId, date)])]
      ensures users == old(users) && roleNames == old(roleNames)
      ensures old(LinksSymmetric()) ==> LinksSymmetric()
      ensures old(NoDoubleBooking()) ==> NoDoubleBooking()
      ensures old(UniqueAccounts()) ==> UniqueAccounts()
    {
      if patientId !in patients {
        return Err(PatientNotFound);
      }
      if doctorId !in doctors {
        return Err(DoctorNotFound);
      }
      var patient := patients[patientId];
      var doctor := doctors[doctorId];
      var clash := HasAppointmentOn(doctor.appointments, date);
      if clash {
        return Err(AppointmentConflict);
      }
      if !dateAccepted {
        return Err(DatePassed);
      }
      var appointment := Appointment(patientId, doctorId, date);
      var booked := patient.appointments + [appointment];
      patients := patients[patientId := patient.(appointments := booked)];
      doctors := doctors[doctorId := doctor.(appointments := doctor.appointments + [appointment])];
      r := Ok(booked);
    }

    /** addAppointmentToPatient as written: accepts only a free date that is not after now. */
    method AddAppointmentToPatient(patientId: Id, doctorId: Id, date: Time, now: Time) returns (r: Result<seq<Appointment>>)
      modifies this
      ensures patientId !in old(patients) ==> r == Err(PatientNotFound)
      ensures patientId in old(patients) && doctorId !in old(doctors) ==> r == Err(DoctorNotFound)
      ensures patientId in old(patients) && doctorId in old(doctors) ==>
        r == match ScheduleCheck(old(doctors)[doctorId].appointments, date, now)
             case Some(e) => Err(e)
             case None => Ok(old(patients)[patientId].appointments + [Appointment(patientId, doctorId, date)])
      ensures r.Err? ==> patients == old(patients) && doctors == old(doctors)
      ensures r.Ok? ==>
        && patients == old(patients)[patientId := old(patients)[patientId].(appointments := r.value)]
        && doctors == old(doctors)[doctorId := old(doctors)[doctorId].(appointments :=
             old(doctors)[doctorId].appointments + [Appointment(patientId, doctorId, date)])]
      ensures users == old(users) && roleNames == old(roleNames)
      ensures old(LinksSymmetric()) ==> LinksSymmetric()
      ensures old(NoDoubleBooking()) ==> NoDoubleBooking()
      ensures old(UniqueAccounts()) ==> UniqueAccounts()
    {
      r := Schedule(patientId, doctorId, date, !(date > now));
    }

    /** The corrected addAppointmentToPatient: accepts only a free date strictly after now. */
    method AddAppointmentToPatientIntended(patientId: Id, doctorId: Id, date: Time, now: Time) returns (r: Result<seq<Appointment>>)
      modifies this
      ensures patientId !in old(patients) ==> r == Err(PatientNotFound)
      ensures patientId in old(patients) && doctorId !in old(doctors) ==> r == Err(DoctorNotFound)
      ensures patientId in old(patients) && doctorId in old(doctors) ==>
        r == match ScheduleCheckIntended(old(doctors)[doctorId].appointments, date, now)
             case Some(e) => Err(e)
             case None => Ok(old(patients)[patientId].appointments + [Appointment(patientId, doctorId, date)])
      ensures r.Err? ==> patients == old(patients) && doctors == old(doctors)
      ensures r.Ok? ==>
        && patients == old(patients)[patientId := old(patients)[patientId].(appointments := r.value)]
        && doctors == old(doctors)[doctorId := old(doctors)[doctorId].(appointments :=
             old(doctors)[doctorId].appointments + [Appointment(patientId, doctorId, date)])]
      ensures users == old(users) && roleNames == old(roleNames)
      ensures old(LinksSymmetric()) ==> LinksSymmetric()
      ensures old(NoDoubleBooking()) ==> NoDoubleBooking()
      ensures old(UniqueAccounts()) ==> UniqueAccounts()
    {
      r := Schedule(patientId, doctorId, date, date > now);
    }

    /** createAppointment: append the given appointment to the patient's list only; the doctor's side is untouched. */
    method CreateAppointment(patientId: Id, appointment: Appointment) returns (r: Result<Appointment>)
      modifies this
      ensures r.Ok? <==> patientId in old(patients)
      ensures r.Err? ==> r.error == PatientNotFound && patients == old(patients)
      ensures r.Ok? ==>
        && r.value == appointment
        && patients == old(patients)[patientId := old(patients)[patientId].(appointments :=
             old(patients)[patientId].appointments + [appointment])]
      ensures doctors == old(doctors) && users == old(users) && roleNames == old(roleNames)
      ensures old(LinksSymmetric()) ==> LinksSymmetric()
      ensures old(NoDoubleBooking()) ==> NoDoubleBooking()
      ensures old(UniqueAccounts()) ==> UniqueAccounts()
    {
      if patientId !in patients {
        return Err(PatientNotFound);
      }
      var patient := patients[patientId];
      patients := patients[patientId := patient.(appointments := patient.appointments + [appointment])];
      r := Ok(appointment);
    }

    /** addInquiryToPatient: a new unanswered inquiry, appended to both lists only when the doctor id resolves. */
    method AddInquiryToPatient(patientId: Id, doctorId: Id, symptoms: string) returns (r: Result<seq<Inquiry>>)
      modifies this
      ensures patientId !in old(patients) ==> r == Err(PatientNotFound)
      ensures patientId in old(patients) && doctorId !in old(doctors) ==> r == Err(DoctorNotFound)
      ensures r.Err? ==> patients == old(patients) && doctors == old(doctors)
      ensures r.Ok? <==> patientId in old(patients) && doctorId in old(doctors)
      ensures r.Ok? ==>
        && r.value == old(patients)[patientId].inquiries + [Inquiry(doctorId, patientId, symptoms, false)]
        && patients == old(patients)[patientId := old(patients)[patientId].(inquiries := r.value)]
        && doctors == old(doctors)[doctorId := old(doctors)[doctorId].(inquiries :=
             old(doctors)[doctorId].inquiries + [Inquiry(doctorId, patientId, symptoms, false)])]
      ensures users == old(users) && roleNames == old(roleNames)
      ensures old(LinksSymmetric()) ==> LinksSymmetric()
      ensures old(NoDoubleBooking()) ==> NoDoubleBooking()
      ensures old(UniqueAccounts()) ==> UniqueAccounts()
    {
      if patientId !in patients {
        return Err(PatientNotFound);
      }
      var patient := patients[patientId];
      var inquiry := Inquiry(doctorId, patientId, symptoms, false);
      if doctorId !in doctors {
        return Err(DoctorNotFound);
      }
      var doctor := doctors[doctorId];
      doctors := doctors[doctorId := doctor.(inquiries := doctor.inquiries + [inquiry])];
      var filed := patient.inquiries + [inquiry];
      patients := patients[patientId := patient.(inquiries := filed)];
      r := Ok(filed);
    }

    /** deletePatientFromDoctors: visit every doctor and take the patient out of its patient list. */
    method DeletePatientFromDoctors(patientId: Id)
      modifies this
      ensures doctors == DetachPatient(old(doctors), patientId)
      ensures patients == old(patients) && users == old(users) && roleNames == old(roleNames)
      ensures old(NoDoubleBooking()) ==> NoDoubleBooking()
      ensures old(UniqueAccounts()) ==> UniqueAccounts()
    {
      var pending: set<Id> := doctors.Keys;
      while pending != {}
        invariant doctors.Keys == old(doctors).Keys
        invariant pending <= doctors.Keys
        invariant forall d :: d in doctors ==>
          doctors[d] == if d in pending then old(doctors)[d] else DetachPatient(old(doctors), patientId)[d]
        invariant patients == old(patients) && users == old(users) && roleNames == old(roleNames)
        decreases pending
      {
        NonEmptyHasMember(pending);
        var d :| d in pending;
        var doctor := doctors[d];
        doctors := doctors[d := doctor.(patients := RemoveAll(doctor.patients, patientId))];
        pending := pending - {d};
      }
      forall d | d in doctors
        ensures doctors[d] == DetachPatient(old(doctors), patientId)[d]
      {
      }
    }

    /**
     * deletePatient: unknown id deletes nothing; otherwise detach from every
     * doctor, then delete the user, then the patient. A missing login record
     * makes Optional.get() throw a runtime exception, which rolls the whole
     * transaction back, the doctor sweep included.
     */
    method DeletePatient(id: Id) returns (r: Result<()>)
      modifies this
      ensures id !in old(patients) ==> r == Err(PatientNotFound)
      ensures id in old(patients) && old(patients)[id].person.email !in old(users) ==> r == Err(UserNotFound)
      ensures r.Err? ==> patients == old(patients) && users == old(users) && doctors == old(doctors)
      ensures r.Ok? <==> id in old(patients) && old(patients)[id].person.email in old(users)
      ensures r.Ok? ==>
        && patients == old(patients) - {id}
        && users == old(users) - {old(patients)[id].person.email}
        && doctors == DetachPatient(old(doctors), id)
      ensures r.Ok? ==> forall d :: d in doctors ==> id !in doctors[d].patients
      ensures roleNames == old(roleNames)
      ensures old(LinksSymmetric()) ==> LinksSymmetric()
      ensures old(NoDoubleBooking()) ==> NoDoubleBooking()
      ensures old(UniqueAccounts()) ==> UniqueAccounts()
    {
      if id !in patients {
        return Err(PatientNotFound);
      }
      var patient := patients[id];
      var before := doctors;
      DeletePatientFromDoctors(id);
      if patient.person.email !in users {
        doctors := before;
        return Err(UserNotFound);
      }
      if Symmetric(patients, before) {
        DeleteKeepsSymmetric(patients, before, id);
      }
      users := users - {patient.person.email};
      patients := patients - {id};
      r := Ok(());
      assert doctors == DetachPatient(before, id);
    }

    /** deleteDoctorFromPatients: drop the first matching doctor from the patient's list; an unknown patient is a no-op. */
    method DeleteDoctorFromPatients(doctorId: Id, patientId: Id)
      modifies this
      ensures patientId in old(patients) ==>
        patients == old(patients)[patientId := old(patients)[patientId].(doctors :=
          RemoveFirst(old(patients)[patientId].doctors, doctorId))]
      ensures patientId !in old(patients) ==> patients == old(patients)
      ensures doctors == old(doctors) && users == old(users) && roleNames == old(roleNames)
      ensures old(NoDoubleBooking()) ==> NoDoubleBooking()
      ensures old(UniqueAccounts()) ==> UniqueAccounts()
    {
      if patientId in patients {
        var patient := patients[patientId];
        var remaining := RemoveFirstOccurrence(patient.doctors, doctorId);
        patients := patients[patientId := patient.(doctors := remaining)];
      }
    }

    /** addRoleToPatient: append the named role (or null when the table lacks it) to the patient's user record. */
    method AddRoleToPatient(id: Id, roleName: string) returns (r: Result<User>)
      modifies this
      ensures id !in old(patients) ==> r == Err(PatientNotFound)
      ensures id in old(patients) && old(patients)[id].person.email !in old(users) ==> r == Err(UserNotFound)
      ensures r.Err? ==> users == old(users)
      ensures r.Ok? <==> id in old(patients) && old(patients)[id].person.email in old(users)
      ensures r.Ok? ==>
        && r.value == old(users)[old(patients)[id].person.email].(roles :=
             old(users)[old(patients)[id].person.email].roles + [FindRole(roleName)])
        && users == old(users)[old(patients)[id].person.email := r.value]
      ensures patients == old(patients) && doctors == old(doctors) && roleNames == old(roleNames)
      ensures old(LinksSymmetric()) ==> LinksSymmetric()
      ensures old(NoDoubleBooking()) ==> NoDoubleBooking()
      ensures old(UniqueAccounts()) ==> UniqueAccounts()
    {
      var role := FindRole(roleName);
      if id !in patients {
        return Err(PatientNotFound);
      }
      var email := patients[id].person.email;
      if email !in users {
        return Err(UserNotFound);
      }
      var user := users[email];
      var granted := user.(roles := user.roles + [role]);
      users := users[email := granted];
      r := Ok(granted);
    }

    /** updatePatient: refuse missing data or a missing email, refuse an unknown id, else overwrite the six detail fields. */
    method UpdatePatient(id: Id, dto: Option<PatientDto>) returns (r: Result<Patient>)
      modifies this
      ensures (dto.None? || dto.value.email.None?) ==> r == Err(InvalidPatientData)
      ensures dto.Some? && dto.value.email.Some? && id !in old(patients) ==> r == Err(PatientNotFound)
      ensures r.Err? ==> patients == old(patients)
      ensures r.Ok? <==> dto.Some? && dto.value.email.Some? && id in old(patients)
      ensures r.Ok? ==> r.value == UpdatePatientDetails(old(patients)[id], dto.value) && patients == old(patients)[id := r.value]
      ensures doctors == old(doctors) && users == old(users) && roleNames == old(roleNames)
      ensures old(LinksSymmetric()) ==> LinksSymmetric()
      ensures old(NoDoubleBooking()) ==> NoDoubleBooking()
      ensures old(UniqueAccounts()) ==> UniqueAccounts()
    {
      if dto.None? || dto.value.email.None? {
        return Err(InvalidPatientData);
      }
      if id !in patients {
        return Err(PatientNotFound);
      }
      var updated := UpdatePatientDetails(patients[id], dto.value);
      patients := patients[id := updated];
      r := Ok(updated);
    }

    /**
     * The two saves of createPatient: the patient record by its id, then a
     * login record with the same id and the PATIENT role. An email that
     * another patient or another login record holds is refused, and the
     * transaction leaves both tables as they were.
     */
    method SavePatientAndUser(patient: Patient) returns (r: Result<()>)
      modifies this
      ensures r.Err? <==>
        PatientEmailTaken(old(patients), patient.person.email, patient.person.id) ||
        UserEmailTaken(old(users), patient.person.email, patient.person.id)
      ensures r.Err? ==> r.error == EmailTaken && patients == old(patients) && users == old(users)
      ensures r.Ok? ==> patients == old(patients)[patient.person.id := patient]
      ensures r.Ok? ==> users == PutUser(old(users),
        User(patient.person.id, patient.person.email, patient.person.password, [FindRole("PATIENT")]))
      ensures doctors == old(doctors) && roleNames == old(roleNames)
      ensures old(NoDoubleBooking()) ==> NoDoubleBooking()
      ensures old(UniqueAccounts()) ==> UniqueAccounts()
    {
      var user := User(patient.person.id, patient.person.email, patient.person.password, [FindRole("PATIENT")]);
      if PatientEmailTaken(patients, patient.person.email, patient.person.id) || UserEmailTaken(users, user.email, user.id) {
        return Err(EmailTaken);
      }
      if AccountsUnique(patients, users) {
        SaveKeepsAccountsUnique(patients, users, patient, user);
      }
      patients := patients[patient.person.id := patient];
      users := PutUser(users, user);
      r := Ok(());
    }

    /**
     * createPatient as written: the mapping from client data first reads the
     * stored patient with the same id, so only an id that is already stored
     * gets through; a missing email is then refused by the store, and so is
     * an email that another account holds.
     */
    method CreatePatient(dto: PatientDto) returns (r: Result<PatientDto>)
      modifies this
      ensures dto.id !in old(patients) ==> r == Err(PatientNotFound)
      ensures dto.id in old(patients) && dto.email.None? ==> r == Err(InvalidPatientData)
      ensures dto.id in old(patients) && dto.email.Some? ==>
        (r.Err? <==> PatientEmailTaken(old(patients), dto.email.value, dto.id) || UserEmailTaken(old(users), dto.email.value, dto.id))
      ensures r.Err? ==> patients == old(patients) && users == old(users)
      ensures r.Ok? ==> dto.id in old(patients) && dto.email.Some?
      ensures r.Ok? ==>
        && r.value == dto
        && patients == old(patients)[dto.id := MapDtoToPatient(dto, dto.email.value, old(patients)).value]
      ensures r.Ok? ==> users == PutUser(old(users), User(dto.id, dto.email.value, dto.password, [FindRole("PATIENT")]))
      ensures doctors == old(doctors) && roleNames == old(roleNames)
      ensures old(NoDoubleBooking()) ==> NoDoubleBooking()
      ensures old(UniqueAccounts()) ==> UniqueAccounts()
    {
      if dto.id !in patients {
        return Err(PatientNotFound);
      }
      if dto.email.None? {
        return Err(InvalidPatientData);
      }
      var mapped := MapDtoToPatient(dto, dto.email.value, patients);
      var saved := SavePatientAndUser(mapped.value);
      if saved.Err? {
        return Err(saved.error);
      }
      r := Ok(dto);
    }

    /** The corrected createPatient: a new id is stored with empty appointment and inquiry lists. */
    method CreatePatientIntended(dto: PatientDto) returns (r: Result<PatientDto>)
      modifies this
      ensures dto.email.None? ==> r == Err(InvalidPatientData)
      ensures dto.email.Some? ==>
        (r.Err? <==> PatientEmailTaken(old(patients), dto.email.value, dto.id) || UserEmailTaken(old(users), dto.email.value, dto.id))
      ensures r.Err? ==> patients == old(patients) && users == old(users)
      ensures r.Ok? ==>
        && r.value == dto && dto.email.Some? && dto.id in patients
        && patients == old(patients)[dto.id := MapDtoToPatientIntended(dto, dto.email.value, old(patients))]
      ensures r.Ok? ==> users == PutUser(old(users), User(dto.id, dto.email.value, dto.password, [FindRole("PATIENT")]))
      ensures doctors == old(doctors) && roleNames == old(roleNames)
      ensures old(NoDoubleBooking()) ==> NoDoubleBooking()
      ensures old(UniqueAccounts()) ==> UniqueAccounts()
    {
      if dto.email.None? {
        return Err(InvalidPatientData);
      }
      var mapped := MapDtoToPatientIntended(dto, dto.email.value, patients);
      var saved := SavePatientAndUser(mapped);
      if saved.Err? {
        return Err(saved.error);
      }
      r := Ok(dto);
    }
  }
}
