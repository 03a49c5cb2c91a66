/**
 * The records of the care directory: people, their links, appointments,
 * inquiries and login identities. Every record is a value; the service that
 * owns them (module Relationships) keeps them in maps keyed by id or email.
 */
module Entities {
  import opened Wrappers

  /** Database ids (java.lang.Long; unbounded here, nothing depends on the width). */
  type Id = int

  /** An abstract, totally ordered timestamp standing for java.util.Date. */
  type Time = int

  /** The fields every patient and doctor shares. */
  datatype Person = Person(
    id: Id,
    firstName: string,
    lastName: string,
    email: string,
    password: string,
    city: string,
    country: string,
    street: string,
    imageData: Option<seq<bv8>>,
    birthDay: string)

  /** A meeting of one patient with one doctor at one date. */
  datatype Appointment = Appointment(patient: Id, doctor: Id, date: Time)

  /** A question a patient puts to a doctor. */
  datatype Inquiry = Inquiry(doctor: Id, patient: Id, symptoms: string, hasAnswered: bool)

  /** A patient with the ordered lists that link it to doctors, appointments and inquiries. */
  datatype Patient = Patient(
    person: Person,
    doctors: seq<Id>,
    appointments: seq<Appointment>,
    inquiries: seq<Inquiry>)

  /** A doctor with the ordered lists that link it to patients, appointments and inquiries. */
  datatype Doctor = Doctor(
    person: Person,
    specialization: string,
    patients: seq<Id>,
    appointments: seq<Appointment>,
    inquiries: seq<Inquiry>)

  /** An entry of a user's role list: a role found in the role table, or the null the lookup returns otherwise. */
  datatype RoleRef = MissingRole | Role(name: string)

  /** A login identity; it shares its email with the patient or doctor it belongs to. */
  datatype User = User(id: Id, email: string, password: string, roles: seq<RoleRef>)

  /** The patient data a client sends; the email may be absent (null). */
  datatype PatientDto = PatientDto(
    id: Id,
    firstName: string,
    lastName: string,
    email: Option<string>,
    password: string,
    city: string,
    country: string,
    street: string,
    birthDay: string,
    imageData: Option<seq<bv8>>,
    doctors: seq<Id>)
}
