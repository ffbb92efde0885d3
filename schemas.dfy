/**
 * The record shapes of the document store: the appointment schema with its
 * status enumeration, default, trimming and required paths, and the
 * hospital, doctor and patient records the controllers read and write.
 */
module Schemas {
  import opened Common
  import opened Text

  /** Document ids (ObjectIds), compared through their string form. */
  type Id = string

  /** Calendar dates and timestamps: opaque values compared for equality. */
  type Date = string

  /** The `status` enumeration of an appointment. */
  datatype Status = Pending | Approved | Rejected

  /** The stored label of a status. */
  function StatusLabel(s: Status): string {
    match s
    case Pending => "pending"
    case Approved => "approved"
    case Rejected => "rejected"
  }

  /** Casting a label to the enumeration; anything outside it is a validation error. */
  function ParseStatus(name: string): (r: Option<Status>)
    ensures r.Some? <==> name == "pending" || name == "approved" || name == "rejected"
    ensures r.Some? ==> StatusLabel(r.value) == name
  {
    if name == "pending" then Some(Pending)
    else if name == "approved" then Some(Approved)
    else if name == "rejected" then Some(Rejected)
    else None
  }

  /** Every status reads back as itself, and distinct statuses have distinct labels. */
  lemma StatusLabelRoundTrip(s: Status, t: Status)
    ensures ParseStatus(StatusLabel(s)) == Some(s)
    ensures StatusLabel(s) == StatusLabel(t) ==> s == t
  {
  }

  /**
   * A stored appointment. `patient` is written and queried by the controller
   * although the schema declares no such path.
   */
  datatype Appointment = Appointment(
    id: Id,
    patient: Option<Id>,
    patientName: string,
    problem: string,
    specialization: string,
    hospital: Id,
    date: Date,
    time: string,
    status: Status,
    createdAt: Date)

  /** The fields handed to the appointment constructor; `status` may be left unspecified. */
  datatype AppointmentInput = AppointmentInput(
    patient: Option<Id>,
    patientName: string,
    problem: string,
    specialization: string,
    hospital: Id,
    date: Date,
    time: string,
    status: Option<string>)

  /**
   * What every stored appointment satisfies: the name is trimmed and the
   * required string paths are non-empty (an empty string fails `required`).
   */
  predicate Conforms(a: Appointment) {
    IsTrimmed(a.patientName) && a.patientName != "" &&
    a.problem != "" && a.specialization != "" && a.hospital != "" && a.date != "" && a.time != ""
  }

  /** The input passes validation once the name is trimmed and the status cast. */
  predicate InputValid(input: AppointmentInput) {
    Trim(input.patientName) != "" && input.problem != "" &&
    input.specialization != "" && input.hospital != "" && input.date != "" && input.time != "" &&
    (input.status.None? || ParseStatus(input.status.value).Some?)
  }

  /**
   * Building and validating a new appointment document: the name is trimmed,
   * an unspecified status defaults to pending, `createdAt` defaults to the
   * current time `now`, and the document is refused (None) when a required
   * path is empty or the status is outside the enumeration.
   */
  function NewAppointment(input: AppointmentInput, id: Id, now: Date): (r: Option<Appointment>)
    ensures r.Some? <==> InputValid(input)
    ensures r.Some? ==> Conforms(r.value)
    ensures r.Some? && input.status.None? ==> r.value.status == Pending
    ensures r.Some? && input.status.Some? ==> StatusLabel(r.value.status) == input.status.value
    ensures r.Some? ==>
              r.value.id == id && r.value.patient == input.patient &&
              r.value.patientName == Trim(input.patientName) &&
              r.value.problem == input.problem &&
              r.value.specialization == input.specialization &&
              r.value.hospital == input.hospital && r.value.date == input.date &&
              r.value.time == input.time && r.value.createdAt == now
  {
    if !InputValid(input) then None
    else
      var status := if input.status.None? then Pending else ParseStatus(input.status.value).value;
      Some(Appointment(id, input.patient, Trim(input.patientName), input.problem,
                       input.specialization, input.hospital, input.date, input.time,
                       status, now))
  }

  /** One entry of a hospital's doctor roster. */
  datatype RosterEntry = RosterEntry(name: string, specialization: string)

  /** A hospital account; `password` holds the stored hash. */
  datatype Hospital = Hospital(
    id: Id,
    hospitalName: string,
    email: string,
    password: string,
    specializations: seq<string>,
    doctors: seq<RosterEntry>)

  /** A doctor account, tied to one hospital. */
  datatype Doctor = Doctor(
    id: Id,
    name: string,
    email: string,
    password: string,
    specialization: string,
    hospital: Id)

  /** A patient account. */
  datatype Patient = Patient(
    id: Id,
    fullName: string,
    contactNumber: string,
    email: string,
    password: string)

  /** No two hospitals share an id, as the store's primary key guarantees. */
  predicate UniqueHospitalIds(hospitals: seq<Hospital>) {
    forall i, j :: 0 <= i < j < |hospitals| ==> hospitals[i].id != hospitals[j].id
  }

  /** `Hospital.findById`. */
  function FindHospital(hospitals: seq<Hospital>, id: Id): (r: Option<Hospital>)
    ensures r.Some? ==> r.value in hospitals && r.value.id == id
    ensures r.None? <==> forall h :: h in hospitals ==> h.id != id
  {
    match FindFirst(hospitals, (h: Hospital) => h.id == id)
    case None => None
    case Some(i) => Some(hospitals[i])
  }
}
