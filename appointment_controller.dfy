/**
 * The appointment controller: the catalog queries patients browse, the
 * slot-availability check, booking, the hospital's approve/reject decision
 * and the patient's status lookup, over an in-memory appointment ledger and
 * hospital table.
 */
module AppointmentController {
  import opened Common
  import opened Text
  import opened Schemas

  // ---------------------------------------------------------------------
  // Catalog queries
  // ---------------------------------------------------------------------

  /** A hospital as it is listed to patients: its id and name. */
  datatype HospitalSummary = HospitalSummary(id: Id, name: string)

  function Summarize(h: Hospital): HospitalSummary {
    HospitalSummary(h.id, h.hospitalName)
  }

  /** Every hospital's specializations, concatenated in table order. */
  function FlatSpecializations(hospitals: seq<Hospital>): (r: seq<string>)
    ensures forall x :: x in r <==> exists h :: h in hospitals && x in h.specializations
  {
    if hospitals == [] then []
    else hospitals[0].specializations + FlatSpecializations(hospitals[1..])
  }

  /**
   * getAllSpecializations: each specialization offered anywhere, once.
   */
  function AllSpecializations(hospitals: seq<Hospital>): (r: seq<string>)
    ensures NoDups(r)
    ensures forall x :: x in r <==> exists h :: h in hospitals && x in h.specializations
  {
    var flat := FlatSpecializations(hospitals);
    var r := Distinct(flat);
    assert forall x :: x in r <==> x in flat by {
      forall x ensures x in r <==> x in flat {
        if x in r { var i :| 0 <= i < |r| && r[i] == x; }
        if x in flat { var i :| 0 <= i < |flat| && flat[i] == x; }
      }
    }
    r
  }

  /** getHospitalsBySpecialization: the hospitals whose list contains the label. */
  function HospitalsBySpecialization(hospitals: seq<Hospital>, specialization: string): (r: seq<HospitalSummary>)
    ensures |r| <= |hospitals|
    ensures forall s :: s in r <==>
              exists h :: h in hospitals && specialization in h.specializations && s == Summarize(h)
    ensures UniqueHospitalIds(hospitals) ==> NoDups(r)
  {
    if hospitals == [] then []
    else
      var rest := HospitalsBySpecialization(hospitals[1..], specialization);
      assert UniqueHospitalIds(hospitals) ==>
               UniqueHospitalIds(hospitals[1..]) && (forall s :: s in rest ==> s.id != hospitals[0].id) &&
               NoDups([Summarize(hospitals[0])] + rest);
      if specialization in hospitals[0].specializations then [Summarize(hospitals[0])] + rest else rest
  }

  /** getAllHospitals: one summary per hospital, in table order. */
  function AllHospitals(hospitals: seq<Hospital>): (r: seq<HospitalSummary>)
    ensures |r| == |hospitals|
    ensures forall i :: 0 <= i < |r| ==> r[i].id == hospitals[i].id && r[i].name == hospitals[i].hospitalName
  {
    seq(|hospitals|, i requires 0 <= i < |hospitals| => Summarize(hospitals[i]))
  }

  /** getSpecializationsByHospital: 404 for an unknown id, else that hospital's list as stored. */
  function SpecializationsByHospital(hospitals: seq<Hospital>, hospitalId: Id): (r: Response<seq<string>>)
    ensures r.Err? <==> forall h :: h in hospitals ==> h.id != hospitalId
    ensures r.Err? ==> r == Err(404, "Hospital not found")
    ensures r.Ok? ==>
              r.code == 200 &&
              exists h :: h in hospitals && h.id == hospitalId && r.body == h.specializations
  {
    match FindHospital(hospitals, hospitalId)
    case None => Err(404, "Hospital not found")
    case Some(h) => Ok(200, h.specializations)
  }

  // ---------------------------------------------------------------------
  // Slot availability
  // ---------------------------------------------------------------------

  /** The nine bookable times of a day, in order. */
  const TimeSlots: seq<string> :=
    ["09:00 AM", "10:00 AM", "11:00 AM", "12:00 PM",
     "01:00 PM", "02:00 PM", "03:00 PM", "04:00 PM", "05:00 PM"]

  /** A pending or approved appointment holds its slot; a rejected one does not. */
  predicate Active(a: Appointment) {
    a.status == Pending || a.status == Approved
  }

  /** `a` holds a slot at this hospital on this date. */
  predicate Holds(a: Appointment, hospital: Id, date: Date) {
    a.hospital == hospital && a.date == date && Active(a)
  }

  /** Some appointment holds `time` at this hospital on this date. */
  predicate SlotHeld(appts: seq<Appointment>, hospital: Id, date: Date, time: string) {
    exists a :: a in appts && Holds(a, hospital, date) && a.time == time
  }

  /** `r` is `s` with some elements left out, the rest kept in order. */
  ghost predicate Subseq<T>(r: seq<T>, s: seq<T>) {
    if r == [] then true
    else if s == [] then false
    else if r[0] == s[0] then Subseq(r[1..], s[1..])
    else Subseq(r, s[1..])
  }

  /** The times of the appointments holding a slot here on this date. */
  function BookedTimes(appts: seq<Appointment>, hospital: Id, date: Date): (r: seq<string>)
    ensures forall t :: t in r <==> SlotHeld(appts, hospital, date, t)
  {
    if appts == [] then []
    else
      var rest := BookedTimes(appts[1..], hospital, date);
      assert forall t :: SlotHeld(appts, hospital, date, t) <==>
               (Holds(appts[0], hospital, date) && appts[0].time == t) || SlotHeld(appts[1..], hospital, date, t) by {
        forall t ensures SlotHeld(appts, hospital, date, t) ==>
                    (Holds(appts[0], hospital, date) && appts[0].time == t) || SlotHeld(appts[1..], hospital, date, t) {
          if SlotHeld(appts, hospital, date, t) {
            var a :| a in appts && Holds(a, hospital, date) && a.time == t;
            if a != appts[0] { assert a in appts[1..]; }
          }
        }
      }
      if Holds(appts[0], hospital, date) then [appts[0].time] + rest else rest
  }

  /** `slots` minus every element of `booked`, in the order of `slots`. */
  function Without(slots: seq<string>, booked: seq<string>): (r: seq<string>)
    ensures |r| <= |slots|
    ensures forall t :: t in r <==> t in slots && t !in booked
    ensures Subseq(r, slots)
    ensures NoDups(slots) ==> NoDups(r)
  {
    if slots == [] then []
    else
      var rest := Without(slots[1..], booked);
      if slots[0] in booked then rest else [slots[0]] + rest
  }

  lemma TimeSlotsDistinct()
    ensures NoDups(TimeSlots)
  {
  }

  /**
   * checkAvailableTimeSlots: the nine times, in their fixed order, minus the
   * time of every pending or approved appointment at this hospital on this date.
   */
  function AvailableSlots(appts: seq<Appointment>, hospital: Id, date: Date): (r: seq<string>)
    ensures forall t :: t in r <==> t in TimeSlots && !SlotHeld(appts, hospital, date, t)
    ensures Subseq(r, TimeSlots)
    ensures NoDups(r) && |r| <= 9
  {
    TimeSlotsDistinct();
    Without(TimeSlots, BookedTimes(appts, hospital, date))
  }

  lemma {:induction false} SubseqElements<T>(r: seq<T>, s: seq<T>)
    requires Subseq(r, s)
    ensures forall x :: x in r ==> x in s
  {
    if r != [] && s != [] {
      if r[0] == s[0] {
        SubseqElements(r[1..], s[1..]);
        assert forall x :: x in r ==> x == r[0] || x in r[1..];
      } else {
        SubseqElements(r, s[1..]);
      }
    }
  }

  lemma {:induction false} SubseqReflexive<T>(s: seq<T>)
    ensures Subseq(s, s)
  {
    if s != [] { SubseqReflexive(s[1..]); }
  }

  /**
   * Within a duplicate-free sequence, an ordered selection is determined by
   * which elements it keeps.
   */
  lemma {:induction false} SubseqDetermined<T>(r1: seq<T>, r2: seq<T>, s: seq<T>)
    requires NoDups(s) && Subseq(r1, s) && Subseq(r2, s)
    requires forall x :: x in r1 <==> x in r2
    ensures r1 == r2
  {
    if s == [] {
      return;
    }
    var x := s[0];
    var tail := s[1..];
    assert NoDups(tail);
    assert x !in tail;
    if x in r1 {
      assert r1[0] == x by {
        if r1[0] != x { SubseqElements(r1, tail); }
      }
      assert r2[0] == x by {
        if r2[0] != x { SubseqElements(r2, tail); }
      }
      SubseqElements(r1[1..], tail);
      SubseqElements(r2[1..], tail);
      forall y ensures y in r1[1..] <==> y in r2[1..] {
        assert y in r1 <==> y == x || y in r1[1..];
        assert y in r2 <==> y == x || y in r2[1..];
      }
      SubseqDetermined(r1[1..], r2[1..], tail);
      assert r1 == [x] + r1[1..] && r2 == [x] + r2[1..];
    } else {
      assert r1 == [] || r1[0] != x;
      assert r2 == [] || r2[0] != x;
      SubseqDetermined(r1, r2, tail);
    }
  }

  /**
   * The available slots depend only on which times are held at that hospital
   * on that date: two ledgers that agree on that give the same answer.
   */
  lemma AvailabilityDeterminedByHeldTimes(a1: seq<Appointment>, a2: seq<Appointment>, hospital: Id, date: Date)
    requires forall t :: SlotHeld(a1, hospital, date, t) <==> SlotHeld(a2, hospital, date, t)
    ensures AvailableSlots(a1, hospital, date) == AvailableSlots(a2, hospital, date)
  {
    TimeSlotsDistinct();
    SubseqDetermined(AvailableSlots(a1, hospital, date), AvailableSlots(a2, hospital, date), TimeSlots);
  }

  /** With nothing held at that hospital on that date, all nine times are offered, in order. */
  lemma NoneHeldGivesAllSlots(appts: seq<Appointment>, hospital: Id, date: Date)
    requires forall a :: a in appts ==> !Holds(a, hospital, date)
    ensures AvailableSlots(appts, hospital, date) == TimeSlots
  {
    TimeSlotsDistinct();
    SubseqReflexive(TimeSlots);
    SubseqDetermined(AvailableSlots(appts, hospital, date), TimeSlots, TimeSlots);
  }

  /**
   * An appointment that is rejected, or is at another hospital, or on another
   * date, blocks nothing.
   */
  lemma NonHoldingAppointmentBlocksNothing(appts: seq<Appointment>, a: Appointment, hospital: Id, date: Date)
    requires !Holds(a, hospital, date)
    ensures AvailableSlots(appts + [a], hospital, date) == AvailableSlots(appts, hospital, date)
  {
    forall t ensures SlotHeld(appts + [a], hospital, date, t) <==> SlotHeld(appts, hospital, date, t) {
      if SlotHeld(appts + [a], hospital, date, t) {
        var b :| b in appts + [a] && Holds(b, hospital, date) && b.time == t;
        assert b in appts;
      }
    }
    AvailabilityDeterminedByHeldTimes(appts + [a], appts, hospital, date);
  }

  // ---------------------------------------------------------------------
  // The ledger
  // ---------------------------------------------------------------------

  /** No two records share an id. */
  predicate UniqueIds(appts: seq<Appointment>) {
    forall i, j :: 0 <= i < j < |appts| ==> appts[i].id != appts[j].id
  }

  /** No two pending or approved records share hospital, date and time. */
  predicate NoDoubleBooking(appts: seq<Appointment>) {
    forall i, j :: 0 <= i < j < |appts| && Active(appts[i]) && Active(appts[j]) ==>
      !(appts[i].hospital == appts[j].hospital && appts[i].date == appts[j].date &&
        appts[i].time == appts[j].time)
  }

  /** The body of a booking request. */
  datatype BookingRequest = BookingRequest(
    patientName: string,
    problem: string,
    specialization: string,
    hospitalId: Id,
    date: Date,
    time: string)

  /** The fields the booking handler passes to the appointment constructor. */
  function BookingInput(patientId: Option<Id>, req: BookingRequest): AppointmentInput {
    AppointmentInput(patientId, req.patientName, req.problem, req.specialization,
                     req.hospitalId, req.date, req.time, Some("pending"))
  }

  /** The position of the record with this id (`findById`). */
  function IndexOfAppointment(appts: seq<Appointment>, id: Id): (r: Option<nat>)
    ensures r.Some? ==> r.value < |appts| && appts[r.value].id == id
    ensures r.None? <==> forall a :: a in appts ==> a.id != id
  {
    FindFirst(appts, (a: Appointment) => a.id == id)
  }

  /**
   * Appending a record whose slot is not held keeps the ledger free of
   * double bookings.
   */
  lemma AppendFreeSlotKeepsNoDoubleBooking(appts: seq<Appointment>, a: Appointment)
    requires NoDoubleBooking(appts)
    requires !SlotHeld(appts, a.hospital, a.date, a.time)
    ensures NoDoubleBooking(appts + [a])
  {
    var s := appts + [a];
    forall i, j | 0 <= i < j < |s| && Active(s[i]) && Active(s[j])
      ensures !(s[i].hospital == s[j].hospital && s[i].date == s[j].date && s[i].time == s[j].time)
    {
      if j == |appts| {
        assert s[i] in appts;
      }
    }
  }

  /** Appending a conforming record under a fresh id keeps ids unique and every record conforming. */
  lemma AppendKeepsLedgerInvariant(appts: seq<Appointment>, a: Appointment)
    requires UniqueIds(appts) && forall b :: b in appts ==> Conforms(b)
    requires Conforms(a) && forall b :: b in appts ==> b.id != a.id
    ensures UniqueIds(appts + [a]) && forall b :: b in appts + [a] ==> Conforms(b)
  {
    var s := appts + [a];
    forall i, j | 0 <= i < j < |s| ensures s[i].id != s[j].id {
      if j == |appts| { assert s[i] in appts; }
    }
  }

  /** After a successful booking, its time is no longer offered for that hospital and date. */
  lemma BookedTimeNoLongerAvailable(appts: seq<Appointment>, a: Appointment)
    requires a.status == Pending
    ensures a.time !in AvailableSlots(appts + [a], a.hospital, a.date)
  {
    assert a in appts + [a];
  }

  /**
   * Setting a record to rejected, or deciding a record that already held its
   * slot, keeps the ledger free of double bookings.
   */
  lemma DecisionKeepsNoDoubleBooking(appts: seq<Appointment>, i: nat, s: Status)
    requires NoDoubleBooking(appts)
    requires i < |appts|
    requires s == Rejected || Active(appts[i])
    ensures NoDoubleBooking(appts[i := appts[i].(status := s)])
  {
  }

  /**
   * Re-deciding a rejected appointment as approved can create a double
   * booking: the slot it gave up may have been booked again meanwhile.
   */
  lemma ReapprovalCanDoubleBook()
    ensures exists appts: seq<Appointment> ::
              |appts| == 2 && NoDoubleBooking(appts) &&
              !NoDoubleBooking(appts[0 := appts[0].(status := Approved)])
  {
    var first := Appointment("a1", None, "Ann", "fever", "Cardiology", "h1", "2025-06-01", "10:00 AM", Rejected, "t0");
    var second := first.(id := "a2", patientName := "Bob", status := Pending);
    var appts := [first, second];
    var after := appts[0 := appts[0].(status := Approved)];
    assert NoDoubleBooking(appts);
    assert Active(after[0]) && Active(after[1]);
    assert after[0].hospital == after[1].hospital && after[0].date == after[1].date &&
           after[0].time == after[1].time;
    assert |appts| == 2 && NoDoubleBooking(appts) && !NoDoubleBooking(after);
  }

  /** A pending or approved record blocks its time for its hospital and date. */
  lemma ActiveRecordBlocksItsTime(appts: seq<Appointment>, i: nat)
    requires i < |appts| && Active(appts[i])
    ensures appts[i].time !in AvailableSlots(appts, appts[i].hospital, appts[i].date)
  {
    assert appts[i] in appts;
  }

  /**
   * Rejecting the only record that held a time frees that time again for its
   * hospital and date.
   */
  lemma RejectingSoleHolderReleasesSlot(appts: seq<Appointment>, i: nat)
    requires i < |appts| && appts[i].time in TimeSlots
    requires forall j :: 0 <= j < |appts| && j != i ==>
               !(Holds(appts[j], appts[i].hospital, appts[i].date) && appts[j].time == appts[i].time)
    ensures appts[i].time in
              AvailableSlots(appts[i := appts[i].(status := Rejected)], appts[i].hospital, appts[i].date)
  {
  }

  /**
   * The appointment ledger. Every stored record conforms to the schema and
   * ids are unique; freedom from double bookings is NOT part of the invariant,
   * because a status update can re-activate a rejected record.
   */
  class AppointmentLedger {
    var appointments: seq<Appointment>

    ghost predicate Valid()
      reads this
    {
      UniqueIds(appointments) && forall a :: a in appointments ==> Conforms(a)
    }

    constructor ()
      ensures Valid() && appointments == []
    {
      appointments := [];
    }

    /**
     * bookAppointment: hospital exists (else 404), specialization offered
     * (else 400), slot not held (else 400), document valid (else 500); on
     * success one pending record is appended and its id returned with 201.
     * `freshId` is the id the store assigns, `now` the creation time.
     */
    method BookAppointment(hospitals: seq<Hospital>, patientId: Option<Id>, req: BookingRequest,
                           freshId: Id, now: Date)
      returns (res: Response<Id>)
      requires Valid()
      requires forall a :: a in appointments ==> a.id != freshId
      modifies this
      ensures Valid()
      ensures FindHospital(hospitals, req.hospitalId).None? ==>
                res == Err(404, "Hospital not found") && appointments == old(appointments)
      ensures FindHospital(hospitals, req.hospitalId).Some? &&
              req.specialization !in FindHospital(hospitals, req.hospitalId).value.specializations ==>
                res == Err(400, "Specialization not available in this hospital") &&
                appointments == old(appointments)
      ensures FindHospital(hospitals, req.hospitalId).Some? &&
              req.specialization in FindHospital(hospitals, req.hospitalId).value.specializations &&
              SlotHeld(old(appointments), req.hospitalId, req.date, req.time) ==>
                res == Err(400, "Time slot already booked") && appointments == old(appointments)
      ensures FindHospital(hospitals, req.hospitalId).Some? &&
              req.specialization in FindHospital(hospitals, req.hospitalId).value.specializations &&
              !SlotHeld(old(appointments), req.hospitalId, req.date, req.time) &&
              !InputValid(BookingInput(patientId, req)) ==>
                res == Err(500, "Server error") && appointments == old(appointments)
      ensures res.Ok? <==>
                FindHospital(hospitals, req.hospitalId).Some? &&
                req.specialization in FindHospital(hospitals, req.hospitalId).value.specializations &&
                !SlotHeld(old(appointments), req.hospitalId, req.date, req.time) &&
                InputValid(BookingInput(patientId, req))
      ensures res.Ok? ==>
                res == Ok(201, freshId) &&
                |appointments| == |old(appointments)| + 1 &&
                appointments[..|old(appointments)|] == old(appointments) &&
                appointments[|old(appointments)|] ==
                  Appointment(freshId, patientId, Trim(req.patientName), req.problem, req.specialization,
                              req.hospitalId, req.date, req.time, Pending, now)
      ensures NoDoubleBooking(old(appointments)) ==> NoDoubleBooking(appointments)
    {
      var hospital := FindHospital(hospitals, req.hospitalId);
      if hospital.None? {
        return Err(404, "Hospital not found");
      }
      if req.specialization !in hospital.value.specializations {
        return Err(400, "Specialization not available in this hospital");
      }
      if SlotHeld(appointments, req.hospitalId, req.date, req.time) {
        return Err(400, "Time slot already booked");
      }
      var record := NewAppointment(BookingInput(patientId, req), freshId, now);
      if record.None? {
        return Err(500, "Server error");
      }
      if NoDoubleBooking(appointments) {
        AppendFreeSlotKeepsNoDoubleBooking(appointments, record.value);
      }
      AppendKeepsLedgerInvariant(appointments, record.value);
      appointments := appointments + [record.value];
      res := Ok(201, freshId);
    }

    /**
     * updateAppointmentStatus: the new status must be "approved" or
     * "rejected" (else 400, before any lookup), the record must exist (else
     * 404) and belong to the calling hospital (else 403); then only its
     * status is overwritten, whatever it was before.
     */
    method UpdateAppointmentStatus(appointmentId: Id, status: string, callerId: Id)
      returns (res: Response<string>)
      requires Valid()
      modifies this
      ensures Valid()
      ensures status != "approved" && status != "rejected" ==>
                res == Err(400, "Invalid status") && appointments == old(appointments)
      ensures (status == "approved" || status == "rejected") &&
              IndexOfAppointment(old(appointments), appointmentId).None? ==>
                res == Err(404, "Appointment not found") && appointments == old(appointments)
      ensures (status == "approved" || status == "rejected") &&
              IndexOfAppointment(old(appointments), appointmentId).Some? &&
              old(appointments)[IndexOfAppointment(old(appointments), appointmentId).value].hospital != callerId ==>
                res == Err(403, "Access denied: Hospital mismatch") && appointments == old(appointments)
      ensures res.Ok? ==>
                res == Ok(200, "Appointment " + status + " successfully") &&
                |appointments| == |old(appointments)| &&
                exists i :: 0 <= i < |old(appointments)| &&
                  old(appointments)[i].id == appointmentId &&
                  old(appointments)[i].hospital == callerId &&
                  StatusLabel(appointments[i].status) == status &&
                  appointments == old(appointments)[i := old(appointments)[i].(status := appointments[i].status)]
      ensures res.Ok? <==>
                (status == "approved" || status == "rejected") &&
                exists a :: a in old(appointments) && a.id == appointmentId && a.hospital == callerId
    {
      if status != "approved" && status != "rejected" {
        return Err(400, "Invalid status");
      }
      var index := IndexOfAppointment(appointments, appointmentId);
      if index.None? {
        return Err(404, "Appointment not found");
      }
      var i := index.value;
      if appointments[i].hospital != callerId {
        assert forall a :: a in appointments && a.id == appointmentId ==> a == appointments[i];
        return Err(403, "Access denied: Hospital mismatch");
      }
      var newStatus := ParseStatus(status).value;
      appointments := appointments[i := appointments[i].(status := newStatus)];
      res := Ok(200, "Appointment " + status + " successfully");
    }
  }

  // ---------------------------------------------------------------------
  // Read-only views of the ledger
  // ---------------------------------------------------------------------

  /** What getAppointmentStatus sends back, the hospital joined in. */
  datatype StatusView = StatusView(
    appointmentId: Id,
    patientName: string,
    problem: string,
    specialization: string,
    hospitalId: Id,
    hospitalName: string,
    date: Date,
    time: string,
    status: string)

  function View(a: Appointment, h: Hospital): StatusView {
    StatusView(a.id, a.patientName, a.problem, a.specialization, h.id, h.hospitalName,
               a.date, a.time, StatusLabel(a.status))
  }

  /**
   * getAppointmentStatus: the record with this id whose `patient` is this
   * patient (else 404), joined with its hospital; a dangling hospital
   * reference makes the join dereference nothing, which ends in 500.
   */
  function AppointmentStatus(appts: seq<Appointment>, hospitals: seq<Hospital>, patientId: Id, appointmentId: Id)
    : (r: Response<StatusView>)
    requires UniqueIds(appts)
    ensures r.Err? && r.code == 404 <==>
              forall a :: a in appts ==> !(a.id == appointmentId && a.patient == Some(patientId))
    ensures r.Err? ==>
              r == Err(404, "Appointment not found or does not belong to this patient") ||
              r == Err(500, "Server error")
    ensures r.Ok? <==>
              exists a, h :: a in appts && h in hospitals && a.id == appointmentId &&
                a.patient == Some(patientId) && h.id == a.hospital
    ensures r.Ok? ==>
              r.code == 200 &&
              exists a, h :: a in appts && h in hospitals && a.id == appointmentId &&
                a.patient == Some(patientId) && h.id == a.hospital && r.body == View(a, h)
  {
    match FindFirst(appts, (a: Appointment) => a.id == appointmentId && a.patient == Some(patientId))
    case None => Err(404, "Appointment not found or does not belong to this patient")
    case Some(i) =>
      match FindHospital(hospitals, appts[i].hospital)
      case None => Err(500, "Server error")
      case Some(h) => Ok(200, View(appts[i], h))
  }

  /**
   * A record stored without a patient (the booking route carries no
   * patient id) can never be found by the patient's status lookup.
   */
  lemma UnlinkedRecordNeverFound(appts: seq<Appointment>, hospitals: seq<Hospital>, patientId: Id, appointmentId: Id)
    requires UniqueIds(appts)
    requires forall a :: a in appts && a.id == appointmentId ==> a.patient.None?
    ensures AppointmentStatus(appts, hospitals, patientId, appointmentId) ==
              Err(404, "Appointment not found or does not belong to this patient")
  {
  }

  /** getPendingAppointments: the hospital's pending records, in ledger order. */
  function PendingAppointments(appts: seq<Appointment>, hospitalId: Id): (r: seq<Appointment>)
    ensures |r| <= |appts|
    ensures forall a :: a in r <==> a in appts && a.hospital == hospitalId && a.status == Pending
    ensures Subseq(r, appts)
  {
    if appts == [] then []
    else
      var rest := PendingAppointments(appts[1..], hospitalId);
      if appts[0].hospital == hospitalId && appts[0].status == Pending then [appts[0]] + rest else rest
  }
}
