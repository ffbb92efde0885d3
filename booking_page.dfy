/**
 * The patient's booking wizard: five steps, two ways through the middle
 * (specialty first or hospital first), forward moves on each selection and
 * a Back control whose target depends on the way taken.
 */
module AppointmentBookingPage {
  import opened Common

  datatype Step = Landing | SpecialtiesHospitals | HospitalsSpecialties | Doctors | Booking

  datatype BookingPath = SpecialtyFirst | HospitalFirst

  /** A chosen hospital or doctor; both fields empty means nothing is chosen. */
  datatype Selection = Selection(id: string, name: string)

  const NoSelection: Selection := Selection("", "")

  /** The state the wizard's transitions read and write. */
  datatype Wizard = Wizard(
    step: Step,
    specialty: string,
    hospital: Selection,
    doctor: Selection,
    path: Option<BookingPath>,
    submitted: bool)

  /** The state the page starts in. */
  const Initial: Wizard := Wizard(Landing, "", NoSelection, NoSelection, None, false)

  /**
   * The remembered path agrees with the step: none on the landing step, the
   * matching one on each middle step, and one on the later steps.
   */
  predicate Consistent(w: Wizard) {
    (w.step == Landing <==> w.path.None?) &&
    (w.step == SpecialtiesHospitals ==> w.path == Some(SpecialtyFirst)) &&
    (w.step == HospitalsSpecialties ==> w.path == Some(HospitalFirst))
  }

  /** The middle step a path goes through. */
  function EntryStep(p: BookingPath): Step {
    match p
    case SpecialtyFirst => SpecialtiesHospitals
    case HospitalFirst => HospitalsSpecialties
  }

  /** On the landing step, choosing a specialty starts the specialty-first path. */
  function ChooseSpecialtyOnLanding(w: Wizard, specialty: string): (r: Wizard)
    requires w.step == Landing
    ensures Consistent(r) && r.step == EntryStep(SpecialtyFirst) && r.specialty == specialty
    ensures r.hospital == w.hospital && r.doctor == w.doctor && r.submitted == w.submitted
  {
    w.(specialty := specialty, path := Some(SpecialtyFirst), step := SpecialtiesHospitals)
  }

  /** On the landing step, choosing a hospital starts the hospital-first path. */
  function ChooseHospitalOnLanding(w: Wizard, hospital: Selection): (r: Wizard)
    requires w.step == Landing
    ensures Consistent(r) && r.step == EntryStep(HospitalFirst) && r.hospital == hospital
    ensures r.specialty == w.specialty && r.doctor == w.doctor && r.submitted == w.submitted
  {
    w.(hospital := hospital, path := Some(HospitalFirst), step := HospitalsSpecialties)
  }

  /** Choosing a hospital for the chosen specialty moves on to the doctors. */
  function ChooseHospitalForSpecialty(w: Wizard, hospital: Selection): (r: Wizard)
    requires w.step == SpecialtiesHospitals
    ensures r.step == Doctors && r.hospital == hospital && r.path == w.path
    ensures r.specialty == w.specialty && r.doctor == w.doctor && r.submitted == w.submitted
  {
    w.(hospital := hospital, step := Doctors)
  }

  /** Choosing a specialty at the chosen hospital moves on to the doctors. */
  function ChooseSpecialtyAtHospital(w: Wizard, specialty: string): (r: Wizard)
    requires w.step == HospitalsSpecialties
    ensures r.step == Doctors && r.specialty == specialty && r.path == w.path
    ensures r.hospital == w.hospital && r.doctor == w.doctor && r.submitted == w.submitted
  {
    w.(specialty := specialty, step := Doctors)
  }

  /** Choosing a doctor moves on to the booking form. */
  function ChooseDoctor(w: Wizard, doctor: Selection): (r: Wizard)
    requires w.step == Doctors
    ensures r.step == Booking && r.doctor == doctor && r.path == w.path
    ensures r.specialty == w.specialty && r.hospital == w.hospital && r.submitted == w.submitted
  {
    w.(doctor := doctor, step := Booking)
  }

  /** The booking form reports that it was submitted. */
  function SubmitBooking(w: Wizard): (r: Wizard)
    requires w.step == Booking
    ensures r.submitted && r.step == Booking
    ensures r.specialty == w.specialty && r.hospital == w.hospital && r.doctor == w.doctor && r.path == w.path
  {
    w.(submitted := true)
  }

  /**
   * goBack: from a middle step to the landing step, forgetting the specialty,
   * the hospital and the path; from the doctors to the middle step of the
   * remembered path, forgetting the doctor; from the booking form to the
   * doctors, clearing the submitted flag; on the landing step nothing.
   */
  function GoBack(w: Wizard): (r: Wizard)
    ensures w.step == Landing ==> r == w
    ensures w.step != Landing ==> r.step != w.step && r.step != Booking
  {
    match w.step
    case SpecialtiesHospitals =>
      w.(step := Landing, specialty := "", hospital := NoSelection, path := None)
    case HospitalsSpecialties =>
      w.(step := Landing, specialty := "", hospital := NoSelection, path := None)
    case Doctors =>
      w.(step := if w.path == Some(SpecialtyFirst) then SpecialtiesHospitals else HospitalsSpecialties,
         doctor := NoSelection)
    case Booking =>
      w.(step := Doctors, submitted := false)
    case Landing => w
  }

  /** Every transition keeps the path consistent with the step. */
  lemma TransitionsKeepConsistent(w: Wizard, specialty: string, hospital: Selection, doctor: Selection)
    requires Consistent(w)
    ensures Consistent(GoBack(w))
    ensures w.step == SpecialtiesHospitals ==> Consistent(ChooseHospitalForSpecialty(w, hospital))
    ensures w.step == HospitalsSpecialties ==> Consistent(ChooseSpecialtyAtHospital(w, specialty))
    ensures w.step == Doctors ==> Consistent(ChooseDoctor(w, doctor))
    ensures w.step == Booking ==> Consistent(SubmitBooking(w))
  {
    if w.step == Doctors {
      assert w.path.value.SpecialtyFirst? || w.path.value.HospitalFirst?;
    }
  }

  /** From the doctors, Back returns to the middle step of the path that led there. */
  lemma GoBackFromDoctorsFollowsPath(w: Wizard)
    requires Consistent(w) && w.step == Doctors
    ensures GoBack(w).step == EntryStep(w.path.value)
    ensures GoBack(w).doctor == NoSelection
    ensures GoBack(w).(step := w.step, doctor := w.doctor) == w
  {
  }

  /**
   * Round trip: landing, either way through the middle, the doctors, then
   * Back lands on the middle step that was taken, with its choices kept.
   */
  lemma RoundTripThroughDoctors(w: Wizard, specialty: string, hospital: Selection)
    requires w.step == Landing
    ensures var m := ChooseSpecialtyOnLanding(w, specialty);
            var back := GoBack(ChooseHospitalForSpecialty(m, hospital));
            back.step == SpecialtiesHospitals && back.specialty == specialty && back.path == m.path
    ensures var m := ChooseHospitalOnLanding(w, hospital);
            var back := GoBack(ChooseSpecialtyAtHospital(m, specialty));
            back.step == HospitalsSpecialties && back.hospital == hospital && back.path == m.path
  {
  }

  /**
   * Back from a middle step forgets the specialty, the hospital and the
   * path; back from the booking form returns to the doctors with the
   * submitted flag cleared; neither touches anything else.
   */
  lemma GoBackClearsWhatItLeaves(w: Wizard)
    requires Consistent(w)
    ensures w.step == SpecialtiesHospitals || w.step == HospitalsSpecialties ==>
              GoBack(w) == Initial.(doctor := w.doctor, submitted := w.submitted)
    ensures w.step == Booking ==>
              GoBack(w).step == Doctors && !GoBack(w).submitted &&
              GoBack(w).(step := w.step, submitted := w.submitted) == w
  {
  }

  /** Back twice from the doctors returns to the landing step with every choice cleared. */
  lemma BackTwiceFromDoctorsIsLanding(w: Wizard)
    requires Consistent(w) && w.step == Doctors
    ensures GoBack(GoBack(w)) == w.(step := Landing, specialty := "", hospital := NoSelection,
                                    doctor := NoSelection, path := None)
  {
  }

  /**
   * The page component: its state fields, updated through their setters by
   * the selection handlers and by goBack. The patient id and the hospital's
   * specialty list are loaded from outside and are left alone here.
   */
  class BookingPage {
    var currentStep: Step
    var selectedSpecialty: string
    var selectedHospital: Selection
    var selectedDoctor: Selection
    var bookingPath: Option<BookingPath>
    var patientId: string
    var isBookingSubmitted: bool
    var hospitalSpecialties: seq<string>

    /** The wizard state held in the fields. */
    ghost function State(): Wizard
      reads this
    {
      Wizard(currentStep, selectedSpecialty, selectedHospital, selectedDoctor, bookingPath, isBookingSubmitted)
    }

    ghost predicate Valid()
      reads this
    {
      Consistent(State())
    }

    constructor ()
      ensures Valid() && State() == Initial && patientId == "" && hospitalSpecialties == []
    {
      currentStep := Landing;
      selectedSpecialty := "";
      selectedHospital := NoSelection;
      selectedDoctor := NoSelection;
      bookingPath := None;
      patientId := "";
      isBookingSubmitted := false;
      hospitalSpecialties := [];
    }

    method OnSelectSpecialtyFromLanding(specialty: string)
      requires Valid() && currentStep == Landing
      modifies this
      ensures Valid() && State() == ChooseSpecialtyOnLanding(old(State()), specialty)
      ensures patientId == old(patientId) && hospitalSpecialties == old(hospitalSpecialties)
    {
      selectedSpecialty := specialty;
      bookingPath := Some(SpecialtyFirst);
      currentStep := SpecialtiesHospitals;
    }

    method OnSelectHospitalFromLanding(hospital: Selection)
      requires Valid() && currentStep == Landing
      modifies this
      ensures Valid() && State() == ChooseHospitalOnLanding(old(State()), hospital)
      ensures patientId == old(patientId) && hospitalSpecialties == old(hospitalSpecialties)
    {
      selectedHospital := hospital;
      bookingPath := Some(HospitalFirst);
      currentStep := HospitalsSpecialties;
    }

    method OnSelectHospitalForSpecialty(hospital: Selection)
      requires Valid() && currentStep == SpecialtiesHospitals
      modifies this
      ensures Valid() && State() == ChooseHospitalForSpecialty(old(State()), hospital)
      ensures patientId == old(patientId) && hospitalSpecialties == old(hospitalSpecialties)
    {
      selectedHospital := hospital;
      currentStep := Doctors;
    }

    method OnSelectSpecialtyAtHospital(specialty: string)
      requires Valid() && currentStep == HospitalsSpecialties
      modifies this
      ensures Valid() && State() == ChooseSpecialtyAtHospital(old(State()), specialty)
      ensures patientId == old(patientId) && hospitalSpecialties == old(hospitalSpecialties)
    {
      selectedSpecialty := specialty;
      currentStep := Doctors;
    }

    method OnSelectDoctor(doctor: Selection)
      requires Valid() && currentStep == Doctors
      modifies this
      ensures Valid() && State() == ChooseDoctor(old(State()), doctor)
      ensures patientId == old(patientId) && hospitalSpecialties == old(hospitalSpecialties)
    {
      selectedDoctor := doctor;
      currentStep := Booking;
    }

    method OnBookingSubmit()
      requires Valid() && currentStep == Booking
      modifies this
      ensures Valid() && State() == SubmitBooking(old(State()))
      ensures patientId == old(patientId) && hospitalSpecialties == old(hospitalSpecialties)
    {
      isBookingSubmitted := true;
    }

    method GoBackStep()
      requires Valid()
      modifies this
      ensures Valid() && State() == GoBack(old(State()))
      ensures patientId == old(patientId) && hospitalSpecialties == old(hospitalSpecialties)
    {
      match currentStep {
        case SpecialtiesHospitals =>
          currentStep := Landing;
          selectedSpecialty := "";
          selectedHospital := NoSelection;
          bookingPath := None;
        case HospitalsSpecialties =>
          currentStep := Landing;
          selectedSpecialty := "";
          selectedHospital := NoSelection;
          bookingPath := None;
        case Doctors =>
          assert bookingPath.value.SpecialtyFirst? || bookingPath.value.HospitalFirst?;
          currentStep := if bookingPath == Some(SpecialtyFirst) then SpecialtiesHospitals else HospitalsSpecialties;
          selectedDoctor := NoSelection;
        case Booking =>
          currentStep := Doctors;
          isBookingSubmitted := false;
        case Landing =>
      }
    }

    /** The Back control is shown on every step but the landing step. */
    function BackVisible(): (r: bool)
      reads this
      ensures r <==> currentStep != Landing
    {
      currentStep != Landing
    }
  }
}
