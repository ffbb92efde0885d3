/**
 * The hospital controller: registering a hospital account, logging in,
 * adding a doctor to a hospital (which extends its specialization list and
 * its roster), and reading a hospital's specializations and roster.
 */
module HospitalController {
  import opened Common
  import opened Text
  import opened Schemas

  /**
   * A hospital or doctor with this e-mail exists. E-mail paths are
   * lower-cased on save and on query, so the comparison is on `Lower`.
   */
  predicate HospitalEmailTaken(hospitals: seq<Hospital>, email: string) {
    exists h :: h in hospitals && h.email == Lower(email)
  }

  predicate DoctorEmailTaken(doctors: seq<Doctor>, email: string) {
    exists d :: d in doctors && d.email == Lower(email)
  }

  /**
   * A hospital's specialization list after adding a doctor: the label is
   * appended only when it is absent.
   */
  function AddSpecialization(specializations: seq<string>, specialization: string): (r: seq<string>)
    ensures specialization in r
    ensures forall x :: x in r <==> x in specializations || x == specialization
    ensures |specializations| <= |r| && r[..|specializations|] == specializations
    ensures NoDups(specializations) ==> NoDups(r)
  {
    if specialization in specializations then specializations else specializations + [specialization]
  }

  /** Adding a label that is already present changes nothing. */
  lemma AddSpecializationIdempotent(specializations: seq<string>, specialization: string)
    ensures AddSpecialization(AddSpecialization(specializations, specialization), specialization)
              == AddSpecialization(specializations, specialization)
  {
  }

  /** The hospital an added doctor belongs to, after the update. */
  function WithDoctor(h: Hospital, name: string, specialization: string): (r: Hospital)
    ensures r.id == h.id && r.hospitalName == h.hospitalName && r.email == h.email && r.password == h.password
    ensures r.specializations == AddSpecialization(h.specializations, specialization)
    ensures r.doctors == h.doctors + [RosterEntry(name, specialization)]
  {
    h.(specializations := AddSpecialization(h.specializations, specialization),
       doctors := h.doctors + [RosterEntry(name, specialization)])
  }

  /** No two hospitals share an e-mail (a unique index of the store). */
  predicate UniqueEmails(hospitals: seq<Hospital>) {
    forall i, j :: 0 <= i < j < |hospitals| ==> hospitals[i].email != hospitals[j].email
  }

  /** What the login handler sends back about the hospital. */
  datatype HospitalView = HospitalView(id: Id, hospitalName: string, email: string)

  /**
   * loginHospital: an unknown e-mail and a wrong password both give the same
   * 400 "Invalid credentials". `matches` stands for the hash comparison;
   * issuing the token is not part of this model.
   */
  function LoginHospital(hospitals: seq<Hospital>, email: string, password: string,
                         matches: (string, string) -> bool): (r: Response<HospitalView>)
    requires UniqueEmails(hospitals)
    ensures !HospitalEmailTaken(hospitals, email) ==> r == Err(400, "Invalid credentials")
    ensures r.Err? ==> r == Err(400, "Invalid credentials")
    ensures r.Ok? <==>
              exists h :: h in hospitals && h.email == Lower(email) && matches(password, h.password)
    ensures r.Ok? ==>
              r.code == 200 &&
              exists h :: h in hospitals && h.email == Lower(email) && matches(password, h.password) &&
                r.body == HospitalView(h.id, h.hospitalName, h.email)
  {
    match FindFirst(hospitals, (h: Hospital) => h.email == Lower(email))
    case None => Err(400, "Invalid credentials")
    case Some(i) =>
      if !matches(password, hospitals[i].password) then Err(400, "Invalid credentials")
      else Ok(200, HospitalView(hospitals[i].id, hospitals[i].hospitalName, hospitals[i].email))
  }

  /** getSpecializations: 404 for an unknown id, else the name and the list as stored. */
  function GetSpecializations(hospitals: seq<Hospital>, hospitalId: Id): (r: Response<(string, seq<string>)>)
    ensures r.Err? <==> forall h :: h in hospitals ==> h.id != hospitalId
    ensures r.Err? ==> r == Err(404, "Hospital not found")
    ensures r.Ok? ==>
              r.code == 200 &&
              exists h :: h in hospitals && h.id == hospitalId && r.body == (h.hospitalName, h.specializations)
  {
    match FindHospital(hospitals, hospitalId)
    case None => Err(404, "Hospital not found")
    case Some(h) => Ok(200, (h.hospitalName, h.specializations))
  }

  /** getDoctors: 404 for an unknown id, else the name and the roster as stored. */
  function GetDoctors(hospitals: seq<Hospital>, hospitalId: Id): (r: Response<(string, seq<RosterEntry>)>)
    ensures r.Err? <==> forall h :: h in hospitals ==> h.id != hospitalId
    ensures r.Err? ==> r == Err(404, "Hospital not found")
    ensures r.Ok? ==>
              r.code == 200 &&
              exists h :: h in hospitals && h.id == hospitalId && r.body == (h.hospitalName, h.doctors)
  {
    match FindHospital(hospitals, hospitalId)
    case None => Err(404, "Hospital not found")
    case Some(h) => Ok(200, (h.hospitalName, h.doctors))
  }

  /** What addDoctor sends back about the new doctor. */
  datatype DoctorView = DoctorView(id: Id, name: string, email: string, specialization: string, hospitalId: Id)

  /** Every doctor's specialization is offered by the hospital it belongs to. */
  predicate DoctorsCovered(hospitals: seq<Hospital>, doctors: seq<Doctor>) {
    forall d :: d in doctors ==>
      exists h :: h in hospitals && h.id == d.hospital && d.specialization in h.specializations
  }

  /** Growing one hospital's lists keeps every doctor covered. */
  lemma GrowingListsKeepsDoctorsCovered(hospitals: seq<Hospital>, doctors: seq<Doctor>, i: nat, h: Hospital)
    requires DoctorsCovered(hospitals, doctors)
    requires i < |hospitals| && h.id == hospitals[i].id
    requires forall x :: x in hospitals[i].specializations ==> x in h.specializations
    ensures DoctorsCovered(hospitals[i := h], doctors)
  {
    var after := hospitals[i := h];
    forall d | d in doctors
      ensures exists g :: g in after && g.id == d.hospital && d.specialization in g.specializations
    {
      var g :| g in hospitals && g.id == d.hospital && d.specialization in g.specializations;
      var k :| 0 <= k < |hospitals| && hospitals[k] == g;
      assert after[k] in after;
    }
  }

  /**
   * What the hospital and doctor tables keep: ids and e-mails are unique in
   * each, the stored e-mails are lower-case, each specialization list is free
   * of duplicates, and every doctor's specialization is offered by its hospital.
   */
  predicate DirectoryInvariant(hospitals: seq<Hospital>, doctors: seq<Doctor>) {
    UniqueHospitalIds(hospitals) &&
    UniqueEmails(hospitals) &&
    (forall i, j :: 0 <= i < j < |doctors| ==>
       doctors[i].id != doctors[j].id && doctors[i].email != doctors[j].email) &&
    (forall h :: h in hospitals ==> h.email == Lower(h.email) && NoDups(h.specializations)) &&
    (forall d :: d in doctors ==> d.email == Lower(d.email)) &&
    DoctorsCovered(hospitals, doctors)
  }

  /**
   * Adding a doctor with a new id and e-mail to hospital `i`, and growing that
   * hospital's lists accordingly, keeps the tables' invariant.
   */
  lemma AddDoctorKeepsInvariant(hospitals: seq<Hospital>, doctors: seq<Doctor>, i: nat, doctor: Doctor, name: string)
    requires DirectoryInvariant(hospitals, doctors)
    requires i < |hospitals| && doctor.hospital == hospitals[i].id
    requires doctor.email == Lower(doctor.email)
    requires forall d :: d in doctors ==> d.id != doctor.id && d.email != doctor.email
    ensures DirectoryInvariant(hospitals[i := WithDoctor(hospitals[i], name, doctor.specialization)], doctors + [doctor])
  {
    var updated := WithDoctor(hospitals[i], name, doctor.specialization);
    var hs := hospitals[i := updated];
    var ds := doctors + [doctor];
    GrowingListsKeepsDoctorsCovered(hospitals, doctors, i, updated);
    assert hs[i] == updated && updated in hs;
    forall d | d in ds
      ensures exists h :: h in hs && h.id == d.hospital && d.specialization in h.specializations
    {
      if d !in doctors {
        assert d == doctor;
      }
    }
    forall a, b | 0 <= a < b < |ds| ensures ds[a].id != ds[b].id && ds[a].email != ds[b].email {
      if b == |doctors| { assert ds[a] in doctors; }
    }
    forall h | h in hs ensures h.email == Lower(h.email) && NoDups(h.specializations) {
      if h != updated { assert h in hospitals; }
    }
  }

  /** Appending a hospital with a new id and e-mail and empty lists keeps the tables' invariant. */
  lemma RegisterKeepsInvariant(hospitals: seq<Hospital>, doctors: seq<Doctor>, h: Hospital)
    requires DirectoryInvariant(hospitals, doctors)
    requires h.email == Lower(h.email) && h.specializations == []
    requires forall g :: g in hospitals ==> g.id != h.id && g.email != h.email
    ensures DirectoryInvariant(hospitals + [h], doctors)
  {
    var hs := hospitals + [h];
    forall a, b | 0 <= a < b < |hs| ensures hs[a].id != hs[b].id && hs[a].email != hs[b].email {
      if b == |hospitals| { assert hs[a] in hospitals; }
    }
    forall d | d in doctors
      ensures exists g :: g in hs && g.id == d.hospital && d.specialization in g.specializations
    {
      var g :| g in hospitals && g.id == d.hospital && d.specialization in g.specializations;
      assert g in hs;
    }
  }

  /** The hospital and doctor tables, with `DirectoryInvariant` as their invariant. */
  class HospitalDirectory {
    var hospitals: seq<Hospital>
    var doctors: seq<Doctor>

    ghost predicate Valid()
      reads this
    {
      DirectoryInvariant(hospitals, doctors)
    }

    constructor ()
      ensures Valid() && hospitals == [] && doctors == []
    {
      hospitals := [];
      doctors := [];
    }

    /**
     * registerHospital: an e-mail already registered gives 400 and adds
     * nothing; a document failing validation (empty trimmed name, e-mail or
     * password) gives 500 and adds nothing; otherwise exactly one hospital,
     * with no specializations and no doctors, is appended. `hash` stands for
     * the password hashing done on save, `freshId` for the id the store assigns.
     */
    method RegisterHospital(hospitalName: string, email: string, password: string,
                            freshId: Id, hash: string -> string)
      returns (res: Response<()>)
      requires Valid()
      requires forall h :: h in hospitals ==> h.id != freshId
      modifies this
      ensures Valid() && doctors == old(doctors)
      ensures HospitalEmailTaken(old(hospitals), email) ==>
                res == Err(400, "Email already registered") && hospitals == old(hospitals)
      ensures !HospitalEmailTaken(old(hospitals), email) &&
              (Trim(hospitalName) == "" || email == "" || password == "") ==>
                res == Err(500, "Server error") && hospitals == old(hospitals)
      ensures res.Ok? <==>
                !HospitalEmailTaken(old(hospitals), email) &&
                Trim(hospitalName) != "" && email != "" && password != ""
      ensures res.Ok? ==>
                res.code == 201 &&
                hospitals == old(hospitals) +
                  [Hospital(freshId, Trim(hospitalName), Lower(email), hash(password), [], [])]
    {
      if HospitalEmailTaken(hospitals, email) {
        return Err(400, "Email already registered");
      }
      if Trim(hospitalName) == "" || email == "" || password == "" {
        return Err(500, "Server error");
      }
      var h := Hospital(freshId, Trim(hospitalName), Lower(email), hash(password), [], []);
      LowerIdempotent(email);
      RegisterKeepsInvariant(hospitals, doctors, h);
      hospitals := hospitals + [h];
      res := Ok(201, ());
    }

    /**
     * addDoctor: an unknown hospital gives 404 and an e-mail already used by
     * a doctor gives 400, both changing nothing; a doctor document failing
     * validation gives 500 and changes nothing. Otherwise one doctor pointing
     * at the hospital is appended, the specialization is appended to the
     * hospital's list if absent, and `{name, specialization}` is appended to
     * its roster; no other hospital changes.
     */
    method AddDoctor(hospitalId: Id, name: string, email: string, password: string, specialization: string,
                     freshId: Id, hash: string -> string)
      returns (res: Response<DoctorView>)
      requires Valid()
      requires forall d :: d in doctors ==> d.id != freshId
      modifies this
      ensures Valid()
      ensures FindHospital(old(hospitals), hospitalId).None? ==>
                res == Err(404, "Hospital not found") &&
                hospitals == old(hospitals) && doctors == old(doctors)
      ensures FindHospital(old(hospitals), hospitalId).Some? && DoctorEmailTaken(old(doctors), email) ==>
                res == Err(400, "Doctor email already registered") &&
                hospitals == old(hospitals) && doctors == old(doctors)
      ensures FindHospital(old(hospitals), hospitalId).Some? && !DoctorEmailTaken(old(doctors), email) &&
              (Trim(name) == "" || email == "" || password == "" || specialization == "") ==>
                res == Err(500, "Server error")
      ensures res.Err? ==> hospitals == old(hospitals) && doctors == old(doctors)
      ensures res.Ok? <==>
                FindHospital(old(hospitals), hospitalId).Some? && !DoctorEmailTaken(old(doctors), email) &&
                Trim(name) != "" && email != "" && password != "" && specialization != ""
      ensures res.Ok? ==>
                res == Ok(201, DoctorView(freshId, Trim(name), Lower(email), specialization, hospitalId)) &&
                doctors == old(doctors) +
                  [Doctor(freshId, Trim(name), Lower(email), hash(password), specialization, hospitalId)] &&
                |hospitals| == |old(hospitals)| &&
                exists i :: 0 <= i < |hospitals| && old(hospitals)[i].id == hospitalId &&
                  hospitals == old(hospitals)[i := WithDoctor(old(hospitals)[i], name, specialization)]
    {
      var index := FindFirst(hospitals, (h: Hospital) => h.id == hospitalId);
      if index.None? {
        return Err(404, "Hospital not found");
      }
      if DoctorEmailTaken(doctors, email) {
        return Err(400, "Doctor email already registered");
      }
      if Trim(name) == "" || email == "" || password == "" || specialization == "" {
        return Err(500, "Server error");
      }
      var i := index.value;
      var doctor := Doctor(freshId, Trim(name), Lower(email), hash(password), specialization, hospitalId);
      LowerIdempotent(email);
      AddDoctorKeepsInvariant(hospitals, doctors, i, doctor, name);
      doctors := doctors + [doctor];
      hospitals := hospitals[i := WithDoctor(hospitals[i], name, specialization)];
      res := Ok(201, DoctorView(freshId, Trim(name), Lower(email), specialization, hospitalId));
    }
  }
}
