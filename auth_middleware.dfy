/**
 * The authentication middleware: take the bearer token from the
 * `Authorization` header, verify it, look up the account for the route's
 * role, match the id in the URL against the token's id, and either reject
 * the request (401, 403 or 400) or attach the account and proceed.
 */
module AuthMiddleware {
  import opened Common
  import opened Text
  import opened Schemas

  /** The payload of a verified token: the id of the account it was issued to. */
  datatype Claims = Claims(id: Id)

  /** The account the middleware attaches to the request. */
  datatype UserModel =
    | PatientUser(patient: Patient)
    | HospitalUser(hospital: Hospital)
    | DoctorUser(doctor: Doctor)

  /** The three account tables. */
  datatype Accounts = Accounts(patients: seq<Patient>, hospitals: seq<Hospital>, doctors: seq<Doctor>)

  /** Either call the next handler with the account, or answer with an error. */
  datatype Decision = Proceed(user: UserModel) | Deny(code: int, message: string)

  const BearerPrefix: string := "Bearer "

  /**
   * The token: the header with the first occurrence of "Bearer " removed,
   * wherever it stands. A missing header or an empty result gives no token.
   */
  function BearerToken(header: Option<string>): (r: Option<string>)
    ensures header.None? ==> r.None?
    ensures r.Some? ==> r.value != "" && r.value == ReplaceFirst(header.value, BearerPrefix, "")
    ensures header.Some? && ReplaceFirst(header.value, BearerPrefix, "") != "" ==> r.Some?
  {
    match header
    case None => None
    case Some(h) =>
      var token := ReplaceFirst(h, BearerPrefix, "");
      if token == "" then None else Some(token)
  }

  /**
   * A header in the form of section 2.1 of RFC 6750, "Bearer " followed by
   * the credentials, yields exactly the credentials.
   */
  lemma StandardBearerHeader(credentials: string)
    requires credentials != ""
    ensures BearerToken(Some(BearerPrefix + credentials)) == Some(credentials)
  {
    var h := BearerPrefix + credentials;
    assert h[..|BearerPrefix|] == BearerPrefix;
    ReplacePrefix(h, BearerPrefix);
    assert h[|BearerPrefix|..] == credentials;
  }

  /**
   * The parsing is loose: a header without the scheme is taken whole, and a
   * header that is only the scheme gives no token.
   */
  lemma LooseBearerParsing(header: string)
    requires header != "" && forall j :: !OccursAt(header, BearerPrefix, j)
    ensures BearerToken(Some(header)) == Some(header)
    ensures BearerToken(Some(BearerPrefix)) == None
  {
    assert BearerPrefix[..|BearerPrefix|] == BearerPrefix;
    ReplacePrefix(BearerPrefix, BearerPrefix);
  }

  /** The claims of the request's token, when it has one that verifies. */
  function Decoded(header: Option<string>, verify: string -> Option<Claims>): (r: Option<Claims>)
    ensures r.Some? ==> BearerToken(header).Some? && verify(BearerToken(header).value) == r
    ensures BearerToken(header).Some? ==> r == verify(BearerToken(header).value)
  {
    match BearerToken(header)
    case None => None
    case Some(token) => verify(token)
  }

  /** The route's `key` parameter is present, non-empty, and not `id`. */
  predicate ParamMismatch(params: map<string, string>, key: string, id: Id) {
    key in params && params[key] != "" && params[key] != id
  }

  /**
   * The decision after the token has verified to `claims`: dispatch on the
   * role, look the account up (401 when absent), compare the route's id
   * parameter for patients and hospitals (403 on mismatch); any other role
   * is 400.
   */
  function RoleDecision(role: string, claims: Claims, params: map<string, string>, accounts: Accounts)
    : (r: Decision)
    ensures role != "patient" && role != "hospital" && role != "doctor" ==> r == Deny(400, "Invalid role")
    ensures r.Proceed? && role == "patient" ==>
              r.user.PatientUser? && r.user.patient in accounts.patients && r.user.patient.id == claims.id &&
              !ParamMismatch(params, "patientId", claims.id)
    ensures r.Proceed? && role == "hospital" ==>
              r.user.HospitalUser? && r.user.hospital in accounts.hospitals && r.user.hospital.id == claims.id &&
              !ParamMismatch(params, "hospitalId", claims.id)
    ensures r.Proceed? && role == "doctor" ==>
              r.user.DoctorUser? && r.user.doctor in accounts.doctors && r.user.doctor.id == claims.id
    ensures role == "patient" ==>
              (r.Deny? && r.code == 401 <==> forall p :: p in accounts.patients ==> p.id != claims.id)
    ensures role == "hospital" ==>
              (r.Deny? && r.code == 401 <==> forall h :: h in accounts.hospitals ==> h.id != claims.id)
    ensures role == "doctor" ==>
              (r.Deny? <==> forall d :: d in accounts.doctors ==> d.id != claims.id)
    ensures role == "patient" && r.Deny? && r.code == 401 ==> r.message == "Patient not found, authorization denied"
    ensures role == "hospital" && r.Deny? && r.code == 401 ==> r.message == "Hospital not found, authorization denied"
    ensures role == "doctor" && r.Deny? ==> r == Deny(401, "Doctor not found, authorization denied")
    ensures role == "patient" && r.Deny? && r.code != 401 ==>
              r == Deny(403, "Access denied: Patient ID mismatch") && ParamMismatch(params, "patientId", claims.id)
    ensures role == "hospital" && r.Deny? && r.code != 401 ==>
              r == Deny(403, "Access denied: Hospital ID mismatch") && ParamMismatch(params, "hospitalId", claims.id)
  {
    if role == "patient" then
      match FindFirst(accounts.patients, (p: Patient) => p.id == claims.id)
      case None => Deny(401, "Patient not found, authorization denied")
      case Some(i) =>
        if ParamMismatch(params, "patientId", claims.id) then Deny(403, "Access denied: Patient ID mismatch")
        else Proceed(PatientUser(accounts.patients[i]))
    else if role == "hospital" then
      match FindFirst(accounts.hospitals, (h: Hospital) => h.id == claims.id)
      case None => Deny(401, "Hospital not found, authorization denied")
      case Some(i) =>
        if ParamMismatch(params, "hospitalId", claims.id) then Deny(403, "Access denied: Hospital ID mismatch")
        else Proceed(HospitalUser(accounts.hospitals[i]))
    else if role == "doctor" then
      match FindFirst(accounts.doctors, (d: Doctor) => d.id == claims.id)
      case None => Deny(401, "Doctor not found, authorization denied")
      case Some(i) => Proceed(DoctorUser(accounts.doctors[i]))
    else
      Deny(400, "Invalid role")
  }

  /**
   * The whole middleware as a decision: no token gives 401, a token that
   * does not verify gives 401, and the rest is the role decision.
   * `verify` stands for the token library's verification, a partial function.
   */
  function Authorize(role: string, header: Option<string>, params: map<string, string>,
                     verify: string -> Option<Claims>, accounts: Accounts): (r: Decision)
    ensures BearerToken(header).None? ==> r == Deny(401, "No token provided, authorization denied")
    ensures BearerToken(header).Some? && verify(BearerToken(header).value).None? ==>
              r == Deny(401, "Token is not valid")
    ensures r.Proceed? ==> Decoded(header, verify).Some?
    ensures Decoded(header, verify).Some? ==> r == RoleDecision(role, Decoded(header, verify).value, params, accounts)
  {
    match BearerToken(header)
    case None => Deny(401, "No token provided, authorization denied")
    case Some(token) =>
      match verify(token)
      case None => Deny(401, "Token is not valid")
      case Some(claims) => RoleDecision(role, claims, params, accounts)
  }

  /**
   * Proceeding means the token verified, the account exists with the
   * token's id, and for patients and hospitals the URL id is absent or equal.
   */
  lemma ProceedImpliesAuthenticated(role: string, header: Option<string>, params: map<string, string>,
                                    verify: string -> Option<Claims>, accounts: Accounts)
    requires Authorize(role, header, params, verify, accounts).Proceed?
    ensures var claims := Decoded(header, verify).value;
            var user := Authorize(role, header, params, verify, accounts).user;
            (role == "patient" && user.PatientUser? && user.patient in accounts.patients &&
             user.patient.id == claims.id && !ParamMismatch(params, "patientId", claims.id)) ||
            (role == "hospital" && user.HospitalUser? && user.hospital in accounts.hospitals &&
             user.hospital.id == claims.id && !ParamMismatch(params, "hospitalId", claims.id)) ||
            (role == "doctor" && user.DoctorUser? && user.doctor in accounts.doctors &&
             user.doctor.id == claims.id)
  {
  }

  /** For the doctor role the URL parameters play no part. */
  lemma DoctorRoleIgnoresParams(header: Option<string>, p1: map<string, string>, p2: map<string, string>,
                                verify: string -> Option<Claims>, accounts: Accounts)
    ensures Authorize("doctor", header, p1, verify, accounts) == Authorize("doctor", header, p2, verify, accounts)
  {
  }

  /**
   * The request object the middleware writes: `user` is set to the token's
   * claims as soon as the token verifies, even when the request is then
   * rejected; `userModel` is set only when the request proceeds.
   */
  class Request {
    var user: Option<Claims>
    var userModel: Option<UserModel>

    constructor ()
      ensures user.None? && userModel.None?
    {
      user := None;
      userModel := None;
    }

    method Authenticate(role: string, header: Option<string>, params: map<string, string>,
                        verify: string -> Option<Claims>, accounts: Accounts)
      returns (d: Decision)
      modifies this
      ensures d == Authorize(role, header, params, verify, accounts)
      ensures Decoded(header, verify).Some? ==> user == Decoded(header, verify)
      ensures Decoded(header, verify).None? ==> user == old(user)
      ensures d.Proceed? ==> userModel == Some(d.user)
      ensures d.Deny? ==> userModel == old(userModel)
    {
      var token := BearerToken(header);
      if token.None? {
        return Deny(401, "No token provided, authorization denied");
      }
      var decoded := verify(token.value);
      if decoded.None? {
        return Deny(401, "Token is not valid");
      }
      user := decoded;
      d := RoleDecision(role, decoded.value, params, accounts);
      if d.Proceed? {
        userModel := Some(d.user);
      }
    }
  }
}
