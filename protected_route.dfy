/**
 * The front-end route guard: it guesses the kind of user from the path,
 * looks for that kind's token in local storage, and either renders the
 * protected page or redirects to that kind's login page.
 */
module ProtectedRoute {
  import opened Text

  datatype UserType = Patient | Hospital | Doctor

  function UserTypeName(u: UserType): string {
    match u
    case Patient => "patient"
    case Hospital => "hospital"
    case Doctor => "doctor"
  }

  /**
   * The user type for a path: "doctor" anywhere in it wins, then "hospital"
   * anywhere in it; any other path is a patient's.
   */
  function UserTypeOf(path: string): (r: UserType)
    ensures r == Doctor <==> exists j :: OccursAt(path, "doctor", j)
    ensures r == Hospital <==>
              (exists j :: OccursAt(path, "hospital", j)) && !(exists j :: OccursAt(path, "doctor", j))
    ensures r == Patient <==>
              !(exists j :: OccursAt(path, "hospital", j)) && !(exists j :: OccursAt(path, "doctor", j))
  {
    ContainsIff(path, "hospital");
    ContainsIff(path, "doctor");
    var afterHospital := if Contains(path, "hospital") then Hospital else Patient;
    if Contains(path, "doctor") then Doctor else afterHospital
  }

  /** The local-storage key holding the token of this user type. */
  function TokenKey(u: UserType): string {
    UserTypeName(u) + "Token"
  }

  /** Each user type has its own storage key and its own login page. */
  lemma KeysAndLoginPagesDistinct(u: UserType, v: UserType)
    requires u != v
    ensures TokenKey(u) != TokenKey(v)
    ensures LoginPath(u) != LoginPath(v)
  {
    assert TokenKey(u)[0] != TokenKey(v)[0];
    assert LoginPath(u)[7] != LoginPath(v)[7];
  }

  /** The login page of this user type. */
  function LoginPath(u: UserType): string {
    "/login/" + UserTypeName(u)
  }

  /** Render the protected children, or replace the location with a login page. */
  datatype Outcome = RenderChildren | Redirect(to: string)

  /**
   * The guard: a missing or empty token under the user type's key redirects
   * to that type's login page; any other value renders the children.
   */
  function Guard(path: string, storage: map<string, string>): (r: Outcome)
    ensures r.RenderChildren? <==>
              TokenKey(UserTypeOf(path)) in storage && storage[TokenKey(UserTypeOf(path))] != ""
    ensures r.Redirect? ==> r.to == "/login/" + UserTypeName(UserTypeOf(path))
  {
    var userType := UserTypeOf(path);
    var key := TokenKey(userType);
    if key !in storage || storage[key] == "" then Redirect(LoginPath(userType))
    else RenderChildren
  }

  /** Only the token stored under the path's own key matters. */
  lemma GuardReadsOnlyItsKey(path: string, s1: map<string, string>, s2: map<string, string>)
    requires var key := TokenKey(UserTypeOf(path));
             (key in s1 <==> key in s2) && (key in s1 ==> s1[key] == s2[key])
    ensures Guard(path, s1) == Guard(path, s2)
  {
  }

  /** A path naming both doctors and hospitals is a doctor's. */
  lemma DoctorWinsOverHospital(path: string)
    requires Contains(path, "hospital") && Contains(path, "doctor")
    ensures UserTypeOf(path) == Doctor
  {
    ContainsIff(path, "doctor");
  }
}
