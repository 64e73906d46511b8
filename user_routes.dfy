/**
 * The `/user` routes after sign-in: reading and updating the caller's
 * profile, and resolving a list of addresses to display names.
 */
module UserRoutes {
  import opened Wrappers
  import opened Models
  import opened ServerConfig
  import Text

  // ------------------------------------------------------------------ GET /

  datatype Profile = Profile(email: string, name: string, lang: string)

  /** GET /user: the caller's profile, or 404 when no account has that address. */
  function GetProfile(users: seq<User>, email: string): (r: Result<Profile, Status>)
    ensures r.Failure? <==> forall k :: 0 <= k < |users| ==> users[k].email != email
    ensures r.Failure? ==> r.error == NotFound("User not found")
    ensures r.Success? ==> r.value.email == email
    ensures r.Success? ==>
      exists k :: 0 <= k < |users| && users[k].email == email && r.value.name == users[k].name && r.value.lang == users[k].lang
  {
    match FindUser(users, email)
    case None => Failure(NotFound("User not found"))
    case Some(i) => Success(Profile(users[i].email, users[i].name, users[i].lang))
  }

  // ---------------------------------------------------------------- PATCH /

  datatype ProfilePatch = ProfilePatch(name: Option<string>, lang: Option<string>)

  /** A supplied name within the limit replaces the stored one (a longer one is ignored); a supplied lang replaces it. */
  function PatchedUser(u: User, req: ProfilePatch): User {
    u.(name := if req.name.Some? && Text.JsLength(req.name.value) <= NAME_LENGTH_LIMIT then req.name.value else u.name,
       lang := req.lang.GetOr(u.lang))
  }

  function UpdateStatus(users: seq<User>, email: string): (r: Status)
    ensures r.NotFound? <==> forall k :: 0 <= k < |users| ==> users[k].email != email
    ensures r.Ok? || r.NotFound?
  {
    if FindUser(users, email).None? then NotFound("User not found") else Ok("Profile updated")
  }

  /** The `users` collection after PATCH /user. */
  function AfterUpdate(users: seq<User>, email: string, req: ProfilePatch): seq<User> {
    match FindUser(users, email)
    case None => users
    case Some(i) => users[i := PatchedUser(users[i], req)]
  }

  /**
   * Reading the profile back after an update shows the supplied lang, the
   * supplied name when it is within the limit and the old name otherwise;
   * the address never changes.
   */
  lemma UpdateThenGet(users: seq<User>, email: string, req: ProfilePatch)
    requires UniqueUserEmails(users)
    requires GetProfile(users, email).Success?
    ensures GetProfile(AfterUpdate(users, email, req), email).Success?
    ensures var p := GetProfile(AfterUpdate(users, email, req), email).value;
      && p.email == email
      && p.lang == req.lang.GetOr(GetProfile(users, email).value.lang)
      && p.name == (if req.name.Some? && Text.JsLength(req.name.value) <= NAME_LENGTH_LIMIT then req.name.value
                    else GetProfile(users, email).value.name)
  {
    var i := FindUser(users, email).value;
    var after := AfterUpdate(users, email, req);
    assert after[i].email == email;
    assert FindUser(after, email) == Some(i);
    var j :| 0 <= j < |users| && users[j].email == email
      && GetProfile(users, email).value.name == users[j].name && GetProfile(users, email).value.lang == users[j].lang;
    assert j == i;
    var k :| 0 <= k < |after| && after[k].email == email
      && GetProfile(after, email).value.name == after[k].name && GetProfile(after, email).value.lang == after[k].lang;
    assert k == i;
  }

  /** An update touches only the caller's record and keeps addresses unique. */
  lemma UpdateIsLocal(users: seq<User>, email: string, req: ProfilePatch)
    requires UniqueUserEmails(users)
    ensures |AfterUpdate(users, email, req)| == |users|
    ensures forall k :: 0 <= k < |users| && users[k].email != email ==> AfterUpdate(users, email, req)[k] == users[k]
    ensures UniqueUserEmails(AfterUpdate(users, email, req))
  {
  }

  /** PATCH /user. */
  method UpdateProfile(db: Store, email: string, req: ProfilePatch) returns (status: Status)
    requires db.Valid()
    modifies db`users
    ensures db.Valid()
    ensures status == UpdateStatus(old(db.users), email)
    ensures db.users == AfterUpdate(old(db.users), email, req)
  {
    var found := FindUser(db.users, email);
    if found.None? {
      return NotFound("User not found");
    }
    var user := db.users[found.value];
    if req.name.Some? && Text.JsLength(req.name.value) <= NAME_LENGTH_LIMIT {
      user := user.(name := req.name.value);
    }
    if req.lang.Some? {
      user := user.(lang := req.lang.value);
    }
    db.users := db.users[found.value := user];
    status := Ok("Profile updated");
  }

  // ------------------------------------------------------ POST /get-names

  /** `user.name || user.email`. */
  function DisplayName(u: User): (r: string)
    ensures r == u.name || (u.name == "" && r == u.email)
  {
    if u.name != "" then u.name else u.email
  }

  /** The `reduce` over the users found, in store order: a later record overwrites an earlier one. */
  function NameMap(users: seq<User>, emails: seq<string>): (r: map<string, string>)
    ensures forall e :: e in r ==> e in emails
    ensures forall k :: 0 <= k < |users| && users[k].email in emails ==> users[k].email in r
    ensures forall e :: e in r ==> exists k :: 0 <= k < |users| && users[k].email == e && r[e] == DisplayName(users[k])
  {
    if users == [] then map[]
    else
      var acc := NameMap(users[..|users| - 1], emails);
      var u := users[|users| - 1];
      assert forall k :: 0 <= k < |users| - 1 ==> users[..|users| - 1][k] == users[k];
      if u.email in emails then acc[u.email := DisplayName(u)] else acc
  }

  /** With unique addresses, every requested address that has an account maps to that account's display name. */
  lemma NameMapLookup(users: seq<User>, emails: seq<string>, k: nat)
    requires UniqueUserEmails(users)
    requires k < |users| && users[k].email in emails
    ensures users[k].email in NameMap(users, emails)
    ensures NameMap(users, emails)[users[k].email] == DisplayName(users[k])
  {
  }

  /** The response of POST /user/get-names. */
  function GetNames(users: seq<User>, emails: ListField): (r: Result<map<string, string>, Status>)
    ensures r.Failure? <==> !emails.List? || |emails.items| > MAX_TOTAL_MEMBERS
    ensures !emails.List? ==> r == Failure(BadRequest("Invalid emails array"))
    ensures r.Success? ==> r.value == NameMap(users, emails.items)
    ensures r.Failure? ==> r.error.BadRequest?
  {
    if !emails.List? then Failure(BadRequest("Invalid emails array"))
    else if |emails.items| > MAX_TOTAL_MEMBERS then
      Failure(BadRequest("Too many emails. Maximum " + Text.IntToString(MAX_TOTAL_MEMBERS) + " allowed"))
    else Success(NameMap(users, emails.items))
  }
}
