// backend/routes/auth.js: registration, login and the account lookup, link
// and create of the Google strategy. Hashing and comparing passwords
// (bcrypt) are parameters, and a signed token is represented by the claims
// it carries.

module AuthRoutes {
  import opened Common
  import opened Database

  /** `{ id, name, email, role }`, the payload of every token. */
  datatype Claims = Claims(id: int, name: string, email: string, role: string)

  function ClaimsOf(u: UserRow): Claims {
    Claims(u.id, u.name, u.email, u.role)
  }

  /** `db('users').where({ email }).first()` */
  function UserByEmail(users: seq<UserRow>, email: string): (r: Option<UserRow>)
    ensures r.Some? ==> r.value in users && r.value.email == email
    ensures r.None? <==> forall i :: 0 <= i < |users| ==> users[i].email != email
  {
    if users == [] then None
    else if users[0].email == email then Some(users[0])
    else UserByEmail(users[1..], email)
  }

  /** `db('users').where({ google_id }).first()` */
  function UserByGoogleId(users: seq<UserRow>, googleId: string): (r: Option<UserRow>)
    ensures r.Some? ==> r.value in users && r.value.googleId == Some(googleId)
    ensures r.None? <==> forall i :: 0 <= i < |users| ==> users[i].googleId != Some(googleId)
  {
    if users == [] then None
    else if users[0].googleId == Some(googleId) then Some(users[0])
    else UserByGoogleId(users[1..], googleId)
  }

  /** With unique emails the lookup finds the one user with that email. */
  lemma UserByEmailFinds(users: seq<UserRow>, i: nat)
    requires EmailsUnique(users) && i < |users|
    ensures UserByEmail(users, users[i].email) == Some(users[i])
  {
    var r := UserByEmail(users, users[i].email);
    var k :| 0 <= k < |users| && users[k] == r.value;
    assert !(k < i) && !(i < k);
  }

  /** A user appended to the table is found by email only when no earlier
      user has that email. */
  lemma {:induction false} UserByEmailAppend(users: seq<UserRow>, u: UserRow, email: string)
    ensures UserByEmail(users + [u], email) ==
      if UserByEmail(users, email).Some? then UserByEmail(users, email)
      else if u.email == email then Some(u) else None
    decreases |users|
  {
    if users == [] {
      assert [] + [u] == [u];
    } else {
      assert (users + [u])[0] == users[0];
      assert (users + [u])[1..] == users[1..] + [u];
      UserByEmailAppend(users[1..], u, email);
    }
  }

  /** The student_profiles row created with a new student. */
  function NewProfile(userId: int, name: string, email: string): ProfileRow {
    ProfileRow(userId, map["name" := Text(name), "email" := Text(email), "skills" := Text("[]")])
  }

  /** Appending a user whose email and Google id are unused keeps both
      unique keys. */
  lemma AddUserKeepsKeys(users: seq<UserRow>, u: UserRow)
    requires EmailsUnique(users) && GoogleIdsUnique(users)
    requires UserByEmail(users, u.email).None?
    requires u.googleId.None? || UserByGoogleId(users, u.googleId.value).None?
    ensures EmailsUnique(users + [u]) && GoogleIdsUnique(users + [u])
  {
    var r := users + [u];
    forall i, j | 0 <= i < j < |r|
      ensures r[i].email != r[j].email
      ensures r[i].googleId.Some? ==> r[i].googleId != r[j].googleId
    {
      assert r[i] == users[i];
      if j < |users| {
        assert r[j] == users[j];
      }
    }
  }

  // ---------------------------------------------------------------------
  // POST /register (:62-111)
  // ---------------------------------------------------------------------

  /** 400 without a name, email and password, 409 when the email is taken,
      both before any write; otherwise one transaction adds a student and
      their profile, and the token carries the new user's claims. */
  method Register(db: Db, name: Option<string>, email: Option<string>, password: Option<string>,
                  hash: string -> string)
    returns (code: int, token: Option<Claims>)
    requires db.UsersValid()
    modifies db`users, db`profiles, db`nextUserId
    ensures db.UsersValid()
    ensures code == (if !(Truthy(name) && Truthy(email) && Truthy(password)) then 400
                     else if UserByEmail(old(db.users), email.value).Some? then 409
                     else 201)
    ensures code != 201 ==> token.None? && db.users == old(db.users) && db.profiles == old(db.profiles) &&
                            db.nextUserId == old(db.nextUserId)
    ensures code == 201 ==>
      var u := UserRow(old(db.nextUserId), name.value, email.value, Some(hash(password.value)), None, "student");
      db.users == old(db.users) + [u] && db.profiles == old(db.profiles) + [NewProfile(u.id, u.name, u.email)] &&
      db.nextUserId == old(db.nextUserId) + 1 && token == Some(ClaimsOf(u))
  {
    if !Truthy(name) || !Truthy(email) || !Truthy(password) {
      return 400, None;
    }
    if UserByEmail(db.users, email.value).Some? {
      return 409, None;
    }
    var passwordHash := hash(password.value);
    var id := db.nextUserId;
    var u := UserRow(id, name.value, email.value, Some(passwordHash), None, "student");
    AddUserKeepsKeys(db.users, u);
    db.users := db.users + [u];
    db.nextUserId := db.nextUserId + 1;
    db.profiles := db.profiles + [NewProfile(id, name.value, email.value)];
    code, token := 201, Some(ClaimsOf(u));
  }

  // ---------------------------------------------------------------------
  // POST /login (:117-146)
  // ---------------------------------------------------------------------

  /** 400, 401 or 200 with a token. */
  datatype LoginResult = LoginMissing | LoginRefused | LoginOk(token: Claims)

  /** Login changes nothing. `compare` is bcrypt's password check. */
  function Login(users: seq<UserRow>, email: Option<string>, password: Option<string>,
                 compare: (string, string) -> bool): (r: LoginResult)
    ensures r.LoginMissing? <==> !(Truthy(email) && Truthy(password))
    ensures r.LoginOk? ==>
      exists i :: 0 <= i < |users| && users[i].email == email.value && Truthy(users[i].passwordHash) &&
        compare(password.value, users[i].passwordHash.value) && r.token == ClaimsOf(users[i])
    ensures r.LoginRefused? ==>
      var u := UserByEmail(users, email.value);
      u.None? || !Truthy(u.value.passwordHash) || !compare(password.value, u.value.passwordHash.value)
  {
    if !Truthy(email) || !Truthy(password) then LoginMissing
    else
      match UserByEmail(users, email.value)
      case None => LoginRefused
      case Some(u) =>
        if !Truthy(u.passwordHash) || !compare(password.value, u.passwordHash.value) then LoginRefused
        else LoginOk(ClaimsOf(u))
  }

  /** A password that has just been registered logs in, with the same
      claims the registration token carried, as long as the hash is one the
      comparison accepts. */
  lemma LoginAfterRegister(users: seq<UserRow>, id: int, name: string, email: string, password: string,
                           hash: string -> string, compare: (string, string) -> bool)
    requires UserByEmail(users, email).None?
    requires email != "" && password != "" && hash(password) != ""
    requires compare(password, hash(password))
    ensures var u := UserRow(id, name, email, Some(hash(password)), None, "student");
      Login(users + [u], Some(email), Some(password), compare) == LoginOk(ClaimsOf(u))
  {
    var u := UserRow(id, name, email, Some(hash(password)), None, "student");
    UserByEmailAppend(users, u, email);
  }

  // ---------------------------------------------------------------------
  // The Google strategy (:13-59)
  // ---------------------------------------------------------------------

  /** What the strategy reads of Google's profile. */
  datatype GoogleProfile = GoogleProfile(id: string, emails: seq<string>, displayName: Option<string>)

  /** `UPDATE users SET google_id = ? WHERE id = ?` */
  function SetGoogleId(users: seq<UserRow>, userId: int, googleId: string): (r: seq<UserRow>)
    ensures |r| == |users|
    ensures forall i :: 0 <= i < |r| ==> r[i].(googleId := users[i].googleId) == users[i]
    ensures forall i :: 0 <= i < |r| ==> r[i].googleId == if users[i].id == userId then Some(googleId) else users[i].googleId
  {
    seq(|users|, i requires 0 <= i < |users| => if users[i].id == userId then users[i].(googleId := Some(googleId)) else users[i])
  }

  /** Linking an unused Google id to one user keeps both unique keys. */
  lemma LinkKeepsKeys(users: seq<UserRow>, userId: int, googleId: string)
    requires EmailsUnique(users) && GoogleIdsUnique(users)
    requires forall i, j :: 0 <= i < j < |users| ==> users[i].id != users[j].id
    requires UserByGoogleId(users, googleId).None?
    ensures EmailsUnique(SetGoogleId(users, userId, googleId)) && GoogleIdsUnique(SetGoogleId(users, userId, googleId))
  {
    var r := SetGoogleId(users, userId, googleId);
    forall i, j | 0 <= i < j < |r| && r[i].googleId.Some?
      ensures r[i].googleId != r[j].googleId
    {
      assert users[i].id != users[j].id;
    }
  }

  /** After a link, signing in with the same Google id finds the linked
      user. */
  lemma LinkThenKnown(users: seq<UserRow>, userId: int, googleId: string)
    requires UserByGoogleId(users, googleId).None?
    requires exists i :: 0 <= i < |users| && users[i].id == userId
    ensures var found := UserByGoogleId(SetGoogleId(users, userId, googleId), googleId);
      found.Some? && found.value.id == userId
  {
    var r := SetGoogleId(users, userId, googleId);
    var i :| 0 <= i < |users| && users[i].id == userId;
    assert r[i].googleId == Some(googleId);
    var found := UserByGoogleId(r, googleId);
    var k :| 0 <= k < |r| && r[k] == found.value;
    assert users[k].googleId != Some(googleId);
  }

  /** The verify callback. `user` is what it hands to `done`; None is an
      error: no email in the profile, or no display name for the NOT NULL
      name column (the transaction then rolls back). A known Google id
      signs in unchanged; else a user with that email gets the id linked,
      and is handed over as read before the link; else a student and their
      profile are created. */
  method GoogleSignIn(db: Db, p: GoogleProfile) returns (user: Option<UserRow>)
    requires db.UsersValid()
    modifies db`users, db`profiles, db`nextUserId
    ensures db.UsersValid()
    ensures UserByGoogleId(old(db.users), p.id).Some? ==>
      user == UserByGoogleId(old(db.users), p.id) && db.users == old(db.users) && db.profiles == old(db.profiles)
    ensures UserByGoogleId(old(db.users), p.id).None? && p.emails == [] ==>
      user.None? && db.users == old(db.users) && db.profiles == old(db.profiles)
    ensures UserByGoogleId(old(db.users), p.id).None? && p.emails != [] && UserByEmail(old(db.users), p.emails[0]).Some? ==>
      user == UserByEmail(old(db.users), p.emails[0]) &&
      db.users == SetGoogleId(old(db.users), user.value.id, p.id) && db.profiles == old(db.profiles)
    ensures UserByGoogleId(old(db.users), p.id).None? && p.emails != [] && UserByEmail(old(db.users), p.emails[0]).None? ==>
      if p.displayName.None? then user.None? && db.users == old(db.users) && db.profiles == old(db.profiles)
      else
        var u := UserRow(old(db.nextUserId), p.displayName.value, p.emails[0], None, Some(p.id), "student");
        user == Some(u) && db.users == old(db.users) + [u] &&
        db.profiles == old(db.profiles) + [NewProfile(u.id, u.name, u.email)] && db.nextUserId == old(db.nextUserId) + 1
  {
    var byGoogle := UserByGoogleId(db.users, p.id);
    if byGoogle.Some? {
      return byGoogle;
    }
    if p.emails == [] {
      return None;
    }
    var byEmail := UserByEmail(db.users, p.emails[0]);
    if byEmail.Some? {
      LinkKeepsKeys(db.users, byEmail.value.id, p.id);
      db.users := SetGoogleId(db.users, byEmail.value.id, p.id);
      return byEmail;
    }
    if p.displayName.None? {
      return None;
    }
    var u := UserRow(db.nextUserId, p.displayName.value, p.emails[0], None, Some(p.id), "student");
    AddUserKeepsKeys(db.users, u);
    db.users := db.users + [u];
    db.nextUserId := db.nextUserId + 1;
    db.profiles := db.profiles + [NewProfile(u.id, u.name, u.email)];
    user := Some(u);
  }
}
