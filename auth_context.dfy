// contexts/AuthContext.tsx: the signed-in user, the token, the loading flag,
// the token kept in storage and the Authorization header. Decoding a token
// (base64 and JSON) and the clock are inputs: `decode` returns None where
// `parseJwt` returns null.

module AuthContext {
  import opened Common

  /** `User` of types.ts. */
  datatype User = User(id: int, name: string, email: string, role: string)

  /** The fields of a decoded token the context reads; `exp` in seconds. */
  datatype Payload = Payload(id: int, name: string, email: string, role: string, exp: int)

  function UserOf(p: Payload): (r: User)
    ensures r.id == p.id && r.name == p.name && r.email == p.email && r.role == p.role
  {
    User(p.id, p.name, p.email, p.role)
  }

  const BearerPrefix := "Bearer "

  /** The expiry test of `initAuth` (:36): `exp` is in seconds, `now` in
      milliseconds. */
  predicate Unexpired(p: Payload, now: int) {
    p.exp * 1000 > now
  }

  /** What `initAuth` decides about the stored token. */
  datatype InitOutcome = NoToken | Keep(user: User, token: string) | Clear

  function InitOutcomeOf(stored: Option<string>, decode: string -> Option<Payload>, now: int): (r: InitOutcome)
    ensures r.NoToken? <==> !Truthy(stored)
    ensures r.Keep? <==> Truthy(stored) && decode(stored.value).Some? && Unexpired(decode(stored.value).value, now)
    ensures r.Keep? ==> r.token == stored.value && r.user == UserOf(decode(stored.value).value)
  {
    if !Truthy(stored) then NoToken
    else
      match decode(stored.value)
      case Some(p) => if Unexpired(p, now) then Keep(UserOf(p), stored.value) else Clear
      case None => Clear
  }

  /** A token kept now was kept at every earlier time; one cleared now is
      cleared at every later time. */
  lemma ExpiryIsFinal(stored: Option<string>, decode: string -> Option<Payload>, now: int, later: int)
    requires now <= later
    ensures InitOutcomeOf(stored, decode, later).Keep? ==> InitOutcomeOf(stored, decode, now).Keep?
    ensures InitOutcomeOf(stored, decode, now).Clear? ==> InitOutcomeOf(stored, decode, later).Clear?
  {
  }

  class AuthState {
    var user: Option<User>
    var token: Option<string>
    var loading: bool
    var stored: Option<string>
    var header: Option<string>

    /** `isAuthenticated: !!user` (:91). */
    predicate IsAuthenticated()
      reads this
    {
      user.Some?
    }

    /** The provider before its effect runs: the token state starts from
        storage, and loading is on. */
    constructor (s: Option<string>)
      ensures user.None? && token == s && loading && stored == s && header.None?
    {
      user := None;
      token := s;
      loading := true;
      stored := s;
      header := None;
    }

    /** `initAuth` (:32-53). */
    method InitAuth(decode: string -> Option<Payload>, now: int)
      modifies this
      ensures !loading
      ensures var o := InitOutcomeOf(old(stored), decode, now);
        match o
        case NoToken =>
          user == old(user) && token == old(token) && stored == old(stored) && header == old(header)
        case Keep(u, t) =>
          user == Some(u) && token == Some(t) && stored == old(stored) && header == Some(BearerPrefix + t)
        case Clear =>
          user.None? && token.None? && stored.None? && header == old(header)
      ensures IsAuthenticated() <==>
        (InitOutcomeOf(old(stored), decode, now).Keep? || (!Truthy(old(stored)) && old(user).Some?))
    {
      var storedToken := stored;
      if Truthy(storedToken) {
        var decodedUser := decode(storedToken.value);
        if decodedUser.Some? && decodedUser.value.exp * 1000 > now {
          user := Some(UserOf(decodedUser.value));
          token := storedToken;
          header := Some(BearerPrefix + storedToken.value);
        } else {
          stored := None;
          user := None;
          token := None;
        }
      }
      loading := false;
    }

    /** `handleAuthSuccess` (:59-70). The token is stored first; when it does
        not decode, reading `decodedUser.id` throws and nothing else changes
        (`ok` is false). */
    method HandleAuthSuccess(newToken: string, decode: string -> Option<Payload>) returns (ok: bool)
      modifies this
      ensures stored == Some(newToken) && loading == old(loading)
      ensures ok <==> decode(newToken).Some?
      ensures ok ==> user == Some(UserOf(decode(newToken).value)) && token == Some(newToken) &&
                     header == Some(BearerPrefix + newToken)
      ensures !ok ==> user == old(user) && token == old(token) && header == old(header)
    {
      stored := Some(newToken);
      var decodedUser := decode(newToken);
      if decodedUser.None? {
        return false;
      }
      user := Some(UserOf(decodedUser.value));
      token := Some(newToken);
      header := Some(BearerPrefix + newToken);
      ok := true;
    }

    /** `logout` (:82-87). */
    method Logout()
      modifies this`user, this`token, this`stored, this`header
      ensures user.None? && token.None? && stored.None? && header.None?
      ensures !IsAuthenticated()
    {
      user := None;
      token := None;
      stored := None;
      header := None;
    }
  }

  /** A session survives a reload: after signing in with a token that
      decodes and has not expired, `initAuth` on the stored token restores
      the same user. */
  lemma SignInSurvivesReload(newToken: string, decode: string -> Option<Payload>, now: int)
    requires newToken != "" && decode(newToken).Some? && Unexpired(decode(newToken).value, now)
    ensures InitOutcomeOf(Some(newToken), decode, now) == Keep(UserOf(decode(newToken).value), newToken)
  {
  }
}
