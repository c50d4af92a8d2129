/**
 * The authentication configuration of `src/lib/auth.ts`: the middleware's
 * path predicate, the credential check, and the callbacks that carry the
 * user's id and role into the token and the session. The user table is a
 * map from email to user; the password check is a parameter.
 */
module Auth {
  import opened Wrappers
  import opened Strings

  const AuthPrefix := "/api/auth"
  const WebhookPrefix := "/api/twilio/webhook"

  /**
   * `authorized`: the sign-in endpoints and the webhook are open, everything
   * else needs a session. The test is on raw prefixes, so any path that
   * merely begins like an open one (`/api/authz`) is open too.
   */
  function Authorized(pathname: string, hasAuth: bool): (r: bool)
    ensures AuthPrefix <= pathname ==> r
    ensures WebhookPrefix <= pathname ==> r
    ensures !(AuthPrefix <= pathname) && !(WebhookPrefix <= pathname) ==> r == hasAuth
  {
    if AuthPrefix <= pathname then true
    else if WebhookPrefix <= pathname then true
    else hasAuth
  }

  datatype Role = Admin | User

  /** `user.role === 'admin' ? 'admin' : 'user'`. */
  function RoleOf(stored: string): (r: Role)
    ensures r == Admin <==> stored == "admin"
  {
    if stored == "admin" then Admin else User
  }

  datatype UserRow = UserRow(id: string, email: string, name: Option<string>, role: string, passwordHash: Option<string>)

  datatype Credentials = Credentials(email: Option<string>, password: Option<string>)

  datatype SignedIn = SignedIn(id: string, email: string, name: Option<string>, role: Role)

  lemma LoweredHasNoUpper(s: string, c: char)
    requires c in ToLower(s)
    ensures !IsUpper(c)
  {
    var k :| 0 <= k < |ToLower(s)| && ToLower(s)[k] == c;
  }

  /** `String(email).toLowerCase().trim()`. */
  function NormaliseEmail(email: string): (r: string)
    ensures IsTrimmed(r)
    ensures forall i :: 0 <= i < |r| ==> !IsUpper(r[i])
    ensures r == ToLower(Trim(email))
  {
    TrimToLower(email);
    var r := Trim(ToLower(email));
    assert forall i :: 0 <= i < |r| ==> !IsUpper(r[i]) by {
      forall i | 0 <= i < |r| ensures !IsUpper(r[i]) {
        LoweredHasNoUpper(email, r[i]);
      }
    }
    r
  }

  /** Normalising a normalised email changes nothing. */
  lemma NormaliseIdempotent(email: string)
    ensures NormaliseEmail(NormaliseEmail(email)) == NormaliseEmail(email)
  {
    var n := NormaliseEmail(email);
    assert ToLower(n) == n;
  }

  function Present(s: Option<string>): bool {
    s.Some? && s.value != ""
  }

  /**
   * `authorize`: both credentials must be non-empty, the normalised email
   * must name a user with a non-empty password hash, and `check` must accept
   * the password against it. The role is normalised to admin or user.
   */
  function Authorize(creds: Credentials, users: map<string, UserRow>, check: (string, string) -> bool)
    : (r: Option<SignedIn>)
    ensures !Present(creds.email) || !Present(creds.password) ==> r.None?
    ensures r.Some? <==>
      && Present(creds.email) && Present(creds.password)
      && NormaliseEmail(creds.email.value) in users
      && Present(users[NormaliseEmail(creds.email.value)].passwordHash)
      && check(creds.password.value, users[NormaliseEmail(creds.email.value)].passwordHash.value)
    ensures r.Some? ==>
      var u := users[NormaliseEmail(creds.email.value)];
      r.value == SignedIn(u.id, u.email, u.name, RoleOf(u.role))
  {
    if !Present(creds.email) || !Present(creds.password) then None
    else
      var key := NormaliseEmail(creds.email.value);
      if key !in users then None
      else
        var u := users[key];
        if !Present(u.passwordHash) then None
        else if !check(creds.password.value, u.passwordHash.value) then None
        else Some(SignedIn(u.id, u.email, u.name, RoleOf(u.role)))
  }

  /** Signing in again with the email as it was looked up gives the same result. */
  lemma AuthorizeStableUnderNormalising(creds: Credentials, users: map<string, UserRow>,
                                        check: (string, string) -> bool)
    requires Present(creds.email)
    ensures NormaliseEmail(creds.email.value) != "" ==>
      Authorize(creds.(email := Some(NormaliseEmail(creds.email.value))), users, check) == Authorize(creds, users, check)
  {
    NormaliseIdempotent(creds.email.value);
  }

  /** The token's fields the callbacks touch. */
  datatype Token = Token(id: Option<string>, role: Option<Role>, name: Option<string>, email: Option<string>)

  /** The user object handed to `jwt` on sign-in. */
  datatype TokenUser = TokenUser(id: Option<string>, role: Option<Role>, name: Option<string>, email: Option<string>)

  function AsTokenUser(u: SignedIn): TokenUser {
    TokenUser(Some(u.id), Some(u.role), u.name, Some(u.email))
  }

  /**
   * `jwt`: on sign-in the token takes the user's id and role (user by
   * default) and the user's name and email where present; without a user
   * the token is returned unchanged.
   */
  function Jwt(t: Token, user: Option<TokenUser>): (r: Token)
    ensures user.None? ==> r == t
    ensures user.Some? ==> r.id == user.value.id && r.role == Some(user.value.role.GetOr(User))
    ensures user.Some? ==> r.name == (if user.value.name.Some? then user.value.name else t.name)
    ensures user.Some? ==> r.email == (if user.value.email.Some? then user.value.email else t.email)
  {
    match user
    case None => t
    case Some(u) =>
      Token(u.id, Some(u.role.GetOr(User)),
            if u.name.Some? then u.name else t.name,
            if u.email.Some? then u.email else t.email)
  }

  datatype SessionUser = SessionUser(id: Option<string>, role: Option<Role>, name: Option<string>, email: Option<string>)

  datatype Session = Session(user: Option<SessionUser>)

  /** `session`: a session with a user takes the token's id and role, user by default. */
  function SessionOf(s: Session, t: Token): (r: Session)
    ensures s.user.None? ==> r == s
    ensures s.user.Some? ==> r.user.Some? && r.user.value.id == t.id && r.user.value.role == Some(t.role.GetOr(User))
    ensures s.user.Some? ==> r.user.value.name == s.user.value.name && r.user.value.email == s.user.value.email
  {
    match s.user
    case None => s
    case Some(u) => Session(Some(u.(id := t.id, role := Some(t.role.GetOr(User)))))
  }

  /** After a successful sign-in, the session carries the user's id and the role normalised from the table. */
  lemma SignInReachesSession(creds: Credentials, users: map<string, UserRow>, check: (string, string) -> bool,
                             t: Token, s: Session)
    requires Authorize(creds, users, check).Some?
    requires s.user.Some?
    ensures var u := users[NormaliseEmail(creds.email.value)];
      var r := SessionOf(s, Jwt(t, Some(AsTokenUser(Authorize(creds, users, check).value))));
      r.user.value.id == Some(u.id) && r.user.value.role == Some(RoleOf(u.role))
  {
  }

  /** A token that never saw a role gives the session the user role. */
  lemma RoleDefaultsToUser(s: Session, t: Token)
    requires s.user.Some? && t.role.None?
    ensures SessionOf(s, t).user.value.role == Some(User)
  {
  }
}
