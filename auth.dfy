/**
 * The decision logic of app/routes/auth.py. Password hashing and verification, token
 * creation and token decoding (app/security.py) are parameters of these functions.
 */
module Auth {
  import opened Wrappers
  import opened Models
  import opened Http
  import opened Decimal
  import Ordering
  import Handlers

  /** `register` refuses passwords shorter than this. */
  const PASSWORD_MIN_LENGTH: nat := 6

  /** The registration body. */
  datatype UserCreate = UserCreate(firstName: string, lastName: Option<string>, username: string, password: string)

  /** The user as returned: everything but the password. */
  datatype UserOut = UserOut(id: int, firstName: string, lastName: Option<string>, username: string)

  datatype LoginRequest = LoginRequest(username: string, password: string)

  datatype Token = Token(accessToken: string)

  /** The decoded token payload; only its `sub` claim is read. */
  datatype TokenPayload = TokenPayload(sub: Option<string>)

  function ToUserOut(id: int, u: User): (o: UserOut)
    ensures o.id == id && o.firstName == u.firstName && o.lastName == u.lastName && o.username == u.username
  {
    UserOut(id, u.firstName, u.lastName, u.username)
  }

  /** The row `register` inserts: the password column receives the digest. */
  function NewUser(p: UserCreate, hashPassword: string -> string): (u: User)
    ensures u.password == hashPassword(p.password)
    ensures u.username == p.username && u.firstName == p.firstName && u.lastName == p.lastName
  {
    User(p.firstName, p.lastName, p.username, hashPassword(p.password))
  }

  /**
   * `register`: 400 for a short password before anything is hashed or stored; then insert
   * and commit. Only the unique constraint on `username` is caught, as a 400; the
   * driver's `ValueError` for a string holding U+0000 and a `DataError` (an over-long
   * column, the id sequence exhausted) escape as 500.
   */
  function Register(s: Store, p: UserCreate, hashPassword: string -> string): (o: Handlers.Outcome<UserOut>)
    requires Valid(s)
    ensures Valid(o.store)
    ensures o.response.Err? ==> o.store == s
    ensures |p.password| < PASSWORD_MIN_LENGTH ==> o.response == Err(PasswordTooShort)
    ensures |p.password| >= PASSWORD_MIN_LENGTH &&
            (!UserNulFree(NewUser(p, hashPassword)) || !UserFits(NewUser(p, hashPassword)) || s.nextUserId > INT4_MAX) ==>
      o.response == Err(InternalError)
    ensures |p.password| >= PASSWORD_MIN_LENGTH && Insertable(s, NewUser(p, hashPassword)) && UsernameTaken(s.users, p.username) ==>
      o.response == Err(UsernameExists)
    ensures o.response.Ok? <==>
      |p.password| >= PASSWORD_MIN_LENGTH && Insertable(s, NewUser(p, hashPassword)) && !UsernameTaken(s.users, p.username)
    ensures o.response.Ok? ==>
      var id := o.response.value.id;
      && id == s.nextUserId && id !in s.users
      && o.store == s.(users := s.users[id := NewUser(p, hashPassword)], nextUserId := id + 1)
      && o.store.users[id].password == hashPassword(p.password)
      && o.response.value == ToUserOut(id, o.store.users[id])
  {
    if |p.password| < PASSWORD_MIN_LENGTH then Handlers.Outcome(s, Err(PasswordTooShort))
    else
      var id := s.nextUserId;
      match InsertUser(s, NewUser(p, hashPassword))
      case Err(IntegrityError) => Handlers.Outcome(s, Err(UsernameExists))
      case Err(_) => Handlers.Outcome(s, Err(InternalError))
      case Ok(u) =>
        AddUserKeepsValid(s, u);
        Handlers.Outcome(s.(users := s.users[id := u], nextUserId := id + 1), Ok(ToUserOut(id, u)))
  }

  /** The row binds, fits its columns and gets an id: only the unique constraint is left. */
  predicate Insertable(s: Store, u: User)
  {
    UserNulFree(u) && UserFits(u) && s.nextUserId <= INT4_MAX
  }

  /** `select(User).where(User.username == name)`: the one row with that username, if any. */
  function FindByUsername(users: map<int, User>, name: string): (r: Option<int>)
    requires UniqueUsernames(users)
    ensures r.Some? <==> UsernameTaken(users, name)
    ensures r.Some? ==> r.value in users && users[r.value].username == name
    ensures forall id :: id in users && users[id].username == name ==> r == Some(id)
  {
    var matches := set id | id in users && users[id].username == name;
    if !UsernameTaken(users, name) then None
    else
      var id :| id in users && users[id].username == name;
      assert id in matches;
      Some(Ordering.Max(matches))
  }

  /**
   * `login`: the lookup by username binds it as a string, so one holding U+0000 makes the
   * driver raise `ValueError`, a 500. Otherwise 401 unless a user has that username and
   * the password verifies against the stored digest; then a token whose subject is that
   * user's id.
   */
  function Login(users: map<int, User>, p: LoginRequest, verifyPassword: (string, string) -> bool,
                 createAccessToken: int -> string): (r: Response<Token>)
    requires UniqueUsernames(users)
    ensures !NulFree(p.username) ==> r == Err(InternalError)
    ensures NulFree(p.username) && r.Err? ==> r.error == Unauthorized
    ensures r.Ok? <==> (NulFree(p.username) &&
      exists id :: id in users && users[id].username == p.username && verifyPassword(p.password, users[id].password))
    ensures r.Ok? ==> exists id :: id in users && users[id].username == p.username && r.value.accessToken == createAccessToken(id)
  {
    if !NulFree(p.username) then Err(InternalError)
    else match FindByUsername(users, p.username)
      case None => Err(Unauthorized)
      case Some(id) =>
        if !verifyPassword(p.password, users[id].password) then Err(Unauthorized)
        else Ok(Token(createAccessToken(id)))
  }

  /**
   * The `try` block of `get_current_user`: decode the token and parse `sub` with `int()`.
   * `None` is the 401 raised for a missing or undecodable token or a non-integer `sub`;
   * `Some(None)` is a token without `sub`.
   */
  function ClaimedUserId(token: Option<string>, decodeToken: string -> Option<TokenPayload>): (r: Option<Option<int>>)
    ensures r.Some? <==> (token.Some? && decodeToken(token.value).Some? &&
      (decodeToken(token.value).value.sub.Some? ==> ParseInt(decodeToken(token.value).value.sub.value).Some?))
    ensures r.Some? && r.value.Some? ==>
      decodeToken(token.value).value.sub.Some? && ParseInt(decodeToken(token.value).value.sub.value) == r.value
    ensures r.Some? && r.value.None? ==> decodeToken(token.value).value.sub.None?
  {
    if token.None? then None
    else match decodeToken(token.value)
      case None => None
      case Some(payload) =>
        match payload.sub
        case None => Some(None)
        case Some(sub) => match ParseInt(sub)
          case None => None
          case Some(n) => Some(Some(n))
  }

  /**
   * `get_current_user`: 401 unless the token decodes, `sub` parses to a non-zero integer
   * (Python treats 0 as false) and a user with that id exists; then that user's id.
   */
  function GetCurrentUser(users: map<int, User>, token: Option<string>, decodeToken: string -> Option<TokenPayload>): (r: Response<int>)
    ensures r.Err? ==> r.error == Unauthorized
    ensures r.Ok? <==> var c := ClaimedUserId(token, decodeToken);
      c.Some? && c.value.Some? && c.value.value != 0 && c.value.value in users
    ensures r.Ok? ==> r.value in users && ClaimedUserId(token, decodeToken) == Some(Some(r.value))
  {
    match ClaimedUserId(token, decodeToken)
    case None => Err(Unauthorized)
    case Some(userId) =>
      if userId.None? || userId.value == 0 || userId.value !in users then Err(Unauthorized)
      else Ok(userId.value)
  }

  /** A token without `sub`, or one naming no stored user, is refused like a forged one. */
  lemma UnknownSubjectRefused(s: Store, token: string, decodeToken: string -> Option<TokenPayload>)
    requires Valid(s)
    requires decodeToken(token).Some?
    requires var sub := decodeToken(token).value.sub;
      sub.None? || ParseInt(sub.value).None? || ParseInt(sub.value).value !in s.users
    ensures GetCurrentUser(s.users, Some(token), decodeToken) == Err(Unauthorized)
  {
  }

  /**
   * A token issued by `login` authenticates its user, as long as decoding gives back the
   * subject the token was created with (a correctly signed token before it expires).
   */
  lemma LoginTokenAuthenticates(s: Store, p: LoginRequest, verifyPassword: (string, string) -> bool,
                                createAccessToken: int -> string, decodeToken: string -> Option<TokenPayload>)
    requires Valid(s)
    requires forall uid :: uid in s.users ==> decodeToken(createAccessToken(uid)) == Some(TokenPayload(Some(IntToString(uid))))
    requires Login(s.users, p, verifyPassword, createAccessToken).Ok?
    ensures var r := GetCurrentUser(s.users, Some(Login(s.users, p, verifyPassword, createAccessToken).value.accessToken), decodeToken);
      r.Ok? && r.value in s.users && s.users[r.value].username == p.username
  {
    var id := FindByUsername(s.users, p.username).value;
    ParseShowRoundTrip(id);
    assert id >= 1;
  }
}
