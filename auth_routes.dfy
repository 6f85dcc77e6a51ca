/**
 * The `/auth` routes (backend/app/routes/auth.py) and the user row they
 * work on (backend/app/models/user.py). Password hashing, token signing and
 * the token ids the JWT library draws are abstract: `hash`, `check` and the
 * `jti` parameters.
 */
module AuthRoutes {
  import opened Wrappers
  import opened Table
  import opened Text
  import opened Http

  /** Hashes a password, as `generate_password_hash` does. */
  type Hasher = string -> string
  /** `check_password_hash(stored, password)`. */
  type Checker = (string, string) -> bool

  /** One user row. `passwordHash` never leaves the server. */
  datatype User = User(
    username: string,
    email: string,
    passwordHash: string,
    firstName: Option<string>,
    lastName: Option<string>,
    isActive: bool)

  /** `User.to_dict()`: every column except the password hash. */
  datatype UserView = UserView(
    id: int,
    username: string,
    email: string,
    firstName: Option<string>,
    lastName: Option<string>,
    isActive: bool)

  /** The JSON form of user `id`; it has no field for the hash. */
  function ToUserDict(id: int, u: User): (v: UserView)
    ensures v.id == id && v.username == u.username && v.email == u.email
    ensures v.firstName == u.firstName && v.lastName == u.lastName && v.isActive == u.isActive
  {
    UserView(id, u.username, u.email, u.firstName, u.lastName, u.isActive)
  }

  /** An access token is accepted by `@jwt_required()`, a refresh token by `@jwt_required(refresh=True)`. */
  datatype TokenKind = Access | Refresh

  /** The claims of a signed token the routes read: its kind, `sub` and `jti`. */
  datatype Token = Token(kind: TokenKind, identity: string, jti: string)

  /** `check_if_token_in_blacklist`: a token is revoked exactly when its id was blocklisted. */
  predicate IsRevoked(blocklist: set<string>, jti: string) {
    jti in blocklist
  }

  /**
   * The decorator lets a request through with a token of the right kind that
   * is not revoked: the admission rule every guarded route is stated in.
   */
  function Admits(blocklist: set<string>, t: Token, kind: TokenKind): (b: bool)
    ensures IsRevoked(blocklist, t.jti) ==> !b
    ensures t.kind != kind ==> !b
    ensures b <==> t.kind == kind && t.jti !in blocklist
  {
    t.kind == kind && !IsRevoked(blocklist, t.jti)
  }

  /** The user filter `filter_by(username=name)`. */
  function HasUsername(name: string): User -> bool {
    (u: User) => u.username == name
  }

  /** The user filter `filter_by(email=address)`. */
  function HasEmail(address: string): User -> bool {
    (u: User) => u.email == address
  }

  /** No two users share a username or an email (the `unique=True` columns). */
  predicate UniqueAccounts(users: map<int, User>) {
    && (forall i, j :: i in users && j in users && users[i].username == users[j].username ==> i == j)
    && (forall i, j :: i in users && j in users && users[i].email == users[j].email ==> i == j)
  }

  /** The JSON body of POST /auth/register; None for a missing key. */
  datatype RegisterRequest = RegisterRequest(
    username: Option<string>,
    email: Option<string>,
    password: Option<string>,
    firstName: Option<string>,
    lastName: Option<string>)

  /**
   * The user POST /auth/register would insert, or its error: 400 unless
   * username, email and password are all given, then 409 for a taken
   * username, then 409 for a taken email. A new user is active and stores
   * only the hash of the password.
   */
  function NewUser(users: map<int, User>, req: RegisterRequest, hash: Hasher): (r: Response<User>)
    ensures r.Failure? && r.status == 400 <==> !(Given(req.username) && Given(req.email) && Given(req.password))
    ensures r.Failure? && r.status == 400 ==> r.message == "Missing required fields"
    ensures r.Failure? && r.message == "Username already exists" <==>
      Given(req.username) && Given(req.email) && Given(req.password)
      && exists k :: k in users && users[k].username == req.username.value
    ensures r.Failure? && r.message == "Email already exists" <==>
      && Given(req.username) && Given(req.email) && Given(req.password)
      && (forall k :: k in users ==> users[k].username != req.username.value)
      && exists k :: k in users && users[k].email == req.email.value
    ensures r.Failure? && r.status == 409 ==> r.message in {"Username already exists", "Email already exists"}
    ensures r.Failure? ==> r.status in {400, 409}
    ensures r.Success? <==>
      && Given(req.username) && Given(req.email) && Given(req.password)
      && forall k :: k in users ==> users[k].username != req.username.value && users[k].email != req.email.value
    ensures r.Success? ==>
      && r.status == 201
      && req.username == Some(r.body.username) && req.email == Some(r.body.email)
      && req.password.Some? && r.body.passwordHash == hash(req.password.value)
      && r.body.firstName == req.firstName && r.body.lastName == req.lastName
      && r.body.isActive
      && (forall k :: k in users ==> users[k].username != r.body.username && users[k].email != r.body.email)
  {
    if !(Given(req.username) && Given(req.email) && Given(req.password)) then
      Failure(400, "Missing required fields")
    else if FirstWhere(users, HasUsername(req.username.value)).Some? then
      Failure(409, "Username already exists")
    else if FirstWhere(users, HasEmail(req.email.value)).Some? then
      Failure(409, "Email already exists")
    else
      Success(201, User(req.username.value, req.email.value, hash(req.password.value),
                        req.firstName, req.lastName, true))
  }

  /** The JSON body of POST /auth/login; None for a missing key. */
  datatype LoginRequest = LoginRequest(username: Option<string>, password: Option<string>)

  /** The body of a successful login: both tokens carry the user's id as text. */
  datatype LoginBody = LoginBody(accessToken: Token, refreshToken: Token, user: UserView)

  /**
   * POST /auth/login: 400 when the username or the password is missing or
   * empty; 401 for an unknown username or a wrong password alike; 403 for a
   * disabled account; otherwise an access and a refresh token whose identity
   * is `str(user.id)`.
   */
  function Login(users: map<int, User>, req: LoginRequest, check: Checker, accessJti: string, refreshJti: string)
    : (r: Response<LoginBody>)
    ensures r.Failure? && r.status == 400 <==> !(Given(req.username) && Given(req.password))
    ensures r.Failure? && r.status == 400 ==> r.message == "Missing username or password"
    ensures r.Failure? ==> r.status in {400, 401, 403}
    ensures r.Failure? && r.status == 401 ==> r.message == "Invalid credentials"
    ensures r.Failure? && r.status == 403 ==> r.message == "Account is disabled"
    ensures r.Success? ==>
      && r.status == 200
      && req.username.Some? && req.password.Some?
      && (exists id :: id in users && users[id].username == req.username.value
            && check(users[id].passwordHash, req.password.value) && users[id].isActive
            && r.body == LoginBody(Token(Access, IntToString(id), accessJti), Token(Refresh, IntToString(id), refreshJti),
                                   ToUserDict(id, users[id])))
    ensures Given(req.username) && Given(req.password) && (forall k :: k in users ==> users[k].username != req.username.value)
      ==> r == Failure(401, "Invalid credentials")
    ensures Given(req.username) && Given(req.password) && FirstWhere(users, HasUsername(req.username.value)).Some? ==>
      var id := FirstWhere(users, HasUsername(req.username.value)).value;
      var passes := check(users[id].passwordHash, req.password.value);
      && (!passes ==> r == Failure(401, "Invalid credentials"))
      && (passes && !users[id].isActive ==> r == Failure(403, "Account is disabled"))
      && (passes && users[id].isActive ==> r.Success?)
  {
    if !(Given(req.username) && Given(req.password)) then
      Failure(400, "Missing username or password")
    else
      match FirstWhere(users, HasUsername(req.username.value))
      case None => Failure(401, "Invalid credentials")
      case Some(id) =>
        var u := users[id];
        if !check(u.passwordHash, req.password.value) then Failure(401, "Invalid credentials")
        else if !u.isActive then Failure(403, "Account is disabled")
        else
          var identity := IntToString(id);
          Success(200, LoginBody(Token(Access, identity, accessJti), Token(Refresh, identity, refreshJti),
                                 ToUserDict(id, u)))
  }

  /**
   * With usernames unique, the account `k` carrying the username decides the
   * login: a wrong password gives 401, a right one on a disabled account 403
   * (the password is checked first), and a right one on an active account
   * succeeds with tokens naming `k`.
   */
  lemma LoginByAccount(users: map<int, User>, req: LoginRequest, check: Checker, accessJti: string,
                       refreshJti: string, k: int)
    requires UniqueAccounts(users)
    requires Given(req.username) && Given(req.password)
    requires k in users && users[k].username == req.username.value
    ensures var r := Login(users, req, check, accessJti, refreshJti);
      && (!check(users[k].passwordHash, req.password.value) ==> r == Failure(401, "Invalid credentials"))
      && (check(users[k].passwordHash, req.password.value) && !users[k].isActive ==>
            r == Failure(403, "Account is disabled"))
      && (check(users[k].passwordHash, req.password.value) && users[k].isActive ==>
            r == Success(200, LoginBody(Token(Access, IntToString(k), accessJti), Token(Refresh, IntToString(k), refreshJti),
                                        ToUserDict(k, users[k]))))
  {
    var found := FirstWhere(users, HasUsername(req.username.value));
    assert HasUsername(req.username.value)(users[k]);
    assert found.Some? && found.value == k;
  }

  /** With usernames unique, a login succeeds exactly for an active account whose password checks. */
  lemma LoginSucceedsIff(users: map<int, User>, req: LoginRequest, check: Checker, accessJti: string, refreshJti: string)
    requires UniqueAccounts(users)
    ensures Login(users, req, check, accessJti, refreshJti).Success? <==>
      && Given(req.username) && Given(req.password)
      && exists k :: k in users && users[k].username == req.username.value
           && check(users[k].passwordHash, req.password.value) && users[k].isActive
  {
    if Given(req.username) && Given(req.password) {
      var found := FirstWhere(users, HasUsername(req.username.value));
      if found.Some? {
        LoginByAccount(users, req, check, accessJti, refreshJti, found.value);
      }
    }
  }

  /** POST /auth/refresh: a refresh token buys a new access token for the same identity. */
  function RefreshToken(blocklist: set<string>, t: Token, newJti: string): (r: Guarded<Token>)
    ensures r.Refused? <==> !Admits(blocklist, t, Refresh)
    ensures r.Handled? ==> r.response == Success(200, Token(Access, t.identity, newJti))
  {
    if !Admits(blocklist, t, Refresh) then Refused
    else Handled(Success(200, Token(Access, t.identity, newJti)))
  }

  /**
   * GET /auth/me: the user the access token names. An identity that is not
   * an integer makes `int()` raise, which Flask answers with 500.
   */
  function GetCurrentUser(users: map<int, User>, blocklist: set<string>, t: Token): (r: Guarded<UserView>)
    ensures r.Refused? <==> !Admits(blocklist, t, Access)
    ensures r.Handled? && r.response.Failure? && r.response.status == 500 <==>
      Admits(blocklist, t, Access) && ParseInt(t.identity).None?
    ensures r.Handled? && ParseInt(t.identity).Some? ==>
      var id := ParseInt(t.identity).value;
      if id in users then r.response == Success(200, ToUserDict(id, users[id]))
      else r.response == Failure(404, "User not found")
  {
    if !Admits(blocklist, t, Access) then Refused
    else
      match ParseInt(t.identity)
      case None => Handled(Failure(500, "Internal Server Error"))
      case Some(id) =>
        if id in users then Handled(Success(200, ToUserDict(id, users[id])))
        else Handled(Failure(404, "User not found"))
  }

  /** The access token a login hands out opens /auth/me for that same user while it is not revoked. */
  lemma LoginThenMe(users: map<int, User>, req: LoginRequest, check: Checker, accessJti: string,
                    refreshJti: string, blocklist: set<string>)
    requires Login(users, req, check, accessJti, refreshJti).Success?
    requires accessJti !in blocklist
    ensures var body := Login(users, req, check, accessJti, refreshJti).body;
      GetCurrentUser(users, blocklist, body.accessToken) == Handled(Success(200, body.user))
  {
    var body := Login(users, req, check, accessJti, refreshJti).body;
    var id :| id in users && body.accessToken.identity == IntToString(id) && body.user == ToUserDict(id, users[id]);
    ParseIntToString(id);
  }

  /** A refreshed access token names the same user as the login it came from. */
  lemma RefreshKeepsIdentity(users: map<int, User>, req: LoginRequest, check: Checker, accessJti: string,
                             refreshJti: string, blocklist: set<string>, newJti: string)
    requires Login(users, req, check, accessJti, refreshJti).Success?
    requires refreshJti !in blocklist && newJti !in blocklist
    ensures var body := Login(users, req, check, accessJti, refreshJti).body;
      var renewed := RefreshToken(blocklist, body.refreshToken, newJti);
      && renewed.Handled? && renewed.response.Success?
      && GetCurrentUser(users, blocklist, renewed.response.body) == Handled(Success(200, body.user))
  {
    var body := Login(users, req, check, accessJti, refreshJti).body;
    assert body.refreshToken.identity == body.accessToken.identity;
    LoginThenMe(users, req, check, newJti, refreshJti, blocklist);
  }

  /**
   * Logging out revokes only the access token: the refresh token from the
   * same login still buys a new access token, which opens /auth/me for the
   * same user.
   */
  lemma LogoutKeepsRefreshUsable(users: map<int, User>, req: LoginRequest, check: Checker, accessJti: string,
                                 refreshJti: string, blocklist: set<string>, newJti: string)
    requires Login(users, req, check, accessJti, refreshJti).Success?
    requires refreshJti != accessJti && refreshJti !in blocklist
    requires newJti != accessJti && newJti !in blocklist
    ensures var body := Login(users, req, check, accessJti, refreshJti).body;
      var after := blocklist + {body.accessToken.jti};
      var renewed := RefreshToken(after, body.refreshToken, newJti);
      && GetCurrentUser(users, after, body.accessToken).Refused?
      && renewed.Handled? && renewed.response.Success?
      && GetCurrentUser(users, after, renewed.response.body) == Handled(Success(200, body.user))
  {
    RefreshKeepsIdentity(users, req, check, accessJti, refreshJti, blocklist + {accessJti}, newJti);
  }

  /** A refresh token never opens a route that wants an access token, nor the reverse. */
  lemma KindsDoNotMix(blocklist: set<string>, t: Token)
    ensures Admits(blocklist, t, Access) ==> !Admits(blocklist, t, Refresh)
    ensures t.kind == Refresh ==> GetCurrentUser(map[], blocklist, t).Refused?
    ensures t.kind == Access ==> RefreshToken(blocklist, t, t.jti).Refused?
  {
  }

  /** The user table and the token blocklist, which the routes update in place. */
  class AuthServer {
    var users: map<int, User>
    /** `blacklisted_tokens`: the ids of the tokens logged out so far. */
    var blocklist: set<string>

    /** Keys are positive and usernames and emails are unique. */
    ghost predicate Valid()
      reads this
    {
      && (forall id :: id in users ==> 1 <= id)
      && UniqueAccounts(users)
    }

    /** No users and nothing revoked. */
    constructor ()
      ensures Valid()
      ensures users == map[] && blocklist == {}
    {
      users := map[];
      blocklist := {};
    }

    /** POST /auth/register: inserts the new user under the key SQLite assigns, or changes nothing. */
    method Register(req: RegisterRequest, hash: Hasher) returns (r: Response<UserView>)
      requires Valid()
      modifies this
      ensures Valid()
      ensures blocklist == old(blocklist)
      ensures var made := NewUser(old(users), req, hash);
        if made.Failure? then
          && r == Failure(made.status, made.message)
          && users == old(users)
        else
          var id := NextRowId(old(users));
          && r == Success(201, ToUserDict(id, made.body))
          && users == old(users)[id := made.body]
    {
      var made := NewUser(users, req, hash);
      if made.Failure? {
        return Failure(made.status, made.message);
      }
      var id := NextRowId(users);
      users := users[id := made.body];
      r := Success(201, ToUserDict(id, made.body));
    }

    /**
     * POST /auth/logout: revokes the presented access token by adding its
     * id to the blocklist; the blocklist only grows.
     */
    method Logout(t: Token) returns (r: Guarded<string>)
      requires Valid()
      modifies this
      ensures Valid()
      ensures users == old(users)
      ensures r.Refused? <==> !Admits(old(blocklist), t, Access)
      ensures r.Refused? ==> blocklist == old(blocklist)
      ensures r.Handled? ==> r.response == Success(200, "Logout successful") && blocklist == old(blocklist) + {t.jti}
      ensures old(blocklist) <= blocklist
    {
      if !Admits(blocklist, t, Access) {
        return Refused;
      }
      blocklist := blocklist + {t.jti};
      r := Handled(Success(200, "Logout successful"));
    }
  }

  /** Once its id is blocklisted a token opens no route any more, of either kind. */
  lemma LoggedOutTokenIsRefused(users: map<int, User>, blocklist: set<string>, t: Token, newJti: string)
    requires t.jti in blocklist
    ensures GetCurrentUser(users, blocklist, t).Refused?
    ensures RefreshToken(blocklist, t, newJti).Refused?
    ensures forall kind :: !Admits(blocklist, t, kind)
  {
  }

  /**
   * A user who has just registered can log in with the same username and
   * password, and the tokens name the new key, provided the password check
   * accepts the hash of that password.
   */
  lemma RegisterThenLogin(users: map<int, User>, id: int, req: RegisterRequest, hash: Hasher, check: Checker,
                          accessJti: string, refreshJti: string)
    requires UniqueAccounts(users) && id !in users
    requires NewUser(users, req, hash).Success?
    requires check(hash(req.password.value), req.password.value)
    ensures var u := NewUser(users, req, hash).body;
      Login(users[id := u], LoginRequest(req.username, req.password), check, accessJti, refreshJti)
        == Success(200, LoginBody(Token(Access, IntToString(id), accessJti), Token(Refresh, IntToString(id), refreshJti),
                                  ToUserDict(id, u)))
  {
    var u := NewUser(users, req, hash).body;
    var after := users[id := u];
    var found := FirstWhere(after, HasUsername(u.username));
    assert HasUsername(u.username)(after[id]);
    assert found.Some? && found.value == id;
  }

  /** Registration keeps usernames and emails unique. */
  lemma RegisterKeepsAccountsUnique(users: map<int, User>, id: int, req: RegisterRequest, hash: Hasher)
    requires UniqueAccounts(users) && id !in users
    requires NewUser(users, req, hash).Success?
    ensures UniqueAccounts(users[id := NewUser(users, req, hash).body])
  {
  }
}
