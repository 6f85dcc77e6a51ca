/**
 * The browser's session state (frontend/src/contexts/AuthContext.js): the
 * `localStorage` entries holding the two tokens, and the `user`, `token`
 * and `loading` state of the provider. Each backend call is answered by a
 * reply the caller passes in, and every operation reports the calls it made.
 */
module AuthContext {
  import opened Wrappers
  import opened Text
  import opened Http
  import opened AuthRoutes

  /** The `localStorage` keys of the two tokens. */
  const AccessKey: string := "accessToken"
  const RefreshKey: string := "refreshToken"

  /** A backend request the session sends. */
  datatype Call = GetMe | PostLogin(username: string, password: string) | PostRegister | PostLogout | PostRefresh(refresh: string)

  /** The data of a successful POST /auth/login. */
  datatype LoginReply = LoginReply(accessToken: string, refreshToken: string, user: UserView)

  /** `{ success: true, data }` or `{ success: false, message }`. */
  datatype Outcome<T> = Succeeded(data: T) | Failed(message: string)

  /** `error.response?.data?.message || fallback`: an empty message counts as none. */
  function ErrorText(message: Option<string>, fallback: string): (t: string)
    ensures Given(message) ==> t == message.value
    ensures !Given(message) ==> t == fallback
  {
    if Given(message) then message.value else fallback
  }

  /** The state a provider holds. */
  datatype SessionState = SessionState(
    storage: map<string, string>,
    user: Option<UserView>,
    token: Option<string>,
    loading: bool)

  /** An operation's new state, the requests it sent, in order, and its result. */
  datatype Step<R> = Step(state: SessionState, calls: seq<Call>, result: R)

  /** `isAuthenticated: !!user`. */
  predicate Authenticated(s: SessionState) {
    s.user.Some?
  }

  /** A stored value JavaScript treats as true: present and non-empty. */
  predicate Stored(storage: map<string, string>, key: string) {
    Given(Lookup(storage, key))
  }

  /** The `token` state mirrors the access token in storage. */
  predicate TokenInSync(s: SessionState) {
    s.token == Lookup(s.storage, AccessKey)
  }

  /** The provider's first render: no user, loading, the token read from storage. */
  function InitialState(storage: map<string, string>): (s: SessionState)
    ensures !Authenticated(s) && s.loading && TokenInSync(s) && s.storage == storage
  {
    SessionState(storage, None, Lookup(storage, AccessKey), true)
  }

  /** Removes both tokens from storage. */
  function ForgetTokens(storage: map<string, string>): (r: map<string, string>)
    ensures AccessKey !in r && RefreshKey !in r
    ensures forall k :: k in storage && k != AccessKey && k != RefreshKey ==> k in r && r[k] == storage[k]
    ensures r.Keys <= storage.Keys
  {
    storage - {AccessKey, RefreshKey}
  }

  /**
   * `initializeAuth`: with a stored access token, asks /auth/me and keeps
   * the user it returns, or forgets both tokens when the request fails;
   * without one it sends nothing. Loading ends either way and the `token`
   * state is left as it was.
   */
  function InitializeAuthStep(s: SessionState, me: Reply<UserView>): (r: Step<()>)
    ensures !r.state.loading && r.state.token == s.token
    ensures r.calls == if Stored(s.storage, AccessKey) then [GetMe] else []
    ensures !Stored(s.storage, AccessKey) ==> r.state == s.(loading := false)
    ensures Stored(s.storage, AccessKey) && me.Ok? ==> r.state == s.(user := Some(me.data), loading := false)
    ensures Stored(s.storage, AccessKey) && me.Err? ==>
      r.state == s.(storage := ForgetTokens(s.storage), loading := false)
  {
    if Stored(s.storage, AccessKey) then
      match me
      case Ok(u) => Step(s.(user := Some(u), loading := false), [GetMe], ())
      case Err(_) => Step(s.(storage := ForgetTokens(s.storage), loading := false), [GetMe], ())
    else Step(s.(loading := false), [], ())
  }

  /**
   * `login`: on success stores both tokens and sets the token and the user;
   * on failure changes nothing and reports the server's message, or
   * `Login failed`.
   */
  function LoginStep(s: SessionState, username: string, password: string, reply: Reply<LoginReply>)
    : (r: Step<Outcome<()>>)
    ensures r.calls == [PostLogin(username, password)]
    ensures r.result.Succeeded? <==> reply.Ok?
    ensures reply.Ok? ==>
      && r.state.storage == s.storage[AccessKey := reply.data.accessToken][RefreshKey := reply.data.refreshToken]
      && r.state.token == Some(reply.data.accessToken)
      && r.state.user == Some(reply.data.user)
      && r.state.loading == s.loading
    ensures reply.Err? ==> r.state == s && r.result == Failed(ErrorText(reply.message, "Login failed"))
  {
    match reply
    case Ok(data) =>
      var storage := s.storage[AccessKey := data.accessToken][RefreshKey := data.refreshToken];
      Step(s.(storage := storage, token := Some(data.accessToken), user := Some(data.user)),
           [PostLogin(username, password)], Succeeded(()))
    case Err(message) => Step(s, [PostLogin(username, password)], Failed(ErrorText(message, "Login failed")))
  }

  /** `register`: the server's data on success, its message or `Registration failed` otherwise; no state changes. */
  function RegisterResult<T>(reply: Reply<T>): (r: Outcome<T>)
    ensures r.Succeeded? <==> reply.Ok?
    ensures r.Succeeded? ==> r.data == reply.data
    ensures r.Failed? ==> r.message == ErrorText(reply.message, "Registration failed")
  {
    match reply
    case Ok(data) => Succeeded(data)
    case Err(message) => Failed(ErrorText(message, "Registration failed"))
  }

  /**
   * `logout`: tells the server, then, whatever it answers, forgets both
   * tokens and clears the token and the user.
   */
  function LogoutStep(s: SessionState): (r: Step<()>)
    ensures r.calls == [PostLogout]
    ensures r.state.storage == ForgetTokens(s.storage)
    ensures r.state.token.None? && r.state.user.None? && r.state.loading == s.loading
  {
    Step(s.(storage := ForgetTokens(s.storage), token := None, user := None), [PostLogout], ())
  }

  /**
   * `refreshToken`: with a stored refresh token, trades it for a new access
   * token, stored and set as the token state. Without one, or when the
   * request fails, logs out and throws (None).
   */
  function RefreshStep(s: SessionState, reply: Reply<string>): (r: Step<Option<string>>)
    ensures !Stored(s.storage, RefreshKey) ==> r.calls == [PostLogout]
    ensures Stored(s.storage, RefreshKey) ==>
      r.calls == [PostRefresh(s.storage[RefreshKey])] + (if reply.Ok? then [] else [PostLogout])
    ensures r.result.Some? <==> Stored(s.storage, RefreshKey) && reply.Ok?
    ensures r.result.Some? ==>
      && r.result.value == reply.data
      && r.state == s.(storage := s.storage[AccessKey := reply.data], token := Some(reply.data))
    ensures r.result.None? ==> r.state == LogoutStep(s).state
  {
    var refresh := Lookup(s.storage, RefreshKey);
    if !Given(refresh) then
      var out := LogoutStep(s);
      Step(out.state, out.calls, None)
    else
      match reply
      case Ok(access) =>
        Step(s.(storage := s.storage[AccessKey := access], token := Some(access)), [PostRefresh(refresh.value)],
             Some(access))
      case Err(_) =>
        var out := LogoutStep(s);
        Step(out.state, [PostRefresh(refresh.value)] + out.calls, None)
  }

  /** Logging out twice leaves the same state as logging out once. */
  lemma LogoutIdempotent(s: SessionState)
    ensures LogoutStep(LogoutStep(s).state).state == LogoutStep(s).state
  {
  }

  /** After a logout nobody is signed in and no token is left in storage. */
  lemma LogoutEndsSession(s: SessionState)
    ensures var t := LogoutStep(s).state;
      !Authenticated(t) && !Stored(t.storage, AccessKey) && !Stored(t.storage, RefreshKey) && TokenInSync(t)
  {
  }

  /** A login followed by a logout ends where a logout alone ends. */
  lemma LoginThenLogout(s: SessionState, username: string, password: string, reply: Reply<LoginReply>)
    ensures LogoutStep(LoginStep(s, username, password, reply).state).state == LogoutStep(s).state
  {
    var t := LoginStep(s, username, password, reply).state;
    assert ForgetTokens(t.storage) == ForgetTokens(s.storage);
  }

  /** A successful login signs the user in with the token it stored. */
  lemma LoginAuthenticates(s: SessionState, username: string, password: string, data: LoginReply)
    ensures var t := LoginStep(s, username, password, Ok(data)).state;
      Authenticated(t) && t.user == Some(data.user) && TokenInSync(t)
      && Lookup(t.storage, RefreshKey) == Some(data.refreshToken)
  {
  }

  /** A failed refresh, for whatever reason, leaves exactly the state of a logout. */
  lemma RefreshFailureLogsOut(s: SessionState, reply: Reply<string>)
    requires RefreshStep(s, reply).result.None?
    ensures RefreshStep(s, reply).state == LogoutStep(s).state
    ensures !Authenticated(RefreshStep(s, reply).state)
  {
  }

  /** A successful refresh keeps the user signed in and the token state in step with storage. */
  lemma RefreshKeepsUser(s: SessionState, reply: Reply<string>)
    requires RefreshStep(s, reply).result.Some?
    ensures RefreshStep(s, reply).state.user == s.user
    ensures TokenInSync(RefreshStep(s, reply).state)
  {
  }

  /** Login, logout and refresh keep the token state in step with storage. */
  lemma OperationsKeepTokenInSync(s: SessionState, username: string, password: string,
                                  login: Reply<LoginReply>, refresh: Reply<string>)
    requires TokenInSync(s)
    ensures TokenInSync(LoginStep(s, username, password, login).state)
    ensures TokenInSync(LogoutStep(s).state)
    ensures TokenInSync(RefreshStep(s, refresh).state)
  {
  }

  /**
   * A failing /auth/me at start-up forgets the stored tokens but not the
   * `token` state read from storage on the first render, so the two drift
   * apart (the user stays signed out).
   */
  lemma FailedStartupKeepsStaleToken(storage: map<string, string>, message: Option<string>)
    requires Stored(storage, AccessKey)
    ensures var t := InitializeAuthStep(InitialState(storage), Err(message)).state;
      && !Authenticated(t)
      && t.token == Some(storage[AccessKey])
      && !TokenInSync(t)
  {
  }

  /** Without a stored access token start-up sends nothing, so the reply cannot matter. */
  lemma StartupWithoutTokenIgnoresReply(s: SessionState, me1: Reply<UserView>, me2: Reply<UserView>)
    requires !Stored(s.storage, AccessKey)
    ensures InitializeAuthStep(s, me1) == InitializeAuthStep(s, me2)
    ensures InitializeAuthStep(s, me1).calls == []
  {
  }

  /** The provider: its state lives in these fields, which every operation updates in place. */
  class Session {
    var storage: map<string, string>
    var user: Option<UserView>
    var token: Option<string>
    var loading: bool

    /** The fields as one value. */
    function State(): SessionState
      reads this
    {
      SessionState(storage, user, token, loading)
    }

    /** `isAuthenticated`. */
    function IsAuthenticated(): (b: bool)
      reads this
      ensures b <==> user.Some?
    {
      user.Some?
    }

    /** The first render over the browser's current storage. */
    constructor (stored: map<string, string>)
      ensures State() == InitialState(stored)
    {
      storage := stored;
      user := None;
      loading := true;
      token := Lookup(stored, AccessKey);
    }

    /** The effect run once after the first render. */
    method InitializeAuth(me: Reply<UserView>) returns (calls: seq<Call>)
      modifies this
      ensures State() == InitializeAuthStep(old(State()), me).state
      ensures calls == InitializeAuthStep(old(State()), me).calls
    {
      calls := [];
      var storedToken := Lookup(storage, AccessKey);
      if Given(storedToken) {
        calls := calls + [GetMe];
        match me {
          case Ok(u) =>
            user := Some(u);
          case Err(_) =>
            storage := storage - {AccessKey};
            storage := storage - {RefreshKey};
        }
      }
      loading := false;
    }

    /** `login(username, password)`. */
    method Login(username: string, password: string, reply: Reply<LoginReply>) returns (r: Outcome<()>, calls: seq<Call>)
      modifies this
      ensures State() == LoginStep(old(State()), username, password, reply).state
      ensures r == LoginStep(old(State()), username, password, reply).result
      ensures calls == LoginStep(old(State()), username, password, reply).calls
    {
      calls := [PostLogin(username, password)];
      match reply {
        case Ok(data) =>
          storage := storage[AccessKey := data.accessToken];
          storage := storage[RefreshKey := data.refreshToken];
          token := Some(data.accessToken);
          user := Some(data.user);
          r := Succeeded(());
        case Err(message) =>
          r := Failed(ErrorText(message, "Login failed"));
      }
    }

    /** `register(userData)`: posts the form and reports the outcome; the session is not touched. */
    method Register<T>(reply: Reply<T>) returns (r: Outcome<T>, calls: seq<Call>)
      ensures State() == old(State())
      ensures r == RegisterResult(reply)
      ensures calls == [PostRegister]
    {
      calls := [PostRegister];
      match reply {
        case Ok(data) =>
          r := Succeeded(data);
        case Err(message) =>
          r := Failed(ErrorText(message, "Registration failed"));
      }
    }

    /** `logout()`: the reply of /auth/logout is not consulted. */
    method Logout() returns (calls: seq<Call>)
      modifies this
      ensures State() == LogoutStep(old(State())).state
      ensures calls == LogoutStep(old(State())).calls
    {
      calls := [PostLogout];
      storage := storage - {AccessKey};
      storage := storage - {RefreshKey};
      token := None;
      user := None;
    }

    /** `refreshToken()`: None stands for the rethrown error. */
    method RefreshToken(reply: Reply<string>) returns (r: Option<string>, calls: seq<Call>)
      modifies this
      ensures State() == RefreshStep(old(State()), reply).state
      ensures r == RefreshStep(old(State()), reply).result
      ensures calls == RefreshStep(old(State()), reply).calls
    {
      var refresh := Lookup(storage, RefreshKey);
      if !Given(refresh) {
        calls := Logout();
        return None, calls;
      }
      calls := [PostRefresh(refresh.value)];
      match reply {
        case Ok(access) =>
          storage := storage[AccessKey := access];
          token := Some(access);
          r := Some(access);
        case Err(_) =>
          var out := Logout();
          calls := calls + out;
          r := None;
      }
    }
  }
}
