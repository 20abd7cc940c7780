/** The session store of the dashboard: the in-memory token, the signed-in
    user's record, the login loading flag and the persisted key/value store,
    together with the operations that log in, restore a session at start-up
    and reset it. Navigation, notifications and the tab and route stores are
    collaborators; what the store asks of them is recorded, in order, as
    effects in a ghost log. */
module Auth {
  import opened Wrappers

  /** The persisted key holding the token. */
  const TokenKey := "token"
  /** The persisted key holding the refresh token (the same value here). */
  const RefreshTokenKey := "refreshToken"
  /** The message shown when a login fails without a server message. */
  const LoginFailedText := "登录失败"
  /** Where a successful login navigates. */
  const HomePath := "/home"

  /** The signed-in user. */
  datatype UserInfo = UserInfo(userId: string, userName: string, roles: seq<string>, buttons: seq<string>)

  /** The record as the store is created, and as a reset leaves it. */
  const EmptyUserInfo := UserInfo("", "", [], [])

  /** Build-time configuration: the route mode and the role that is
      treated as super user when routes are static. */
  datatype AuthEnv = AuthEnv(routeMode: string, staticSuperRole: string)

  /** The `data` part of a login answer; `permissions` may be absent. */
  datatype LoginData = LoginData(authorization: string, userId: string, permissions: Option<seq<string>>)

  /** What the login gateway gives back: an envelope, whose `data` may be
      missing, or a raised error. */
  datatype LoginReply =
    | Reply(status: int, message: Option<string>, data: Option<LoginData>)
    | TransportError

  /** The token pair handed to `loginByToken`. */
  datatype LoginToken = LoginToken(token: string, refreshToken: string)

  /** The requests the store makes of its collaborators, in order. */
  datatype Effect =
    | LoadingStarted
    | LoadingEnded
    | LoginRequested(userName: string, password: string)
    | ErrorMessage(text: string)
    | Navigate(path: string)
    | SuccessNotification(userName: string)
    | ToLogin
    | CacheTabs
    | ResetRouteStore

  /** The store's state as a value. */
  datatype Session = Session(token: string, userInfo: UserInfo, loading: bool, storage: map<string, string>)

  // ---------------------------------------------------------------------
  // Derived flags
  // ---------------------------------------------------------------------

  /** `Boolean(token)`: logged in exactly when the token is non-empty. */
  predicate IsLoginToken(token: string) {
    token != ""
  }

  /** Super user under static routes: the route mode is `static` and the
      roles include the configured super role. */
  function IsStaticSuperRole(env: AuthEnv, roles: seq<string>): (r: bool)
    ensures r <==> env.routeMode == "static" && env.staticSuperRole in roles
    ensures env.routeMode != "static" ==> !r
  {
    env.routeMode == "static" && env.staticSuperRole in roles
  }

  // ---------------------------------------------------------------------
  // Persisted storage
  // ---------------------------------------------------------------------

  /** `getToken()`: the persisted token, or "" when there is none. */
  function StoredToken(storage: map<string, string>): (r: string)
    ensures TokenKey in storage ==> r == storage[TokenKey]
    ensures TokenKey !in storage ==> r == ""
  {
    if TokenKey in storage then storage[TokenKey] else ""
  }

  /** `clearAuthStorage()`: removes the two keys this store writes and
      keeps every other key as it was. */
  function ClearAuthStorage(storage: map<string, string>): (r: map<string, string>)
    ensures TokenKey !in r && RefreshTokenKey !in r
    ensures forall k :: k in storage && k != TokenKey && k != RefreshTokenKey ==> k in r && r[k] == storage[k]
    ensures forall k :: k in r ==> k in storage
  {
    storage - {TokenKey, RefreshTokenKey}
  }

  // ---------------------------------------------------------------------
  // The operations on values: what each one leaves behind
  // ---------------------------------------------------------------------

  /** `resetStore()`: the auth keys leave storage and the store returns to
      the state it was created in (the token it read then, an empty user
      record, not loading). */
  function Reset(s: Session, initialToken: string): (r: Session)
    ensures r.token == initialToken && r.userInfo == EmptyUserInfo && !r.loading
    ensures r.storage == ClearAuthStorage(s.storage)
  {
    Session(initialToken, EmptyUserInfo, false, ClearAuthStorage(s.storage))
  }

  /** What `resetStore()` asks of its collaborators: the login page when
      the current route is not a constant one, then the tab cache and the
      route store. */
  function ResetEffects(routeIsConstant: bool): seq<Effect> {
    (if routeIsConstant then [] else [ToLogin]) + [CacheTabs, ResetRouteStore]
  }

  /** The login data when the reply is an envelope with status 1 that
      carries data; None for every reply the store treats as a failure. */
  function Accepted(reply: LoginReply): (r: Option<LoginData>)
    ensures r.Some? <==> reply.Reply? && reply.status == 1 && reply.data.Some?
    ensures r.Some? ==> r.value == reply.data.value
  {
    if reply.Reply? && reply.status == 1 && reply.data.Some? then Some(reply.data.value) else None
  }

  /** The message a failed login shows: the server's message for a
      rejected envelope, the default for a raised error (including a
      status-1 envelope without data, whose field access throws). */
  function FailureText(reply: LoginReply): (r: string)
    ensures r != ""
    ensures reply.Reply? && reply.status != 1 && reply.message.Some? && reply.message.value != "" ==>
              r == reply.message.value
    ensures reply.Reply? && reply.status != 1 && (reply.message.None? || reply.message.value == "") ==>
              r == LoginFailedText
    ensures !(reply.Reply? && reply.status != 1) ==> r == LoginFailedText
  {
    if reply.Reply? && reply.status != 1 then MessageOr(reply.message, LoginFailedText) else LoginFailedText
  }

  /** The state `login` leaves behind. */
  function LoginState(s: Session, userName: string, reply: LoginReply, initialToken: string): Session {
    match Accepted(reply)
    case Some(d) =>
      Session(d.authorization,
              s.userInfo.(userId := d.userId, roles := d.permissions.GetOr([]), userName := userName),
              false,
              s.storage[TokenKey := d.authorization][RefreshTokenKey := d.authorization])
    case None => Reset(s, initialToken)
  }

  /** What `login` asks of its collaborators once the gateway has answered. */
  function OutcomeEffects(userName: string, reply: LoginReply, routeIsConstant: bool): seq<Effect> {
    match Accepted(reply)
    case Some(_) => [Navigate(HomePath), SuccessNotification(userName)]
    case None => [ErrorMessage(FailureText(reply))] + ResetEffects(routeIsConstant)
  }

  /** What `login` asks of its collaborators, in order. */
  function LoginEffects(userName: string, password: string, reply: LoginReply, routeIsConstant: bool): seq<Effect> {
    [LoadingStarted, LoginRequested(userName, password)] + OutcomeEffects(userName, reply, routeIsConstant) + [LoadingEnded]
  }

  /** The in-memory token is the one read when the store was created, or
      else it is persisted under both token keys; and no login is in flight. */
  predicate Consistent(s: Session, initialToken: string) {
    && !s.loading
    && (s.token == initialToken
        || (TokenKey in s.storage && s.storage[TokenKey] == s.token
            && RefreshTokenKey in s.storage && s.storage[RefreshTokenKey] == s.token))
  }

  // ---------------------------------------------------------------------
  // Properties of the operations
  // ---------------------------------------------------------------------

  /** The number of error messages among the effects. */
  function ErrorCount(effects: seq<Effect>): nat {
    if effects == [] then 0
    else (if effects[0].ErrorMessage? then 1 else 0) + ErrorCount(effects[1..])
  }

  lemma {:induction false} ErrorCountAppend(a: seq<Effect>, b: seq<Effect>)
    ensures ErrorCount(a + b) == ErrorCount(a) + ErrorCount(b)
  {
    if a == [] {
      assert a + b == b;
    } else {
      assert (a + b)[1..] == a[1..] + b;
      ErrorCountAppend(a[1..], b);
    }
  }

  lemma {:induction false} NoErrorsCounted(effects: seq<Effect>)
    requires forall e :: e in effects ==> !e.ErrorMessage?
    ensures ErrorCount(effects) == 0
  {
    if effects != [] {
      assert effects[0] in effects;
      NoErrorsCounted(effects[1..]);
    }
  }

  /** A successful login stores the returned token in memory and under both
      persisted keys, fills the user record from the answer and the given
      name, and leaves the user logged in exactly when that token is
      non-empty. */
  lemma LoginSuccessState(s: Session, userName: string, reply: LoginReply, initialToken: string)
    requires Accepted(reply).Some?
    ensures var d, r := reply.data.value, LoginState(s, userName, reply, initialToken);
            && r.token == d.authorization
            && r.storage[TokenKey] == d.authorization && r.storage[RefreshTokenKey] == d.authorization
            && (forall k :: k in s.storage && k != TokenKey && k != RefreshTokenKey ==> k in r.storage && r.storage[k] == s.storage[k])
            && r.userInfo.userId == d.userId
            && r.userInfo.roles == (if d.permissions.Some? then d.permissions.value else [])
            && r.userInfo.userName == userName
            && r.userInfo.buttons == s.userInfo.buttons
            && !r.loading
            && (IsLoginToken(r.token) <==> d.authorization != "")
  {
  }

  /** On success the only navigation is to the home page, the user is
      welcomed by name, and no error is shown and no reset runs. */
  lemma LoginSuccessEffects(userName: string, password: string, reply: LoginReply, routeIsConstant: bool)
    requires Accepted(reply).Some?
    ensures var es := LoginEffects(userName, password, reply, routeIsConstant);
            && (forall e :: e in es && e.Navigate? ==> e.path == HomePath)
            && Navigate(HomePath) in es && SuccessNotification(userName) in es
            && ErrorCount(es) == 0
            && ToLogin !in es && CacheTabs !in es && ResetRouteStore !in es
  {
    var es := LoginEffects(userName, password, reply, routeIsConstant);
    assert es == [LoadingStarted, LoginRequested(userName, password), Navigate(HomePath),
                  SuccessNotification(userName), LoadingEnded];
    NoErrorsCounted(es);
  }

  /** A failed login, whether rejected or raised, ends in the reset state
      and leaves the user logged out unless the store was created with a
      token. */
  lemma LoginFailureState(s: Session, userName: string, reply: LoginReply, initialToken: string)
    requires Accepted(reply).None?
    ensures LoginState(s, userName, reply, initialToken) == Reset(s, initialToken)
    ensures IsLoginToken(LoginState(s, userName, reply, initialToken).token) <==> initialToken != ""
  {
  }

  /** The effects of a failed login, written out. */
  lemma FailureEffectsShape(userName: string, password: string, reply: LoginReply, routeIsConstant: bool)
    requires Accepted(reply).None?
    ensures LoginEffects(userName, password, reply, routeIsConstant)
            == [LoadingStarted, LoginRequested(userName, password), ErrorMessage(FailureText(reply))]
               + ResetEffects(routeIsConstant) + [LoadingEnded]
  {
    assert OutcomeEffects(userName, reply, routeIsConstant)
        == [ErrorMessage(FailureText(reply))] + ResetEffects(routeIsConstant);
  }

  /** Those effects hold exactly one error message. */
  lemma FailureEffectsCount(userName: string, password: string, text: string, routeIsConstant: bool)
    ensures ErrorCount([LoadingStarted, LoginRequested(userName, password), ErrorMessage(text)]
                       + ResetEffects(routeIsConstant) + [LoadingEnded]) == 1
  {
    var front := [LoadingStarted, LoginRequested(userName, password), ErrorMessage(text)];
    var back := ResetEffects(routeIsConstant) + [LoadingEnded];
    assert front + ResetEffects(routeIsConstant) + [LoadingEnded] == front + back;
    NoErrorsCounted(back);
    NoErrorsCounted(front[..2]);
    ErrorCountAppend(front[..2], [ErrorMessage(text)]);
    assert front[..2] + [ErrorMessage(text)] == front;
    ErrorCountAppend(front, back);
  }

  /** A failed login shows exactly one error, with the server's message or
      the default, then runs the reset; it neither welcomes the user nor
      navigates home. */
  lemma LoginFailureEffects(userName: string, password: string, reply: LoginReply, routeIsConstant: bool)
    requires Accepted(reply).None?
    ensures var es := LoginEffects(userName, password, reply, routeIsConstant);
            && ErrorCount(es) == 1
            && ErrorMessage(FailureText(reply)) in es
            && Navigate(HomePath) !in es
            && (forall e :: e in es ==> !e.SuccessNotification?)
            && CacheTabs in es && ResetRouteStore in es
            && (ToLogin in es <==> !routeIsConstant)
  {
    var text := FailureText(reply);
    var es := LoginEffects(userName, password, reply, routeIsConstant);
    FailureEffectsShape(userName, password, reply, routeIsConstant);
    FailureEffectsCount(userName, password, text, routeIsConstant);
  }

  /** Loading is announced first and ended last, on every path. */
  lemma LoginLoadingBrackets(userName: string, password: string, reply: LoginReply, routeIsConstant: bool)
    ensures var es := LoginEffects(userName, password, reply, routeIsConstant);
            && es[0] == LoadingStarted && es[|es| - 1] == LoadingEnded
            && (forall i :: 0 < i < |es| - 1 ==> !es[i].LoadingStarted? && !es[i].LoadingEnded?)
  {
  }

  /** Resetting twice leaves the same state as resetting once. */
  lemma ResetIdempotent(s: Session, initialToken: string)
    ensures Reset(Reset(s, initialToken), initialToken) == Reset(s, initialToken)
  {
  }

  /** After a reset nobody is a super user, whatever the configuration. */
  lemma ResetDropsStaticSuper(s: Session, initialToken: string, env: AuthEnv)
    ensures !IsStaticSuperRole(env, Reset(s, initialToken).userInfo.roles)
  {
  }

  /** After a successful login the user is a super user exactly when routes
      are static and the returned permissions include the super role. */
  lemma LoginStaticSuper(s: Session, userName: string, reply: LoginReply, initialToken: string, env: AuthEnv)
    requires Accepted(reply).Some?
    ensures IsStaticSuperRole(env, LoginState(s, userName, reply, initialToken).userInfo.roles)
            <==> env.routeMode == "static" && reply.data.value.permissions.Some?
                 && env.staticSuperRole in reply.data.value.permissions.value
  {
  }

  /** Every operation leaves the token consistent with storage. */
  lemma ConsistentAfterOperations(s: Session, userName: string, reply: LoginReply, initialToken: string)
    ensures Consistent(Reset(s, initialToken), initialToken)
    ensures Consistent(LoginState(s, userName, reply, initialToken), initialToken)
  {
  }

  // ---------------------------------------------------------------------
  // The store
  // ---------------------------------------------------------------------

  class AuthStore {
    /** The token read from storage when the store was created; `$reset`
        restores it. */
    const initialToken: string
    /** Build-time configuration. */
    const env: AuthEnv

    var token: string
    var userInfo: UserInfo
    var loading: bool
    /** The persisted key/value store (`localStg`). */
    var storage: map<string, string>
    /** What the store has asked of its collaborators so far. */
    ghost var log: seq<Effect>

    function State(): Session
      reads this
    {
      Session(token, userInfo, loading, storage)
    }

    /** `Consistent` for the store's current state: proved after creation,
        reset and login; no operation relies on it. */
    ghost predicate Valid()
      reads this
    {
      Consistent(State(), initialToken)
    }

    /** The store as created: the token `getToken()` reads from the
        persisted store, an empty user record, not loading. */
    constructor (env: AuthEnv, storage: map<string, string>)
      ensures initialToken == StoredToken(storage) && this.env == env
      ensures State() == Session(StoredToken(storage), EmptyUserInfo, false, storage)
      ensures log == [] && Valid()
    {
      initialToken := StoredToken(storage);
      this.env := env;
      token := StoredToken(storage);
      userInfo := EmptyUserInfo;
      loading := false;
      this.storage := storage;
      log := [];
    }

    /** `isLogin`. */
    function IsLogin(): (r: bool)
      reads this
      ensures r <==> token != ""
    {
      IsLoginToken(token)
    }

    /** `isStaticSuper`. */
    function IsStaticSuper(): (r: bool)
      reads this
      ensures r <==> env.routeMode == "static" && env.staticSuperRole in userInfo.roles
    {
      IsStaticSuperRole(env, userInfo.roles)
    }

    /** `resetStore()`, given whether the current route is a constant one. */
    method ResetStore(routeIsConstant: bool)
      modifies this
      ensures State() == Reset(old(State()), initialToken)
      ensures log == old(log) + ResetEffects(routeIsConstant)
      ensures Valid()
    {
      storage := ClearAuthStorage(storage);
      token, userInfo, loading := initialToken, EmptyUserInfo, false;
      if !routeIsConstant {
        log := log + [ToLogin];
      }
      log := log + [CacheTabs, ResetRouteStore];
    }

    /** `loginByToken(loginToken)`: persists both tokens, sets the in-memory
        token and reports success. */
    method LoginByToken(loginToken: LoginToken) returns (ok: bool)
      modifies this
      ensures ok
      ensures storage == old(storage)[TokenKey := loginToken.token][RefreshTokenKey := loginToken.refreshToken]
      ensures token == loginToken.token
      ensures userInfo == old(userInfo) && loading == old(loading) && log == old(log)
    {
      storage := storage[TokenKey := loginToken.token];
      storage := storage[RefreshTokenKey := loginToken.refreshToken];
      token := loginToken.token;
      return true;
    }

    /** The failure handling `login` runs in two places: show the message,
        then reset the store. */
    method FailLogin(text: string, routeIsConstant: bool)
      modifies this
      ensures State() == Reset(old(State()), initialToken)
      ensures log == old(log) + [ErrorMessage(text)] + ResetEffects(routeIsConstant)
    {
      log := log + [ErrorMessage(text)];
      ResetStore(routeIsConstant);
    }

    /** The success branch of `login`: token, user record, persisted keys,
        then the home page and the welcome notification. */
    method SucceedLogin(userName: string, d: LoginData)
      modifies this
      ensures State() == Session(d.authorization,
                                 old(userInfo).(userId := d.userId, roles := d.permissions.GetOr([]), userName := userName),
                                 old(loading),
                                 old(storage)[TokenKey := d.authorization][RefreshTokenKey := d.authorization])
      ensures log == old(log) + [Navigate(HomePath), SuccessNotification(userName)]
    {
      var loginToken := LoginToken(d.authorization, d.authorization);
      token := loginToken.token;
      storage := storage[TokenKey := loginToken.token];
      userInfo := userInfo.(userId := d.userId);
      userInfo := userInfo.(roles := d.permissions.GetOr([]));
      userInfo := userInfo.(userName := userName);
      var _ := LoginByToken(loginToken);
      log := log + [Navigate(HomePath), SuccessNotification(userInfo.userName)];
    }

    /** The part of `login` that handles the gateway's reply: the success
        branch, or the error message and reset of a failure. */
    method Settle(userName: string, reply: LoginReply, routeIsConstant: bool)
      modifies this
      ensures State().(loading := false) == LoginState(old(State()), userName, reply, initialToken)
      ensures log == old(log) + OutcomeEffects(userName, reply, routeIsConstant)
    {
      if reply.TransportError? {
        FailLogin(LoginFailedText, routeIsConstant);
      } else if reply.status == 1 {
        if reply.data.None? {
          // reading `data.data.Authorization` throws: the catch block runs
          FailLogin(LoginFailedText, routeIsConstant);
        } else {
          SucceedLogin(userName, reply.data.value);
        }
      } else {
        FailLogin(MessageOr(reply.message, LoginFailedText), routeIsConstant);
      }
    }

    /** `login(userName, password, redirect)`, given the gateway's reply and
        whether the current route is a constant one. `redirect` is never
        read. */
    method Login(userName: string, password: string, redirect: bool, reply: LoginReply, routeIsConstant: bool)
      modifies this
      ensures State() == LoginState(old(State()), userName, reply, initialToken)
      ensures log == old(log) + LoginEffects(userName, password, reply, routeIsConstant)
      ensures Valid()
    {
      ghost var before := State();
      loading := true;
      log := log + [LoadingStarted, LoginRequested(userName, password)];
      assert LoginState(State(), userName, reply, initialToken) == LoginState(before, userName, reply, initialToken);
      Settle(userName, reply, routeIsConstant);
      loading := false;
      log := log + [LoadingEnded];
      ConsistentAfterOperations(before, userName, reply, initialToken);
    }

    /** `getUserInfo()`: the user-info check, which currently always passes
        and changes nothing. */
    method GetUserInfo() returns (pass: bool)
      ensures pass
    {
      return true;
    }

    /** `initUserInfo()`: with a stored token, runs the user-info check and
        resets only if it fails; it never calls the login gateway. */
    method InitUserInfo()
      modifies this
      ensures State() == old(State()) && log == old(log)
    {
      var hasToken := StoredToken(storage);
      if hasToken != "" {
        var pass := GetUserInfo();
        if !pass {
          // the reset of a failed check cannot happen while the check always passes
          assert false;
        }
      }
    }
  }

  /** Start-up: the store is created over the persisted store and
      `initUserInfo()` runs. The user is logged in exactly when a non-empty
      token is stored, with no call to the login gateway and no reset. */
  method StartUp(env: AuthEnv, storage: map<string, string>) returns (store: AuthStore)
    ensures fresh(store) && store.env == env
    ensures store.State() == Session(StoredToken(storage), EmptyUserInfo, false, storage)
    ensures store.IsLogin() <==> TokenKey in storage && storage[TokenKey] != ""
    ensures store.log == [] && store.Valid()
  {
    store := new AuthStore(env, storage);
    store.InitUserInfo();
  }
}
