/** The session held by `AuthFacade` (src/app/core/facades/auth.facade.ts):
    the access and refresh tokens in memory, their copies in `localStorage`,
    the refresh timers created with `setTimeout`, and the calls the facade
    makes to the router and to the authentication service. Each operation is
    a function from the session before to the session after; the answer of
    the authentication service is an input. */
module AuthFacade {
  import opened Wrappers
  import opened Models

  const AccessTokenKey := "access_token"
  const RefreshTokenKey := "refresh_token"
  const LoginRoute := "/auth/login"
  const PetsRoute := "/pets"

  /** The refresh runs this many seconds before the access token expires. */
  const RefreshMarginSeconds := 30

  datatype TimerState = Armed | Fired | Cancelled

  /** One `setTimeout` call: its delay in milliseconds and whether it is still
      pending. A negative delay is kept as computed; the browser runs such a
      timer at once. */
  datatype Timer = Timer(delayMs: int, state: TimerState)

  datatype AuthCall = LoginCall(credentials: LoginRequest) | RefreshCall(refreshToken: string)

  /** `timers` lists every timer the facade ever created, `handle` is the
      index of the last one (the facade keeps only that handle and never
      resets it). */
  datatype Session = Session(
    accessToken: Option<string>,
    refreshToken: Option<string>,
    storage: map<string, string>,
    timers: seq<Timer>,
    handle: Option<nat>,
    navigations: seq<string>,
    authCalls: seq<AuthCall>)

  /** How a method that returns an observable ended: its observable emitted,
      its observable errored, or the method threw before returning one. */
  datatype Completion = Emitted | Errored | ThrewSynchronously

  /** `localStorage.getItem(key)`. */
  function StorageGet(storage: map<string, string>, key: string): Option<string> {
    if key in storage then Some(storage[key]) else None
  }

  /** The in-memory tokens are the stored ones. */
  ghost predicate Synced(s: Session) {
    && s.accessToken == StorageGet(s.storage, AccessTokenKey)
    && s.refreshToken == StorageGet(s.storage, RefreshTokenKey)
  }

  /** Only the timer the facade still holds a handle to can be pending. */
  ghost predicate Valid(s: Session) {
    && (s.handle.Some? ==> s.handle.value < |s.timers|)
    && forall i :: 0 <= i < |s.timers| && s.timers[i].state == Armed ==> s.handle == Some(i)
  }

  /** The storage keys other than the two token keys are left alone. */
  ghost predicate OtherKeysKept(s: Session, s': Session) {
    forall k :: k != AccessTokenKey && k != RefreshTokenKey ==> StorageGet(s'.storage, k) == StorageGet(s.storage, k)
  }

  /** The indices of the pending timers. */
  ghost function ArmedTimers(s: Session): set<nat> {
    set i: nat | i < |s.timers| && s.timers[i].state == Armed
  }

  /** The delay of the pending timer the facade holds, if there is one. */
  function ArmedDelay(s: Session): Option<int> {
    match s.handle
    case Some(h) =>
      if h < |s.timers| && s.timers[h].state == Armed then Some(s.timers[h].delayMs) else None
    case None => None
  }

  /** In a valid session at most one timer is pending, and it is the one whose
      delay `ArmedDelay` reports. */
  lemma AtMostOneTimer(s: Session)
    requires Valid(s)
    ensures |ArmedTimers(s)| <= 1
    ensures |ArmedTimers(s)| == 1 <==> ArmedDelay(s).Some?
  {
    if s.handle.Some? {
      assert ArmedTimers(s) <= {s.handle.value};
      if s.timers[s.handle.value].state == Armed {
        assert ArmedTimers(s) == {s.handle.value};
      } else {
        assert ArmedTimers(s) == {};
      }
    } else {
      assert ArmedTimers(s) == {};
    }
  }

  /** The facade as constructed: both tokens read from storage, no timer. */
  function Create(storage: map<string, string>): (s: Session)
    ensures s.storage == storage
    ensures s.accessToken == StorageGet(storage, AccessTokenKey) && s.refreshToken == StorageGet(storage, RefreshTokenKey)
    ensures Synced(s) && Valid(s)
    ensures ArmedDelay(s) == None
    ensures s.navigations == [] && s.authCalls == []
  {
    Session(StorageGet(storage, AccessTokenKey), StorageGet(storage, RefreshTokenKey), storage, [], None, [], [])
  }

  /** `isAuthenticated`: the access token is neither null nor empty. */
  predicate IsAuthenticated(s: Session) {
    TruthyText(s.accessToken)
  }

  function SetTokens(s: Session, access: string, refresh: string): (r: Session)
    ensures Synced(r) && OtherKeysKept(s, r)
    ensures r.accessToken == Some(access) && r.refreshToken == Some(refresh)
    ensures r.timers == s.timers && r.handle == s.handle
    ensures r.navigations == s.navigations && r.authCalls == s.authCalls
  {
    s.(storage := s.storage[AccessTokenKey := access][RefreshTokenKey := refresh],
       accessToken := Some(access),
       refreshToken := Some(refresh))
  }

  function ClearTokens(s: Session): (r: Session)
    ensures Synced(r) && OtherKeysKept(s, r)
    ensures !IsAuthenticated(r) && r.refreshToken == None
    ensures AccessTokenKey !in r.storage && RefreshTokenKey !in r.storage
    ensures r.timers == s.timers && r.handle == s.handle
    ensures r.navigations == s.navigations && r.authCalls == s.authCalls
  {
    s.(storage := s.storage - {AccessTokenKey, RefreshTokenKey},
       accessToken := None,
       refreshToken := None)
  }

  /** `clearTokenRefreshTimer`: cancels the timer behind the handle if it is
      still pending (clearing a timer that already ran changes nothing). */
  function ClearTimer(s: Session): (r: Session)
    ensures Valid(s) ==> Valid(r) && ArmedTimers(r) == {}
    ensures |r.timers| == |s.timers| && r.handle == s.handle
    ensures forall i :: 0 <= i < |s.timers| ==> r.timers[i].delayMs == s.timers[i].delayMs
    ensures forall i :: 0 <= i < |s.timers| && Some(i) != s.handle ==> r.timers[i] == s.timers[i]
    ensures forall i :: 0 <= i < |s.timers| && r.timers[i] != s.timers[i] ==>
      s.timers[i].state == Armed && r.timers[i].state == Cancelled
    ensures r.(timers := s.timers) == s
  {
    match s.handle
    case Some(h) =>
      if h < |s.timers| && s.timers[h].state == Armed then
        s.(timers := s.timers[h := s.timers[h].(state := Cancelled)])
      else s
    case None => s
  }

  /** `scheduleTokenRefresh(expiresIn)`: cancels the held timer, then starts a
      new one `(expiresIn - 30) * 1000` milliseconds out. */
  function ScheduleRefresh(s: Session, expiresIn: int): (r: Session)
    ensures Valid(s) ==> Valid(r) && ArmedTimers(r) == {|s.timers|}
    ensures ArmedDelay(r) == Some((expiresIn - RefreshMarginSeconds) * 1000)
    ensures r.(timers := s.timers, handle := s.handle) == s
  {
    var c := ClearTimer(s);
    var r := c.(timers := c.timers + [Timer((expiresIn - RefreshMarginSeconds) * 1000, Armed)],
                handle := Some(|c.timers|));
    assert Valid(s) ==> ArmedTimers(r) == {|s.timers|} by {
      if Valid(s) {
        assert ArmedTimers(c) == {};
        forall i: nat | i < |r.timers|
          ensures r.timers[i].state == Armed <==> i == |s.timers|
        {
          if i < |c.timers| {
            assert r.timers[i] == c.timers[i];
            assert i !in ArmedTimers(c);
          }
        }
      }
    }
    r
  }

  /** The `tap` of `login`, run when the service answers: on success it
      stores both tokens, schedules the refresh and navigates to the pets
      list, whatever happened to the session while the call was in flight. */
  function LoginAnswered(s: Session, outcome: Result<LoginResponse, HttpError>): (r: (Session, Completion))
    ensures r.0.authCalls == s.authCalls
    ensures Synced(s) ==> Synced(r.0)
    ensures Valid(s) ==> Valid(r.0)
    ensures OtherKeysKept(s, r.0)
    ensures outcome.Success? ==>
      && r.1 == Emitted
      && r.0.accessToken == Some(outcome.value.access_token)
      && r.0.refreshToken == Some(outcome.value.refresh_token)
      && StorageGet(r.0.storage, AccessTokenKey) == Some(outcome.value.access_token)
      && StorageGet(r.0.storage, RefreshTokenKey) == Some(outcome.value.refresh_token)
      && ArmedDelay(r.0) == Some((outcome.value.expires_in - 30) * 1000)
      && r.0.navigations == s.navigations + [PetsRoute]
    ensures outcome.Failure? ==> r == (s, Errored)
  {
    match outcome
    case Success(response) =>
      var withTokens := SetTokens(s, response.access_token, response.refresh_token);
      var scheduled := ScheduleRefresh(withTokens, response.expires_in);
      (scheduled.(navigations := scheduled.navigations + [PetsRoute]), Emitted)
    case Failure(_) => (s, Errored)
  }

  /** `login(credentials)`: calls the service and, when the answer comes
      back with nothing in between, runs `LoginAnswered`. */
  function Login(s: Session, credentials: LoginRequest, outcome: Result<LoginResponse, HttpError>): (r: (Session, Completion))
    ensures r.0.authCalls == s.authCalls + [LoginCall(credentials)]
    ensures Synced(s) ==> Synced(r.0)
    ensures Valid(s) ==> Valid(r.0)
    ensures OtherKeysKept(s, r.0)
    ensures outcome.Success? ==>
      && r.1 == Emitted
      && r.0.accessToken == Some(outcome.value.access_token)
      && r.0.refreshToken == Some(outcome.value.refresh_token)
      && StorageGet(r.0.storage, AccessTokenKey) == Some(outcome.value.access_token)
      && StorageGet(r.0.storage, RefreshTokenKey) == Some(outcome.value.refresh_token)
      && ArmedDelay(r.0) == Some((outcome.value.expires_in - 30) * 1000)
      && r.0.navigations == s.navigations + [PetsRoute]
    ensures outcome.Failure? ==> r.1 == Errored && r.0 == s.(authCalls := r.0.authCalls)
  {
    LoginAnswered(s.(authCalls := s.authCalls + [LoginCall(credentials)]), outcome)
  }

  /** `logout()`: clears both tokens in memory and in storage, cancels the
      held timer and navigates to the login page. */
  function Logout(s: Session): (r: Session)
    ensures !IsAuthenticated(r) && r.accessToken == None && r.refreshToken == None
    ensures AccessTokenKey !in r.storage && RefreshTokenKey !in r.storage
    ensures Synced(r) && OtherKeysKept(s, r)
    ensures Valid(s) ==> Valid(r) && ArmedTimers(r) == {}
    ensures ArmedDelay(r) == None
    ensures r.navigations == s.navigations + [LoginRoute]
    ensures r.authCalls == s.authCalls
  {
    var cleared := ClearTimer(ClearTokens(s));
    cleared.(navigations := cleared.navigations + [LoginRoute])
  }

  /** Logging out twice leaves the session as logging out once did; only the
      navigation to the login page is repeated. */
  lemma LogoutIdempotent(s: Session)
    ensures Logout(Logout(s)) == Logout(s).(navigations := Logout(s).navigations + [LoginRoute])
  {
  }

  /** `refreshToken()`: with no refresh token it logs out and throws before
      any service call; otherwise it sends the refresh token and, on success,
      stores the new pair and reschedules the timer. A failed refresh does not
      log out here. */
  function RefreshToken(s: Session, outcome: Result<LoginResponse, HttpError>): (r: (Session, Completion))
    ensures Synced(s) ==> Synced(r.0)
    ensures Valid(s) ==> Valid(r.0)
    ensures OtherKeysKept(s, r.0)
    ensures !TruthyText(s.refreshToken) ==> r.1 == ThrewSynchronously && r.0 == Logout(s)
    ensures TruthyText(s.refreshToken) ==> r.0.authCalls == s.authCalls + [RefreshCall(s.refreshToken.value)]
    ensures TruthyText(s.refreshToken) && outcome.Success? ==>
      && r.1 == Emitted
      && r.0.accessToken == Some(outcome.value.access_token)
      && r.0.refreshToken == Some(outcome.value.refresh_token)
      && ArmedDelay(r.0) == Some((outcome.value.expires_in - 30) * 1000)
      && r.0.navigations == s.navigations
    ensures TruthyText(s.refreshToken) && outcome.Failure? ==>
      r.1 == Errored && r.0 == s.(authCalls := r.0.authCalls)
  {
    if !TruthyText(s.refreshToken) then
      (Logout(s), ThrewSynchronously)
    else
      RefreshAnswered(s.(authCalls := s.authCalls + [RefreshCall(s.refreshToken.value)]), outcome)
  }

  /** The `tap` of `refreshToken`, run when the service answers: on success
      it stores the new pair and reschedules, whatever happened to the
      session while the call was in flight; it never navigates. */
  function RefreshAnswered(s: Session, outcome: Result<LoginResponse, HttpError>): (r: (Session, Completion))
    ensures r.0.authCalls == s.authCalls && r.0.navigations == s.navigations
    ensures Synced(s) ==> Synced(r.0)
    ensures Valid(s) ==> Valid(r.0)
    ensures OtherKeysKept(s, r.0)
    ensures outcome.Success? ==>
      && r.1 == Emitted
      && r.0.accessToken == Some(outcome.value.access_token)
      && r.0.refreshToken == Some(outcome.value.refresh_token)
      && ArmedDelay(r.0) == Some((outcome.value.expires_in - 30) * 1000)
    ensures outcome.Failure? ==> r == (s, Errored)
  {
    match outcome
    case Success(response) =>
      (ScheduleRefresh(SetTokens(s, response.access_token, response.refresh_token), response.expires_in), Emitted)
    case Failure(_) => (s, Errored)
  }

  /** A logout while a login or a refresh is in flight does not stick: the
      late successful answer stores its tokens and arms a refresh timer
      again, so the session is authenticated after all. */
  lemma LateAnswerUndoesLogout(s: Session, credentials: LoginRequest, response: LoginResponse)
    requires |response.access_token| > 0
    ensures
      var pending := s.(authCalls := s.authCalls + [LoginCall(credentials)]);
      var loggedOut := Logout(pending);
      && !IsAuthenticated(loggedOut)
      && IsAuthenticated(LoginAnswered(loggedOut, Success(response)).0)
      && ArmedDelay(LoginAnswered(loggedOut, Success(response)).0).Some?
    ensures
      var loggedOut := Logout(s);
      && IsAuthenticated(RefreshAnswered(loggedOut, Success(response)).0)
      && ArmedDelay(RefreshAnswered(loggedOut, Success(response)).0).Some?
  {
  }

  /** `initializeOnAppStart()`: when authenticated, refreshes once; a failed
      refresh is only logged, but a missing refresh token still logs out and
      the throw escapes (`threw`). */
  function InitializeOnAppStart(s: Session, outcome: Result<LoginResponse, HttpError>): (r: (Session, bool))
    ensures !IsAuthenticated(s) ==> r == (s, false)
    ensures IsAuthenticated(s) && !TruthyText(s.refreshToken) ==> r == (Logout(s), true)
    ensures IsAuthenticated(s) && TruthyText(s.refreshToken) && outcome.Failure? ==>
      !r.1 && r.0.accessToken == s.accessToken && IsAuthenticated(r.0) && r.0.navigations == s.navigations
    ensures Synced(s) ==> Synced(r.0)
    ensures Valid(s) ==> Valid(r.0)
  {
    if !IsAuthenticated(s) then (s, false)
    else
      var (after, completion) := RefreshToken(s, outcome);
      (after, completion == ThrewSynchronously)
  }

  /** The callback of timer `i`: the timer has run, then it refreshes and logs
      out when the refresh errors. When the refresh throws for want of a
      refresh token, the logout inside `refreshToken` has already run and the
      exception escapes the callback. */
  function TimerFires(s: Session, i: nat, outcome: Result<LoginResponse, HttpError>): (r: (Session, Completion))
    requires i < |s.timers| && s.timers[i].state == Armed
    ensures Synced(s) ==> Synced(r.0)
    ensures Valid(s) ==> Valid(r.0)
    ensures r.1 != Emitted ==> !IsAuthenticated(r.0) && ArmedDelay(r.0) == None && r.0.navigations == s.navigations + [LoginRoute]
    ensures r.1 == Emitted <==> TruthyText(s.refreshToken) && outcome.Success?
    ensures r.1 == Emitted ==>
      && r.0.accessToken == Some(outcome.value.access_token)
      && r.0.refreshToken == Some(outcome.value.refresh_token)
      && ArmedDelay(r.0) == Some((outcome.value.expires_in - RefreshMarginSeconds) * 1000)
      && r.0.navigations == s.navigations
  {
    var ran := s.(timers := s.timers[i := s.timers[i].(state := Fired)]);
    assert Valid(s) ==> Valid(ran) by {
      if Valid(s) {
        forall j | 0 <= j < |ran.timers| && ran.timers[j].state == Armed
          ensures ran.handle == Some(j)
        {
          assert j != i && ran.timers[j] == s.timers[j];
        }
      }
    }
    var (after, completion) := RefreshToken(ran, outcome);
    if completion == Errored then (Logout(after), Errored) else (after, completion)
  }
}
