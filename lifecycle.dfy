/** The session-lifecycle controller of login/src/login-app.mjs, as
    functions on an explicit state. Each function is what one operation of
    the `LoginApp` element does when it runs to completion; the class in
    module Login performs the same steps in place and is proved to agree.

    The outside world enters as values: the backend's reply (`BackendResult`),
    the clock (`now`, milliseconds as `Date.now()` gives them), the outcome
    of the warning dialog (`DialogEvent`). What the controller does to the
    page and to the backend is appended to `effects`. */
module Lifecycle {
  import opened Wrappers
  import opened Utils
  import opened Reporting

  /** What the backend returns for a session: its id, its remaining lifetime,
      and fields the controller only passes on. */
  datatype SessionInfo = SessionInfo(sessionId: string, maxAgeSeconds: real, fields: map<string, string>)

  /** A login or renew reply: a session, or an object with an `errors` list
      (an empty list still counts: the array itself is truthy). */
  datatype BackendResult = Session(info: SessionInfo) | Failed(errors: seq<ErrorEntry>)

  /** The element's attributes, read once by its constructor. `hasApp`
      says whether an app element is assigned to the `app` slot. */
  datatype Config = Config(sessionIdKey: string, autoLogoutSeconds: real, hasApp: bool)

  const DefaultSessionIdKey: string := "sessionId"
  const DefaultAutoLogoutSeconds: real := 30.0

  /** `session-id-key ?? 'sessionId'` and `autoLogoutSeconds ?? 30`. */
  function Configure(keyAttr: Option<string>, autoAttr: Option<real>, hasApp: bool): Config {
    Config(if keyAttr.Some? then keyAttr.value else DefaultSessionIdKey,
           if autoAttr.Some? then autoAttr.value else DefaultAutoLogoutSeconds,
           hasApp)
  }

  /** A timer handle as `setTimeout` returns it: always positive, so a held
      handle is truthy for `if (this.logoutTimer)`. */
  type Handle = h: nat | 0 < h witness 1

  /** An armed logout timer: its delay, and the warning length its callback
      captured. */
  datatype Timer = Timer(timeoutSeconds: real, dialogSeconds: real)

  /** Which template the shadow root holds. */
  datatype View = Blank | LoginForm | AppView

  /** What the controller does outside its own fields. */
  datatype Effect =
    | RenewRequest(sessionId: string)
    | LoginRequest
    | RevokeRequest(sessionId: string)
    | ShowLoginForm
    | ShowApp
    | AppLoginEvent(info: SessionInfo)
    | AppLogoutEvent
    | ErrorsShown(widgetText: map<string, string>, listHtml: string)
    | WarningShown(autoLogoutDelay: real)  // the dialog opens and logs out by itself after this many seconds

  /** The controller's fields (`sessionInfo`, `lastCheckTime`,
      `lastActivityTime`, `didAppLogin`, `logoutTimer`), the session storage
      (`store`), the element's pending logout timers (`live`, by handle, and
      the next handle `setTimeout` will give), the rendered view and the log. */
  datatype State = State(
    info: Option<SessionInfo>,
    store: map<string, string>,
    lastCheck: int,
    lastActivity: int,
    didAppLogin: bool,
    handle: Option<Handle>,
    live: map<Handle, Timer>,
    nextHandle: Handle,
    view: View,
    effects: seq<Effect>)

  /** A freshly constructed element: no session, both clock marks at the
      sentinel -1, no timer, nothing rendered. */
  function Initial(store: map<string, string>, nextHandle: Handle): State {
    State(None, store, -1, -1, false, None, map[], nextHandle, Blank, [])
  }

  /** The element's own timer is the only one pending, if any is. */
  ghost predicate AtMostOneTimer(s: State) {
    forall h :: h in s.live ==> s.handle == Some(h)
  }

  // ---------------------------------------------------------------------
  // The timeout formula

  /** When the logout timer fires and how long the warning lasts, for a
      session with `timeLeft` seconds left and a wanted lead time of
      `autoLogout` seconds. */
  function Schedule(timeLeft: real, autoLogout: real): (t: Timer)
    ensures t.timeoutSeconds + t.dialogSeconds == timeLeft
    ensures 0.0 < timeLeft && 0.0 < autoLogout ==>
      0.0 <= t.timeoutSeconds < timeLeft && 0.0 < t.dialogSeconds <= autoLogout
    ensures autoLogout <= timeLeft ==> t.dialogSeconds == autoLogout
    ensures timeLeft < autoLogout ==> t.dialogSeconds == t.timeoutSeconds
  {
    var timeout := if timeLeft < autoLogout then timeLeft / 2.0 else timeLeft - autoLogout;
    var dialogSeconds := timeLeft - timeout;
    Timer(timeout, dialogSeconds)
  }

  lemma ScheduleExamples()
    ensures Schedule(100.0, 30.0) == Timer(70.0, 30.0)
    ensures Schedule(20.0, 30.0) == Timer(10.0, 10.0)
  {
  }

  // ---------------------------------------------------------------------
  // The operations

  /** `sessionStorage.getItem(key)`, when truthy. */
  function StoredId(c: Config, s: State): Option<string> {
    if c.sessionIdKey in s.store && s.store[c.sessionIdKey] != "" then Some(s.store[c.sessionIdKey]) else None
  }

  /** `clearTimeout(this.logoutTimer)` when a handle is held; the field
      itself keeps the handle. */
  function ClearLogoutTimer(s: State): State {
    if s.handle.Some? then s.(live := s.live - {s.handle.value}) else s
  }

  /** `resetLogoutTimer`. */
  function ArmTimer(c: Config, s: State): State
    requires s.info.Some?
  {
    var s0 := ClearLogoutTimer(s);
    var h := s0.nextHandle;
    var t := Schedule(s.info.value.maxAgeSeconds, c.autoLogoutSeconds);
    s0.(live := s0.live[h := t], handle := Some(h), nextHandle := h + 1)
  }

  /** `display(isLoggedIn)`: the app is rendered and told of the login only
      on the first logged-in display since the flag was cleared; the login
      form is rendered on every logged-out display. */
  function Display(c: Config, s: State, loggedIn: bool): State
    requires loggedIn ==> s.info.Some?
  {
    if loggedIn then
      if s.didAppLogin then s
      else
        var notice := if c.hasApp then [AppLoginEvent(s.info.value)] else [];
        s.(view := AppView, didAppLogin := true, effects := s.effects + [ShowApp] + notice)
    else
      s.(view := LoginForm, effects := s.effects + [ShowLoginForm])
  }

  /** `checkLogin`, with `renew` the backend's reply should it be asked. */
  function CheckLogin(c: Config, s: State, renew: BackendResult, now: int): State {
    match StoredId(c, s)
    case None => Display(c, s, false)
    case Some(id) =>
      var s1 := s.(effects := s.effects + [RenewRequest(id)]);
      match renew
      case Failed(_) =>
        Display(c, s1.(store := s1.store - {c.sessionIdKey}, info := None), false)
      case Session(info) =>
        Display(c, ArmTimer(c, s1.(info := Some(info), lastCheck := now)), true)
  }

  /** `login`, submitted from the login form, with `result` the backend's
      reply to the credentials. */
  function Login(c: Config, s: State, result: BackendResult, renew: BackendResult, now: int): State {
    var s1 := s.(effects := s.effects + [LoginRequest]);
    match result
    case Failed(errors) =>
      var shown := ErrorsShown(WidgetTexts(errors, LoginFormWidgets),
                               ListItems(GenericMessages(errors, LoginFormWidgets)));
      s1.(effects := s1.effects + [shown])
    case Session(info) =>
      CheckLogin(c, s1.(store := s1.store[c.sessionIdKey := info.sessionId], info := Some(info)), renew, now)
  }

  /** `logout(sessionId)`, called from inside the rendered app. Its final
      `checkLogin` finds no stored id, so `renew` is never consulted. */
  function Logout(c: Config, s: State, sessionId: string, renew: BackendResult, now: int): State {
    var s0 := ClearLogoutTimer(s);
    var notice := if c.hasApp then [AppLogoutEvent] else [];
    var s1 := s0.(info := None, store := s0.store - {c.sessionIdKey}, didAppLogin := false,
                  effects := s0.effects + [RevokeRequest(sessionId)] + notice);
    CheckLogin(c, s1, renew, now)
  }

  /** The outcome of the warning dialog. */
  datatype DialogEvent =
    | NoDialogApi                     // `showModal` is not a function
    | Closed(returnValue: string)     // closed by a button (or otherwise) with this return value
    | CountdownExpired                // nobody answered in time

  /** What `logoutWarn` resolves to. */
  datatype DialogResult = ReturnValue(value: string) | DialogErrors(errors: seq<ErrorEntry>)

  const DialogUnsupportedMessage: string := "The <dialog> API is not supported by this browser"

  /** The result part of `logoutWarn`. */
  function LogoutWarn(d: DialogEvent): DialogResult {
    match d
    case NoDialogApi => DialogErrors([Entry(FromString(DialogUnsupportedMessage))])
    case Closed(v) => ReturnValue(v)
    case CountdownExpired => ReturnValue("logout")
  }

  /** `dialogRet === 'logout'`. */
  predicate IsLogoutChoice(r: DialogResult) {
    r == ReturnValue("logout")
  }

  /** The callback `timeFn` of the timer with handle `h`. Once fired, the
      timer is no longer pending. Without activity since the last check,
      `logoutWarn` looks up the dialog's elements, which exist only while
      the app view is rendered; elsewhere it fails and nothing more happens.
      The dialog logs out by itself after `dialogSeconds - 1` seconds, as the
      countdown is stepped once before its delay is armed. */
  function Fire(c: Config, s: State, h: Handle, d: DialogEvent, renew: BackendResult, now: int): State
    requires h in s.live
  {
    var dialogSeconds := s.live[h].dialogSeconds;
    var s0 := s.(live := s.live - {h});
    if s0.lastActivity > s0.lastCheck then CheckLogin(c, s0, renew, now)
    else if s0.view != AppView then s0
    else
      var s1 := if d == NoDialogApi then s0 else s0.(effects := s0.effects + [WarningShown(dialogSeconds - 1.0)]);
      if IsLogoutChoice(LogoutWarn(d)) then
        if s1.info.Some? && s1.info.value.sessionId != "" then Logout(c, s1, s1.info.value.sessionId, renew, now)
        else s1
      else CheckLogin(c, s1, renew, now)
  }

  /** `activity`: stamps the time of the latest user interaction. */
  function Activity(s: State, now: int): State {
    s.(lastActivity := now)
  }

  /** `disconnectedCallback`: cancels the timer and forgets its handle. */
  function Detach(s: State): State {
    ClearLogoutTimer(s).(handle := None)
  }

  /** What can happen to the element. A login form submission needs the
      form to be rendered, a logout click needs the app to be rendered, and a
      timer can only fire while it is pending: otherwise nothing happens. */
  datatype Event =
    | Attached(renew: BackendResult, now: int)
    | Detached
    | UserActed(now: int)
    | LoginSubmitted(result: BackendResult, renew: BackendResult, now: int)
    | LogoutClicked(sessionId: string, renew: BackendResult, now: int)
    | TimerFired(h: Handle, dialog: DialogEvent, renew: BackendResult, now: int)

  function Step(c: Config, s: State, e: Event): State {
    match e
    case Attached(renew, now) => CheckLogin(c, s, renew, now)
    case Detached => Detach(s)
    case UserActed(now) => Activity(s, now)
    case LoginSubmitted(result, renew, now) =>
      if s.view == LoginForm then Login(c, s, result, renew, now) else s
    case LogoutClicked(id, renew, now) =>
      if s.view == AppView then Logout(c, s, id, renew, now) else s
    case TimerFired(h, d, renew, now) =>
      if h in s.live then Fire(c, s, h, d, renew, now) else s
  }

  function Run(c: Config, s: State, es: seq<Event>): State
    decreases |es|
  {
    if es == [] then s else Run(c, Step(c, s, es[0]), es[1..])
  }
}
