/** The `LoginApp` custom element of login/src/login-app.mjs as a class
    whose methods update its fields in place, step by step as the source
    does. Each method is proved to leave the element, the session storage
    and the element's pending logout timers exactly as the matching function
    of module Lifecycle says; each one that can arm or cancel a timer on its
    own is also proved to keep at most one timer pending. */
module Login {
  import opened Wrappers
  import opened Utils
  import opened Reporting
  import opened Lifecycle
  import LifecycleProperties

  /** The browser's `sessionStorage`. */
  class SessionStorage {
    var items: map<string, string>

    constructor(items: map<string, string>)
      ensures this.items == items
    {
      this.items := items;
    }

    method GetItem(key: string) returns (v: Option<string>)
      ensures key in items ==> v == Some(items[key])
      ensures key !in items ==> v == None
    {
      v := if key in items then Some(items[key]) else None;
    }

    method SetItem(key: string, value: string)
      modifies this
      ensures items == old(items)[key := value]
    {
      items := items[key := value];
    }

    method RemoveItem(key: string)
      modifies this
      ensures items == old(items) - {key}
    {
      items := items - {key};
    }
  }

  /** The element's pending logout timers (`setTimeout`/`clearTimeout`), by
      handle. Handles are handed out in increasing order from `next`. */
  class TimerQueue {
    var live: map<Handle, Timer>
    var next: Handle

    constructor()
      ensures live == map[] && next == 1
    {
      live := map[];
      next := 1;
    }

    method SetTimeout(t: Timer) returns (h: Handle)
      modifies this
      ensures h == old(next) && next == old(next) + 1
      ensures live == old(live)[h := t]
    {
      h := next;
      live := live[h := t];
      next := next + 1;
    }

    /** Cancelling a timer that is no longer pending does nothing. */
    method ClearTimeout(h: Handle)
      modifies this
      ensures live == old(live) - {h} && next == old(next)
    {
      live := live - {h};
    }

    /** A pending timer comes due: it stops being pending and its callback
        runs with what it captured. */
    method Expire(h: Handle) returns (t: Timer)
      requires h in live
      modifies this
      ensures t == old(live)[h]
      ensures live == old(live) - {h} && next == old(next)
    {
      t := live[h];
      live := live - {h};
    }
  }

  class LoginApp {
    const sessionIdKey: string
    const autoLogoutSeconds: real
    const hasApp: bool
    const storage: SessionStorage
    const timers: TimerQueue

    var sessionInfo: Option<SessionInfo>
    var lastCheckTime: int
    var lastActivityTime: int
    var didAppLogin: bool
    var logoutTimer: Option<Handle>
    var view: View
    var effects: seq<Effect>

    function Cfg(): Config {
      Config(sessionIdKey, autoLogoutSeconds, hasApp)
    }

    ghost function Snapshot(): State
      reads this, storage, timers
    {
      State(sessionInfo, storage.items, lastCheckTime, lastActivityTime, didAppLogin,
            logoutTimer, timers.live, timers.next, view, effects)
    }

    /** The element's own timer is the only one pending, if any is. */
    ghost predicate Valid()
      reads this, storage, timers
    {
      AtMostOneTimer(Snapshot())
    }

    /** Reads the attributes (with their defaults) and starts with no session,
        both clock marks at -1 and no timer. */
    constructor(keyAttr: Option<string>, autoAttr: Option<real>, hasApp: bool,
                storage: SessionStorage, timers: TimerQueue)
      requires timers.live == map[]
      ensures Cfg() == Configure(keyAttr, autoAttr, hasApp)
      ensures this.storage == storage && this.timers == timers
      ensures Snapshot() == Initial(storage.items, timers.next)
      ensures Valid()
    {
      sessionIdKey := if keyAttr.Some? then keyAttr.value else DefaultSessionIdKey;
      autoLogoutSeconds := if autoAttr.Some? then autoAttr.value else DefaultAutoLogoutSeconds;
      this.hasApp := hasApp;
      this.storage := storage;
      this.timers := timers;
      sessionInfo := None;
      lastCheckTime := -1;
      lastActivityTime := -1;
      didAppLogin := false;
      logoutTimer := None;
      view := Blank;
      effects := [];
    }

    /** `connectedCallback`. */
    method Connected(renew: BackendResult, now: int)
      requires Valid()
      modifies this, storage, timers
      ensures Snapshot() == Lifecycle.CheckLogin(Cfg(), old(Snapshot()), renew, now)
      ensures Valid()
    {
      CheckLogin(renew, now);
    }

    /** `disconnectedCallback`: no timer is left pending. */
    method Disconnected()
      requires Valid()
      modifies this, timers
      ensures Snapshot() == Detach(old(Snapshot()))
      ensures Valid() && timers.live == map[]
    {
      LifecycleProperties.DetachCancelsTimer(storage.items, timers.next, Snapshot());
      if logoutTimer.Some? {
        timers.ClearTimeout(logoutTimer.value);
      }
      logoutTimer := None;
    }

    /** `activity`: records when the user last interacted. */
    method Activity(now: int)
      modifies this
      ensures Snapshot() == Lifecycle.Activity(old(Snapshot()), now)
      ensures Valid() == old(Valid())
    {
      lastActivityTime := now;
    }

    /** `login`, run from the login form's submit handler. */
    method Login(result: BackendResult, renew: BackendResult, now: int)
      requires Valid() && view == LoginForm
      modifies this, storage, timers
      ensures Snapshot() == Lifecycle.Login(Cfg(), old(Snapshot()), result, renew, now)
      ensures Valid()
    {
      effects := effects + [LoginRequest];
      match result {
        case Failed(errors) =>
          var widgetText, listHtml := ReportErrors(errors, LoginFormWidgets);
          assert widgetText == WidgetTexts(errors, LoginFormWidgets);
          effects := effects + [ErrorsShown(widgetText, listHtml)];
        case Session(info) =>
          storage.SetItem(sessionIdKey, info.sessionId);
          sessionInfo := Some(info);
          CheckLogin(renew, now);
      }
    }

    /** `checkLogin`: renews the stored session, if there is one. */
    method CheckLogin(renew: BackendResult, now: int)
      requires Valid()
      modifies this, storage, timers
      ensures Snapshot() == Lifecycle.CheckLogin(Cfg(), old(Snapshot()), renew, now)
      ensures Valid()
    {
      LifecycleProperties.CheckLoginKeepsOneTimer(Cfg(), Snapshot(), renew, now);
      var sessionId := storage.GetItem(sessionIdKey);
      var isLoggedIn := false;
      if sessionId.Some? && sessionId.value != "" {
        effects := effects + [RenewRequest(sessionId.value)];
        match renew {
          case Failed(_) =>
            storage.RemoveItem(sessionIdKey);
            sessionInfo := None;
          case Session(info) =>
            isLoggedIn := true;
            sessionInfo := Some(info);
            lastCheckTime := now;
            ResetLogoutTimer();
        }
      }
      Display(isLoggedIn);
    }

    /** `display(isLoggedIn)`. */
    method Display(isLoggedIn: bool)
      requires isLoggedIn ==> sessionInfo.Some?
      modifies this
      ensures Snapshot() == Lifecycle.Display(Cfg(), old(Snapshot()), isLoggedIn)
      ensures Valid() == old(Valid())
    {
      if isLoggedIn {
        if !didAppLogin {
          view := AppView;
          effects := effects + [ShowApp];
          if hasApp {
            effects := effects + [AppLoginEvent(sessionInfo.value)];
          }
          didAppLogin := true;
        }
      } else {
        view := LoginForm;
        effects := effects + [ShowLoginForm];
      }
    }

    /** `logout(sessionId)`, run from inside the rendered app. */
    method Logout(sessionId: string, renew: BackendResult, now: int)
      requires Valid() && view == AppView
      modifies this, storage, timers
      ensures Snapshot() == Lifecycle.Logout(Cfg(), old(Snapshot()), sessionId, renew, now)
      ensures Valid()
    {
      LifecycleProperties.ClearLeavesNoTimer(Snapshot());
      if logoutTimer.Some? {
        timers.ClearTimeout(logoutTimer.value);
      }
      effects := effects + [RevokeRequest(sessionId)];
      sessionInfo := None;
      storage.RemoveItem(sessionIdKey);
      didAppLogin := false;
      if hasApp {
        effects := effects + [AppLogoutEvent];
      }
      CheckLogin(renew, now);
    }

    /** `resetLogoutTimer`: cancels the current timer and arms a new one
        from the session's remaining lifetime. */
    method ResetLogoutTimer()
      requires Valid() && sessionInfo.Some?
      modifies this, timers
      ensures Snapshot() == ArmTimer(Cfg(), old(Snapshot()))
      ensures Valid()
    {
      LifecycleProperties.ArmLeavesOneTimer(Cfg(), Snapshot());
      if logoutTimer.Some? {
        timers.ClearTimeout(logoutTimer.value);
      }
      var timeLeft := sessionInfo.value.maxAgeSeconds;
      var timer := Schedule(timeLeft, autoLogoutSeconds);
      var h := timers.SetTimeout(timer);
      logoutTimer := Some(h);
    }

    /** The pending timer `h` comes due and its callback `timeFn` runs. */
    method LogoutTimerFired(h: Handle, d: DialogEvent, renew: BackendResult, now: int)
      requires Valid() && h in timers.live
      modifies this, storage, timers
      ensures Snapshot() == Fire(Cfg(), old(Snapshot()), h, d, renew, now)
      ensures Valid()
    {
      var timer := timers.Expire(h);
      assert Valid();
      if lastActivityTime > lastCheckTime {
        CheckLogin(renew, now);
        return;
      }
      if view != AppView {
        // logoutWarn cannot find the dialog's elements and fails
        return;
      }
      var dialogRet := LogoutWarn(d);
      if d != NoDialogApi {
        effects := effects + [WarningShown(timer.dialogSeconds - 1.0)];
      }
      var doLogout := IsLogoutChoice(dialogRet);
      if doLogout {
        if sessionInfo.Some? && sessionInfo.value.sessionId != "" {
          Logout(sessionInfo.value.sessionId, renew, now);
        }
      } else {
        CheckLogin(renew, now);
      }
    }
  }
}

/** A client of the element: a stored session is renewed on attach; a timer
    fire after activity renews silently; a fire without activity whose
    countdown runs out logs the user out and leaves no timer pending. */
module LoginClient {
  import opened Wrappers
  import opened Lifecycle
  import opened Login

  method SessionScenario(info: SessionInfo, renewed: SessionInfo)
    requires info.sessionId != "" && renewed.sessionId != ""
  {
    var storage := new SessionStorage(map["sessionId" := info.sessionId]);
    var timers := new TimerQueue();
    var app := new LoginApp(None, None, true, storage, timers);
    assert app.sessionIdKey == "sessionId" && app.autoLogoutSeconds == 30.0;

    app.Connected(Session(info), 1000);
    assert app.sessionInfo == Some(info) && app.view == AppView && app.didAppLogin;
    assert app.effects == [RenewRequest(info.sessionId), ShowApp, AppLoginEvent(info)];
    assert timers.live == map[1 := Schedule(info.maxAgeSeconds, 30.0)];

    app.Activity(2000);
    app.LogoutTimerFired(1, CountdownExpired, Session(renewed), 3000);
    assert app.sessionInfo == Some(renewed) && app.lastCheckTime == 3000;
    assert timers.live == map[2 := Schedule(renewed.maxAgeSeconds, 30.0)];
    assert app.effects == [RenewRequest(info.sessionId), ShowApp, AppLoginEvent(info), RenewRequest(info.sessionId)];

    app.LogoutTimerFired(2, CountdownExpired, Session(renewed), 4000);
    assert app.sessionInfo == None && "sessionId" !in storage.items && !app.didAppLogin;
    assert timers.live == map[] && app.view == LoginForm;
  }
}
