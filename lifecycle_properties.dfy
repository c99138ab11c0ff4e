/** What the session-lifecycle controller of login/src/login-app.mjs
    guarantees, proved about the functions of module Lifecycle. */
module LifecycleProperties {
  import opened Wrappers
  import opened Utils
  import opened Reporting
  import opened Lifecycle

  // ---------------------------------------------------------------------
  // At most one timer

  /** At most one timer is pending. */
  lemma AtMostOneTimerBound(s: State)
    requires AtMostOneTimer(s)
    ensures |s.live| <= 1
  {
    if s.live != map[] {
      var h :| h in s.live;
      assert s.live.Keys <= {h};
      assert s.live.Keys == {h};
    }
  }

  /** Cancelling the element's timer leaves no timer pending. */
  lemma ClearLeavesNoTimer(s: State)
    requires AtMostOneTimer(s)
    ensures ClearLogoutTimer(s).live == map[]
  {
    var r := ClearLogoutTimer(s);
    assert forall h :: h !in r.live;
  }

  /** Re-arming cancels the old timer first, so exactly one timer is pending
      afterwards: the new one, with the delay the formula gives for the
      session's `maxAgeSeconds`. */
  lemma ArmLeavesOneTimer(c: Config, s: State)
    requires s.info.Some? && AtMostOneTimer(s)
    ensures ArmTimer(c, s).handle == Some(s.nextHandle)
    ensures ArmTimer(c, s).live == map[s.nextHandle := Schedule(s.info.value.maxAgeSeconds, c.autoLogoutSeconds)]
    ensures AtMostOneTimer(ArmTimer(c, s))
  {
    ClearLeavesNoTimer(s);
  }

  lemma CheckLoginKeepsOneTimer(c: Config, s: State, renew: BackendResult, now: int)
    requires AtMostOneTimer(s)
    ensures AtMostOneTimer(CheckLogin(c, s, renew, now))
  {
    var id := StoredId(c, s);
    if id.Some? && renew.Session? {
      var s1 := s.(effects := s.effects + [RenewRequest(id.value)]).(info := Some(renew.info), lastCheck := now);
      ArmLeavesOneTimer(c, s1);
    }
  }

  lemma LogoutKeepsOneTimer(c: Config, s: State, id: string, renew: BackendResult, now: int)
    requires AtMostOneTimer(s)
    ensures AtMostOneTimer(Logout(c, s, id, renew, now))
  {
    ClearLeavesNoTimer(s);
  }

  lemma FireKeepsOneTimer(c: Config, s: State, h: Handle, d: DialogEvent, renew: BackendResult, now: int)
    requires h in s.live && AtMostOneTimer(s)
    ensures AtMostOneTimer(Fire(c, s, h, d, renew, now))
  {
    var s0 := s.(live := s.live - {h});
    assert AtMostOneTimer(s0);
    var s1 := if d == NoDialogApi then s0 else s0.(effects := s0.effects + [WarningShown(s.live[h].dialogSeconds - 1.0)]);
    CheckLoginKeepsOneTimer(c, s0, renew, now);
    CheckLoginKeepsOneTimer(c, s1, renew, now);
    if s1.info.Some? {
      LogoutKeepsOneTimer(c, s1, s1.info.value.sessionId, renew, now);
    }
  }

  /** Every event keeps at most one timer pending. */
  lemma StepKeepsOneTimer(c: Config, s: State, e: Event)
    requires AtMostOneTimer(s)
    ensures AtMostOneTimer(Step(c, s, e))
  {
    match e
    case Attached(renew, now) => CheckLoginKeepsOneTimer(c, s, renew, now);
    case Detached =>
    case UserActed(now) =>
    case LoginSubmitted(result, renew, now) =>
      if result.Session? {
        var s1 := s.(effects := s.effects + [LoginRequest]);
        CheckLoginKeepsOneTimer(c, s1.(store := s1.store[c.sessionIdKey := result.info.sessionId], info := Some(result.info)), renew, now);
      }
    case LogoutClicked(id, renew, now) => LogoutKeepsOneTimer(c, s, id, renew, now);
    case TimerFired(h, d, renew, now) =>
      if h in s.live {
        FireKeepsOneTimer(c, s, h, d, renew, now);
      }
  }

  /** From construction on, whatever happens, at most one timer is pending. */
  lemma {:induction false} RunKeepsOneTimer(c: Config, s: State, es: seq<Event>)
    requires AtMostOneTimer(s)
    ensures AtMostOneTimer(Run(c, s, es))
    ensures |Run(c, s, es).live| <= 1
    decreases |es|
  {
    if es != [] {
      StepKeepsOneTimer(c, s, es[0]);
      RunKeepsOneTimer(c, Step(c, s, es[0]), es[1..]);
    } else {
      AtMostOneTimerBound(s);
    }
  }

  /** A new element has no timer, and detaching it cancels any it has. */
  lemma DetachCancelsTimer(store: map<string, string>, next: Handle, s: State)
    requires AtMostOneTimer(s)
    ensures AtMostOneTimer(Initial(store, next))
    ensures Detach(s).live == map[] && Detach(s).handle == None
  {
    ClearLeavesNoTimer(s);
  }

  // ---------------------------------------------------------------------
  // checkLogin

  /** No stored session id: no renew request, the login form is shown, and
      nothing else changes. */
  lemma CheckLoginWithoutId(c: Config, s: State, renew: BackendResult, now: int)
    requires c.sessionIdKey !in s.store || s.store[c.sessionIdKey] == ""
    ensures CheckLogin(c, s, renew, now) == s.(view := LoginForm, effects := s.effects + [ShowLoginForm])
  {
  }

  /** The backend rejects the stored id: the id is removed from storage and
      the session dropped, the login form is shown; the clock mark, the
      pending timer and the app-login flag are left as they were. */
  lemma CheckLoginRejected(c: Config, s: State, errors: seq<ErrorEntry>, now: int)
    requires c.sessionIdKey in s.store && s.store[c.sessionIdKey] != ""
    ensures var r := CheckLogin(c, s, Failed(errors), now);
      && r.store == s.store - {c.sessionIdKey}
      && r.info == None
      && r.view == LoginForm
      && r.effects == s.effects + [RenewRequest(s.store[c.sessionIdKey]), ShowLoginForm]
      && r.lastCheck == s.lastCheck && r.lastActivity == s.lastActivity
      && r.live == s.live && r.handle == s.handle
      && r.didAppLogin == s.didAppLogin
  {
  }

  /** The backend renews the stored id: the session is replaced by the reply,
      the check time is `now`, and the one pending timer is a fresh one
      computed from the reply's `maxAgeSeconds`. The app is shown and told of
      the login only if it had not been before. */
  lemma CheckLoginRenewed(c: Config, s: State, info: SessionInfo, now: int)
    requires c.sessionIdKey in s.store && s.store[c.sessionIdKey] != ""
    requires AtMostOneTimer(s)
    ensures var r := CheckLogin(c, s, Session(info), now);
      && r.info == Some(info)
      && r.store == s.store
      && r.lastCheck == now && r.lastActivity == s.lastActivity
      && r.handle == Some(s.nextHandle)
      && r.live == map[s.nextHandle := Schedule(info.maxAgeSeconds, c.autoLogoutSeconds)]
      && r.didAppLogin
      && r.view == (if s.didAppLogin then s.view else AppView)
      && r.effects == s.effects + [RenewRequest(s.store[c.sessionIdKey])] +
           (if s.didAppLogin then [] else [ShowApp] + (if c.hasApp then [AppLoginEvent(info)] else []))
  {
    var s1 := s.(effects := s.effects + [RenewRequest(s.store[c.sessionIdKey])]).(info := Some(info), lastCheck := now);
    ArmLeavesOneTimer(c, s1);
  }

  /** The number of login notices sent to the app. */
  function LoginNotices(es: seq<Effect>): nat {
    if es == [] then 0 else LoginNotices(es[..|es| - 1]) + (if es[|es| - 1].AppLoginEvent? then 1 else 0)
  }

  lemma {:induction false} LoginNoticesAppend(a: seq<Effect>, b: seq<Effect>)
    ensures LoginNotices(a + b) == LoginNotices(a) + LoginNotices(b)
    decreases |b|
  {
    if b == [] {
      assert a + b == a;
    } else {
      var b' := b[..|b| - 1];
      assert (a + b)[..|a + b| - 1] == a + b';
      LoginNoticesAppend(a, b');
    }
  }

  /** What a successful check appends to the log. */
  function RenewTail(id: string, wasShown: bool, hasApp: bool, info: SessionInfo): seq<Effect> {
    [RenewRequest(id)] + (if wasShown then [] else [ShowApp] + (if hasApp then [AppLoginEvent(info)] else []))
  }

  lemma RenewTailNotices(id: string, wasShown: bool, hasApp: bool, info: SessionInfo)
    ensures LoginNotices(RenewTail(id, wasShown, hasApp, info)) <= 1
    ensures wasShown ==> LoginNotices(RenewTail(id, wasShown, hasApp, info)) == 0
  {
    var one := [RenewRequest(id)];
    assert one[..0] == [];
    assert LoginNotices(one) == 0;
    if !wasShown {
      var two := one + [ShowApp];
      assert two[..1] == one;
      assert LoginNotices(two) == 0;
      if hasApp {
        var three := two + [AppLoginEvent(info)];
        assert RenewTail(id, wasShown, hasApp, info) == three;
        assert three[..2] == two;
      } else {
        assert RenewTail(id, wasShown, hasApp, info) == two;
      }
    }
  }

  /** Two successful checks in a row notify the app at most once, and the
      second renews without rendering or notifying anything. */
  lemma RepeatedCheckNotifiesOnce(c: Config, s: State, a: SessionInfo, b: SessionInfo, t1: int, t2: int)
    requires c.sessionIdKey in s.store && s.store[c.sessionIdKey] != ""
    requires AtMostOneTimer(s)
    ensures var s1 := CheckLogin(c, s, Session(a), t1);
      var s2 := CheckLogin(c, s1, Session(b), t2);
      && s2.effects == s1.effects + [RenewRequest(s.store[c.sessionIdKey])]
      && LoginNotices(s2.effects) <= LoginNotices(s.effects) + 1
  {
    var id := s.store[c.sessionIdKey];
    var s1 := CheckLogin(c, s, Session(a), t1);
    CheckLoginRenewed(c, s, a, t1);
    assert AtMostOneTimer(s1);
    var s2 := CheckLogin(c, s1, Session(b), t2);
    CheckLoginRenewed(c, s1, b, t2);
    var tail := RenewTail(id, s.didAppLogin, c.hasApp, a);
    assert s1.effects == s.effects + tail;
    assert s2.effects == s1.effects + RenewTail(id, true, c.hasApp, b);
    RenewTailNotices(id, s.didAppLogin, c.hasApp, a);
    RenewTailNotices(id, true, c.hasApp, b);
    LoginNoticesAppend(s.effects, tail);
    LoginNoticesAppend(s1.effects, RenewTail(id, true, c.hasApp, b));
  }

  // ---------------------------------------------------------------------
  // login and logout

  /** A rejected login shows the errors on the login form and changes
      neither the storage nor the session nor any timer. */
  lemma LoginRejected(c: Config, s: State, errors: seq<ErrorEntry>, renew: BackendResult, now: int)
    ensures var r := Login(c, s, Failed(errors), renew, now);
      && r.store == s.store && r.info == s.info
      && r.live == s.live && r.handle == s.handle
      && r.lastCheck == s.lastCheck && r.didAppLogin == s.didAppLogin && r.view == s.view
      && r.effects == s.effects + [LoginRequest,
           ErrorsShown(WidgetTexts(errors, LoginFormWidgets), ListItems(GenericMessages(errors, LoginFormWidgets)))]
  {
  }

  /** An accepted login stores the new session id and renews it at once:
      if the renewal succeeds the element ends logged in with that id stored,
      otherwise the id is removed again and the session dropped. */
  lemma LoginAccepted(c: Config, s: State, info: SessionInfo, renew: BackendResult, now: int)
    requires info.sessionId != ""
    requires AtMostOneTimer(s)
    ensures var r := Login(c, s, Session(info), renew, now);
      && r.effects[|s.effects|] == LoginRequest
      && r.effects[|s.effects| + 1] == RenewRequest(info.sessionId)
      && (renew.Session? ==>
            && r.info == Some(renew.info) && r.store == s.store[c.sessionIdKey := info.sessionId]
            && r.lastCheck == now && r.didAppLogin && |r.live| == 1)
      && (renew.Failed? ==>
            && r.info == None && r.store == s.store - {c.sessionIdKey} && r.view == LoginForm
            && r.live == s.live)
  {
    var s1 := s.(effects := s.effects + [LoginRequest]).(store := s.store[c.sessionIdKey := info.sessionId], info := Some(info));
    if renew.Session? {
      CheckLoginRenewed(c, s1, renew.info, now);
    } else {
      CheckLoginRejected(c, s1, renew.errors, now);
      assert s1.store - {c.sessionIdKey} == s.store - {c.sessionIdKey};
    }
  }

  /** Logging out ends logged out whatever the backend would say: no
      session, no stored id, the app flag cleared, no timer pending, the
      login form shown; the backend is asked to revoke the given id and the
      app is told of the logout. */
  lemma LogoutEndsLoggedOut(c: Config, s: State, id: string, renew: BackendResult, now: int)
    requires AtMostOneTimer(s)
    ensures var r := Logout(c, s, id, renew, now);
      && r.info == None
      && c.sessionIdKey !in r.store && r.store == s.store - {c.sessionIdKey}
      && !r.didAppLogin
      && r.live == map[]
      && r.view == LoginForm
      && r.lastCheck == s.lastCheck
      && r.effects == s.effects + [RevokeRequest(id)] + (if c.hasApp then [AppLogoutEvent] else []) + [ShowLoginForm]
  {
    ClearLeavesNoTimer(s);
  }

  /** After logout no timer can fire: a timer event changes nothing. */
  lemma NoTimerFiresAfterLogout(c: Config, s: State, id: string, renew: BackendResult, now: int,
                                h: Handle, d: DialogEvent, renew2: BackendResult, now2: int)
    requires AtMostOneTimer(s)
    ensures var r := Logout(c, s, id, renew, now);
      Step(c, r, TimerFired(h, d, renew2, now2)) == r
  {
    LogoutEndsLoggedOut(c, s, id, renew, now);
  }

  /** The app flag is cleared by nothing but a logout: whenever an event
      clears it, the backend was asked to revoke a session during it. */
  lemma AppFlagClearedOnlyByLogout(c: Config, s: State, e: Event)
    requires s.didAppLogin && !Step(c, s, e).didAppLogin
    ensures exists k :: |s.effects| <= k < |Step(c, s, e).effects| && Step(c, s, e).effects[k].RevokeRequest?
  {
    var r := Step(c, s, e);
    match e
    case LogoutClicked(id, renew, now) =>
      assert r.effects[|s.effects|] == RevokeRequest(id);
    case TimerFired(h, d, renew, now) =>
      var s0 := s.(live := s.live - {h});
      var s1 := if d == NoDialogApi then s0 else s0.(effects := s0.effects + [WarningShown(s.live[h].dialogSeconds - 1.0)]);
      assert r.effects[|s1.effects|] == RevokeRequest(s1.info.value.sessionId);
    case _ =>
  }

  /** Quirk: a failed renewal leaves the app flag set, so after logging in
      again the app is neither re-rendered nor notified: the login form stays
      up although the element holds a live session. */
  lemma RejectedRenewLeavesAppHidden(c: Config, s: State, errors: seq<ErrorEntry>, t0: int,
                                     info: SessionInfo, renewed: SessionInfo, t1: int)
    requires s.didAppLogin && s.view == AppView && AtMostOneTimer(s)
    requires c.sessionIdKey in s.store && s.store[c.sessionIdKey] != ""
    requires info.sessionId != ""
    ensures var s1 := CheckLogin(c, s, Failed(errors), t0);
      var s2 := Login(c, s1, Session(info), Session(renewed), t1);
      && s1.view == LoginForm && s1.didAppLogin
      && s2.info == Some(renewed) && s2.view == LoginForm
      && s2.effects == s1.effects + [LoginRequest, RenewRequest(info.sessionId)]
  {
    var s1 := CheckLogin(c, s, Failed(errors), t0);
    CheckLoginRejected(c, s, errors, t0);
    var s1' := s1.(effects := s1.effects + [LoginRequest]).(store := s1.store[c.sessionIdKey := info.sessionId], info := Some(info));
    CheckLoginRenewed(c, s1', renewed, t1);
  }

  // ---------------------------------------------------------------------
  // The timer fires

  /** The dialog leads to logout exactly when its countdown ran out or it
      was closed with the value 'logout'; any other return value, and the
      error list for a missing dialog API, do not. */
  lemma WarningDecision(d: DialogEvent)
    ensures IsLogoutChoice(LogoutWarn(d)) <==> d == CountdownExpired || d == Closed("logout")
  {
  }

  /** Activity since the last check: the element renews silently, with no
      warning shown. */
  lemma FireAfterActivity(c: Config, s: State, h: Handle, d: DialogEvent, renew: BackendResult, now: int)
    requires h in s.live && s.lastActivity > s.lastCheck
    ensures var r := Fire(c, s, h, d, renew, now);
      && r == CheckLogin(c, s.(live := s.live - {h}), renew, now)
      && forall k :: |s.effects| <= k < |r.effects| ==> !r.effects[k].WarningShown?
  {
    var s0 := s.(live := s.live - {h});
    var r := CheckLogin(c, s0, renew, now);
    var id := StoredId(c, s0);
    if id.Some? && renew.Session? {
      var s1 := s0.(effects := s0.effects + [RenewRequest(id.value)]).(info := Some(renew.info), lastCheck := now);
      assert ArmTimer(c, s1).effects == s0.effects + [RenewRequest(id.value)];
    }
  }

  /** No activity since the last check, app shown: a working dialog is opened
      with the captured warning length, counted down from one less. */
  lemma FireWithoutActivityWarns(c: Config, s: State, h: Handle, d: DialogEvent, renew: BackendResult, now: int)
    requires h in s.live && s.lastActivity <= s.lastCheck && s.view == AppView && d != NoDialogApi
    ensures var r := Fire(c, s, h, d, renew, now);
      |r.effects| > |s.effects| && r.effects[|s.effects|] == WarningShown(s.live[h].dialogSeconds - 1.0)
  {
    var s0 := s.(live := s.live - {h});
    var s1 := s0.(effects := s0.effects + [WarningShown(s.live[h].dialogSeconds - 1.0)]);
    if !IsLogoutChoice(LogoutWarn(d)) {
      var id := StoredId(c, s1);
      if id.Some? && renew.Session? {
        var s2 := s1.(effects := s1.effects + [RenewRequest(id.value)]).(info := Some(renew.info), lastCheck := now);
        assert ArmTimer(c, s2).effects == s1.effects + [RenewRequest(id.value)];
      }
    }
  }

  /** The user chose logout (or let the countdown run out) and a session with
      an id is held: the element logs that session out. */
  lemma FireLogoutChoice(c: Config, s: State, h: Handle, d: DialogEvent, renew: BackendResult, now: int)
    requires h in s.live && AtMostOneTimer(s)
    requires s.lastActivity <= s.lastCheck && s.view == AppView
    requires d == CountdownExpired || d == Closed("logout")
    requires s.info.Some? && s.info.value.sessionId != ""
    ensures var r := Fire(c, s, h, d, renew, now);
      && r.info == None && c.sessionIdKey !in r.store && !r.didAppLogin
      && r.live == map[] && r.view == LoginForm
      && RevokeRequest(s.info.value.sessionId) in r.effects
  {
    var s0 := s.(live := s.live - {h});
    var s1 := s0.(effects := s0.effects + [WarningShown(s.live[h].dialogSeconds - 1.0)]);
    assert AtMostOneTimer(s1);
    LogoutEndsLoggedOut(c, s1, s.info.value.sessionId, renew, now);
    var r := Logout(c, s1, s.info.value.sessionId, renew, now);
    assert r.effects[|s1.effects|] == RevokeRequest(s.info.value.sessionId);
  }

  /** Logout was chosen but no session id is held: nothing beyond the warning. */
  lemma FireLogoutChoiceWithoutSession(c: Config, s: State, h: Handle, d: DialogEvent, renew: BackendResult, now: int)
    requires h in s.live && s.lastActivity <= s.lastCheck && s.view == AppView
    requires d == CountdownExpired || d == Closed("logout")
    requires s.info == None || s.info.value.sessionId == ""
    ensures Fire(c, s, h, d, renew, now) ==
      s.(live := s.live - {h}, effects := s.effects + [WarningShown(s.live[h].dialogSeconds - 1.0)])
  {
  }

  /** Any other dialog outcome, including 'logoutCancel', an empty return
      value and a missing dialog API, renews the session. With a missing
      dialog API no warning is shown and the errors are not reported. */
  lemma FireOtherChoiceRenews(c: Config, s: State, h: Handle, d: DialogEvent, renew: BackendResult, now: int)
    requires h in s.live && s.lastActivity <= s.lastCheck && s.view == AppView
    requires d != CountdownExpired && d != Closed("logout")
    ensures var s0 := s.(live := s.live - {h});
      Fire(c, s, h, d, renew, now) ==
        if d == NoDialogApi then CheckLogin(c, s0, renew, now)
        else CheckLogin(c, s0.(effects := s0.effects + [WarningShown(s.live[h].dialogSeconds - 1.0)]), renew, now)
  {
    WarningDecision(d);
  }

  /** No activity and the app not rendered (after a failed renewal): the
      dialog's elements are missing, `logoutWarn` fails, and the only change
      is that the timer is spent. */
  lemma FireOutsideAppView(c: Config, s: State, h: Handle, d: DialogEvent, renew: BackendResult, now: int)
    requires h in s.live && s.lastActivity <= s.lastCheck && s.view != AppView
    ensures Fire(c, s, h, d, renew, now) == s.(live := s.live - {h})
  {
  }

  // ---------------------------------------------------------------------
  // The log

  lemma CheckLoginExtendsLog(c: Config, s: State, renew: BackendResult, now: int)
    ensures s.effects <= CheckLogin(c, s, renew, now).effects
  {
    var id := StoredId(c, s);
    if id.Some? && renew.Session? {
      var s1 := s.(effects := s.effects + [RenewRequest(id.value)]).(info := Some(renew.info), lastCheck := now);
      assert ArmTimer(c, s1).effects == s1.effects;
    }
  }

  lemma LogoutExtendsLog(c: Config, s: State, id: string, renew: BackendResult, now: int)
    ensures s.effects <= Logout(c, s, id, renew, now).effects
  {
  }

  lemma FireExtendsLog(c: Config, s: State, h: Handle, d: DialogEvent, renew: BackendResult, now: int)
    requires h in s.live
    ensures s.effects <= Fire(c, s, h, d, renew, now).effects
  {
    var s0 := s.(live := s.live - {h});
    var s1 := if d == NoDialogApi then s0 else s0.(effects := s0.effects + [WarningShown(s.live[h].dialogSeconds - 1.0)]);
    assert s.effects <= s1.effects;
    var r := Fire(c, s, h, d, renew, now);
    if s0.lastActivity > s0.lastCheck {
      CheckLoginExtendsLog(c, s0, renew, now);
    } else if s0.view == AppView {
      if !IsLogoutChoice(LogoutWarn(d)) {
        assert r == CheckLogin(c, s1, renew, now);
        CheckLoginExtendsLog(c, s1, renew, now);
        PrefixTransitive(s.effects, s1.effects, r.effects);
      } else if s1.info.Some? && s1.info.value.sessionId != "" {
        assert r == Logout(c, s1, s1.info.value.sessionId, renew, now);
        LogoutExtendsLog(c, s1, s1.info.value.sessionId, renew, now);
        PrefixTransitive(s.effects, s1.effects, r.effects);
      }
    }
  }

  lemma PrefixTransitive<T>(a: seq<T>, b: seq<T>, c: seq<T>)
    requires a <= b && b <= c
    ensures a <= c
  {
    assert b[..|a|] == a;
    assert c[..|b|] == b;
    assert c[..|a|] == b[..|a|];
  }

  /** No operation takes back anything it did: the log only grows. */
  lemma StepExtendsLog(c: Config, s: State, e: Event)
    ensures s.effects <= Step(c, s, e).effects
  {
    match e
    case Attached(renew, now) => CheckLoginExtendsLog(c, s, renew, now);
    case LoginSubmitted(result, renew, now) =>
      if result.Session? {
        var s1 := s.(effects := s.effects + [LoginRequest]);
        CheckLoginExtendsLog(c, s1.(store := s1.store[c.sessionIdKey := result.info.sessionId], info := Some(result.info)), renew, now);
      }
    case LogoutClicked(id, renew, now) => LogoutExtendsLog(c, s, id, renew, now);
    case TimerFired(h, d, renew, now) =>
      if h in s.live {
        FireExtendsLog(c, s, h, d, renew, now);
      }
    case _ =>
  }

  /** The activity mark is the time of the latest interaction and nothing
      else changes; in particular no timer is touched. */
  lemma ActivityOnlyStamps(c: Config, s: State, t: int)
    ensures Step(c, s, UserActed(t)) == s.(lastActivity := t)
  {
  }
}
