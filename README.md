# Session lifecycle of the `login-app` element, in Dafny

This project models the session-lifecycle controller of the `LoginApp` custom element
(`login/src/login-app.mjs`) and the `AppErrors` accumulator (`login/src/utils.mjs`).
The element decides whether the page shows a login form or the contained app. It keeps
the session id in session storage and renews the session with the backend. A timer is
armed from the session's `maxAgeSeconds`. When it fires, the element either renews
silently, because the user was active since the last check, or opens a warning dialog
that can log the user out.

Layout:

- `wrappers.dfy`: `Option`.
- `utils.dfy` (module `Utils`): the `AppErrors` class and the entry it stores for each
  added error. `ToString` is specified against `SplitLines`, an independent `split('\n')`.
  The round trip between the two is proved.
- `reporting.dfy` (module `Reporting`): `reportErrors`. It is an imperative loop that is
  proved against the functions `LastFor` (what each error widget shows) and
  `GenericMessages` (the generic list).
- `lifecycle.dfy` (module `Lifecycle`): the controller as functions on a `State` value.
  - `State` holds the element's fields, the session storage, the element's pending
    logout timers by handle (handles are positive, as browsers return them), the rendered view and an append-only log of `effects`.
  - There is one function per operation: `CheckLogin`, `Login`, `Logout`, `Display`,
    `ArmTimer` (`resetLogoutTimer`), `Fire` (the timer callback `timeFn`), `Activity`
    and `Detach`.
  - `Step` and `Run` apply any sequence of events.
- `lifecycle_properties.dfy` (module `LifecycleProperties`): the lemmas.
- `login_app.dfy` (module `Login`): the element as a class. Its fields are updated in
  place, statement by statement as in the source. `SessionStorage` and `TimerQueue` are
  objects the element holds. Every `LoginApp` method is proved to produce exactly the
  state the matching `Lifecycle` function gives. Each one that requires at most one
  pending timer keeps it so; `Activity` and `Display` keep that invariant exactly when it
  held before.
- module `LoginClient` in `login_app.dfy`: `SessionScenario`, a client that attaches with
  a stored session, renews after activity, then is logged out when the warning's
  countdown expires, with the state after each step asserted.

The outside world is turned into parameters:

- The backend's reply to a login or renew request is a `BackendResult`: a session, or an
  `errors` list.
- `Date.now()` is a `now: int` argument.
- The warning dialog's outcome is a `DialogEvent`: the dialog API is missing, the dialog
  was closed with some return value, or the countdown expired.
- Renders, app notifications and backend requests are appended to `effects`.
- Whether an app element is assigned to the `app` slot is the constant `hasApp`.

Behaviour of the code that the model keeps, as written:

- Any dialog result other than the exact string `'logout'` leads to `checkLogin`. This
  includes `'logoutCancel'`, an empty return value, and the `AppErrors` object returned
  when `showModal` is missing. In that last case the errors are not shown anywhere. One
  might expect a missing dialog API to surface the errors and take no lifecycle action;
  the code renews instead, and the model follows the code (`FireOtherChoiceRenews`).
- A failed renewal neither cancels the pending timer nor clears `didAppLogin`. After
  such a failure, a new login renews the session but neither re-renders the app nor
  notifies it, so the login form stays up (`RejectedRenewLeavesAppHidden`).
- When the timer fires with no activity while the login form is shown, `logoutWarn`
  cannot find `logoutMsg`. The callback fails there, and the only change is that the
  timer is spent (`FireOutsideAppView`).
- `logoutWarn` steps its countdown once before it arms its own timeout, so the dialog
  logs out by itself after `dialogSeconds - 1` seconds. `WarningShown` records that
  delay.
- A login reply with an empty `sessionId` is stored as it is. The following
  `checkLogin` treats the empty id as absent, so it shows the login form but keeps the
  new `sessionInfo`.
- `timeout < maxAgeSeconds` holds only for a positive `maxAgeSeconds` and
  `autoLogoutSeconds` (`Lifecycle.Schedule`).

## Model

| member | source | states |
|---|---|---|
| `Utils.AppErrors.constructor` | login/src/utils.mjs:2-4 | a new accumulator holds no errors |
| `Utils.AppErrors.Add` | login/src/utils.mjs:6-11 | exactly one entry is appended at the end, earlier entries are unchanged, and the receiver is returned for chaining |
| `Utils.Entry` | login/src/utils.mjs:7-9 | the stored message is `err.message` when truthy and `err.toString()` otherwise; missing options become the empty record |
| `Utils.EntryOfString` | login/src/utils.mjs:7-9 | a plain string is stored as its own message with empty options |
| `Utils.AppErrors.ToString` | login/src/utils.mjs:13 | an empty list prints as `""` and one entry prints as its message; splitting the printed form at line breaks gives back the messages in insertion order |
| `Utils.JoinThenSplit` | login/src/utils.mjs:13 | joining with `'\n'` and then splitting is the identity on non-empty lists of messages without line breaks |
| `Utils.JoinLinesSnoc` | login/src/utils.mjs:13 | joining a list extended by one message appends a line break and that message |
| `Utils.AddExtendsToString` | login/src/utils.mjs:6-13 | after `add`, the printed form is the old one followed by a line break and the new message |
| `Reporting.ReportErrors` | login/src/login-app.mjs:219-237 | every error widget is cleared and then shows the last error routed to it; the generic list holds the unrouted messages in input order |
| `Reporting.ListItems` | login/src/login-app.mjs:234-236 | the generic list's markup is empty exactly when there are no generic messages |
| `Reporting.GenericMessagesAppend` | login/src/login-app.mjs:223-233 | routing keeps input order: the generic list of a concatenation is the concatenation of the generic lists |
| `Reporting.GenericMessagesMembers` | login/src/login-app.mjs:224-232 | a message is in the generic list exactly when some error with that message has no truthy widget naming an existing `err-<widget>` element |
| `Reporting.LastRoutedErrorWins` | login/src/login-app.mjs:224-229 | a widget shows the message of the last error routed to it |
| `Reporting.UntargetedWidgetCleared` | login/src/login-app.mjs:221-229 | a widget that no error targets is left empty |
| `Lifecycle.Schedule` | login/src/login-app.mjs:135-139 | `timeout + dialogSeconds = maxAgeSeconds`; for positive inputs `0 <= timeout < maxAgeSeconds` and `0 < dialogSeconds <= autoLogoutSeconds`; the full lead time is kept when the session is long enough, otherwise the time left is halved |
| `Lifecycle.ScheduleExamples` | login/src/login-app.mjs:135-139 | (100, 30) gives (70, 30) and (20, 30) gives (10, 10) |
| `LifecycleProperties.AtMostOneTimerBound` | login/src/login-app.mjs:134-155 | when only the element's own handle can be pending, at most one timer is pending |
| `LifecycleProperties.ClearLeavesNoTimer` | login/src/login-app.mjs:117 | cancelling the held handle leaves no timer pending |
| `LifecycleProperties.ArmLeavesOneTimer` | login/src/login-app.mjs:133-156 | re-arming cancels first, so exactly the new timer is pending, with the delay the formula gives for the session's `maxAgeSeconds` |
| `LifecycleProperties.CheckLoginKeepsOneTimer` | login/src/login-app.mjs:80-97 | `checkLogin` keeps at most one timer pending |
| `LifecycleProperties.LogoutKeepsOneTimer` | login/src/login-app.mjs:116-125 | `logout` keeps at most one timer pending |
| `LifecycleProperties.FireKeepsOneTimer` | login/src/login-app.mjs:140-154 | the timer callback keeps at most one timer pending |
| `LifecycleProperties.StepKeepsOneTimer` | login/src/login-app.mjs:45-156 | every event (attach, detach, activity, login, logout, timer) keeps at most one timer pending |
| `LifecycleProperties.RunKeepsOneTimer` | login/src/login-app.mjs:45-156 | after any sequence of events at most one timer is pending |
| `LifecycleProperties.DetachCancelsTimer` | login/src/login-app.mjs:50-53 | a new element has no timer, and detaching cancels the timer and forgets its handle |
| `LifecycleProperties.CheckLoginWithoutId` | login/src/login-app.mjs:81-96 | with no truthy stored id there is no renew request, the login form is shown, and nothing else changes |
| `LifecycleProperties.CheckLoginRejected` | login/src/login-app.mjs:83-88 | a rejected renewal removes the stored id, drops the session and shows the login form; the check time, the pending timer and the app flag stay as they were |
| `LifecycleProperties.CheckLoginRenewed` | login/src/login-app.mjs:89-107 | a renewal replaces the session wholesale and sets the check time to now; exactly one fresh timer is pending, computed from the new `maxAgeSeconds`; the app is rendered and notified only if the flag was unset |
| `LifecycleProperties.RepeatedCheckNotifiesOnce` | login/src/login-app.mjs:100-107 | two successful checks in a row notify the app at most once, and the second one renders nothing |
| `LifecycleProperties.LoginRejected` | login/src/login-app.mjs:64-66 | a rejected login reports the errors on the login form and leaves the storage, the session and the timers untouched |
| `LifecycleProperties.LoginAccepted` | login/src/login-app.mjs:67-73 | an accepted login stores the id and renews it at once; it ends logged in with the renewed session, or, if the renewal fails, with the id removed again |
| `LifecycleProperties.LogoutEndsLoggedOut` | login/src/login-app.mjs:116-125 | logout ends with no session, no stored id, the app flag cleared, no pending timer and the login form shown; revoke, logout notice and login-form render happen in that order |
| `LifecycleProperties.NoTimerFiresAfterLogout` | login/src/login-app.mjs:117 | once logged out, a timer event changes nothing |
| `LifecycleProperties.AppFlagClearedOnlyByLogout` | login/src/login-app.mjs:100-125 | any event that clears the app-login flag sent a revoke request, that is, ran `logout` |
| `LifecycleProperties.RejectedRenewLeavesAppHidden` | login/src/login-app.mjs:85-107 | after a failed renewal the flag stays set, so a later login renews the session without rendering or notifying the app |
| `LifecycleProperties.WarningDecision` | login/src/login-app.mjs:194-211 | the dialog leads to logout exactly when its countdown expired or it closed with `'logout'`; a missing dialog API never does |
| `LifecycleProperties.FireAfterActivity` | login/src/login-app.mjs:141-144 | with activity since the last check, the callback renews and shows no warning |
| `LifecycleProperties.FireWithoutActivityWarns` | login/src/login-app.mjs:145 | with no activity and a working dialog, the warning dialog opens first, logging out by itself after the captured warning length less the initial countdown step |
| `LifecycleProperties.FireLogoutChoice` | login/src/login-app.mjs:146-150 | a logout result with a held session id logs that session out |
| `LifecycleProperties.FireLogoutChoiceWithoutSession` | login/src/login-app.mjs:146-149 | a logout result without a truthy session id does nothing beyond the warning |
| `LifecycleProperties.FireOtherChoiceRenews` | login/src/login-app.mjs:151-153 | any other result, including a missing dialog API, renews |
| `LifecycleProperties.FireOutsideAppView` | login/src/login-app.mjs:185-186 | with no activity and the app not rendered, the callback fails and only spends the timer |
| `LifecycleProperties.StepExtendsLog` | login/src/login-app.mjs:45-156 | no event takes back an effect: the log only grows |
| `LifecycleProperties.ActivityOnlyStamps` | login/src/login-app.mjs:56 | activity only records the time of the interaction and touches no timer |
| `Login.LoginApp.constructor` | login/src/login-app.mjs:11-42 | the key defaults to `sessionId` and the lead time to 30; there is no session, both clock marks are -1 and no timer is pending |
| `Login.LoginApp.Connected` | login/src/login-app.mjs:45-47 | attaching runs `checkLogin` |
| `Login.LoginApp.Disconnected` | login/src/login-app.mjs:50-53 | detaching leaves no timer pending |
| `Login.LoginApp.Activity` | login/src/login-app.mjs:56 | only the activity mark changes |
| `Login.LoginApp.Login` | login/src/login-app.mjs:59-74 | the in-place login equals `Lifecycle.Login` and keeps at most one timer |
| `Login.LoginApp.CheckLogin` | login/src/login-app.mjs:80-97 | the in-place check equals `Lifecycle.CheckLogin` and keeps at most one timer |
| `Login.LoginApp.Display` | login/src/login-app.mjs:100-114 | the in-place display equals `Lifecycle.Display` and keeps the one-timer invariant exactly when it held |
| `Login.LoginApp.Logout` | login/src/login-app.mjs:116-125 | the in-place logout equals `Lifecycle.Logout` and keeps at most one timer |
| `Login.LoginApp.ResetLogoutTimer` | login/src/login-app.mjs:133-156 | the in-place re-arm equals `Lifecycle.ArmTimer` and, from the invariant, leaves only the new timer pending |
| `Login.LoginApp.LogoutTimerFired` | login/src/login-app.mjs:140-154 | the in-place timer callback equals `Lifecycle.Fire` and keeps at most one timer |

## Left out

- `login/src/login-ws.mjs`: the HTTP calls and JSON parsing are replaced by their result, a `BackendResult`. A transport failure is a `Failed` reply like any other.
- `login/src/logout.mjs`: the logout button element and its shadow-root traversal. Its click is the `LogoutClicked` event.
- Rendering is out: the templates, `innerHTML`, `attachShadow`, the `submit` listener, `CustomEvent` dispatch, `FormData` and the document-wide activity listeners. Each is an entry in `effects` or an event. `getApp` becomes the constant `hasApp`.
- Real time is out. The timer's delay is recorded but not enforced, and a pending timer fires only when the `TimerFired` event says so. The dialog's per-second countdown text and its internal timeout are reduced to the `CountdownExpired` outcome.
- Asynchronous interleaving is out: a logout or activity arriving while a renewal is in flight, and the un-awaited `checkLogin` calls. Every operation runs to completion.
- The dialog's `close` event racing its own timeout is out. `logoutWarn` resolves once, with one `DialogEvent`.
- `Number(...)` attribute parsing and JavaScript floating point are out. The lead time and `maxAgeSeconds` are exact `real`s. Clock values are `int`s, not assumed to be monotonic.
- The warning's message text is out. `logoutWarn` reads the template from the message element's current markup, and its first countdown step overwrites the `${seconds}` placeholder. The app view is not re-rendered while `didAppLogin` stays set, so every later warning in the same session shows the number frozen from the first one. `WarningShown` records the dialog's auto-logout delay, not the text shown.
- Lifecycle.Activity: it is not stated that `lastActivityTime` is the largest timestamp seen, because that holds only for a monotonic clock, which the source does not ensure.
- Login.LoginApp.Login: requires the login form to be rendered, because the handler is registered only on that form.
- Login.LoginApp.Logout: requires the app to be rendered, because the button lives inside the app. Called anywhere else, the source's `getApp` would fail part-way through; that path is not modelled.
- Backend error entries are taken to have a string `message`. An error without `options` is treated like one with an empty `options` record, which `reportErrors` routes the same way.
