/** The native authentication UI for iOS: the private `ASWebAuthenticationSession`
    kept in the static `was` slot, and the choice between it, an
    `SFSafariViewController` and the embedded web view fallback. */
module NativeUI {
  import opened Wrappers
  import opened Platform
  import opened WindowResolution
  import opened AuthState
  import EmbeddedUI

  /** The warning shown before falling back to the embedded web view; each
      `AppendLine` ends its line with iOS's newline. */
  const FallbackMessage: string :=
    "SafariViewController not available!\n" + "Fallback to embbeded web view \n"

  /** The guarded `was.Cancel()` that opens `StartPrivateSession`, run when the slot is not null. The slot keeps the
      cancelled session. */
  function CancelPrevious(st: State): State
  {
    match st.was
    case None => st
    case Some(s) => State(Some(s.(status := Cancelled)), st.nextId, st.trace + [CancelSession(s.id)])
  }

  /** The number of effects `CancelPrevious` adds. */
  function CancelCount(st: State): nat
  {
    if st.was.Some? then 1 else 0
  }

  /** The effects `CancelPrevious` adds. */
  function CancelEffects(st: State): (r: seq<Effect>)
    ensures |r| == CancelCount(st)
  {
    if st.was.Some? then [CancelSession(st.was.value.id)] else []
  }

  /** `StartPrivateSession(url, redirectUri)`. The previous session is always cancelled
      first. On iOS 13.0 or later a new session is created in the slot with the
      redirect scheme as callback scheme, anchored to the current window, made
      ephemeral and started, and the result is true; below 13.0 the result is false.
      Reading the scheme of a null or relative `redirectUri` throws at the constructor
      call, before the slot is assigned; a missing window throws after the new
      session is already in the slot. */
  function StartPrivateSession(env: Env, auth: Authenticator, st: State, url: Uri, redirectUri: Option<Uri>)
    : (r: Step<bool>)
    // the cancellation comes before every other effect, whatever happens next
    ensures |st.trace| + CancelCount(st) <= |r.state.trace|
    ensures r.state.trace[..|st.trace|] == st.trace
    ensures st.was.Some? ==> r.state.trace[|st.trace|] == CancelSession(st.was.value.id)
    ensures st.was.Some? ==> r.state.was.Some?
    ensures r.state.trace[..|st.trace| + CancelCount(st)] == st.trace + CancelEffects(st)
    // returns true exactly from iOS 13.0 on
    ensures r.result.Ok? ==> (r.result.value <==> AtLeast(env.os, 13, 0))
    ensures r.result.Err? <==>
              AtLeast(env.os, 13, 0)
              && (redirectUri.None? || !redirectUri.value.absolute || !HasCurrentWindow(env))
    ensures r.result.Err? ==>
              r.result.error == (if redirectUri.None? then NullReference
                                 else if !redirectUri.value.absolute then InvalidOperation(RelativeUriMessage)
                                 else InvalidOperation(NoWindowMessage))
    // true: a fresh session, configured from the arguments, started once
    ensures r.result == Ok(true) ==>
              && redirectUri.Some? && redirectUri.value.absolute
              && r.state.nextId == st.nextId + 1
              && r.state.was == Some(Session(st.nextId, auth.id, url, redirectUri.value.scheme, true,
                                             if env.keyWindow.Some? then env.keyWindow else FirstCandidate(env.windows),
                                             Started))
              && r.state.was.value.anchor.Some?
              && r.state.trace[|st.trace| + CancelCount(st)..]
                 == [CreateSession(st.nextId), AttachAnchor(st.nextId, r.state.was.value.anchor.value),
                     StartSession(st.nextId)]
    // false, or no scheme to read: nothing is created, the slot only cancelled
    ensures r.result == Ok(false) || r.result == Err(NullReference)
            || r.result == Err(InvalidOperation(RelativeUriMessage)) ==>
              && r.state.nextId == st.nextId
              && |r.state.trace| == |st.trace| + CancelCount(st)
              && (st.was.None? ==> r.state.was.None?)
              && (st.was.Some? ==> r.state.was == Some(st.was.value.(status := Cancelled)))
    // no window: the new session stays in the slot, created but never configured
    ensures r.result == Err(InvalidOperation(NoWindowMessage)) ==>
              && redirectUri.Some? && redirectUri.value.absolute
              && r.state.nextId == st.nextId + 1
              && r.state.was == Some(Session(st.nextId, auth.id, url, redirectUri.value.scheme, false, None, Created))
              && r.state.trace[|st.trace| + CancelCount(st)..] == [CreateSession(st.nextId)]
  {
    var cancelled := CancelPrevious(st);
    assert cancelled.trace[..|st.trace|] == st.trace;
    assert cancelled.trace == st.trace + CancelEffects(st);
    if !AtLeast(env.os, 13, 0) then Step(cancelled, Ok(false))
    else if redirectUri.None? then Step(cancelled, Err(NullReference))
    else if !redirectUri.value.absolute then Step(cancelled, Err(InvalidOperation(RelativeUriMessage)))
    else
      var n := cancelled.nextId;
      var created := Session(n, auth.id, url, redirectUri.value.scheme, false, None, Created);
      var withSession := State(Some(created), n + 1, cancelled.trace + [CreateSession(n)]);
      assert withSession.trace[..|st.trace|] == st.trace;
      assert withSession.trace[..|st.trace| + CancelCount(st)] == st.trace + CancelEffects(st);
      assert withSession.trace[|st.trace| + CancelCount(st)..] == [CreateSession(n)];
      match GetCurrentWindow(env, true)
      case Err(e) => Step(withSession, Err(e))
      case Ok(window) =>
        var started := created.(anchor := window, ephemeral := true, status := Started);
        var t := withSession.trace + [AttachAnchor(n, window.value), StartSession(n)];
        assert t[..|st.trace|] == st.trace;
        assert t[..|st.trace| + CancelCount(st)] == st.trace + CancelEffects(st);
        assert t[|st.trace| + CancelCount(st)..]
               == [CreateSession(n), AttachAnchor(n, window.value), StartSession(n)];
        Step(State(Some(started), withSession.nextId, t), Ok(true))
  }

  /** A state reached from a valid one by cancelling the slot and then adding `tail`
      is valid when the added identities are fresh and any session started in `tail`
      is the one now in the slot. */
  lemma ValidAfterCancelling(st: State, st': State, tail: seq<Effect>)
    requires Valid(st)
    requires st'.trace == st.trace + CancelEffects(st) + tail
    requires st.nextId <= st'.nextId
    requires forall i :: 0 <= i < |tail| ==> TargetBelow(tail[i], st'.nextId)
    requires st'.was.Some? ==> st'.was.value.id < st'.nextId
    requires forall id :: StartSession(id) in tail ==>
               st'.was.Some? && st'.was.value.id == id && st'.was.value.status == Started
    ensures Valid(st')
  {
    var t := st'.trace;
    forall i | 0 <= i < |t|
      ensures TargetBelow(t[i], st'.nextId)
    {
      if i < |st.trace| {
        assert t[i] == st.trace[i];
      } else if i >= |st.trace| + CancelCount(st) {
        assert t[i] == tail[i - |st.trace| - CancelCount(st)];
      }
    }
    forall id | Live(t, id)
      ensures st'.was.Some? && st'.was.value.id == id && st'.was.value.status == Started
    {
      if StartSession(id) !in tail {
        assert StartSession(id) !in CancelEffects(st);
        assert Live(st.trace, id);
      }
    }
  }

  /** The effects `StartPrivateSession` adds after the cancellation. */
  function SessionEffects(env: Env, auth: Authenticator, st: State, url: Uri, redirectUri: Option<Uri>)
    : (tail: seq<Effect>)
    ensures StartPrivateSession(env, auth, st, url, redirectUri).state.trace
            == st.trace + CancelEffects(st) + tail
  {
    var t := StartPrivateSession(env, auth, st, url, redirectUri).state.trace;
    var k := |st.trace| + CancelCount(st);
    assert t == t[..k] + t[k..];
    t[k..]
  }

  /** Cancelling the slot and then creating, anchoring and starting the fresh session
      `n`, which is now started in the slot, keeps a state valid. */
  lemma StartTailKeepsValid(st: State, st': State, n: nat, anchor: Window)
    requires Valid(st)
    requires n == st.nextId && st'.nextId == n + 1
    requires st'.trace == st.trace + CancelEffects(st) + [CreateSession(n), AttachAnchor(n, anchor), StartSession(n)]
    requires st'.was.Some? && st'.was.value.id == n && st'.was.value.status == Started
    ensures Valid(st')
  {
    var tail := [CreateSession(n), AttachAnchor(n, anchor), StartSession(n)];
    forall id | StartSession(id) in tail
      ensures st'.was.Some? && st'.was.value.id == id && st'.was.value.status == Started
    {
      assert tail[2] == StartSession(id);
    }
    ValidAfterCancelling(st, st', tail);
  }

  lemma StartedSessionKeepsValid(env: Env, auth: Authenticator, st: State, url: Uri, redirectUri: Option<Uri>)
    requires Valid(st)
    requires AtLeast(env.os, 13, 0) && redirectUri.Some? && redirectUri.value.absolute && HasCurrentWindow(env)
    ensures Valid(StartPrivateSession(env, auth, st, url, redirectUri).state)
  {
    var s := StartPrivateSession(env, auth, st, url, redirectUri).state;
    var tail := SessionEffects(env, auth, st, url, redirectUri);
    var n := st.nextId;
    var anchor := s.was.value.anchor.value;
    assert tail == [CreateSession(n), AttachAnchor(n, anchor), StartSession(n)];
    StartTailKeepsValid(st, s, n, anchor);
  }

  lemma UnstartedSessionKeepsValid(env: Env, auth: Authenticator, st: State, url: Uri, redirectUri: Option<Uri>)
    requires Valid(st)
    requires StartPrivateSession(env, auth, st, url, redirectUri).result == Err(InvalidOperation(NoWindowMessage))
    ensures Valid(StartPrivateSession(env, auth, st, url, redirectUri).state)
  {
    var s := StartPrivateSession(env, auth, st, url, redirectUri).state;
    var tail := SessionEffects(env, auth, st, url, redirectUri);
    assert tail == [CreateSession(st.nextId)];
    ValidAfterCancelling(st, s, tail);
  }

  lemma NoSessionKeepsValid(env: Env, auth: Authenticator, st: State, url: Uri, redirectUri: Option<Uri>)
    requires Valid(st)
    requires StartPrivateSession(env, auth, st, url, redirectUri).result
             !in {Ok(true), Err(InvalidOperation(NoWindowMessage))}
    ensures Valid(StartPrivateSession(env, auth, st, url, redirectUri).state)
  {
    var s := StartPrivateSession(env, auth, st, url, redirectUri).state;
    var tail := SessionEffects(env, auth, st, url, redirectUri);
    assert tail == [];
    ValidAfterCancelling(st, s, tail);
  }

  /** `StartPrivateSession` keeps the state valid: after it no session other than the
      one in the slot is live. */
  lemma StartPrivateSessionPreservesValid(env: Env, auth: Authenticator, st: State, url: Uri, redirectUri: Option<Uri>)
    requires Valid(st)
    ensures Valid(StartPrivateSession(env, auth, st, url, redirectUri).state)
  {
    var r := StartPrivateSession(env, auth, st, url, redirectUri).result;
    if r == Ok(true) {
      StartedSessionKeepsValid(env, auth, st, url, redirectUri);
    } else if r == Err(InvalidOperation(NoWindowMessage)) {
      UnstartedSessionKeepsValid(env, auth, st, url, redirectUri);
    } else {
      NoSessionKeepsValid(env, auth, st, url, redirectUri);
    }
  }

  /** The trace `StartPrivateSession` leaves when it starts a session: a valid state's
      trace, the cancellation of its slot, then the three effects of a new session
      carrying the next fresh identity. */
  ghost predicate FreshSessionTrace(st: State, t: seq<Effect>, w: Window)
  {
    && |t| == |st.trace| + CancelCount(st) + 3
    && t[..|st.trace|] == st.trace
    && (st.was.Some? ==> t[|st.trace|] == CancelSession(st.was.value.id))
    && t[|st.trace| + CancelCount(st)..]
       == [CreateSession(st.nextId), AttachAnchor(st.nextId, w), StartSession(st.nextId)]
  }

  /** Such a trace starts the new session exactly once. */
  lemma {:induction false} FreshSessionStartedOnce(st: State, t: seq<Effect>, w: Window)
    requires Valid(st)
    requires FreshSessionTrace(st, t, w)
    ensures CountIn(t, StartOf(st.nextId)) == 1
  {
    var n := st.nextId;
    var head := t[..|st.trace| + CancelCount(st)];
    var tail := t[|st.trace| + CancelCount(st)..];
    assert t == head + tail;
    assert forall i :: 0 <= i < |head| ==> TargetBelow(head[i], n) by {
      forall i | 0 <= i < |head|
        ensures TargetBelow(head[i], n)
      {
        if i < |st.trace| {
          assert head[i] == st.trace[i];
        }
      }
    }
    assert CountIn(head, StartOf(n)) == 0;
    assert tail == [CreateSession(n), AttachAnchor(n, w)] + [StartSession(n)];
    assert CountIn([CreateSession(n), AttachAnchor(n, w)], StartOf(n)) == 0;
    assert CountIn([StartSession(n)], StartOf(n)) == 1 by {
      assert [StartSession(n)][1..] == [];
    }
    CountInAppend([CreateSession(n), AttachAnchor(n, w)], [StartSession(n)], StartOf(n));
    CountInAppend(head, tail, StartOf(n));
  }

  /** Such a trace leaves the new session live. */
  lemma FreshSessionLive(st: State, t: seq<Effect>, w: Window)
    requires Valid(st)
    requires FreshSessionTrace(st, t, w)
    ensures Live(t, st.nextId)
  {
    var n := st.nextId;
    var head := t[..|st.trace| + CancelCount(st)];
    var tail := t[|st.trace| + CancelCount(st)..];
    assert t == head + tail;
    assert tail[2] == StartSession(n);
    forall i | 0 <= i < |head|
      ensures head[i] != CancelSession(n)
    {
      if i < |st.trace| {
        assert head[i] == st.trace[i];
        assert TargetBelow(st.trace[i], n);
      }
    }
  }

  /** From iOS 13.0 on, with an absolute redirect URI and a window, `StartPrivateSession`
      returns true, and the session it starts is started exactly once and is the only
      live session. */
  lemma PrivateSessionStartedOnce(env: Env, auth: Authenticator, st: State, url: Uri, redirectUri: Option<Uri>)
    requires Valid(st)
    requires AtLeast(env.os, 13, 0) && redirectUri.Some? && redirectUri.value.absolute && HasCurrentWindow(env)
    ensures var r := StartPrivateSession(env, auth, st, url, redirectUri);
            && r.result == Ok(true)
            && CountIn(r.state.trace, StartOf(st.nextId)) == 1
            && forall id :: Live(r.state.trace, id) <==> id == st.nextId
  {
    var r := StartPrivateSession(env, auth, st, url, redirectUri);
    FreshSessionStartedOnce(st, r.state.trace, r.state.was.value.anchor.value);
    FreshSessionLive(st, r.state.trace, r.state.was.value.anchor.value);
    StartPrivateSessionPreservesValid(env, auth, st, url, redirectUri);
  }

  /** The completion-handler lambda passed to the session's constructor: `OnCancelled` on
      the owning authenticator exactly when an error is reported. */
  function SessionCallback(st: State, session: Session, callbackUrl: Option<Uri>, error: Option<NSError>)
    : (r: State)
    ensures error.None? ==> r == st
    ensures error.Some? ==> r.was == st.was && r.nextId == st.nextId
                            && r.trace == st.trace + [ReportCancelled(session.owner)]
  {
    if error.Some? then st.(trace := st.trace + [ReportCancelled(session.owner)])
    else st
  }

  /** The callback URL plays no part: two callbacks that differ only in it agree. */
  lemma CallbackIgnoresUrl(st: State, session: Session, u: Option<Uri>, u': Option<Uri>, error: Option<NSError>)
    ensures SessionCallback(st, session, u, error) == SessionCallback(st, session, u', error)
  {
  }

  /** The callback keeps the state valid. */
  lemma SessionCallbackPreservesValid(st: State, session: Session, callbackUrl: Option<Uri>, error: Option<NSError>)
    requires Valid(st)
    ensures Valid(SessionCallback(st, session, callbackUrl, error))
  {
    var r := SessionCallback(st, session, callbackUrl, error);
    forall id | Live(r.trace, id)
      ensures Live(st.trace, id)
    {
      assert r.trace == st.trace || r.trace == st.trace + [ReportCancelled(session.owner)];
    }
  }

  /** `GetPlatformUINative` with the initial URL already fetched. Reading the
      absolute form of a relative initial URL throws before anything else happens.
      Then the private session wins and yields null; otherwise an
      `SFSafariViewController` when the class is present on iOS 9.0 or later;
      otherwise a warning, the embedded UI built and discarded, and null. Exceptions
      from `StartPrivateSession` propagate. */
  function GetPlatformUINative(env: Env, auth: Authenticator, st: State, initialUrl: Uri): (r: Step<Option<UI>>)
    ensures |st.trace| <= |r.state.trace| && r.state.trace[..|st.trace|] == st.trace
    ensures r.result.Err? <==>
              || !initialUrl.absolute
              || (AtLeast(env.os, 13, 0)
                  && (RedirectUri(auth).None? || !RedirectUri(auth).value.absolute || !HasCurrentWindow(env)))
    ensures r.result.Err? ==>
              r.result.error == (if !initialUrl.absolute then InvalidOperation(RelativeUriMessage)
                                 else if RedirectUri(auth).None? then NullReference
                                 else if !RedirectUri(auth).value.absolute then InvalidOperation(RelativeUriMessage)
                                 else InvalidOperation(NoWindowMessage))
    ensures r.result.Ok? && r.result.value.Some? ==>
              && r.result.value.value.SafariViewController?
              && r.result.value.value.url == initialUrl && !r.result.value.value.entersReaderIfAvailable
              && env.safariClassPresent && AtLeast(env.os, 9, 0) && !AtLeast(env.os, 13, 0)
    ensures r.result == Ok(None) ==>
              AtLeast(env.os, 13, 0) || !(env.safariClassPresent && AtLeast(env.os, 9, 0))
    // the slot is whatever `StartPrivateSession` left there: nothing after it touches `was`
    ensures initialUrl.absolute ==>
              r.state.was == StartPrivateSession(env, auth, st, initialUrl, RedirectUri(auth)).state.was
    // the Safari controller returned is the one whose build is recorded
    ensures r.result.Ok? && r.result.value.Some? ==> r.result.value.value.id == st.nextId
    // a relative initial URL: nothing happens at all
    ensures !initialUrl.absolute ==> r.state == st
    // the effects after the cancellation, for each outcome
    ensures initialUrl.absolute ==>
              && |st.trace| + CancelCount(st) <= |r.state.trace|
              && r.state.trace[|st.trace|..|st.trace| + CancelCount(st)] == CancelEffects(st)
    ensures r.result == Ok(None) && AtLeast(env.os, 13, 0) ==>
              && r.state.was.Some? && r.state.was.value.anchor.Some?
              && r.state.trace[|st.trace| + CancelCount(st)..]
                 == [CreateSession(st.nextId), AttachAnchor(st.nextId, r.state.was.value.anchor.value),
                     StartSession(st.nextId)]
    ensures r.result == Ok(None) && !AtLeast(env.os, 13, 0) ==>
              r.state.trace[|st.trace| + CancelCount(st)..]
              == [ShowAlert(FallbackMessage), BuildEmbedded(st.nextId)]
    ensures r.result.Ok? && r.result.value.Some? ==>
              r.state.trace[|st.trace| + CancelCount(st)..] == [BuildSafari(st.nextId)]
    ensures initialUrl.absolute && (r.result == Err(NullReference) || r.result == Err(InvalidOperation(RelativeUriMessage))) ==>
              r.state.trace[|st.trace| + CancelCount(st)..] == []
    ensures r.result == Err(InvalidOperation(NoWindowMessage)) ==>
              r.state.trace[|st.trace| + CancelCount(st)..] == [CreateSession(st.nextId)]
  {
    if !initialUrl.absolute then Step(st, Err(InvalidOperation(RelativeUriMessage)))
    else
      var session := StartPrivateSession(env, auth, st, initialUrl, RedirectUri(auth));
      if session.result.Err? then Step(session.state, Err(session.result.error))
      else if session.result.value then Step(session.state, Ok(None))
      else if env.safariClassPresent && AtLeast(env.os, 9, 0) then
        var n := session.state.nextId;
        Step(State(session.state.was, n + 1, session.state.trace + [BuildSafari(n)]),
             Ok(Some(SafariViewController(n, initialUrl, false))))
      else
        var warned := session.state.(trace := session.state.trace + [ShowAlert(FallbackMessage)]);
        var built := EmbeddedUI.GetPlatformUIEmbeddedBrowser(auth, warned);
        Step(built.state, Ok(None))
  }

  /** `GetPlatformUINative` keeps the state valid. */
  lemma GetPlatformUINativePreservesValid(env: Env, auth: Authenticator, st: State, initialUrl: Uri)
    requires Valid(st)
    ensures Valid(GetPlatformUINative(env, auth, st, initialUrl).state)
  {
    if !initialUrl.absolute {
      return;
    }
    var session := StartPrivateSession(env, auth, st, initialUrl, RedirectUri(auth));
    StartPrivateSessionPreservesValid(env, auth, st, initialUrl, RedirectUri(auth));
    var s := session.state;
    if session.result == Ok(false) {
      if env.safariClassPresent && AtLeast(env.os, 9, 0) {
        var t := s.trace + [BuildSafari(s.nextId)];
        forall id | Live(t, id)
          ensures Live(s.trace, id)
        {
        }
      } else {
        var warned := s.(trace := s.trace + [ShowAlert(FallbackMessage)]);
        forall id | Live(warned.trace, id)
          ensures Live(s.trace, id)
        {
        }
        EmbeddedUI.EmbeddedControllerIsFresh(auth, warned);
      }
    }
  }
}
