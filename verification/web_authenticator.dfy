/** `WebAuthenticator.GetPlatformUI` on iOS: the dispatch between the native UI and
    the embedded web view, and a reference statement of which presentation each
    environment gets. */
module WebAuthenticator {
  import opened Wrappers
  import opened Platform
  import opened WindowResolution
  import opened AuthState
  import EmbeddedUI
  import NativeUI

  /** The UI `GetPlatformUI` hands back (null is `None`), given the already fetched
      initial URL. */
  function GetPlatformUI(env: Env, auth: Authenticator, st: State, initialUrl: Uri): (r: Step<Option<UI>>)
    ensures |st.trace| <= |r.state.trace| && r.state.trace[..|st.trace|] == st.trace
    ensures auth.isUsingNativeUI ==> r == NativeUI.GetPlatformUINative(env, auth, st, initialUrl)
    ensures !auth.isUsingNativeUI ==>
              r == Step(EmbeddedUI.GetPlatformUIEmbeddedBrowser(auth, st).state,
                        Ok(Some(EmbeddedUI.GetPlatformUIEmbeddedBrowser(auth, st).ui)))
    // null only from the native path; the embedded path is never null
    ensures r.result == Ok(None) ==> auth.isUsingNativeUI
    ensures !auth.isUsingNativeUI ==>
              && r.result.Ok? && r.result.value.Some?
              && r.result.value.value.NavigationController?
              && r.result.value.value.root.authenticator == auth
              && r.state.was == st.was
  {
    if auth.isUsingNativeUI then NativeUI.GetPlatformUINative(env, auth, st, initialUrl)
    else
      var built := EmbeddedUI.GetPlatformUIEmbeddedBrowser(auth, st);
      Step(built.state, Ok(Some(built.ui)))
  }

  /** How the authentication UI ends up presented. */
  datatype Presentation =
    | PrivateSession
    | SafariView
    | WarnedEmbeddedFallback
    | EmbeddedBrowser
    | Fails(error: Exception)

  /** The presentation each environment and authenticator get, by strict priority:
      the embedded browser when the native UI is off; a failure when the initial URL
      is relative; on iOS 13.0 or later the private session, unless the redirect URI
      is null or relative or no window can anchor it; below that the Safari view when
      its class is present on iOS 9.0 or later; else the warned fallback. */
  function ExpectedPresentation(env: Env, auth: Authenticator, initialUrl: Uri): Presentation
  {
    if !auth.isUsingNativeUI then EmbeddedBrowser
    else if !initialUrl.absolute then Fails(InvalidOperation(RelativeUriMessage))
    else if AtLeast(env.os, 13, 0) then
      if RedirectUri(auth).None? then Fails(NullReference)
      else if !RedirectUri(auth).value.absolute then Fails(InvalidOperation(RelativeUriMessage))
      else if !HasCurrentWindow(env) then Fails(InvalidOperation(NoWindowMessage))
      else PrivateSession
    else if env.safariClassPresent && AtLeast(env.os, 9, 0) then SafariView
    else WarnedEmbeddedFallback
  }

  /** What each presentation shows in the result and in the effects of the call. */
  ghost predicate Presents(p: Presentation, auth: Authenticator, initialUrl: Uri,
                           result: Result<Option<UI>, Exception>, added: seq<Effect>)
  {
    match p
    case PrivateSession =>
      && result == Ok(None)
      && CountIn(added, SessionStarts) == 1
      && CountIn(added, SafariBuilds) == 0 && CountIn(added, EmbeddedBuilds) == 0
      && CountIn(added, Alerts) == 0
    case SafariView =>
      && result.Ok? && result.value.Some?
      && result.value.value.SafariViewController?
      && result.value.value.url == initialUrl
      && CountIn(added, SafariBuilds) == 1
      && CountIn(added, SessionCreations) == 0 && CountIn(added, SessionStarts) == 0
      && CountIn(added, EmbeddedBuilds) == 0 && CountIn(added, Alerts) == 0
    case WarnedEmbeddedFallback =>
      && result == Ok(None)
      && CountIn(added, Alerts) == 1 && ShowAlert(NativeUI.FallbackMessage) in added
      && CountIn(added, EmbeddedBuilds) == 1
      && CountIn(added, SessionCreations) == 0 && CountIn(added, SessionStarts) == 0
      && CountIn(added, SafariBuilds) == 0
    case EmbeddedBrowser =>
      && result.Ok? && result.value.Some?
      && result.value.value.NavigationController?
      && result.value.value.root.authenticator == auth
      && added == [BuildEmbedded(result.value.value.root.id)]
    case Fails(e) =>
      && result == Err(e)
      && CountIn(added, SessionStarts) == 0
      && CountIn(added, SafariBuilds) == 0 && CountIn(added, EmbeddedBuilds) == 0
      && CountIn(added, Alerts) == 0
  }

  /** Cancellations fall in no counted class, so a leading cancellation changes no count. */
  lemma CountAfterCancellation(cancel: seq<Effect>, tail: seq<Effect>)
    requires forall i :: 0 <= i < |cancel| ==> cancel[i].CancelSession?
    ensures forall c :: CountIn(cancel + tail, c) == CountIn(tail, c)
  {
    forall c: EffectClass
      ensures CountIn(cancel + tail, c) == CountIn(tail, c)
    {
      CountInAppend(cancel, tail, c);
    }
  }

  function Indicator(e: Effect, c: EffectClass): nat
  {
    if InClass(e, c) then 1 else 0
  }

  lemma CountOfTwo(a: Effect, b: Effect)
    ensures forall c :: CountIn([a, b], c) == Indicator(a, c) + Indicator(b, c)
  {
  }

  lemma CountOfThree(a: Effect, b: Effect, d: Effect)
    ensures forall c :: CountIn([a, b, d], c) == Indicator(a, c) + Indicator(b, c) + Indicator(d, c)
  {
    assert [a, b, d][1..] == [b, d];
    CountOfTwo(b, d);
  }

  /** The effects of the native path: the cancellation of the slot, then `tail`. */
  lemma NativeEffectsSplit(env: Env, auth: Authenticator, st: State, initialUrl: Uri)
    returns (cancel: seq<Effect>, tail: seq<Effect>)
    requires initialUrl.absolute
    ensures forall i :: 0 <= i < |cancel| ==> cancel[i].CancelSession?
    ensures |cancel| == NativeUI.CancelCount(st)
    ensures var r := NativeUI.GetPlatformUINative(env, auth, st, initialUrl);
            && NewEffects(st, r.state) == cancel + tail
            && tail == r.state.trace[|st.trace| + |cancel|..]
  {
    var r := NativeUI.GetPlatformUINative(env, auth, st, initialUrl);
    var k := |st.trace| + NativeUI.CancelCount(st);
    cancel := r.state.trace[|st.trace|..k];
    tail := r.state.trace[k..];
    assert r.state.trace[|st.trace|..] == cancel + tail;
  }

  /** The effects of a started private session, after the cancellation, present it. */
  lemma StartedSessionEffectsPresent(auth: Authenticator, initialUrl: Uri, cancel: seq<Effect>, id: nat, w: Window)
    requires forall i :: 0 <= i < |cancel| ==> cancel[i].CancelSession?
    ensures Presents(PrivateSession, auth, initialUrl, Ok(None),
                     cancel + [CreateSession(id), AttachAnchor(id, w), StartSession(id)])
  {
    CountAfterCancellation(cancel, [CreateSession(id), AttachAnchor(id, w), StartSession(id)]);
    CountOfThree(CreateSession(id), AttachAnchor(id, w), StartSession(id));
  }

  /** From iOS 13.0 with absolute URLs and a window, the private session is started
      and null is returned; no other UI is built and no warning shown. */
  lemma PrivateSessionPresents(env: Env, auth: Authenticator, st: State, initialUrl: Uri)
    requires ExpectedPresentation(env, auth, initialUrl) == PrivateSession
    ensures var r := GetPlatformUI(env, auth, st, initialUrl);
            Presents(PrivateSession, auth, initialUrl, r.result, NewEffects(st, r.state))
  {
    var r := GetPlatformUI(env, auth, st, initialUrl);
    var cancel, tail := NativeEffectsSplit(env, auth, st, initialUrl);
    var w := r.state.was.value.anchor.value;
    assert tail == [CreateSession(st.nextId), AttachAnchor(st.nextId, w), StartSession(st.nextId)];
    StartedSessionEffectsPresent(auth, initialUrl, cancel, st.nextId, w);
  }

  /** When the private session is presented, the slot holds it afterwards: a fresh
      session of this authenticator for the initial URL, with the redirect URI's scheme
      as callback scheme, ephemeral, anchored and started. */
  lemma PrivateSessionInSlot(env: Env, auth: Authenticator, st: State, initialUrl: Uri)
    requires ExpectedPresentation(env, auth, initialUrl) == PrivateSession
    ensures var r := GetPlatformUI(env, auth, st, initialUrl);
            && RedirectUri(auth).Some?
            && r.state.was.Some?
            && r.state.was.value.id == st.nextId && r.state.was.value.owner == auth.id
            && r.state.was.value.url == initialUrl
            && r.state.was.value.callbackScheme == RedirectUri(auth).value.scheme
            && r.state.was.value.ephemeral && r.state.was.value.anchor.Some?
            && r.state.was.value.status == Started
  {
    var session := NativeUI.StartPrivateSession(env, auth, st, initialUrl, RedirectUri(auth));
    assert session.result == Ok(true);
  }

  /** Below iOS 13.0, with the Safari class present on iOS 9.0 or later, a Safari view
      controller for the initial URL is returned and nothing else is built. */
  lemma SafariViewPresents(env: Env, auth: Authenticator, st: State, initialUrl: Uri)
    requires ExpectedPresentation(env, auth, initialUrl) == SafariView
    ensures var r := GetPlatformUI(env, auth, st, initialUrl);
            Presents(SafariView, auth, initialUrl, r.result, NewEffects(st, r.state))
  {
  }

  /** The effects of the warned fallback, after the cancellation, present it. */
  lemma FallbackEffectsPresent(auth: Authenticator, initialUrl: Uri, cancel: seq<Effect>, id: nat)
    requires forall i :: 0 <= i < |cancel| ==> cancel[i].CancelSession?
    ensures Presents(WarnedEmbeddedFallback, auth, initialUrl, Ok(None),
                     cancel + [ShowAlert(NativeUI.FallbackMessage), BuildEmbedded(id)])
  {
    var added := cancel + [ShowAlert(NativeUI.FallbackMessage), BuildEmbedded(id)];
    CountAfterCancellation(cancel, [ShowAlert(NativeUI.FallbackMessage), BuildEmbedded(id)]);
    CountOfTwo(ShowAlert(NativeUI.FallbackMessage), BuildEmbedded(id));
    assert added[|cancel|] == ShowAlert(NativeUI.FallbackMessage);
  }

  /** Otherwise on the native path: one warning, one embedded UI built, null returned. */
  lemma FallbackPresents(env: Env, auth: Authenticator, st: State, initialUrl: Uri)
    requires ExpectedPresentation(env, auth, initialUrl) == WarnedEmbeddedFallback
    ensures var r := GetPlatformUI(env, auth, st, initialUrl);
            Presents(WarnedEmbeddedFallback, auth, initialUrl, r.result, NewEffects(st, r.state))
  {
    var r := GetPlatformUI(env, auth, st, initialUrl);
    var cancel, tail := NativeEffectsSplit(env, auth, st, initialUrl);
    assert tail == [ShowAlert(NativeUI.FallbackMessage), BuildEmbedded(st.nextId)];
    FallbackEffectsPresent(auth, initialUrl, cancel, st.nextId);
  }

  /** A relative initial URL, or on iOS 13.0 or later a null or relative redirect URI
      or a missing window, surfaces as the exception, with no session started and no
      UI built. */
  lemma FailurePresents(env: Env, auth: Authenticator, st: State, initialUrl: Uri)
    requires ExpectedPresentation(env, auth, initialUrl).Fails?
    ensures var r := GetPlatformUI(env, auth, st, initialUrl);
            Presents(ExpectedPresentation(env, auth, initialUrl), auth, initialUrl, r.result, NewEffects(st, r.state))
  {
  }

  /** `GetPlatformUI` follows the priority of `ExpectedPresentation`, in its result and
      in the effects it performs. */
  lemma PlatformUIFollowsPriority(env: Env, auth: Authenticator, st: State, initialUrl: Uri)
    ensures var r := GetPlatformUI(env, auth, st, initialUrl);
            Presents(ExpectedPresentation(env, auth, initialUrl), auth, initialUrl, r.result, NewEffects(st, r.state))
  {
    match ExpectedPresentation(env, auth, initialUrl)
    case PrivateSession => PrivateSessionPresents(env, auth, st, initialUrl);
    case SafariView => SafariViewPresents(env, auth, st, initialUrl);
    case WarnedEmbeddedFallback => FallbackPresents(env, auth, st, initialUrl);
    case Fails(_) => FailurePresents(env, auth, st, initialUrl);
    case EmbeddedBrowser =>
  }

  /** `GetPlatformUI` keeps the state valid, so at most one session is ever live. */
  lemma GetPlatformUIPreservesValid(env: Env, auth: Authenticator, st: State, initialUrl: Uri)
    requires Valid(st)
    ensures Valid(GetPlatformUI(env, auth, st, initialUrl).state)
  {
    if auth.isUsingNativeUI {
      NativeUI.GetPlatformUINativePreservesValid(env, auth, st, initialUrl);
    } else {
      EmbeddedUI.EmbeddedControllerIsFresh(auth, st);
    }
  }
}
