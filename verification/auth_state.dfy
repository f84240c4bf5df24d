/** The state the iOS authenticator UI code touches: the static
    `ASWebAuthenticationSession was` slot, the objects it creates and a trace of the
    visible effects it performs, in order. */
module AuthState {
  import opened Wrappers
  import opened Platform

  /** What kind of authenticator `this` is; only an OAuth2 authenticator carries a
      redirect URL (itself a nullable reference). */
  datatype AuthenticatorKind = OAuth2(redirectUrl: Option<Uri>) | OtherAuthenticator

  datatype Authenticator = Authenticator(id: nat, isUsingNativeUI: bool, kind: AuthenticatorKind)

  /** The `redirectUri` local of `GetPlatformUINative`: an OAuth2 authenticator's
      `redirectUrl`, null for any other authenticator. */
  function RedirectUri(auth: Authenticator): (r: Option<Uri>)
    ensures auth.kind.OAuth2? ==> r == auth.kind.redirectUrl
    ensures !auth.kind.OAuth2? ==> r.None?
  {
    if auth.kind.OAuth2? then auth.kind.redirectUrl else None
  }

  datatype SessionStatus = Created | Started | Cancelled

  /** An `ASWebAuthenticationSession`: its identity, the authenticator whose
      `OnCancelled` its completion handler calls, the URL and callback scheme it was
      created with, and the properties set on it afterwards. */
  datatype Session = Session(
    id: nat,
    owner: nat,
    url: Uri,
    callbackScheme: string,
    ephemeral: bool,
    anchor: Option<Window>,
    status: SessionStatus)

  /** The `NSError` handed to a session's completion handler. */
  datatype NSError = NSError(domain: string, code: int)

  /** A `WebAuthenticatorController` built for one authenticator. */
  datatype Controller = WebAuthenticatorController(id: nat, authenticator: Authenticator)

  /** The view controllers the UI selection can hand back. */
  datatype UI =
    | SafariViewController(id: nat, url: Uri, entersReaderIfAvailable: bool)
    | NavigationController(root: Controller)

  /** The observable effects, in the order they happen. */
  datatype Effect =
    | CancelSession(session: nat)
    | CreateSession(session: nat)
    | AttachAnchor(session: nat, window: Window)
    | StartSession(session: nat)
    | ReportCancelled(authenticator: nat)
    | ShowAlert(message: string)
    | BuildSafari(controller: nat)
    | BuildEmbedded(controller: nat)

  /** `was` is the static session slot; `nextId` hands out fresh object identities. */
  datatype State = State(was: Option<Session>, nextId: nat, trace: seq<Effect>)

  const Initial: State := State(None, 0, [])

  /** A call's final state together with its return value or exception. The state is
      kept on an exception: static fields keep what was stored before the throw. */
  datatype Step<T> = Step(state: State, result: Result<T, Exception>)

  /** A call that cannot throw, returning a view controller. */
  datatype Built = Built(state: State, ui: UI)

  /** The object identity an effect refers to, if any. */
  function EffectTarget(e: Effect): Option<nat>
  {
    match e
    case CancelSession(s) => Some(s)
    case CreateSession(s) => Some(s)
    case AttachAnchor(s, _) => Some(s)
    case StartSession(s) => Some(s)
    case BuildSafari(c) => Some(c)
    case BuildEmbedded(c) => Some(c)
    case ReportCancelled(_) => None
    case ShowAlert(_) => None
  }

  predicate TargetBelow(e: Effect, n: nat)
  {
    EffectTarget(e).None? || EffectTarget(e).value < n
  }

  /** A session that was started and never cancelled. */
  predicate Live(trace: seq<Effect>, id: nat)
  {
    StartSession(id) in trace && CancelSession(id) !in trace
  }

  /** The invariant every reachable state keeps: identities are fresh, and a live
      session can only be the one in the slot. */
  ghost predicate Valid(st: State)
  {
    && (forall i :: 0 <= i < |st.trace| ==> TargetBelow(st.trace[i], st.nextId))
    && (st.was.Some? ==> st.was.value.id < st.nextId)
    && (forall id :: Live(st.trace, id) ==>
          st.was.Some? && st.was.value.id == id && st.was.value.status == Started)
  }

  lemma InitialIsValid()
    ensures Valid(Initial)
  {
  }

  /** A valid state has at most one live session. */
  lemma AtMostOneLiveSession(st: State, a: nat, b: nat)
    requires Valid(st)
    requires Live(st.trace, a) && Live(st.trace, b)
    ensures a == b
  {
  }

  /** Classes of effects, for counting. */
  datatype EffectClass =
    | Alerts
    | SafariBuilds
    | EmbeddedBuilds
    | SessionCreations
    | SessionStarts
    | StartOf(session: nat)

  predicate InClass(e: Effect, c: EffectClass)
  {
    match c
    case Alerts => e.ShowAlert?
    case SafariBuilds => e.BuildSafari?
    case EmbeddedBuilds => e.BuildEmbedded?
    case SessionCreations => e.CreateSession?
    case SessionStarts => e.StartSession?
    case StartOf(s) => e == StartSession(s)
  }

  /** How many effects of `trace` fall in class `c`. */
  function CountIn(trace: seq<Effect>, c: EffectClass): (n: nat)
    ensures n <= |trace|
    ensures n == 0 <==> forall i :: 0 <= i < |trace| ==> !InClass(trace[i], c)
  {
    if |trace| == 0 then 0
    else (if InClass(trace[0], c) then 1 else 0) + CountIn(trace[1..], c)
  }

  lemma {:induction false} CountInAppend(a: seq<Effect>, b: seq<Effect>, c: EffectClass)
    ensures CountIn(a + b, c) == CountIn(a, c) + CountIn(b, c)
  {
    if |a| > 0 {
      assert (a + b)[0] == a[0];
      assert (a + b)[1..] == a[1..] + b;
      CountInAppend(a[1..], b, c);
    } else {
      assert a + b == b;
    }
  }

  /** The effects appended to `before`'s trace to reach `after`'s. */
  function NewEffects(before: State, after: State): seq<Effect>
    requires |before.trace| <= |after.trace|
  {
    after.trace[|before.trace|..]
  }
}
