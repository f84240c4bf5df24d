# Xamarin.Auth iOS authentication UI selection, in Dafny

This project models how Xamarin.Auth's `WebAuthenticator` picks and starts its
authentication UI on iOS. UIKit is replaced by an abstract environment.

- **Window resolution.** `GetCurrentWindow` returns the key window if there is one. If
  there is none, it returns the first normal-level window that has a root view
  controller. The scan orders the windows by descending level with a stable sort. If
  nothing is found and the caller asked it to, it throws `InvalidOperationException`.
- **The private session slot.** `StartPrivateSession` works on the static
  `ASWebAuthenticationSession was`:
  - it always cancels the session already in the slot;
  - on iOS 13.0 or later it creates a new session in the slot, with the redirect URI's
    scheme as callback scheme;
  - it anchors the new session to the current window, sets it ephemeral (always
    `true`), starts it and returns `true`;
  - below iOS 13.0 it returns `false`.
- **Strategy selection.** `GetPlatformUINative` tries three strategies in order:
  - the private session, which returns null;
  - otherwise an `SFSafariViewController`, if the class exists and the OS is 9.0 or
    later;
  - otherwise it shows a warning, builds the embedded web view UI, throws that UI away
    and returns null.

  `GetPlatformUI` sends the call to the native path or to the embedded navigation
  controller, according to `IsUsingNativeUI`.

Modules group the source's members by concern:

- `Platform`: the environment (`Env`), windows, OS versions and URIs.
- `WindowResolution`: `GetCurrentWindow`, with LINQ's `OrderByDescending` written out
  as a stable insertion sort.
- `AuthState`: the session slot, fresh object identities and an ordered trace of
  effects. Effects are cancel, create, attach anchor, start, report cancelled, alert,
  Safari built and embedded built. This module also holds the state invariant `Valid`:
  a session that was started and never cancelled can only be the one in the slot.
- `EmbeddedUI`, `NativeUI` and `WebAuthenticator`: the three operations.
  `WebAuthenticator.ExpectedPresentation` is a separate reference statement of the
  priority order. `PlatformUIFollowsPriority` proves that `GetPlatformUI` obeys it.

Exceptions are `Err` results, and the state reached before the throw is kept. For
example, when no window is found, the newly created session is left in the slot
without being started, because a static field keeps whatever was stored in it before
an exception.

In several places a reader might expect one behaviour and the code does another; the
model follows the code:

- one might expect the ephemeral flag to come from the request; the code always sets
  it to `true`;
- one might expect the anchor window to be found before a session is created; the
  code creates the session, stores it in the slot and only then looks for a window;
- one might expect the embedded web view to be presented as the last resort; the code
  builds it, discards it and returns null;
- one might expect a completed session's callback URL to reach the caller; the code
  ignores the URL and only calls `OnCancelled` when an error is reported;
- one might expect every request to carry a redirect scheme; the code passes a null
  redirect URI for any authenticator that is not OAuth2, which throws
  `NullReferenceException` from iOS 13.0 on;
- one might expect any URI to do; the code reads `AbsoluteUri` of the initial URL and
  `Scheme` of the redirect URI, and `System.Uri` throws `InvalidOperationException`
  for both when the URI is relative, so only absolute URIs (in the sense of section
  4.3 of RFC 3986, as section 3.1.2 of RFC 6749 requires of a redirection endpoint)
  get a session or a Safari view.

## Model

| member | source | states |
|---|---|---|
| `WindowResolution.GetCurrentWindow` | source/Core/Xamarin.Auth.XamarinIOS/UINativeNonIntegratedBrowsers/WebAuthenticator.NativeUI.XamarinIOS.cs:47-66 | A key window is returned as it is, whatever its level, and the window list is not consulted. With no key window, the result is the first candidate in the original window order. The call throws `InvalidOperation("Could not find current window.")` exactly when `throwIfNull` holds and no window exists. Otherwise the result is null exactly when no window exists. A non-null result is the key window or a member of `Windows`. |
| `WindowResolution.ScanWindows` | source/Core/Xamarin.Auth.XamarinIOS/UINativeNonIntegratedBrowsers/WebAuthenticator.NativeUI.XamarinIOS.cs:56-59 | Taking the first candidate after the descending-level sort gives the same window as taking the first candidate in the original order. |
| `WindowResolution.OrderedScanFindsFirstInOriginalOrder` | source/Core/Xamarin.Auth.XamarinIOS/UINativeNonIntegratedBrowsers/WebAuthenticator.NativeUI.XamarinIOS.cs:54-60 | All candidates have the normal level, so the sort cannot change which candidate comes first. |
| `WindowResolution.FirstCandidate` | source/Core/Xamarin.Auth.XamarinIOS/UINativeNonIntegratedBrowsers/WebAuthenticator.NativeUI.XamarinIOS.cs:59 | `FirstOrDefault` with the root-view-controller and normal-level filter. The result is null exactly when no window passes the filter. Otherwise it is a passing window that no earlier window precedes in passing. |
| `WindowResolution.OrderByLevelDescending` | source/Core/Xamarin.Auth.XamarinIOS/UINativeNonIntegratedBrowsers/WebAuthenticator.NativeUI.XamarinIOS.cs:58 | The sorted windows are a permutation of the input, in non-increasing level order. |
| `WindowResolution.InsertByLevel` | source/Core/Xamarin.Auth.XamarinIOS/UINativeNonIntegratedBrowsers/WebAuthenticator.NativeUI.XamarinIOS.cs:58 | One insertion step of the sort keeps the sequence ordered and adds exactly the inserted window. |
| `WindowResolution.OrderByLevelDescendingIsStable` | source/Core/Xamarin.Auth.XamarinIOS/UINativeNonIntegratedBrowsers/WebAuthenticator.NativeUI.XamarinIOS.cs:58 | The sort is stable: the windows of any one level keep their original relative order. |
| `WindowResolution.InsertByLevelIsStable` | source/Core/Xamarin.Auth.XamarinIOS/UINativeNonIntegratedBrowsers/WebAuthenticator.NativeUI.XamarinIOS.cs:58 | An insertion puts the window at the front of its own level's run and leaves every other level's run unchanged. |
| `WindowResolution.FirstCandidateAtNormalLevel` | source/Core/Xamarin.Auth.XamarinIOS/UINativeNonIntegratedBrowsers/WebAuthenticator.NativeUI.XamarinIOS.cs:59 | The first candidate can be found among the normal-level windows alone. |
| `AuthState.RedirectUri` | source/Core/Xamarin.Auth.XamarinIOS/UINativeNonIntegratedBrowsers/WebAuthenticator.NativeUI.XamarinIOS.cs:128-132 | For an OAuth2 authenticator the redirect URI is its `redirectUrl`, null or not. For any other authenticator it is null. |
| `AuthState.AtMostOneLiveSession` | source/Core/Xamarin.Auth.XamarinIOS/UINativeNonIntegratedBrowsers/WebAuthenticator.NativeUI.XamarinIOS.cs:32 | In a valid state, any two sessions that were started and never cancelled are the same session, because the static slot holds a single session. |
| `NativeUI.StartPrivateSession` | source/Core/Xamarin.Auth.XamarinIOS/UINativeNonIntegratedBrowsers/WebAuthenticator.NativeUI.XamarinIOS.cs:92-121 | The cancellation of the previous session comes before any other effect, in every outcome. When the call returns, it returns true exactly on iOS 13.0 or later. It throws exactly on iOS 13.0 or later when the redirect URI is null, relative, or no window exists: `NullReference` for a null one, `InvalidOperation` with `System.Uri`'s message for a relative one, and `InvalidOperation("Could not find current window.")` for a missing window. On true, the redirect URI is absolute and the slot holds a new session with a fresh identity. That session carries the given URL, the redirect scheme, `ephemeral = true`, the resolved window as anchor and status Started, and its create, anchor and start effects come in that order. On false, or on a null or relative redirect URI, nothing is created and the slot only has its old session cancelled. When no window is found, the slot holds the new session as created: not ephemeral, with no anchor, not started. |
| `NativeUI.StartPrivateSessionPreservesValid` | source/Core/Xamarin.Auth.XamarinIOS/UINativeNonIntegratedBrowsers/WebAuthenticator.NativeUI.XamarinIOS.cs:94-117 | After the call, the only session that was started and not cancelled is the one in the slot. |
| `NativeUI.PrivateSessionStartedOnce` | source/Core/Xamarin.Auth.XamarinIOS/UINativeNonIntegratedBrowsers/WebAuthenticator.NativeUI.XamarinIOS.cs:98-117 | From a valid state on iOS 13.0 or later, with an absolute redirect URI and a window to anchor to, the call returns true. The new session is then started exactly once over the whole trace, and it is the only live session. |
| `NativeUI.FreshSessionStartedOnce` | source/Core/Xamarin.Auth.XamarinIOS/UINativeNonIntegratedBrowsers/WebAuthenticator.NativeUI.XamarinIOS.cs:100-116 | A trace made of a valid history, the cancellation and the new session's create, anchor and start effects contains exactly one start of the new session. |
| `NativeUI.FreshSessionLive` | source/Core/Xamarin.Auth.XamarinIOS/UINativeNonIntegratedBrowsers/WebAuthenticator.NativeUI.XamarinIOS.cs:100-116 | The same trace leaves the new session live, because nothing earlier in it can cancel an identity that was not yet handed out. |
| `NativeUI.SessionCallback` | source/Core/Xamarin.Auth.XamarinIOS/UINativeNonIntegratedBrowsers/WebAuthenticator.NativeUI.XamarinIOS.cs:103-109 | With a null error the handler has no effect. With an error it reports a cancellation to the session's owning authenticator once, and changes nothing else. |
| `NativeUI.CallbackIgnoresUrl` | source/Core/Xamarin.Auth.XamarinIOS/UINativeNonIntegratedBrowsers/WebAuthenticator.NativeUI.XamarinIOS.cs:103-109 | The callback URL plays no part in the handler's outcome. |
| `NativeUI.SessionCallbackPreservesValid` | source/Core/Xamarin.Auth.XamarinIOS/UINativeNonIntegratedBrowsers/WebAuthenticator.NativeUI.XamarinIOS.cs:103-109 | Reporting a cancellation does not break the single-live-session invariant. |
| `NativeUI.GetPlatformUINative` | source/Core/Xamarin.Auth.XamarinIOS/UINativeNonIntegratedBrowsers/WebAuthenticator.NativeUI.XamarinIOS.cs:123-176 | A relative initial URL throws `InvalidOperation` before anything happens, leaving the state as it was. Otherwise the call throws exactly when the private session throws, with the same exception. A non-null result is a Safari view controller for the initial URL with reader mode off, and only below iOS 13.0 with the class present on 9.0 or later. A null result means the private session was started, or the Safari conditions failed. After the cancellation, the effects are exactly one of: the session's create, anchor and start; one Safari build; the warning then one embedded build; nothing (null or relative redirect URI); or one create (no window). The slot afterwards is exactly what the private session left there, since nothing later touches `was`. A returned Safari controller has the identity its build effect records. |
| `NativeUI.GetPlatformUINativePreservesValid` | source/Core/Xamarin.Auth.XamarinIOS/UINativeNonIntegratedBrowsers/WebAuthenticator.NativeUI.XamarinIOS.cs:123-176 | The native path keeps the single-live-session invariant. |
| `EmbeddedUI.GetPlatformUIEmbeddedBrowser` | source/Core/Xamarin.Auth.XamarinIOS/WebAuthenticator.XamarinIOS.cs:80-89 | The result is never null. It is a navigation controller whose root is a new `WebAuthenticatorController` for this authenticator, with an identity not handed out before. The session slot is not touched. |
| `EmbeddedUI.EmbeddedControllerIsFresh` | source/Core/Xamarin.Auth.XamarinIOS/WebAuthenticator.XamarinIOS.cs:83-88 | In a valid state, no earlier effect and no slot session refers to the new controller, and the state stays valid. |
| `WebAuthenticator.GetPlatformUI` | source/Core/Xamarin.Auth.XamarinIOS/WebAuthenticator.XamarinIOS.cs:57-70 | With `IsUsingNativeUI` the result is passed through from the native path unchanged. Without it, the result is passed through from the embedded path unchanged. Null can come only from the native path: without it the result is a navigation controller for this authenticator, and the session slot is left alone. |
| `WebAuthenticator.PlatformUIFollowsPriority` | source/Core/Xamarin.Auth.XamarinIOS/WebAuthenticator.XamarinIOS.cs:57-70 | For every environment, the result and the new effects match the presentation the reference priority order picks. That is one of: private session; Safari view; warned embedded fallback; plain embedded browser; the exception, for a relative initial URL or on iOS 13.0 and later for a null or relative redirect URI or a missing window. Each case states which UI objects are built, how many times, and which are not built. |
| `WebAuthenticator.PrivateSessionPresents` | source/Core/Xamarin.Auth.XamarinIOS/UINativeNonIntegratedBrowsers/WebAuthenticator.NativeUI.XamarinIOS.cs:133-137 | Once the private session starts, the call returns null. It starts exactly one session, builds neither Safari nor embedded UI, and shows no warning. |
| `WebAuthenticator.PrivateSessionInSlot` | source/Core/Xamarin.Auth.XamarinIOS/UINativeNonIntegratedBrowsers/WebAuthenticator.NativeUI.XamarinIOS.cs:98-137 | When the private session is presented, the slot then holds a fresh session of this authenticator for the initial URL. It has the redirect URI's scheme as callback scheme, is ephemeral, is anchored and is started. |
| `WebAuthenticator.SafariViewPresents` | source/Core/Xamarin.Auth.XamarinIOS/UINativeNonIntegratedBrowsers/WebAuthenticator.NativeUI.XamarinIOS.cs:143-163 | In the Safari case, exactly one Safari view controller is built for the initial URL and returned. No session is created or started, no embedded UI is built, and no warning is shown. |
| `WebAuthenticator.FallbackPresents` | source/Core/Xamarin.Auth.XamarinIOS/UINativeNonIntegratedBrowsers/WebAuthenticator.NativeUI.XamarinIOS.cs:164-175 | In the fallback, exactly one warning is shown, with the "SafariViewController not available!" text. Exactly one embedded UI is built, no Safari view or session is created, and null is returned. |
| `WebAuthenticator.FailurePresents` | source/Core/Xamarin.Auth.XamarinIOS/UINativeNonIntegratedBrowsers/WebAuthenticator.NativeUI.XamarinIOS.cs:98-126 | A relative initial URL, or on iOS 13.0 or later a null or relative redirect URI or a missing window, surfaces as that exception. No session is started, no UI is built and no warning is shown. |
| `WebAuthenticator.GetPlatformUIPreservesValid` | source/Core/Xamarin.Auth.XamarinIOS/WebAuthenticator.XamarinIOS.cs:57-70 | Every call keeps the invariant that at most one session is live, and that session is the one in the slot. |

## Left out

- Objective-C interop (`objc_msgSend`, `Selector.GetHandle`, `Class.GetHandle`) and the `ContextProvider` export are foreign calls. The class lookup becomes the `safariClassPresent` input. Attaching the presentation context becomes the `AttachAnchor` effect.
- `GetNativeUrl` and the `NSUrl` constructors are platform URL parsing. URLs are abstract `Uri` values with a scheme and an absolute flag; a failing `NSUrl` construction is not modelled. `System.Uri`'s own parsing is not modelled either: only the `InvalidOperationException` that `AbsoluteUri` and `Scheme` throw for a relative URI is.
- `GetInitialUrlAsync().Result` is a blocking network fetch. Its result is the `initialUrl` parameter.
- `ShowErrorForNativeUIAlert` hands the alert to the UI thread, and `UIAlertView` shows it. Only the fact of the alert and its message are recorded, at the point of the call.
- `ClearCookies` works on the cookie store and caches through asynchronous platform callbacks.
- The Safari delegate wiring, the DEBUG `Title` assignments, the `PlatformUIMethod` property and the unused `sf` static hold no decision logic.
- `OnCancelled` belongs to the authenticator base class, which is not part of this model. It is recorded as a `ReportCancelled` effect naming the authenticator.
- `OAuth2Authenticator` is not part of this model. Its `redirectUrl` is treated as a nullable reference.
- What iOS does inside `Cancel()` and `Start()` is platform behaviour. A cancelled session is marked Cancelled and stays in the slot. Completion of a session by the OS is an outside event and is not modelled.
- Window levels are `real` numbers with Normal = 0. The NaN values of `nfloat` are not modelled.
- The strings that `StringBuilder.AppendLine` builds use iOS's `"\n"` newline.
