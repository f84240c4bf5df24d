/** The embedded web view UI (`WebAuthenticator.GetPlatformUIEmbeddedBrowser`). */
module EmbeddedUI {
  import opened Wrappers
  import opened AuthState

  /** Builds a navigation controller around a new `WebAuthenticatorController` for
      `auth`. It never fails and never touches the session slot. */
  function GetPlatformUIEmbeddedBrowser(auth: Authenticator, st: State): (r: Built)
    ensures r.ui.NavigationController? && r.ui.root.authenticator == auth
    ensures r.state.was == st.was
    ensures r.ui.root.id == st.nextId < r.state.nextId
    ensures r.state.trace == st.trace + [BuildEmbedded(r.ui.root.id)]
  {
    var controller := WebAuthenticatorController(st.nextId, auth);
    Built(State(st.was, st.nextId + 1, st.trace + [BuildEmbedded(controller.id)]),
          NavigationController(controller))
  }

  /** The controller is a fresh object: nothing in a valid state refers to it, and the
      state stays valid. */
  lemma EmbeddedControllerIsFresh(auth: Authenticator, st: State)
    requires Valid(st)
    ensures var r := GetPlatformUIEmbeddedBrowser(auth, st);
            && Valid(r.state)
            && (forall i :: 0 <= i < |st.trace| ==> EffectTarget(st.trace[i]) != Some(r.ui.root.id))
            && (st.was.Some? ==> st.was.value.id != r.ui.root.id)
  {
    var r := GetPlatformUIEmbeddedBrowser(auth, st);
    forall id | Live(r.state.trace, id)
      ensures Live(st.trace, id)
    {
      assert StartSession(id) in st.trace + [BuildEmbedded(st.nextId)];
    }
  }
}
