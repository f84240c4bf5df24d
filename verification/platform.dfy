/** The abstract iOS environment the authenticator UI logic reads: the application's
    key window and window list, the OS version and whether the SafariServices class
    can be looked up at run time. */
module Platform {
  import opened Wrappers

  /** An OS version as reported by the device; compared lexicographically. */
  datatype Version = Version(major: nat, minor: nat)

  /** `UIDevice.CurrentDevice.CheckSystemVersion(major, minor)`: the running OS is at
      least `major.minor`. */
  predicate AtLeast(v: Version, major: nat, minor: nat)
  {
    v.major > major || (v.major == major && v.minor >= minor)
  }

  /** `UIWindowLevel.Normal`. */
  const NormalLevel: real := 0.0

  /** A `UIWindow`: an object identity, its window level and whether a root view
      controller is attached. */
  datatype Window = Window(id: nat, level: real, hasRootViewController: bool)

  /** A `System.Uri`, reduced to the parts the selection logic reads: its scheme, its
      text, which tells one URI from another, and whether it is absolute. A relative
      URI has no scheme: reading its `Scheme` or `AbsoluteUri` throws. */
  datatype Uri = Uri(scheme: string, text: string, absolute: bool)

  /** The message of the `InvalidOperationException` that `System.Uri` throws when a
      relative URI is asked for `Scheme` or `AbsoluteUri`. */
  const RelativeUriMessage: string := "This operation is not supported for a relative URI."

  /** Everything the selection logic observes about the platform. */
  datatype Env = Env(
    keyWindow: Option<Window>,
    windows: seq<Window>,
    os: Version,
    safariClassPresent: bool)

  /** The exceptions the modelled code can throw. */
  datatype Exception =
    | InvalidOperation(message: string)
    | NullReference

}
