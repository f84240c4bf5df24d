/** Finding the window that anchors the authentication session
    (`WebAuthenticator.GetCurrentWindow`). */
module WindowResolution {
  import opened Wrappers
  import opened Platform

  const NoWindowMessage: string := "Could not find current window."

  /** The filter `FirstOrDefault` applies to the scanned windows. */
  predicate IsCandidate(w: Window)
  {
    w.hasRootViewController && w.level == NormalLevel
  }

  /** Some window can serve as the current window: a key window of any level, or a
      candidate among all windows. */
  predicate HasCurrentWindow(env: Env)
  {
    env.keyWindow.Some? || exists i :: 0 <= i < |env.windows| && IsCandidate(env.windows[i])
  }

  ghost predicate SortedByLevelDescending(s: seq<Window>)
  {
    forall i, j :: 0 <= i < j < |s| ==> s[i].level >= s[j].level
  }

  /** The windows of `s` at level `l`, in their order in `s`. */
  function AtLevel(s: seq<Window>, l: real): seq<Window>
  {
    if |s| == 0 then []
    else (if s[0].level == l then [s[0]] else []) + AtLevel(s[1..], l)
  }

  /** Inserts `w` in front of every window of `sorted` whose level is not above its
      own, so that `w` stays ahead of the equal-level windows that followed it. */
  function InsertByLevel(w: Window, sorted: seq<Window>): (r: seq<Window>)
    requires SortedByLevelDescending(sorted)
    ensures SortedByLevelDescending(r)
    ensures multiset(r) == multiset(sorted) + multiset{w}
  {
    if |sorted| == 0 || sorted[0].level <= w.level then [w] + sorted
    else
      var rest := InsertByLevel(w, sorted[1..]);
      assert sorted == [sorted[0]] + sorted[1..];
      assert forall k :: 0 <= k < |rest| ==> rest[k].level <= sorted[0].level by {
        forall k | 0 <= k < |rest|
          ensures rest[k].level <= sorted[0].level
        {
          assert rest[k] in multiset(rest);
          if rest[k] != w {
            assert rest[k] in multiset(sorted[1..]);
            assert rest[k] in sorted[1..];
          }
        }
      }
      [sorted[0]] + rest
  }

  /** LINQ's `OrderByDescending(w => w.WindowLevel)`: a stable sort, highest level first. */
  function OrderByLevelDescending(s: seq<Window>): (r: seq<Window>)
    ensures SortedByLevelDescending(r)
    ensures multiset(r) == multiset(s)
  {
    if |s| == 0 then []
    else
      assert s == [s[0]] + s[1..];
      InsertByLevel(s[0], OrderByLevelDescending(s[1..]))
  }

  /** LINQ's `FirstOrDefault(IsCandidate)`: the earliest candidate of `s`, if any. */
  function FirstCandidate(s: seq<Window>): (r: Option<Window>)
    ensures r.None? <==> forall i :: 0 <= i < |s| ==> !IsCandidate(s[i])
    ensures r.Some? ==> exists i :: 0 <= i < |s| && s[i] == r.value && IsCandidate(s[i])
                                    && forall j :: 0 <= j < i ==> !IsCandidate(s[j])
  {
    if |s| == 0 then None
    else if IsCandidate(s[0]) then Some(s[0])
    else FirstCandidate(s[1..])
  }

  /** Inserting one window adds it to its own level's run, at the front, and leaves
      every other level's run as it was. */
  lemma {:induction false} InsertByLevelIsStable(w: Window, sorted: seq<Window>, l: real)
    requires SortedByLevelDescending(sorted)
    ensures AtLevel(InsertByLevel(w, sorted), l)
         == (if w.level == l then [w] + AtLevel(sorted, l) else AtLevel(sorted, l))
  {
    if |sorted| == 0 || sorted[0].level <= w.level {
      assert ([w] + sorted)[1..] == sorted;
    } else {
      var rest := InsertByLevel(w, sorted[1..]);
      InsertByLevelIsStable(w, sorted[1..], l);
      assert ([sorted[0]] + rest)[1..] == rest;
    }
  }

  /** The sort keeps the relative order of windows of equal level. */
  lemma {:induction false} OrderByLevelDescendingIsStable(s: seq<Window>, l: real)
    ensures AtLevel(OrderByLevelDescending(s), l) == AtLevel(s, l)
  {
    if |s| > 0 {
      OrderByLevelDescendingIsStable(s[1..], l);
      InsertByLevelIsStable(s[0], OrderByLevelDescending(s[1..]), l);
    }
  }

  /** Every candidate sits at the normal level, so the first candidate is found
      among the normal-level windows alone. */
  lemma {:induction false} FirstCandidateAtNormalLevel(s: seq<Window>)
    ensures FirstCandidate(AtLevel(s, NormalLevel)) == FirstCandidate(s)
  {
    if |s| > 0 {
      var tail := AtLevel(s[1..], NormalLevel);
      FirstCandidateAtNormalLevel(s[1..]);
      if s[0].level == NormalLevel {
        assert AtLevel(s, NormalLevel) == [s[0]] + tail;
        assert ([s[0]] + tail)[0] == s[0];
        assert ([s[0]] + tail)[1..] == tail;
      } else {
        assert AtLevel(s, NormalLevel) == tail;
        assert !IsCandidate(s[0]);
      }
    }
  }

  /** Scanning the windows by descending level finds the same window as scanning them
      in their original order. */
  lemma OrderedScanFindsFirstInOriginalOrder(s: seq<Window>)
    ensures FirstCandidate(OrderByLevelDescending(s)) == FirstCandidate(s)
  {
    FirstCandidateAtNormalLevel(s);
    FirstCandidateAtNormalLevel(OrderByLevelDescending(s));
    OrderByLevelDescendingIsStable(s, NormalLevel);
  }

  /** The scan of `Windows` in `GetCurrentWindow` when there is no key window: sort by
      level, then take the first candidate. */
  function ScanWindows(windows: seq<Window>): (r: Option<Window>)
    ensures r == FirstCandidate(windows)
  {
    OrderedScanFindsFirstInOriginalOrder(windows);
    FirstCandidate(OrderByLevelDescending(windows))
  }

  /** `GetCurrentWindow(throwIfNull)`: the key window when there is one, otherwise the
      first normal-level window with a root view controller; throws when nothing is
      found and `throwIfNull` holds. */
  function GetCurrentWindow(env: Env, throwIfNull: bool): (r: Result<Option<Window>, Exception>)
    ensures env.keyWindow.Some? ==> r == Ok(env.keyWindow)
    ensures env.keyWindow.None? && r.Ok? ==> r.value == FirstCandidate(env.windows)
    ensures r.Err? <==> throwIfNull && !HasCurrentWindow(env)
    ensures r.Err? ==> r.error == InvalidOperation(NoWindowMessage)
    ensures r.Ok? ==> (r.value.Some? <==> HasCurrentWindow(env))
    ensures r.Ok? && r.value.Some? ==> r.value == env.keyWindow || r.value.value in env.windows
  {
    var key := env.keyWindow;
    if key.Some? && key.value.level == NormalLevel then Ok(key)
    else
      var window := if key.None? then ScanWindows(env.windows) else key;
      if throwIfNull && window.None? then Err(InvalidOperation(NoWindowMessage))
      else Ok(window)
  }
}
