/** The sliding-window limiter in front of the password routes. */
module Limiter {

  /** The times after a cut. */
  function After(times: seq<int>, cut: int): seq<int> {
    if times == [] then []
    else
      var t := times[|times| - 1];
      if t > cut then After(times[..|times| - 1], cut) + [t] else After(times[..|times| - 1], cut)
  }

  /** What is kept for a key after a call. */
  function Next(times: seq<int>, n: int, window: int, now: int): seq<int> {
    var kept := After(times, now - window);
    if |kept| < n then kept + [now] else kept
  }

  class HitLimiter {
    var m: map<string, seq<int>>

    constructor ()
      ensures m == map[]
    {
      m := map[];
    }

    function Hits(key: string): seq<int>
      reads this
    {
      if key in m then m[key] else []
    }

    method Allow(key: string, n: int, window: int, now: int) returns (ok: bool)
      modifies this
      ensures ok <==> |After(old(Hits(key)), now - window)| < n
      ensures m == old(m)[key := Next(old(Hits(key)), n, window, now)]
    {
      var cut := now - window;
      var kept: seq<int> := [];
      var times := Hits(key);
      for i := 0 to |times|
        invariant kept == After(times[..i], cut)
      {
        assert times[..i + 1][..i] == times[..i];
        if times[i] > cut {
          kept := kept + [times[i]];
        }
      }
      assert times[..|times|] == times;
      if |kept| >= n {
        m := m[key := kept];
        return false;
      }
      m := m[key := kept + [now]];
      return true;
    }
  }

  // ----- All the calls for one key -----

  /** What is stored after calls at these times. */
  function Stored(calls: seq<int>, n: int, window: int): seq<int> {
    if calls == [] then [] else Next(Stored(calls[..|calls| - 1], n, window), n, window, calls[|calls| - 1])
  }

  /** Whether the last call is let through. */
  predicate Admits(calls: seq<int>, n: int, window: int)
    requires calls != []
  {
    |After(Stored(calls[..|calls| - 1], n, window), calls[|calls| - 1] - window)| < n
  }

  /** The times of all the calls that were let through. */
  function Admitted(calls: seq<int>, n: int, window: int): seq<int> {
    if calls == [] then []
    else
      var before := Admitted(calls[..|calls| - 1], n, window);
      if Admits(calls, n, window) then before + [calls[|calls| - 1]] else before
  }

  /** A clock that never goes back. */
  ghost predicate Ordered(calls: seq<int>) { forall i, j :: 0 <= i < j < |calls| ==> calls[i] <= calls[j] }

  lemma AfterLast(times: seq<int>, t: int, cut: int)
    ensures After(times + [t], cut) == if t > cut then After(times, cut) + [t] else After(times, cut)
  {
    assert (times + [t])[..|times|] == times;
  }

  lemma {:induction false} AfterAfter(times: seq<int>, a: int, b: int)
    requires a <= b
    ensures After(After(times, a), b) == After(times, b)
  {
    if times != [] {
      var init, t := times[..|times| - 1], times[|times| - 1];
      AfterAfter(init, a, b);
      AfterLast(After(init, a), t, b);
    }
  }

  lemma {:induction false} AdmittedAreCalls(calls: seq<int>, n: int, window: int)
    ensures forall t :: t in Admitted(calls, n, window) ==> t in calls
  {
    if calls != [] {
      AdmittedAreCalls(calls[..|calls| - 1], n, window);
    }
  }

  /** What is stored is what was let through in the window that ends now. */
  lemma StoredIsRecent(calls: seq<int>, n: int, window: int)
    requires Ordered(calls) && calls != [] && window > 0
    ensures Stored(calls, n, window) == After(Admitted(calls, n, window), calls[|calls| - 1] - window)
    decreases |calls|, 1
  {
    var init, now := calls[..|calls| - 1], calls[|calls| - 1];
    RecentBefore(calls, n, window);
    AfterLast(Admitted(init, n, window), now, now - window);
  }

  lemma RecentBefore(calls: seq<int>, n: int, window: int)
    requires Ordered(calls) && calls != [] && window > 0
    ensures var init, cut := calls[..|calls| - 1], calls[|calls| - 1] - window;
            After(Stored(init, n, window), cut) == After(Admitted(init, n, window), cut)
    decreases |calls|, 0
  {
    var init, now := calls[..|calls| - 1], calls[|calls| - 1];
    if init != [] {
      StoredIsRecent(init, n, window);
      AfterAfter(Admitted(init, n, window), init[|init| - 1] - window, now - window);
    }
  }

  /** A call is refused exactly when as many as allowed were let through in the window that ends now. */
  lemma RefusedExactly(calls: seq<int>, n: int, window: int)
    requires Ordered(calls) && calls != [] && window > 0
    ensures var now := calls[|calls| - 1];
            Admits(calls, n, window) <==> |After(Admitted(calls[..|calls| - 1], n, window), now - window)| < n
  {
    RecentBefore(calls, n, window);
  }

  /** The times in a window, open below and closed above. */
  function Within(times: seq<int>, from: int, to: int): seq<int> {
    if times == [] then []
    else
      var t := times[|times| - 1];
      var before := Within(times[..|times| - 1], from, to);
      if from < t <= to then before + [t] else before
  }

  lemma WithinLast(times: seq<int>, t: int, from: int, to: int)
    ensures Within(times + [t], from, to) == if from < t <= to
                                      then Within(times, from, to) + [t] else Within(times, from, to)
  {
    assert (times + [t])[..|times|] == times;
  }

  lemma {:induction false} WithinAfter(times: seq<int>, from: int, to: int, cut: int)
    requires cut <= from
    ensures |Within(times, from, to)| <= |After(times, cut)|
  {
    if times != [] {
      WithinAfter(times[..|times| - 1], from, to, cut);
    }
  }

  /** No window ever holds more calls than allowed. */
  lemma {:induction false} NeverMoreThanAllowed(calls: seq<int>, n: nat, window: int, from: int)
    requires Ordered(calls) && window > 0
    ensures |Within(Admitted(calls, n, window), from, from + window)| <= n
  {
    if calls != [] {
      var init, now := calls[..|calls| - 1], calls[|calls| - 1];
      NeverMoreThanAllowed(init, n, window, from);
      WithinLast(Admitted(init, n, window), now, from, from + window);
      if Admits(calls, n, window) && from < now <= from + window {
        RefusedExactly(calls, n, window);
        WithinAfter(Admitted(init, n, window), from, from + window, now - window);
      }
    }
  }

  // ----- The method is that function, key by key -----

  /** The calls for one key among calls for any. */
  function For(key: string, calls: seq<(string, int)>): seq<int> {
    if calls == [] then []
    else
      var (k, t) := calls[|calls| - 1];
      if k == key then For(key, calls[..|calls| - 1]) + [t] else For(key, calls[..|calls| - 1])
  }

  /** The map after any calls: what Allow makes of it, one after the other. */
  function Table(calls: seq<(string, int)>, n: string -> int, window: string -> int): map<string, seq<int>> {
    if calls == [] then map[]
    else
      var m := Table(calls[..|calls| - 1], n, window);
      var (k, now) := calls[|calls| - 1];
      m[k := Next(if k in m then m[k] else [], n(k), window(k), now)]
  }

  /** Calls for other keys make no difference. */
  lemma {:induction false} KeysAreApart(calls: seq<(string, int)>, n: string -> int, window: string -> int, key: string)
    ensures var m := Table(calls, n, window);
            (if key in m then m[key] else []) == Stored(For(key, calls), n(key), window(key))
  {
    if calls != [] {
      var init := calls[..|calls| - 1];
      KeysAreApart(init, n, window, key);
      if calls[|calls| - 1].0 == key {
        assert For(key, calls)[..|For(key, calls)| - 1] == For(key, init);
      }
    }
  }
}
