/**
Schedules on day numbers, for an arbitrary step that moves forward: the unbounded
sequence of points, and the bounded enumeration that the scheduler's generator yields.
*/
module Schedule {
  import opened Calendar
  import opened Wrappers

  ghost predicate Advances(step: Day -> Day) {
    forall n: Day :: n < step(n)
  }

  /**
  The n-th point of the unbounded schedule that starts at `first`.  (The second component
  of the termination measure keeps the verifier from unrolling the function 1000 times
  where the count is a literal.)
  */
  function Point(step: Day -> Day, first: Day, n: nat): Day
    decreases n, first
  {
    if n == 0 then first else Point(step, step(first), n - 1)
  }

  lemma {:induction false} PointNext(step: Day -> Day, first: Day, n: nat)
    ensures Point(step, first, n + 1) == step(Point(step, first, n))
    decreases n
  {
    if n > 0 {
      PointNext(step, step(first), n - 1);
    }
  }

  /** Points are at least `lo` and at most `hi` days apart when the step is. */
  lemma {:induction false} PointSpacing(step: Day -> Day, first: Day, lo: nat, hi: nat, m: nat, n: nat)
    requires forall d: Day :: d + lo <= step(d) <= d + hi
    requires m <= n
    ensures Point(step, first, m) + lo * (n - m) <= Point(step, first, n)
    ensures Point(step, first, n) <= Point(step, first, m) + hi * (n - m)
    decreases n
  {
    if m < n {
      PointSpacing(step, first, lo, hi, m, n - 1);
      PointNext(step, first, n - 1);
      assert lo * (n - m) == lo * (n - 1 - m) + lo;
      assert hi * (n - m) == hi * (n - 1 - m) + hi;
    }
  }

  lemma {:induction false} PointsIncrease(step: Day -> Day, first: Day, m: nat, n: nat)
    requires Advances(step) && m < n
    ensures Point(step, first, m) + (n - m) <= Point(step, first, n)
    decreases n
  {
    PointNext(step, first, n - 1);
    if m < n - 1 {
      PointsIncrease(step, first, m, n - 1);
    }
  }

  // ----- The bounded enumeration -----

  predicate Within(d: Day, end: Option<Day>, horizon: int) {
    (end.Some? ==> d <= end.value) && d <= horizon
  }

  /** At most `fuel` points from `visit` on, up to the first one past the end or the horizon. */
  function Enumerate(step: Day -> Day, visit: Day, end: Option<Day>, horizon: int, fuel: nat): seq<Day>
    decreases fuel, visit
  {
    if fuel == 0 || !Within(visit, end, horizon) then []
    else [visit] + Enumerate(step, step(visit), end, horizon, fuel - 1)
  }

  /** The generator's loop. */
  method EnumerateVisits(step: Day -> Day, first: Day, end: Option<Day>, horizon: int, fuel: nat)
    returns (visits: seq<Day>)
    ensures visits == Enumerate(step, first, end, horizon, fuel)
  {
    visits := [];
    var visit: Day := first;
    for k := 0 to fuel
      invariant visits + Enumerate(step, visit, end, horizon, fuel - k) == Enumerate(step, first, end, horizon, fuel)
    {
      if end.Some? && visit > end.value {
        return;
      }
      if visit > horizon {
        return;
      }
      visits := visits + [visit];
      visit := step(visit);
    }
  }

  ghost predicate IsPoint(step: Day -> Day, first: Day, fuel: nat, d: Day) {
    exists n: nat | n < fuel :: d == Point(step, first, n)
  }

  /** What is enumerated: the points within the bounds, among the first `fuel`. */
  lemma {:induction false} EnumerateMember(step: Day -> Day, visit: Day, end: Option<Day>, horizon: int, fuel: nat, d: Day)
    requires Advances(step)
    ensures d in Enumerate(step, visit, end, horizon, fuel) <==> IsPoint(step, visit, fuel, d) && Within(d, end, horizon)
    decreases fuel
  {
    if IsPoint(step, visit, fuel, d) {
      var n: nat :| n < fuel && d == Point(step, visit, n);
      if n > 0 {
        PointsIncrease(step, visit, 0, n);
        assert Point(step, visit, n) == Point(step, step(visit), n - 1);
        assert IsPoint(step, step(visit), fuel - 1, d);
      }
    }
    if fuel > 0 {
      EnumerateMember(step, step(visit), end, horizon, fuel - 1, d);
      if IsPoint(step, step(visit), fuel - 1, d) {
        var n: nat :| n < fuel - 1 && d == Point(step, step(visit), n);
        assert d == Point(step, visit, n + 1);
      }
      assert visit == Point(step, visit, 0);
    }
  }

  predicate Increasing(s: seq<Day>) {
    forall i, j | 0 <= i < j < |s| :: s[i] < s[j]
  }

  lemma {:induction false} EnumerateIncreasing(step: Day -> Day, visit: Day, end: Option<Day>, horizon: int, fuel: nat)
    requires Advances(step)
    ensures Increasing(Enumerate(step, visit, end, horizon, fuel))
    ensures forall v | v in Enumerate(step, visit, end, horizon, fuel) :: visit <= v
    decreases fuel
  {
    if fuel > 0 {
      var later := Enumerate(step, step(visit), end, horizon, fuel - 1);
      EnumerateIncreasing(step, step(visit), end, horizon, fuel - 1);
      assert forall i | 0 <= i < |later| :: later[i] in later;
    }
  }

  // ----- Cutting an increasing enumeration -----

  /** The part of `s` before its first element past `limit`. */
  function UpTo(s: seq<Day>, limit: int): seq<Day> {
    if s == [] || s[0] > limit then [] else [s[0]] + UpTo(s[1..], limit)
  }

  lemma {:induction false} UpToMember(s: seq<Day>, limit: int, d: Day)
    requires Increasing(s)
    ensures d in UpTo(s, limit) <==> d in s && d <= limit
    ensures Increasing(UpTo(s, limit))
    ensures UpTo(s, limit) <= s
  {
    if s != [] {
      UpToMember(s[1..], limit, d);
      assert s == [s[0]] + s[1..];
      assert UpTo(s[1..], limit) <= s[1..];
    }
  }

  /** The first element past `limit`. */
  function FirstAfter(s: seq<Day>, limit: int): (r: Option<Day>)
    ensures r.None? ==> forall d | d in s :: d <= limit
    ensures r.Some? ==> r.value in s && limit < r.value
  {
    if s == [] then None
    else
      assert s == [s[0]] + s[1..];
      if s[0] > limit then Some(s[0]) else FirstAfter(s[1..], limit)
  }

  lemma {:induction false} FirstAfterIsLeast(s: seq<Day>, limit: int)
    requires Increasing(s) && FirstAfter(s, limit).Some?
    ensures forall d | d in s && limit < d :: FirstAfter(s, limit).value <= d
  {
    if s[0] <= limit {
      FirstAfterIsLeast(s[1..], limit);
      assert s == [s[0]] + s[1..];
    }
  }
}
