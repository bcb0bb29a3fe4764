/**
What sweeps do to recurring templates over time: the chain of children, when a first child
can appear at all, and convergence of sweeps repeated on one day.
*/
module RecurringChain {
  import opened Calendar
  import opened Recurrence
  import opened RecurringScheduler
  import opened WorkOrders
  import opened Wrappers

  ghost function NextAt(rows: seq<WorkOrder>, t: nat, today: Day): Day
    requires t < |rows|
  {
    NextFor(rows[t], After(rows[t], ChildDates(rows, t), today))
  }

  /**
  One sweep adds at most one child to a template: exactly when the next date is within the
  template's end and five days from today.  The child is later than the template's anchor
  and than every live child, so the "already exists" branch is never taken.
  */
  lemma ChainStep(rows: seq<WorkOrder>, tenant: Option<string>, today: Day, t: nat)
    requires IsListedTemplate(rows, tenant, t)
    ensures var next := NextAt(rows, t, today);
            var fires := !PastEnd(rows[t], next) && next <= today + RECURRING_LEAD_DAYS;
            && ChildDates(Sweep(rows, tenant, today), t) == ChildDates(rows, t) + (if fires then {next} else {})
            && next !in ChildDates(rows, t)
            && Anchor(rows[t], today) < next
            && forall d | d in ChildDates(rows, t) :: d < next
  {
    NextIsLater(rows[t], ChildDates(rows, t), today);
    ChildDatesAfterSweep(rows, Plans(rows, tenant, today), |rows|, t);
  }

  // ----- Live child dates stay distinct -----

  predicate DistinctChildren(rows: seq<WorkOrder>, t: nat) {
    forall i, j | 0 <= i < j < |rows| && IsLiveChild(rows[i], t) && IsLiveChild(rows[j], t) && rows[i].scheduled.Some? ::
      rows[i].scheduled != rows[j].scheduled
  }

  predicate DistinctParents(rows: seq<WorkOrder>) {
    forall i, j | 0 <= i < j < |rows| :: rows[i].parent != rows[j].parent
  }

  lemma {:induction false} OneChildEach(rows: seq<WorkOrder>, plans: seq<Plan>, n: nat)
    requires n <= |plans| == |rows|
    ensures DistinctParents(NewChildren(rows, plans, n))
  {
    if n > 0 {
      OneChildEach(rows, plans, n - 1);
      var before := NewChildren(rows, plans, n - 1);
      forall i | 0 <= i < |before|
        ensures before[i].parent != Some(n - 1)
      {
        var t := ParentOf(rows, plans, n - 1, i);
      }
    }
  }

  /** Distinctness survives a sweep whose plan for `t`, if any, is later than all live children of `t`. */
  lemma SweptKeepsDistinct(rows: seq<WorkOrder>, plans: seq<Plan>, n: nat, t: nat)
    requires n <= |plans| == |rows| && t < |rows|
    requires DistinctChildren(rows, t)
    requires plans[t].child.Some? ==> forall d | d in ChildDates(rows, t) :: d < plans[t].child.value
    ensures DistinctChildren(Swept(rows, plans, n), t)
  {
    var touched, added := Touched(rows, plans, n), NewChildren(rows, plans, n);
    var after := touched + added;
    OneChildEach(rows, plans, n);
    forall i, j | 0 <= i < j < |after| && IsLiveChild(after[i], t) && IsLiveChild(after[j], t) && after[i].scheduled.Some?
      ensures after[i].scheduled != after[j].scheduled
    {
      if i < |rows| {
        assert SameChildFields(rows[i], touched[i]);
        assert rows[i].scheduled.value in ChildDates(rows, t);
        if j < |rows| {
          assert SameChildFields(rows[j], touched[j]);
        } else {
          var u := ParentOf(rows, plans, n, j - |rows|);
        }
      }
    }
  }

  /** Every sweep keeps the live children of every work order on distinct dates. */
  lemma SweepKeepsChildrenDistinct(rows: seq<WorkOrder>, tenant: Option<string>, today: Day, t: nat)
    requires t < |rows| && DistinctChildren(rows, t)
    ensures DistinctChildren(Sweep(rows, tenant, today), t)
  {
    NextIsLater(rows[t], ChildDates(rows, t), today);
    SweptKeepsDistinct(rows, Plans(rows, tenant, today), |rows|, t);
  }

  // ----- When a first child appears -----

  /** A childless template gets its first child exactly when the next occurrence after
      max(anchor, today) is within its end and within five days. */
  lemma FirstChildExactly(rows: seq<WorkOrder>, tenant: Option<string>, today: Day, t: nat)
    requires IsListedTemplate(rows, tenant, t) && ChildDates(rows, t) == {}
    ensures var anchor := Anchor(rows[t], today);
            var next := NextFor(rows[t], if anchor < today then today else anchor);
            ChildDates(Sweep(rows, tenant, today), t) ==
            if !PastEnd(rows[t], next) && next <= today + RECURRING_LEAD_DAYS then {next} else {}
  {
    assert LatestOf({}).None?;
    ChainStep(rows, tenant, today, t);
  }

  /** The table after sweeps on the given days, one after the other. */
  ghost function Sweeps(rows: seq<WorkOrder>, tenant: Option<string>, days: seq<Day>): seq<WorkOrder>
    decreases |days|
  {
    if days == [] then rows else Sweeps(Sweep(rows, tenant, days[0]), tenant, days[1..])
  }

  /**
  Templates whose next occurrence always lies beyond the five-day lead: those without valid
  days, the quarterly, half-yearly and yearly ones, and all others that go by the day of
  the month when the smallest valid day comes after the fifth.
  */
  predicate OutOfReach(w: WorkOrder) {
    var f := w.frequency.GetOr(Weekly);
    || !HasDays(f, w.days)
    || MonthSteps(f, 1) > 1
    || (!IsWeekdayFrequency(f) && SmallestDay(w.days, f) > RECURRING_LEAD_DAYS)
  }

  lemma OutOfReachIsFar(w: WorkOrder, after: Day)
    requires OutOfReach(w)
    ensures after + RECURRING_LEAD_DAYS < NextFor(w, after)
  {
    var f := w.frequency.GetOr(Weekly);
    if !HasDays(f, w.days) {
      NextOccurrenceWithoutDays(after, f, w.days);
    } else if MonthSteps(f, 1) > 1 {
      LongMonthOccurrence(after, f, w.days);
    } else {
      MonthOccurrenceIsFar(after, f, w.days);
    }
  }

  /** Where a childless template starts to look for its next date when no sweep comes before `from`. */
  function FirstBase(w: WorkOrder, from: Day): Day {
    var anchor := Anchor(w, from);
    if anchor < from then from else anchor
  }

  /** Some sweep from `from` on can give the template a first child. */
  predicate CanHaveFirstChild(w: WorkOrder, from: Day) {
    !OutOfReach(w) && !PastEnd(w, NextFor(w, FirstBase(w, from)))
  }

  lemma FirstDateIsNoEarlier(w: WorkOrder, from: Day, today: Day)
    requires from <= today && !OutOfReach(w)
    ensures NextFor(w, FirstBase(w, from)) <= NextFor(w, FirstBase(w, today))
  {
    NextOccurrenceGrows(FirstBase(w, from), FirstBase(w, today), w.frequency.GetOr(Weekly), w.days);
  }

  /** A template that cannot have a first child does not get one in a sweep, and stays as it is but for its next date. */
  lemma SweepGivesNoFirstChild(rows: seq<WorkOrder>, tenant: Option<string>, from: Day, today: Day, t: nat)
    requires t < |rows| && ChildDates(rows, t) == {} && from <= today
    requires !(IsListedTemplate(rows, tenant, t) && CanHaveFirstChild(rows[t], from))
    ensures var swept := Sweep(rows, tenant, today);
            && t < |swept| && ChildDates(swept, t) == {}
            && !(IsListedTemplate(swept, tenant, t) && CanHaveFirstChild(swept[t], from))
  {
    var w, swept := rows[t], Sweep(rows, tenant, today);
    if IsListedTemplate(rows, tenant, t) {
      FirstChildExactly(rows, tenant, today, t);
      if OutOfReach(w) {
        OutOfReachIsFar(w, FirstBase(w, today));
      } else {
        FirstDateIsNoEarlier(w, from, today);
      }
    } else {
      ChildDatesAfterSweep(rows, Plans(rows, tenant, today), |rows|, t);
    }
    assert swept[t] == w.(nextDate := swept[t].nextDate);
    assert NextFor(swept[t], FirstBase(swept[t], from)) == NextFor(w, FirstBase(w, from));
  }

  predicate AllFrom(days: seq<Day>, from: Day) {
    forall i | 0 <= i < |days| :: from <= days[i]
  }

  lemma {:induction false} NoFirstChild(rows: seq<WorkOrder>, tenant: Option<string>, from: Day, days: seq<Day>, t: nat)
    requires t < |rows| && ChildDates(rows, t) == {} && AllFrom(days, from)
    requires !(IsListedTemplate(rows, tenant, t) && CanHaveFirstChild(rows[t], from))
    ensures ChildDates(Sweeps(rows, tenant, days), t) == {}
    decreases |days|
  {
    if days != [] {
      assert forall i | 0 <= i < |days[1..]| :: days[1..][i] == days[i + 1];
      SweepGivesNoFirstChild(rows, tenant, from, days[0], t);
      NoFirstChild(Sweep(rows, tenant, days[0]), tenant, from, days[1..], t);
    }
  }

  /** The last day on which the first date is still the next one is close enough to it. */
  lemma LastChance(w: WorkOrder, from: Day) returns (today: Day)
    requires CanHaveFirstChild(w, from)
    ensures FirstBase(w, from) <= today
    ensures NextFor(w, today) == NextFor(w, FirstBase(w, from)) <= today + RECURRING_LEAD_DAYS
  {
    var f, base := w.frequency.GetOr(Weekly), FirstBase(w, from);
    if IsWeekdayFrequency(f) {
      today := LastWeekdayBefore(base, f, w.days);
    } else {
      today := LastMonthdayBefore(base, f, w.days);
    }
  }

  /** One sweep, on the right day, is enough. */
  lemma FirstChildComes(rows: seq<WorkOrder>, tenant: Option<string>, from: Day, t: nat) returns (today: Day)
    requires IsListedTemplate(rows, tenant, t) && ChildDates(rows, t) == {} && CanHaveFirstChild(rows[t], from)
    ensures from <= today && ChildDates(Sweep(rows, tenant, today), t) == {NextFor(rows[t], FirstBase(rows[t], from))}
  {
    today := LastChance(rows[t], from);
    FirstChildExactly(rows, tenant, today, t);
    assert FirstBase(rows[t], today) == today;
  }

  ghost predicate HasRunWithChild(rows: seq<WorkOrder>, tenant: Option<string>, from: Day, t: nat) {
    exists days :: AllFrom(days, from) && ChildDates(Sweeps(rows, tenant, days), t) != {}
  }

  /**
  Exactly which childless rows ever get a child: a run of sweeps from day `from` on that
  gives row `t` one exists if and only if it is a listed template, within reach of the
  lead, whose first date is not past its end.
  */
  lemma FirstChildEverExactly(rows: seq<WorkOrder>, tenant: Option<string>, from: Day, t: nat)
    requires t < |rows| && ChildDates(rows, t) == {}
    ensures HasRunWithChild(rows, tenant, from, t) <==> IsListedTemplate(rows, tenant, t) && CanHaveFirstChild(rows[t], from)
  {
    if IsListedTemplate(rows, tenant, t) && CanHaveFirstChild(rows[t], from) {
      var today := FirstChildComes(rows, tenant, from, t);
      var days := [today];
      assert Sweeps(rows, tenant, days) == Sweeps(Sweep(rows, tenant, today), tenant, days[1..]) == Sweep(rows, tenant, today);
      assert AllFrom(days, from) && ChildDates(Sweeps(rows, tenant, days), t) != {};
    } else {
      forall days | AllFrom(days, from)
        ensures ChildDates(Sweeps(rows, tenant, days), t) == {}
      {
        NoFirstChild(rows, tenant, from, days, t);
      }
    }
  }

  /** So no run of sweeps, on any days, gives a first child to a template out of reach, whatever its dates. */
  lemma NoFirstChildEver(rows: seq<WorkOrder>, tenant: Option<string>, days: seq<Day>, t: nat)
    requires t < |rows| && OutOfReach(rows[t]) && ChildDates(rows, t) == {}
    ensures ChildDates(Sweeps(rows, tenant, days), t) == {}
  {
    FirstChildEverExactly(rows, tenant, 1, t);
    assert AllFrom(days, 1);
  }

  /** A monthly template on the 15th is one of them. */
  lemma MidMonthNeverStarts(rows: seq<WorkOrder>, tenant: Option<string>, days: seq<Day>, t: nat)
    requires t < |rows| && rows[t].frequency == Some(Monthly) && rows[t].days == [Number(15)] && ChildDates(rows, t) == {}
    ensures ChildDates(Sweeps(rows, tenant, days), t) == {}
  {
    assert Decode(rows[t].days[0]) == Some(15);
    assert IsDecoded(rows[t].days, 15);
    assert 15 in NormalizedDays(rows[t].days, Monthly);
    NoFirstChildEver(rows, tenant, days, t);
  }

  // ----- Convergence -----

  ghost predicate Fires(rows: seq<WorkOrder>, t: nat, today: Day)
    requires t < |rows|
  {
    PlanAt(rows, t, today).child.Some?
  }

  /** How many days of the lead window are still ahead of the template's chain. */
  ghost function Gap(rows: seq<WorkOrder>, t: nat, today: Day): nat
    requires t < |rows|
  {
    var room := today + RECURRING_LEAD_DAYS - After(rows[t], ChildDates(rows, t), today);
    if room < 0 then 0 else room
  }

  lemma LatestOfBigger(dates: set<Day>, d: Day)
    requires forall x | x in dates :: x < d
    ensures LatestOf(dates + {d}) == Some(d)
  {
    LatestIsUnique(dates + {d}, Some(d));
  }

  /** A template that fires comes closer to the end of the lead window; one that does not, stays put. */
  lemma GapShrinks(rows: seq<WorkOrder>, tenant: Option<string>, today: Day, t: nat)
    requires IsListedTemplate(rows, tenant, t)
    ensures var swept := Sweep(rows, tenant, today);
            && IsListedTemplate(swept, tenant, t)
            && (Fires(rows, t, today) ==> Gap(swept, t, today) < Gap(rows, t, today))
            && (!Fires(rows, t, today) ==> PlanAt(swept, t, today) == PlanAt(rows, t, today))
  {
    var swept, w, dates := Sweep(rows, tenant, today), rows[t], ChildDates(rows, t);
    var next := NextAt(rows, t, today);
    ChainStep(rows, tenant, today, t);
    NextIsLater(w, dates, today);
    assert swept[t] == w.(nextDate := swept[t].nextDate);
    if Fires(rows, t, today) {
      LatestOfBigger(dates, next);
      assert After(swept[t], dates + {next}, today) == next;
    } else {
      assert ChildDates(swept, t) == dates;
    }
  }

  lemma NoRoomNoChild(rows: seq<WorkOrder>, today: Day, t: nat)
    requires t < |rows| && Gap(rows, t, today) == 0
    ensures !Fires(rows, t, today)
  {
    NextIsLater(rows[t], ChildDates(rows, t), today);
  }

  lemma {:induction false} NoChildren(rows: seq<WorkOrder>, plans: seq<Plan>, n: nat)
    requires n <= |plans| == |rows| && forall t | 0 <= t < n :: plans[t].child.None?
    ensures NewChildren(rows, plans, n) == []
  {
    if n > 0 {
      NoChildren(rows, plans, n - 1);
    }
  }

  ghost predicate Quiet(rows: seq<WorkOrder>, tenant: Option<string>, today: Day) {
    forall t | IsListedTemplate(rows, tenant, t) :: !Fires(rows, t, today)
  }

  lemma QuietAddsNothing(rows: seq<WorkOrder>, tenant: Option<string>, today: Day)
    requires Quiet(rows, tenant, today)
    ensures Sweep(rows, tenant, today) == Touched(rows, Plans(rows, tenant, today), |rows|)
  {
    var plans := Plans(rows, tenant, today);
    forall t | 0 <= t < |rows|
      ensures plans[t].child.None?
    {
      assert IsListedTemplate(rows, tenant, t) ==> !Fires(rows, t, today);
    }
    NoChildren(rows, plans, |rows|);
  }

  /** When no template fires, a sweep adds no row, and a further one changes nothing at all. */
  lemma QuietIsFixed(rows: seq<WorkOrder>, tenant: Option<string>, today: Day)
    requires Quiet(rows, tenant, today)
    ensures |Sweep(rows, tenant, today)| == |rows|
    ensures Sweep(Sweep(rows, tenant, today), tenant, today) == Sweep(rows, tenant, today)
  {
    var once, plans := Sweep(rows, tenant, today), Plans(rows, tenant, today);
    QuietAddsNothing(rows, tenant, today);
    var again := Plans(once, tenant, today);
    forall t | 0 <= t < |rows|
      ensures again[t].child.None? && again[t].recorded == once[t].nextDate
    {
      if Lists(rows[t], tenant) {
        GapShrinks(rows, tenant, today, t);
        assert IsListedTemplate(rows, tenant, t) && !Fires(rows, t, today);
      }
    }
    NoChildren(once, again, |once|);
    assert Touched(once, again, |once|) == once;
  }

  lemma SweptKeepsTemplates(rows: seq<WorkOrder>, plans: seq<Plan>, tenant: Option<string>, t: nat)
    requires |plans| == |rows|
    ensures IsListedTemplate(Swept(rows, plans, |rows|), tenant, t) <==> IsListedTemplate(rows, tenant, t)
  {
    if |rows| <= t < |Swept(rows, plans, |rows|)| {
      var u := ParentInSweep(rows, plans, t);
    }
  }

  lemma SweepKeepsTemplates(rows: seq<WorkOrder>, tenant: Option<string>, today: Day, t: nat)
    ensures IsListedTemplate(Sweep(rows, tenant, today), tenant, t) <==> IsListedTemplate(rows, tenant, t)
  {
    SweptKeepsTemplates(rows, Plans(rows, tenant, today), tenant, t);
  }

  ghost function Iterate<T>(f: T -> T, x: T, n: nat): T
    decreases n
  {
    if n == 0 then x else Iterate(f, f(x), n - 1)
  }

  lemma {:induction false} IterateNext<T>(f: T -> T, x: T, n: nat)
    ensures Iterate(f, x, n + 1) == f(Iterate(f, x, n))
    decreases n
  {
    if n > 0 {
      IterateNext(f, f(x), n - 1);
    }
  }

  ghost function SweepOn(tenant: Option<string>, today: Day): seq<WorkOrder> -> seq<WorkOrder> {
    rows => Sweep(rows, tenant, today)
  }

  /** The table after n sweeps on one day. */
  ghost function SweepTimes(rows: seq<WorkOrder>, tenant: Option<string>, today: Day, n: nat): seq<WorkOrder> {
    Iterate(SweepOn(tenant, today), rows, n)
  }

  /** The room left to template `t`, or 0 when it does not fire. */
  ghost function Room(rows: seq<WorkOrder>, tenant: Option<string>, today: Day, t: nat): nat {
    if IsListedTemplate(rows, tenant, t) && Fires(rows, t, today) then Gap(rows, t, today) else 0
  }

  lemma RoomShrinks(rows: seq<WorkOrder>, tenant: Option<string>, today: Day, t: nat)
    ensures var before, after := Room(rows, tenant, today, t), Room(Sweep(rows, tenant, today), tenant, today, t);
            after < before || after == before == 0
    ensures IsListedTemplate(rows, tenant, t) && Fires(rows, t, today) ==> 0 < Room(rows, tenant, today, t)
  {
    if IsListedTemplate(rows, tenant, t) {
      GapShrinks(rows, tenant, today, t);
      if Gap(rows, t, today) == 0 {
        NoRoomNoChild(rows, today, t);
      }
    } else {
      SweepKeepsTemplates(rows, tenant, today, t);
    }
  }

  /** A measure that falls with every step, until it is 0, is 0 after as many steps. */
  lemma {:induction false} MeasureRunsOut<T(!new)>(f: T -> T, measure: T -> nat, x: T, n: nat)
    requires forall y :: measure(f(y)) < measure(y) || measure(f(y)) == measure(y) == 0
    requires measure(x) <= n
    ensures measure(Iterate(f, x, n)) == 0
    decreases n
  {
    if n > 0 {
      MeasureRunsOut(f, measure, f(x), n - 1);
    }
  }

  lemma RoomAfter(rows: seq<WorkOrder>, tenant: Option<string>, today: Day, t: nat, n: nat)
    requires Room(rows, tenant, today, t) <= n
    ensures Room(SweepTimes(rows, tenant, today, n), tenant, today, t) == 0
  {
    var sweep, room := SweepOn(tenant, today), (r: seq<WorkOrder>) => Room(r, tenant, today, t);
    forall r
      ensures room(sweep(r)) < room(r) || room(sweep(r)) == room(r) == 0
    {
      RoomShrinks(r, tenant, today, t);
    }
    MeasureRunsOut(sweep, room, rows, n);
  }

  ghost predicate RoomAtMost(rows: seq<WorkOrder>, tenant: Option<string>, today: Day, k: nat) {
    forall t | IsListedTemplate(rows, tenant, t) :: Room(rows, tenant, today, t) <= k
  }

  lemma QuietAfter(rows: seq<WorkOrder>, tenant: Option<string>, today: Day, k: nat, n: nat)
    requires RoomAtMost(rows, tenant, today, k) && k <= n
    ensures Quiet(SweepTimes(rows, tenant, today, n), tenant, today)
  {
    var last := SweepTimes(rows, tenant, today, n);
    forall t | IsListedTemplate(last, tenant, t)
      ensures !Fires(last, t, today)
    {
      assert Room(rows, tenant, today, t) <= n;
      RoomAfter(rows, tenant, today, t, n);
      RoomShrinks(last, tenant, today, t);
    }
  }

  /**
  Sweeps repeated on one day converge.  When every template that fires has at most k days
  of room, no sweep after the k-th adds a row, and from the one after that nothing changes.
  */
  lemma SweepsConverge(rows: seq<WorkOrder>, tenant: Option<string>, today: Day, k: nat, n: nat)
    requires RoomAtMost(rows, tenant, today, k) && k <= n
    ensures |SweepTimes(rows, tenant, today, n + 1)| == |SweepTimes(rows, tenant, today, n)|
    ensures SweepTimes(rows, tenant, today, n + 2) == SweepTimes(rows, tenant, today, n + 1)
  {
    QuietAfter(rows, tenant, today, k, n);
    QuietIsFixed(SweepTimes(rows, tenant, today, n), tenant, today);
    IterateNext(SweepOn(tenant, today), rows, n);
    IterateNext(SweepOn(tenant, today), rows, n + 1);
  }

  /** At most five sweeps on a day add rows when no template's anchor or last child lies in the past. */
  lemma FiveSweepsAreEnough(rows: seq<WorkOrder>, tenant: Option<string>, today: Day, n: nat)
    requires forall t: nat | IsListedTemplate(rows, tenant, t) :: today <= After(rows[t], ChildDates(rows, t), today)
    requires 5 <= n
    ensures |SweepTimes(rows, tenant, today, n + 1)| == |SweepTimes(rows, tenant, today, n)|
    ensures SweepTimes(rows, tenant, today, n + 2) == SweepTimes(rows, tenant, today, n + 1)
  {
    SweepsConverge(rows, tenant, today, 5, n);
  }
}
