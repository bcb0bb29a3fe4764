/**
The recurring side of the scheduler: every sweep looks at each recurring template and adds
at most one child work order to it.
*/
module RecurringScheduler {
  import opened Calendar
  import opened Recurrence
  import opened WorkOrders
  import opened Wrappers

  const RECURRING_LEAD_DAYS: nat := 5

  // ----- The latest of a set of dates -----

  ghost predicate IsLatest(dates: set<Day>, last: Option<Day>) {
    match last
    case None => dates == {}
    case Some(d) => d in dates && forall x | x in dates :: x <= d
  }

  lemma LatestOfOneMore(dates: set<Day>, last: Option<Day>, d: Day)
    requires IsLatest(dates, last)
    ensures IsLatest(dates + {d}, if last.None? || last.value < d then Some(d) else last)
  {
  }

  lemma {:induction false} LatestExists(dates: set<Day>)
    ensures exists last :: IsLatest(dates, last)
    decreases |dates|
  {
    if dates == {} {
      assert IsLatest(dates, None);
    } else {
      var d :| d in dates;
      LatestExists(dates - {d});
      var last :| IsLatest(dates - {d}, last);
      LatestOfOneMore(dates - {d}, last, d);
      assert dates - {d} + {d} == dates;
    }
  }

  /** `max(dates, default=None)`. */
  ghost function LatestOf(dates: set<Day>): (last: Option<Day>)
    ensures IsLatest(dates, last)
  {
    LatestExists(dates);
    var last :| IsLatest(dates, last);
    last
  }

  lemma LatestIsUnique(dates: set<Day>, last: Option<Day>)
    requires IsLatest(dates, last)
    ensures last == LatestOf(dates)
  {
  }

  method FindLatest(dates: set<Day>) returns (last: Option<Day>)
    ensures last == LatestOf(dates)
  {
    last := None;
    var rest := dates;
    ghost var seen: set<Day> := {};
    while rest != {}
      invariant seen + rest == dates && IsLatest(seen, last)
      decreases |rest|
    {
      var d: Day :| d in rest;
      LatestOfOneMore(seen, last, d);
      if last.None? || last.value < d {
        last := Some(d);
      }
      rest, seen := rest - {d}, seen + {d};
    }
    assert seen == dates;
    LatestIsUnique(dates, last);
  }

  // ----- One template -----

  function Anchor(w: WorkOrder, today: Day): Day {
    if w.scheduled.Some? then w.scheduled.value
    else if w.started.Some? then w.started.value
    else today
  }

  /** The date after which the template's next child is due, given its live child dates. */
  ghost function After(w: WorkOrder, dates: set<Day>, today: Day): Day {
    var a, b := Anchor(w, today), LatestOf(dates).GetOr(today);
    if a < b then b else a
  }

  function NextFor(w: WorkOrder, after: Day): Day {
    NextOccurrence(after, w.frequency.GetOr(Weekly), w.days)
  }

  predicate PastEnd(w: WorkOrder, d: Day) {
    w.recurringEnd.Some? && w.recurringEnd.value < d
  }

  /** What a sweep decides for a template: the next date it records, and the child it creates. */
  datatype Plan = Plan(recorded: Option<Day>, child: Option<Day>)

  ghost function PlanFor(w: WorkOrder, dates: set<Day>, today: Day): Plan {
    var next := NextFor(w, After(w, dates, today));
    var past := PastEnd(w, next);
    Plan(
      if past then None else Some(next),
      if !past && next !in dates && next - RECURRING_LEAD_DAYS <= today then Some(next) else None)
  }

  lemma NextIsLater(w: WorkOrder, dates: set<Day>, today: Day)
    ensures var next := NextFor(w, After(w, dates, today));
            && After(w, dates, today) < next && Anchor(w, today) < next
            && forall d | d in dates :: d < next
  {
    NextOccurrenceIsLater(After(w, dates, today), w.frequency.GetOr(Weekly), w.days);
    assert IsLatest(dates, LatestOf(dates));
  }

  ghost predicate Skips(w: WorkOrder, dates: set<Day>, today: Day) {
    var next := NextFor(w, After(w, dates, today));
    PastEnd(w, next) || next in dates
  }

  /** The second reason to skip a template, a child on the very date, never occurs. */
  lemma SkipsOnlyPastEnd(w: WorkOrder, dates: set<Day>, today: Day)
    ensures Skips(w, dates, today) <==> PlanFor(w, dates, today).recorded.None?
  {
    NextIsLater(w, dates, today);
  }

  /** What a sweep lists: the live recurring rows of the tenant. */
  predicate Lists(w: WorkOrder, tenant: Option<string>) {
    IsTemplate(w) && InTenant(w.tenant, tenant)
  }

  predicate IsListedTemplate(rows: seq<WorkOrder>, tenant: Option<string>, t: nat) {
    t < |rows| && Lists(rows[t], tenant)
  }

  ghost function PlanAt(rows: seq<WorkOrder>, t: nat, today: Day): Plan
    requires t < |rows|
  {
    PlanFor(rows[t], ChildDates(rows, t), today)
  }

  /** The plans of a sweep for all rows; a row that is not listed keeps its next date and gets no child. */
  ghost function Plans(rows: seq<WorkOrder>, tenant: Option<string>, today: Day): (plans: seq<Plan>)
    ensures |plans| == |rows|
  {
    seq(|rows|, t requires 0 <= t < |rows| =>
      if Lists(rows[t], tenant) then PlanAt(rows, t, today) else Plan(rows[t].nextDate, None))
  }

  /** The child row; it inherits its template's contract and source. */
  function ChildRow(w: WorkOrder, t: nat, next: Day): (child: WorkOrder)
    ensures IsUnstartedChild(child, t) && child.scheduled == Some(next) && !IsTemplate(child)
    ensures child.contract == w.contract && child.source == w.source
  {
    WorkOrder(
      tenant := w.tenant, contract := w.contract, source := w.source,
      state := Upcoming, active := true,
      scheduled := Some(next), started := None, assets := w.assets,
      isRecurring := false, frequency := None, days := [], recurringEnd := None,
      parent := Some(t), nextDate := None,
      timeline := [TimelineEvent("created", None)])
  }

  function ChildRows(w: WorkOrder, t: nat, child: Option<Day>): seq<WorkOrder> {
    if child.Some? then [ChildRow(w, t, child.value)] else []
  }

  function Expanded(rows: seq<WorkOrder>, t: nat, plan: Plan): seq<WorkOrder>
    requires t < |rows|
  {
    rows[t := rows[t].(nextDate := plan.recorded)] + ChildRows(rows[t], t, plan.child)
  }

  // ----- A sweep -----

  /** The rows after the first n are gone through: each records the next date of its plan. */
  function Touched(rows: seq<WorkOrder>, plans: seq<Plan>, n: nat): seq<WorkOrder>
    requires |plans| == |rows|
  {
    seq(|rows|, i requires 0 <= i < |rows| => if i < n then rows[i].(nextDate := plans[i].recorded) else rows[i])
  }

  /** The children that the first n rows get. */
  function NewChildren(rows: seq<WorkOrder>, plans: seq<Plan>, n: nat): seq<WorkOrder>
    requires n <= |plans| == |rows|
  {
    if n == 0 then [] else NewChildren(rows, plans, n - 1) + ChildRows(rows[n - 1], n - 1, plans[n - 1].child)
  }

  /**
  The table after a sweep has gone through the first n rows, in terms of the table before
  it alone: templates do not influence each other.
  */
  function Swept(rows: seq<WorkOrder>, plans: seq<Plan>, n: nat): seq<WorkOrder>
    requires n <= |plans| == |rows|
  {
    Touched(rows, plans, n) + NewChildren(rows, plans, n)
  }

  function AsSet(child: Option<Day>): set<Day> {
    if child.Some? then {child.value} else {}
  }

  lemma ChildRowDates(w: WorkOrder, t: nat, child: Option<Day>, u: nat)
    ensures ChildDates(ChildRows(w, t, child), u) == if u == t then AsSet(child) else {}
  {
    var rows := ChildRows(w, t, child);
    if child.Some? {
      assert rows[0].scheduled == child;
    }
  }

  lemma {:induction false} NewChildrenDates(rows: seq<WorkOrder>, plans: seq<Plan>, n: nat, t: nat)
    requires n <= |plans| == |rows| && t < |rows|
    ensures ChildDates(NewChildren(rows, plans, n), t) == if t < n then AsSet(plans[t].child) else {}
  {
    if n > 0 {
      NewChildrenDates(rows, plans, n - 1, t);
      ChildDatesConcat(NewChildren(rows, plans, n - 1), ChildRows(rows[n - 1], n - 1, plans[n - 1].child), t);
      ChildRowDates(rows[n - 1], n - 1, plans[n - 1].child, t);
    }
  }

  /** Row `t` plans child `w`. */
  predicate IsPlannedChild(rows: seq<WorkOrder>, plans: seq<Plan>, t: nat, w: WorkOrder)
    requires |plans| == |rows|
  {
    t < |rows| && plans[t].child.Some? && w == ChildRow(rows[t], t, plans[t].child.value)
  }

  lemma {:induction false} ParentOf(rows: seq<WorkOrder>, plans: seq<Plan>, n: nat, i: nat) returns (t: nat)
    requires n <= |plans| == |rows| && i < |NewChildren(rows, plans, n)|
    ensures t < n && IsPlannedChild(rows, plans, t, NewChildren(rows, plans, n)[i])
  {
    if i < |NewChildren(rows, plans, n - 1)| {
      t := ParentOf(rows, plans, n - 1, i);
    } else {
      t := n - 1;
    }
  }

  lemma {:induction false} ChildOf(rows: seq<WorkOrder>, plans: seq<Plan>, n: nat, t: nat) returns (i: nat)
    requires t < n <= |plans| == |rows| && plans[t].child.Some?
    ensures i < |NewChildren(rows, plans, n)| && IsPlannedChild(rows, plans, t, NewChildren(rows, plans, n)[i])
  {
    if t < n - 1 {
      i := ChildOf(rows, plans, n - 1, t);
    } else {
      i := |NewChildren(rows, plans, n - 1)|;
    }
  }

  /** The rows that a sweep adds are the planned children, one for each row that plans one. */
  lemma ParentInSweep(rows: seq<WorkOrder>, plans: seq<Plan>, k: nat) returns (t: nat)
    requires |plans| == |rows| <= k < |Swept(rows, plans, |rows|)|
    ensures IsPlannedChild(rows, plans, t, Swept(rows, plans, |rows|)[k])
  {
    t := ParentOf(rows, plans, |rows|, k - |rows|);
  }

  lemma ChildInSweep(rows: seq<WorkOrder>, plans: seq<Plan>, t: nat) returns (k: nat)
    requires t < |plans| == |rows| && plans[t].child.Some?
    ensures |rows| <= k < |Swept(rows, plans, |rows|)| && IsPlannedChild(rows, plans, t, Swept(rows, plans, |rows|)[k])
  {
    var i := ChildOf(rows, plans, |rows|, t);
    k := |rows| + i;
  }

  predicate SameChildFields(v: WorkOrder, w: WorkOrder) {
    v.parent == w.parent && v.active == w.active && v.state == w.state && v.scheduled == w.scheduled
  }

  lemma ChildDatesDependOn(rows: seq<WorkOrder>, other: seq<WorkOrder>, t: nat)
    requires |rows| == |other| && forall i | 0 <= i < |rows| :: SameChildFields(rows[i], other[i])
    ensures ChildDates(rows, t) == ChildDates(other, t)
  {
    forall d
      ensures d in ChildDates(rows, t) <==> d in ChildDates(other, t)
    {
      if d in ChildDates(rows, t) {
        var i :| 0 <= i < |rows| && IsLiveChild(rows[i], t) && rows[i].scheduled == Some(d);
        assert SameChildFields(rows[i], other[i]);
      }
      if d in ChildDates(other, t) {
        var i :| 0 <= i < |other| && IsLiveChild(other[i], t) && other[i].scheduled == Some(d);
        assert SameChildFields(rows[i], other[i]);
      }
    }
  }

  /** The live child dates of a row gain the planned child's date, and nothing else. */
  lemma ChildDatesAfterSweep(rows: seq<WorkOrder>, plans: seq<Plan>, n: nat, t: nat)
    requires n <= |plans| == |rows| && t < |rows|
    ensures ChildDates(Swept(rows, plans, n), t) == ChildDates(rows, t) + if t < n then AsSet(plans[t].child) else {}
  {
    ChildDatesConcat(Touched(rows, plans, n), NewChildren(rows, plans, n), t);
    ChildDatesDependOn(Touched(rows, plans, n), rows, t);
    NewChildrenDates(rows, plans, n, t);
  }

  /** Going through one more row: it is as it was, and expanding it gives the next table. */
  lemma SweepOneMore(rows: seq<WorkOrder>, plans: seq<Plan>, n: nat)
    requires n < |plans| == |rows|
    ensures Swept(rows, plans, n)[n] == rows[n]
    ensures Expanded(Swept(rows, plans, n), n, plans[n]) == Swept(rows, plans, n + 1)
    ensures ChildDates(Swept(rows, plans, n), n) == ChildDates(rows, n)
  {
    assert Touched(rows, plans, n + 1) == Touched(rows, plans, n)[n := rows[n].(nextDate := plans[n].recorded)];
    ChildDatesAfterSweep(rows, plans, n, n);
  }

  lemma UnlistedKeeps(rows: seq<WorkOrder>, t: nat, plan: Plan)
    requires t < |rows| && plan == Plan(rows[t].nextDate, None)
    ensures Expanded(rows, t, plan) == rows
  {
  }

  /** One round of the sweep's loop: row `t`, listed as `w`. */
  ghost function SweptRow(rows: seq<WorkOrder>, t: nat, w: WorkOrder, tenant: Option<string>, today: Day): seq<WorkOrder>
    requires t < |rows|
  {
    if Lists(w, tenant) then Expanded(rows, t, PlanAt(rows, t, today)) else rows
  }

  ghost predicate IsSkipped(rows: seq<WorkOrder>, t: nat, w: WorkOrder, tenant: Option<string>, today: Day)
    requires t < |rows|
  {
    Lists(w, tenant) && Skips(rows[t], ChildDates(rows, t), today)
  }

  /** The table after the sweep has gone through the first n rows. */
  ghost function SweptFirst(rows: seq<WorkOrder>, tenant: Option<string>, today: Day, n: nat): (r: seq<WorkOrder>)
    requires n <= |rows|
    ensures |rows| <= |r|
  {
    Swept(rows, Plans(rows, tenant, today), n)
  }

  /** A listed template whose next date lies past its end. */
  ghost predicate HasEnded(rows: seq<WorkOrder>, tenant: Option<string>, today: Day, t: nat)
    requires t < |rows|
  {
    Lists(rows[t], tenant) && PlanAt(rows, t, today).recorded.None?
  }

  ghost function EndedCount(rows: seq<WorkOrder>, tenant: Option<string>, today: Day, n: nat): nat
    requires n <= |rows|
  {
    if n == 0 then 0 else EndedCount(rows, tenant, today, n - 1) + (if HasEnded(rows, tenant, today, n - 1) then 1 else 0)
  }

  lemma SweepStarts(rows: seq<WorkOrder>, tenant: Option<string>, today: Day)
    ensures SweptFirst(rows, tenant, today, 0) == rows
  {
    var plans := Plans(rows, tenant, today);
    assert Touched(rows, plans, 0) == rows;
  }

  /** What is done for a template does not depend on the templates expanded before it in the same sweep. */
  lemma SweepStep(rows: seq<WorkOrder>, tenant: Option<string>, today: Day, n: nat, swept: seq<WorkOrder>)
    requires n < |rows| && swept == SweptFirst(rows, tenant, today, n)
    ensures n < |swept|
    ensures SweptRow(swept, n, rows[n], tenant, today) == SweptFirst(rows, tenant, today, n + 1)
    ensures IsSkipped(swept, n, rows[n], tenant, today) <==> HasEnded(rows, tenant, today, n)
  {
    var plans := Plans(rows, tenant, today);
    SweepOneMore(rows, plans, n);
    if Lists(rows[n], tenant) {
      assert plans[n] == PlanAt(swept, n, today);
      SkipsOnlyPastEnd(rows[n], ChildDates(rows, n), today);
    } else {
      UnlistedKeeps(swept, n, plans[n]);
    }
  }

  /** Where the loop is after n rows: the table, and what was counted so far. */
  ghost predicate SweptTo(rows: seq<WorkOrder>, tenant: Option<string>, today: Day, n: nat, now: seq<WorkOrder>, created: int, skipped: int) {
    && n <= |rows|
    && now == SweptFirst(rows, tenant, today, n)
    && created == |now| - |rows|
    && skipped == EndedCount(rows, tenant, today, n)
  }

  lemma SweepRound(rows: seq<WorkOrder>, tenant: Option<string>, today: Day, n: nat, now: seq<WorkOrder>, created: int, skipped: int, next: seq<WorkOrder>)
    requires n < |rows| && SweptTo(rows, tenant, today, n, now, created, skipped)
    requires n < |now| ==> next == SweptRow(now, n, rows[n], tenant, today)
    ensures n < |now|
    ensures SweptTo(rows, tenant, today, n + 1, next, created + |next| - |now|,
                    skipped + if IsSkipped(now, n, rows[n], tenant, today) then 1 else 0)
  {
    SweepStep(rows, tenant, today, n, now);
  }

  /** The table after one recurring sweep. */
  ghost function Sweep(rows: seq<WorkOrder>, tenant: Option<string>, today: Day): seq<WorkOrder> {
    Swept(rows, Plans(rows, tenant, today), |rows|)
  }

  class RecurringSchedulerService {
    const workOrders: WorkOrderTable

    constructor (workOrders: WorkOrderTable)
      ensures this.workOrders == workOrders
    {
      this.workOrders := workOrders;
    }

    /** The body of the loop of `generate_recurring_work_orders`. */
    method ExpandTemplate(t: nat, today: Day) returns (created: nat, skipped: nat)
      requires t < |workOrders.rows|
      modifies workOrders
      ensures workOrders.rows == Expanded(old(workOrders.rows), t, PlanAt(old(workOrders.rows), t, today))
      ensures created == |workOrders.rows| - |old(workOrders.rows)|
      ensures skipped == if Skips(old(workOrders.rows)[t], ChildDates(old(workOrders.rows), t), today) then 1 else 0
    {
      created, skipped := 0, 0;
      var template := workOrders.rows[t];
      var existing := workOrders.RecurringChildDates(t);
      var lastChild := FindLatest(existing);
      var anchor := today;
      if template.scheduled.Some? {
        anchor := template.scheduled.value;
      } else if template.started.Some? {
        anchor := template.started.value;
      }
      var last := lastChild.GetOr(today);
      var after := if anchor < last then last else anchor;
      var next := ComputeNextOccurrence(after, template.frequency.GetOr(Weekly), template.days);
      if PastEnd(template, next) {
        skipped := 1;
      } else if next in existing {
        skipped := 1;
      } else if next - RECURRING_LEAD_DAYS <= today {
        var _ := workOrders.Create(ChildRow(template, t, next));
        created := 1;
      }
      workOrders.UpdateRecurringNextDate(t, if PastEnd(template, next) then None else Some(next));
    }

    /** One round of the loop. */
    method SweepTemplate(t: nat, listed: WorkOrder, tenant: Option<string>, today: Day) returns (created: nat, skipped: nat)
      requires t < |workOrders.rows|
      modifies workOrders
      ensures workOrders.rows == SweptRow(old(workOrders.rows), t, listed, tenant, today)
      ensures created == |workOrders.rows| - |old(workOrders.rows)|
      ensures skipped == if IsSkipped(old(workOrders.rows), t, listed, tenant, today) then 1 else 0
    {
      created, skipped := 0, 0;
      if listed.isRecurring && !listed.state.Terminated? && listed.active && InTenant(listed.tenant, tenant) {
        created, skipped := ExpandTemplate(t, today);
      }
    }

    /** `generate_recurring_work_orders`, over the templates that `list_recurring_templates` lists at its start. */
    method GenerateRecurringWorkOrders(tenant: Option<string>, today: Day) returns (created: nat, skipped: nat)
      modifies workOrders
      ensures workOrders.rows == Sweep(old(workOrders.rows), tenant, today)
      ensures created == |workOrders.rows| - |old(workOrders.rows)|
      ensures skipped == EndedCount(old(workOrders.rows), tenant, today, |old(workOrders.rows)|)
    {
      created, skipped := 0, 0;
      var list := workOrders.rows;
      SweepStarts(list, tenant, today);
      for t := 0 to |list|
        invariant SweptTo(list, tenant, today, t, workOrders.rows, created, skipped)
      {
        ghost var now := workOrders.rows;
        var c, s := SweepTemplate(t, list[t], tenant, today);
        SweepRound(list, tenant, today, t, now, created, skipped, workOrders.rows);
        created, skipped := created + c, skipped + s;
      }
    }
  }

  // ----- In plain terms -----

  /** What a sweep expands: a recurring work order that is neither deleted nor terminated, of the sweep's tenant if it has one. */
  predicate InSweep(w: WorkOrder, tenant: Option<string>) {
    w.isRecurring && w.active && w.state != Terminated && match tenant case None => true case Some(t) => t == "" || w.tenant == t
  }

  /** The date on which the next child falls: after the scheduled, else the started date, else today, and after the last child, else today. */
  function NextChildDate(w: WorkOrder, last: Option<Day>, today: Day): Day {
    var anchor := match w.scheduled case Some(d) => d case None => match w.started case Some(d) => d case None => today;
    var child := match last case Some(d) => d case None => today;
    NextOccurrence(if anchor < child then child else anchor, match w.frequency case Some(f) => f case None => Weekly, w.days)
  }

  predicate IsNewChild(child: WorkOrder, w: WorkOrder, t: nat, d: Day) {
    && child.parent == Some(t) && child.scheduled == Some(d) && child.state == Upcoming && child.active && child.started == None
    && child.tenant == w.tenant && child.contract == w.contract && child.source == w.source && child.assets == w.assets
    && !child.isRecurring && child.nextDate == None && child.timeline == [TimelineEvent("created", None)]
  }

  lemma PlanInPlainTerms(w: WorkOrder, dates: set<Day>, today: Day)
    ensures var next, plan := NextChildDate(w, LatestOf(dates), today), PlanFor(w, dates, today);
            var past := w.recurringEnd.Some? && w.recurringEnd.value < next;
            && plan.recorded == (if past then None else Some(next))
            && plan.child == if !past && next <= today + 5 then Some(next) else None
  {
    NextIsLater(w, dates, today);
  }

  /** What a sweep does for one row: it records the next date, unless that is past the end, and
      adds a child on it if it is at most five days ahead. */
  lemma SweptRowInPlainTerms(rows: seq<WorkOrder>, tenant: Option<string>, today: Day, t: nat)
    requires t < |rows|
    ensures var w, after := rows[t], Sweep(rows, tenant, today);
            var next := NextChildDate(w, LatestOf(ChildDates(rows, t)), today);
            var past := w.recurringEnd.Some? && w.recurringEnd.value < next;
            && |rows| <= |after|
            && after[t] == (if InSweep(w, tenant) then w.(nextDate := if past then None else Some(next)) else w)
            && (forall k | |rows| <= k < |after| && after[k].parent == Some(t) :: IsNewChild(after[k], w, t, next))
            && ((exists k | |rows| <= k < |after| :: after[k].parent == Some(t)) <==> InSweep(w, tenant) && !past && next <= today + 5)
  {
    var plans, after := Plans(rows, tenant, today), Sweep(rows, tenant, today);
    PlanInPlainTerms(rows[t], ChildDates(rows, t), today);
    forall k | |rows| <= k < |after| && after[k].parent == Some(t)
      ensures plans[t].child.Some? && after[k] == ChildRow(rows[t], t, plans[t].child.value)
    {
      var u := ParentInSweep(rows, plans, k);
    }
    if plans[t].child.Some? {
      var k := ChildInSweep(rows, plans, t);
    }
  }
}
