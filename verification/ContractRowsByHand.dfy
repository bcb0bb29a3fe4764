/**
The two rules for contract rows: one live row per contract and date, and no pending row of
a dead contract.  What staff may do to contract rows by hand, and exactly when that breaks a
rule: adding a row, changing one, and making a recurring template that counts as a contract
row.  Such a template's children inherit the contract, and the recurring
sweep looks only at the template's own children before it adds one.
*/
module ContractRowsByHand {
  import opened Calendar
  import opened Recurrence
  import opened RecurringChain
  import opened RecurringScheduler
  import opened TemplateRetirement
  import opened WorkOrders
  import opened Wrappers

  // ----- The rules -----

  /** Contract `c` has at most one live row on a date. */
  predicate UniqueDates(rows: seq<WorkOrder>, c: nat) {
    forall i, j | 0 <= i < j < |rows| && IsLive(rows[i], c) && IsLive(rows[j], c) && rows[i].scheduled.Some? ::
      rows[i].scheduled != rows[j].scheduled
  }

  /** No pending row of contract `c`. */
  predicate NoPending(rows: seq<WorkOrder>, c: nat) {
    forall i | 0 <= i < |rows| :: !IsPending(rows[i], c)
  }

  // ----- Recurring templates that count as contract rows -----

  /** Template `t` gives contract `c` a new live row on `d` in a sweep on `today`. */
  ghost predicate Adds(rows: seq<WorkOrder>, tenant: Option<string>, today: Day, c: nat, t: nat, d: Day) {
    && IsListedTemplate(rows, tenant, t)
    && rows[t].contract == Some(c) && rows[t].source.FromContract?
    && PlanAt(rows, t, today).child == Some(d)
  }

  /** No template adds a date that is taken, and no two templates add the same date. */
  ghost predicate NoClash(rows: seq<WorkOrder>, tenant: Option<string>, today: Day, c: nat) {
    && (forall t, d | Adds(rows, tenant, today, c, t, d) :: d !in LiveDates(rows, c))
    && (forall t, u, d | Adds(rows, tenant, today, c, t, d) && Adds(rows, tenant, today, c, u, d) :: t == u)
  }

  /** Where in the swept table the row that a template adds is found. */
  lemma AddedRow(rows: seq<WorkOrder>, tenant: Option<string>, today: Day, c: nat, t: nat, d: Day) returns (k: nat)
    requires Adds(rows, tenant, today, c, t, d)
    ensures var after := Sweep(rows, tenant, today);
            |rows| <= k < |after| && after[k].parent == Some(t) && IsPending(after[k], c) && after[k].scheduled == Some(d)
  {
    k := ChildInSweep(rows, Plans(rows, tenant, today), t);
  }

  /** Every live row of the contract that a sweep adds comes from a template. */
  lemma OriginOfRow(rows: seq<WorkOrder>, tenant: Option<string>, today: Day, c: nat, k: nat) returns (t: nat, d: Day)
    requires |rows| <= k < |Sweep(rows, tenant, today)| && IsLive(Sweep(rows, tenant, today)[k], c)
    ensures var after := Sweep(rows, tenant, today);
            Adds(rows, tenant, today, c, t, d) && after[k].parent == Some(t) && after[k].scheduled == Some(d)
  {
    var plans := Plans(rows, tenant, today);
    t := ParentInSweep(rows, plans, k);
    d := plans[t].child.value;
  }

  lemma OldRowsKeepDates(rows: seq<WorkOrder>, tenant: Option<string>, today: Day, c: nat)
    ensures var after := Sweep(rows, tenant, today);
            |rows| <= |after| && forall i | 0 <= i < |rows| ::
              && (IsLive(after[i], c) <==> IsLive(rows[i], c)) && (IsPending(after[i], c) <==> IsPending(rows[i], c))
              && after[i].scheduled == rows[i].scheduled
  {
  }

  /**
  A recurring sweep keeps a contract's live dates unique if and only if the dates that the
  contract's own templates add are neither taken nor added twice.
  */
  lemma SweepKeepsDatesUniqueExactly(rows: seq<WorkOrder>, tenant: Option<string>, today: Day, c: nat)
    requires UniqueDates(rows, c)
    ensures UniqueDates(Sweep(rows, tenant, today), c) <==> NoClash(rows, tenant, today, c)
  {
    if NoClash(rows, tenant, today, c) {
      NoClashKeepsUnique(rows, tenant, today, c);
    }
    if UniqueDates(Sweep(rows, tenant, today), c) {
      UniqueMeansNoClash(rows, tenant, today, c);
    }
  }

  lemma NoClashKeepsUnique(rows: seq<WorkOrder>, tenant: Option<string>, today: Day, c: nat)
    requires UniqueDates(rows, c) && NoClash(rows, tenant, today, c)
    ensures UniqueDates(Sweep(rows, tenant, today), c)
  {
    var after := Sweep(rows, tenant, today);
    OldRowsKeepDates(rows, tenant, today, c);
    forall i, j | 0 <= i < j < |after| && IsLive(after[i], c) && IsLive(after[j], c) && after[i].scheduled.Some?
      ensures after[i].scheduled != after[j].scheduled
    {
      if |rows| <= j {
        var u, d := OriginOfRow(rows, tenant, today, c, j);
        if i < |rows| {
          assert rows[i].scheduled.value in LiveDates(rows, c);
        } else {
          var t, e := OriginOfRow(rows, tenant, today, c, i);
          OneChildEach(rows, Plans(rows, tenant, today), |rows|);
        }
      }
    }
  }

  lemma UniqueMeansNotTaken(rows: seq<WorkOrder>, tenant: Option<string>, today: Day, c: nat, t: nat, d: Day)
    requires UniqueDates(Sweep(rows, tenant, today), c) && Adds(rows, tenant, today, c, t, d)
    ensures d !in LiveDates(rows, c)
  {
    OldRowsKeepDates(rows, tenant, today, c);
    var k := AddedRow(rows, tenant, today, c, t, d);
  }

  lemma SameDateSameRow(rows: seq<WorkOrder>, c: nat, k: nat, l: nat)
    requires UniqueDates(rows, c) && k < |rows| && l < |rows|
    requires IsLive(rows[k], c) && IsLive(rows[l], c) && rows[k].scheduled == rows[l].scheduled && rows[k].scheduled.Some?
    ensures k == l
  {
    if k < l {
      assert false;
    } else if l < k {
      assert false;
    }
  }

  lemma UniqueMeansAddedOnce(rows: seq<WorkOrder>, tenant: Option<string>, today: Day, c: nat, t: nat, u: nat, d: Day)
    requires UniqueDates(Sweep(rows, tenant, today), c)
    requires Adds(rows, tenant, today, c, t, d) && Adds(rows, tenant, today, c, u, d)
    ensures t == u
  {
    var k := AddedRow(rows, tenant, today, c, t, d);
    var l := AddedRow(rows, tenant, today, c, u, d);
    SameDateSameRow(Sweep(rows, tenant, today), c, k, l);
  }

  lemma UniqueMeansNoClash(rows: seq<WorkOrder>, tenant: Option<string>, today: Day, c: nat)
    requires UniqueDates(Sweep(rows, tenant, today), c)
    ensures NoClash(rows, tenant, today, c)
  {
    forall t, d | Adds(rows, tenant, today, c, t, d)
      ensures d !in LiveDates(rows, c)
    {
      UniqueMeansNotTaken(rows, tenant, today, c, t, d);
    }
    forall t, u, d | Adds(rows, tenant, today, c, t, d) && Adds(rows, tenant, today, c, u, d)
      ensures t == u
    {
      UniqueMeansAddedOnce(rows, tenant, today, c, t, u, d);
    }
  }

  /** A recurring sweep gives a contract no pending row if and only if none of the contract's templates adds one. */
  lemma SweepKeepsNoPendingExactly(rows: seq<WorkOrder>, tenant: Option<string>, today: Day, c: nat)
    requires NoPending(rows, c)
    ensures NoPending(Sweep(rows, tenant, today), c) <==> forall t, d :: !Adds(rows, tenant, today, c, t, d)
  {
    var after := Sweep(rows, tenant, today);
    if t, d :| Adds(rows, tenant, today, c, t, d) {
      var k := AddedRow(rows, tenant, today, c, t, d);
      assert IsPending(after[k], c);
    } else {
      forall k | 0 <= k < |after|
        ensures !IsPending(after[k], c)
      {
        if IsPending(after[k], c) {
          OldRowsKeepDates(rows, tenant, today, c);
          if |rows| <= k {
            var t, d := OriginOfRow(rows, tenant, today, c, k);
          }
        }
      }
    }
  }

  /** A weekly template of contract 0 for Mondays, and a visit of contract 0 on the second Monday. */
  function MondayTemplate(): WorkOrder {
    WorkOrder("t", Some(0), FromContract, Upcoming, true, Some(1), None, [], true, Some(Weekly), [Number(1)], None, None, None, [])
  }

  function MondayVisit(): WorkOrder {
    WorkOrder("t", Some(0), FromContract, Upcoming, true, Some(8), None, [], false, None, [], None, None, None, [])
  }

  /** The duplicate does occur: the sweep on day 5 adds a second live row on day 8. */
  lemma TemplateDuplicatesVisit()
    ensures var rows := [MondayTemplate(), MondayVisit()];
            UniqueDates(rows, 0) && !UniqueDates(Sweep(rows, None, 5), 0)
  {
    var rows := [MondayTemplate(), MondayVisit()];
    assert ChildDates(rows, 0) == {};
    LatestIsUnique({}, None);
    MondayAfter5(rows[0]);
    assert Adds(rows, None, 5, 0, 0, 8);
    assert IsLive(rows[1], 0);
    assert 8 in LiveDates(rows, 0);
    SweepKeepsDatesUniqueExactly(rows, None, 5, 0);
  }

  lemma MondayAfter5(w: WorkOrder)
    requires w.frequency == Some(Weekly) && w.days == [Number(1)]
    ensures NextFor(w, 5) == 8
  {
    assert Decode(w.days[0]) == Some(1);
    var days := NormalizedDays(w.days, Weekly);
    assert 1 in days;
    NextWeekdayOccurrence(5, Weekly, w.days);
    assert Weekday(8) == 1;
    assert Weekday(6) == 6 && Weekday(7) == 7;
  }

  // ----- Rows added and changed by hand -----

  /** Adding a row duplicates a date if and only if the row is live on a date already taken. */
  lemma AddingKeepsDatesUniqueExactly(rows: seq<WorkOrder>, row: WorkOrder, c: nat)
    requires UniqueDates(rows, c)
    ensures UniqueDates(rows + [row], c) <==>
            !(IsLive(row, c) && row.scheduled.Some? && row.scheduled.value in LiveDates(rows, c))
  {
    var after := rows + [row];
    if IsLive(row, c) && row.scheduled.Some? && row.scheduled.value in LiveDates(rows, c) {
      var i :| 0 <= i < |rows| && IsLive(rows[i], c) && rows[i].scheduled == row.scheduled;
      assert after[i] == rows[i] && after[|rows|] == row;
    }
  }

  /** A row that is live after a change of row `id` that cancels its unstarted children, if `cut`. */
  predicate Remains(row: WorkOrder, c: nat, id: nat, cut: bool) {
    IsLive(row, c) && !(cut && IsUnstartedChild(row, id))
  }

  /** The changed row `record`, in position `id`, falls on the date of another remaining row of contract `c`. */
  predicate Meets(rows: seq<WorkOrder>, id: nat, record: WorkOrder, c: nat, cut: bool) {
    Remains(record, c, id, cut) && record.scheduled.Some? &&
    exists j | 0 <= j < |rows| && j != id :: Remains(rows[j], c, id, cut) && rows[j].scheduled == record.scheduled
  }

  /** The changed row is pending and stays so. */
  predicate RemainsPending(record: WorkOrder, c: nat, id: nat, cut: bool) {
    IsPending(record, c) && Remains(record, c, id, cut)
  }

  /** The table with row `id` replaced, and its unstarted children cancelled if there is a note. */
  function Replaced(rows: seq<WorkOrder>, id: nat, record: WorkOrder, note: Option<string>): (after: seq<WorkOrder>)
    requires id < |rows|
    ensures |after| == |rows|
    ensures forall j, c: nat | 0 <= j < |rows| :: var source := if j == id then record else rows[j];
              && after[j].scheduled == source.scheduled
              && (IsLive(after[j], c) <==> Remains(source, c, id, note.Some?))
              && (IsPending(after[j], c) <==> RemainsPending(source, c, id, note.Some?))
  {
    var changed := rows[id := record];
    if note.Some? then Cancelled(changed, id, note.value) else changed
  }

  lemma ReplacingKeepsDatesUniqueExactly(rows: seq<WorkOrder>, id: nat, record: WorkOrder, note: Option<string>, c: nat)
    requires UniqueDates(rows, c) && id < |rows|
    ensures UniqueDates(Replaced(rows, id, record, note), c) <==> !Meets(rows, id, record, c, note.Some?)
  {
    var after := Replaced(rows, id, record, note);
    if Meets(rows, id, record, c, note.Some?) {
      var j :| 0 <= j < |rows| && j != id && Remains(rows[j], c, id, note.Some?) && rows[j].scheduled == record.scheduled;
      assert IsLive(after[j], c) && IsLive(after[id], c);
    }
  }

  lemma ReplacingKeepsNoPendingExactly(rows: seq<WorkOrder>, id: nat, record: WorkOrder, note: Option<string>, c: nat)
    requires NoPending(rows, c) && id < |rows|
    ensures NoPending(Replaced(rows, id, record, note), c) <==> !RemainsPending(record, c, id, note.Some?)
  {
    var after := Replaced(rows, id, record, note);
    if RemainsPending(record, c, id, note.Some?) {
      assert IsPending(after[id], c);
    }
  }

  /** A payload without a column leaves the row as it is. */
  lemma EmptyPayloadChangesNothing(w: WorkOrder, change: Change)
    requires IsEmptyPayload(change)
    ensures Applied(w, change) == w
  {
  }

  /** A staff update of a work order, reviving or moving it included, duplicates a date if and
      only if the changed row meets another live one that is not cancelled along with the update. */
  lemma ChangingKeepsDatesUniqueExactly(rows: seq<WorkOrder>, id: nat, change: Change, c: nat)
    requires UniqueDates(rows, c) && Exists(rows, id)
    ensures UniqueDates(Updated(rows, id, change), c) <==>
            !Meets(rows, id, Applied(rows[id], change), c, CancelNote(rows[id], change).Some?)
  {
    if IsEmptyPayload(change) {
      EmptyPayloadChangesNothing(rows[id], change);
    } else {
      ReplacingKeepsDatesUniqueExactly(rows, id, Applied(rows[id], change), CancelNote(rows[id], change), c);
    }
  }
}
