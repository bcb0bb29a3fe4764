/**
The work-order table: rows, the questions the scheduler asks about them, and the
statements that change them.  A row's identifier is its position; rows are never removed,
a soft delete only clears `active`.
*/
module WorkOrders {
  import opened Calendar
  import opened Recurrence
  import opened Wrappers

  datatype State = Upcoming | InProgress | InReview | Completed | Terminated

  datatype Source = FromContract | AdHoc | FromTemplate

  datatype TimelineEvent = TimelineEvent(kind: string, note: Option<string>)

  datatype WorkOrder = WorkOrder(
    tenant: string,
    contract: Option<nat>,
    source: Source,
    state: State,
    active: bool,
    scheduled: Option<Day>,
    started: Option<Day>,
    assets: seq<string>,
    isRecurring: bool,
    frequency: Option<Frequency>,
    days: seq<RawDay>,
    recurringEnd: Option<Day>,
    parent: Option<nat>,
    nextDate: Option<Day>,
    timeline: seq<TimelineEvent>)

  // ----- Contract rows -----

  predicate IsContractRow(w: WorkOrder, c: nat) {
    w.contract == Some(c) && w.source.FromContract? && w.active
  }

  predicate IsLive(w: WorkOrder, c: nat) {
    IsContractRow(w, c) && !w.state.Terminated?
  }

  predicate IsPending(w: WorkOrder, c: nat) {
    IsContractRow(w, c) && w.state.Upcoming?
  }

  /** The dates that contract `c` already has a live row for. */
  function LiveDates(rows: seq<WorkOrder>, c: nat): set<Day> {
    set i | 0 <= i < |rows| && IsLive(rows[i], c) && rows[i].scheduled.Some? :: rows[i].scheduled.value
  }

  function CancelledIfPending(w: WorkOrder, c: nat): WorkOrder {
    if IsPending(w, c) then w.(state := Terminated) else w
  }

  function CancelPending(rows: seq<WorkOrder>, c: nat): (r: seq<WorkOrder>) {
    seq(|rows|, i requires 0 <= i < |rows| => CancelledIfPending(rows[i], c))
  }

  function PendingCount(rows: seq<WorkOrder>, c: nat): nat {
    if rows == [] then 0
    else PendingCount(rows[..|rows| - 1], c) + (if IsPending(rows[|rows| - 1], c) then 1 else 0)
  }

  lemma LiveDatesConcat(rows: seq<WorkOrder>, more: seq<WorkOrder>, c: nat)
    ensures LiveDates(rows + more, c) == LiveDates(rows, c) + LiveDates(more, c)
  {
    var all := rows + more;
    forall d
      ensures d in LiveDates(all, c) <==> d in LiveDates(rows, c) || d in LiveDates(more, c)
    {
      if d in LiveDates(rows, c) {
        var i :| 0 <= i < |rows| && IsLive(rows[i], c) && rows[i].scheduled == Some(d);
        assert all[i] == rows[i];
      }
      if d in LiveDates(more, c) {
        var i :| 0 <= i < |more| && IsLive(more[i], c) && more[i].scheduled == Some(d);
        assert all[|rows| + i] == more[i];
      }
    }
  }

  // ----- Recurring children -----

  predicate IsLiveChild(w: WorkOrder, t: nat) {
    w.parent == Some(t) && w.active && !w.state.Terminated?
  }

  predicate IsUnstartedChild(w: WorkOrder, t: nat) {
    w.parent == Some(t) && w.active && w.state.Upcoming? && w.started.None?
  }

  function ChildDates(rows: seq<WorkOrder>, t: nat): set<Day> {
    set i | 0 <= i < |rows| && IsLiveChild(rows[i], t) && rows[i].scheduled.Some? :: rows[i].scheduled.value
  }

  function CancelledIfUnstarted(w: WorkOrder, t: nat, event: TimelineEvent): WorkOrder {
    if IsUnstartedChild(w, t) then w.(state := Terminated, timeline := w.timeline + [event]) else w
  }

  function CancelChildren(rows: seq<WorkOrder>, t: nat, event: TimelineEvent): (r: seq<WorkOrder>) {
    seq(|rows|, i requires 0 <= i < |rows| => CancelledIfUnstarted(rows[i], t, event))
  }

  function UnstartedCount(rows: seq<WorkOrder>, t: nat): nat {
    if rows == [] then 0
    else UnstartedCount(rows[..|rows| - 1], t) + (if IsUnstartedChild(rows[|rows| - 1], t) then 1 else 0)
  }

  /** What the scheduler treats as a template to expand. */
  predicate IsTemplate(w: WorkOrder) {
    w.isRecurring && w.active && !w.state.Terminated?
  }

  predicate InTenant(owner: string, tenant: Option<string>) {
    tenant.Some? && tenant.value != "" ==> owner == tenant.value
  }

  // ----- The table -----

  class WorkOrderTable {
    var rows: seq<WorkOrder>

    constructor (rows: seq<WorkOrder>)
      ensures this.rows == rows
    {
      this.rows := rows;
    }

    method Create(w: WorkOrder) returns (id: nat)
      modifies this
      ensures rows == old(rows) + [w] && id == |old(rows)|
    {
      id := |rows|;
      rows := rows + [w];
    }

    /** `existing_contract_schedule_dates`. */
    method ExistingContractScheduleDates(c: nat) returns (dates: set<Day>)
      ensures dates == LiveDates(rows, c)
    {
      dates := {};
      for i := 0 to |rows|
        invariant dates == LiveDates(rows[..i], c)
      {
        assert rows[..i + 1] == rows[..i] + [rows[i]];
        LiveDatesConcat(rows[..i], [rows[i]], c);
        if IsLive(rows[i], c) && rows[i].scheduled.Some? {
          assert [rows[i]][0] == rows[i];
          dates := dates + {rows[i].scheduled.value};
        }
      }
      assert rows[..|rows|] == rows;
    }

    /** `cancel_contract_work_orders`. */
    method CancelContractWorkOrders(c: nat) returns (count: nat)
      modifies this
      ensures rows == CancelPending(old(rows), c)
      ensures count == PendingCount(old(rows), c)
    {
      count := 0;
      for i := 0 to |rows|
        invariant |rows| == |old(rows)|
        invariant forall j | 0 <= j < i :: rows[j] == CancelledIfPending(old(rows)[j], c)
        invariant forall j | i <= j < |rows| :: rows[j] == old(rows)[j]
        invariant count == PendingCount(old(rows)[..i], c)
      {
        assert old(rows)[..i + 1][..i] == old(rows)[..i];
        if IsPending(rows[i], c) {
          rows := rows[i := rows[i].(state := Terminated)];
          count := count + 1;
        }
      }
      assert old(rows)[..|rows|] == old(rows);
    }

    /** `recurring_child_dates`. */
    method RecurringChildDates(t: nat) returns (dates: set<Day>)
      ensures dates == ChildDates(rows, t)
    {
      dates := {};
      for i := 0 to |rows|
        invariant dates == ChildDates(rows[..i], t)
      {
        assert rows[..i + 1] == rows[..i] + [rows[i]];
        ChildDatesConcat(rows[..i], [rows[i]], t);
        if IsLiveChild(rows[i], t) && rows[i].scheduled.Some? {
          assert [rows[i]][0] == rows[i];
          dates := dates + {rows[i].scheduled.value};
        }
      }
      assert rows[..|rows|] == rows;
    }

    /** `cancel_recurring_children`: one statement per row, with a running count. */
    method CancelRecurringChildren(t: nat, note: string) returns (count: nat)
      modifies this
      ensures rows == CancelChildren(old(rows), t, TimelineEvent("status_changed", Some(note)))
      ensures count == UnstartedCount(old(rows), t)
    {
      var event := TimelineEvent("status_changed", Some(note));
      count := 0;
      for i := 0 to |rows|
        invariant |rows| == |old(rows)|
        invariant forall j | 0 <= j < i :: rows[j] == CancelledIfUnstarted(old(rows)[j], t, event)
        invariant forall j | i <= j < |rows| :: rows[j] == old(rows)[j]
        invariant count == UnstartedCount(old(rows)[..i], t)
      {
        assert old(rows)[..i + 1][..i] == old(rows)[..i];
        if IsUnstartedChild(rows[i], t) {
          var timeline := rows[i].timeline + [event];
          rows := rows[i := rows[i].(state := Terminated, timeline := timeline)];
          count := count + 1;
        }
      }
      assert old(rows)[..|rows|] == old(rows);
    }

    /** `update_recurring_next_date`. */
    method UpdateRecurringNextDate(id: nat, next: Option<Day>)
      requires id < |rows|
      modifies this
      ensures rows == old(rows)[id := old(rows)[id].(nextDate := next)]
    {
      rows := rows[id := rows[id].(nextDate := next)];
    }

    /** `append_timeline`: None when the row is missing or soft-deleted. */
    method AppendTimeline(id: nat, event: TimelineEvent) returns (timeline: Option<seq<TimelineEvent>>)
      modifies this
      ensures rows == WithEvent(old(rows), id, event)
      ensures timeline.Some? <==> Exists(old(rows), id)
      ensures timeline.Some? ==> timeline.value == old(rows)[id].timeline + [event]
    {
      if !Exists(rows, id) {
        return None;
      }
      timeline := Some(rows[id].timeline + [event]);
      rows := rows[id := rows[id].(timeline := timeline.value)];
    }

    /** `soft_delete`. */
    method SoftDelete(id: nat) returns (deleted: bool)
      modifies this
      ensures deleted == Exists(old(rows), id)
      ensures rows == if deleted then old(rows)[id := old(rows)[id].(active := false)] else old(rows)
    {
      deleted := Exists(rows, id);
      if deleted {
        rows := rows[id := rows[id].(active := false)];
      }
    }
  }

  predicate Exists(rows: seq<WorkOrder>, id: nat) {
    id < |rows| && rows[id].active
  }

  function WithEvent(rows: seq<WorkOrder>, id: nat, event: TimelineEvent): seq<WorkOrder> {
    if Exists(rows, id) then rows[id := rows[id].(timeline := rows[id].timeline + [event])] else rows
  }

  lemma ChildDatesConcat(rows: seq<WorkOrder>, more: seq<WorkOrder>, t: nat)
    ensures ChildDates(rows + more, t) == ChildDates(rows, t) + ChildDates(more, t)
  {
    var all := rows + more;
    forall d
      ensures d in ChildDates(all, t) <==> d in ChildDates(rows, t) || d in ChildDates(more, t)
    {
      if d in ChildDates(rows, t) {
        var i :| 0 <= i < |rows| && IsLiveChild(rows[i], t) && rows[i].scheduled == Some(d);
        assert all[i] == rows[i];
      }
      if d in ChildDates(more, t) {
        var i :| 0 <= i < |more| && IsLiveChild(more[i], t) && more[i].scheduled == Some(d);
        assert all[|rows| + i] == more[i];
      }
    }
  }

  // ----- In plain terms -----

  /** A live work order that was generated for contract `c`, on day `d`. */
  ghost predicate HasVisit(rows: seq<WorkOrder>, c: nat, d: Day) {
    exists i | 0 <= i < |rows| ::
      && rows[i].contract == Some(c) && rows[i].source == FromContract && rows[i].active
      && rows[i].state != Terminated && rows[i].scheduled == Some(d)
  }

  lemma LiveDatesInPlainTerms(rows: seq<WorkOrder>, c: nat, d: Day)
    ensures d in LiveDates(rows, c) <==> HasVisit(rows, c, d)
  {
    if HasVisit(rows, c, d) {
      var i :| 0 <= i < |rows| && rows[i].contract == Some(c) && rows[i].source == FromContract && rows[i].active
               && rows[i].state != Terminated && rows[i].scheduled == Some(d);
      assert IsLive(rows[i], c);
    }
  }

  /** Cancelling a contract's work orders terminates its upcoming ones, and changes nothing else. */
  lemma CancellationInPlainTerms(rows: seq<WorkOrder>, c: nat, i: nat)
    requires i < |rows|
    ensures var w, after := rows[i], CancelPending(rows, c);
            |after| == |rows| &&
            after[i] == if w.contract == Some(c) && w.source == FromContract && w.active && w.state == Upcoming
                        then w.(state := Terminated) else w
  {
  }

  /** The dates that count as taken for a template: those of its children that are neither deleted nor terminated. */
  lemma ChildDatesInPlainTerms(rows: seq<WorkOrder>, t: nat, d: Day)
    ensures d in ChildDates(rows, t) <==>
            exists i | 0 <= i < |rows| ::
              rows[i].parent == Some(t) && rows[i].active && rows[i].state != Terminated && rows[i].scheduled == Some(d)
  {
    if i :| 0 <= i < |rows| && rows[i].parent == Some(t) && rows[i].active && rows[i].state != Terminated && rows[i].scheduled == Some(d) {
      assert IsLiveChild(rows[i], t);
    }
  }

  /** Cancelling a template's children terminates those that are upcoming and not started, and notes it on each. */
  lemma ChildCancellationInPlainTerms(rows: seq<WorkOrder>, t: nat, event: TimelineEvent, i: nat)
    requires i < |rows|
    ensures var w, after := rows[i], CancelChildren(rows, t, event);
            |after| == |rows| &&
            after[i] == if w.parent == Some(t) && w.active && w.state == Upcoming && w.started == None
                        then w.(state := Terminated, timeline := w.timeline + [event]) else w
  {
  }
}
