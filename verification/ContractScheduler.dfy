/**
The contract side of the scheduler: one generation pass over a contract, and the
recompute that follows a change of the contract.
*/
module ContractScheduler {
  import opened Calendar
  import opened Contracts
  import opened Schedule
  import opened WorkOrders
  import opened Wrappers

  predicate IsTerminal(status: ContractStatus) {
    status.Terminated? || status.Expired?
  }

  /** `_build_work_order`. */
  function VisitRow(id: nat, c: Contract, visit: Day): (w: WorkOrder)
    ensures IsPending(w, id) && w.scheduled == Some(visit) && !IsTemplate(w) && w.parent.None?
  {
    WorkOrder(
      tenant := c.tenant, contract := Some(id), source := FromContract,
      state := Upcoming, active := true,
      scheduled := Some(visit), started := None, assets := c.assets,
      isRecurring := false, frequency := None, days := [], recurringEnd := None,
      parent := None, nextDate := None,
      timeline := [TimelineEvent("created", None)])
  }

  function VisitRows(id: nat, c: Contract, visits: seq<Day>): seq<WorkOrder> {
    seq(|visits|, i requires 0 <= i < |visits| => VisitRow(id, c, visits[i]))
  }

  /** The visits not yet taken, in order. */
  function Missing(visits: seq<Day>, taken: set<Day>): (m: seq<Day>) {
    if visits == [] then []
    else
      var last := visits[|visits| - 1];
      Missing(visits[..|visits| - 1], taken) + (if last in taken then [] else [last])
  }

  function MissingVisits(rows: seq<WorkOrder>, id: nat, c: Contract, today: Day): seq<Day> {
    Missing(DueVisits(c, today), LiveDates(rows, id))
  }

  /** The table after a generation pass over contract `id` on `today`. */
  function Generated(rows: seq<WorkOrder>, id: nat, c: Contract, today: Day): seq<WorkOrder> {
    rows + VisitRows(id, c, MissingVisits(rows, id, c, today))
  }

  /** The table after `recompute_contract`. */
  function Recomputed(rows: seq<WorkOrder>, id: nat, c: Contract, changed: bool, today: Day): seq<WorkOrder> {
    if !c.active || IsTerminal(c.status) then CancelPending(rows, id)
    else if !c.status.Active? then rows
    else Generated(if changed then CancelPending(rows, id) else rows, id, c, today)
  }

  datatype Counts = Counts(created: nat, cancelled: nat, skipped: nat)

  class ContractTable {
    var rows: seq<Contract>

    constructor (rows: seq<Contract>)
      ensures this.rows == rows
    {
      this.rows := rows;
    }

    /** `update_next_visit_date`. */
    method UpdateNextVisitDate(id: nat, next: Option<Day>)
      requires id < |rows|
      modifies this
      ensures rows == old(rows)[id := old(rows)[id].(nextVisit := next)]
    {
      rows := rows[id := rows[id].(nextVisit := next)];
    }
  }

  class ContractSchedulerService {
    const contracts: ContractTable
    const workOrders: WorkOrderTable

    constructor (contracts: ContractTable, workOrders: WorkOrderTable)
      ensures this.contracts == contracts && this.workOrders == workOrders
    {
      this.contracts := contracts;
      this.workOrders := workOrders;
    }

    /** `_generate_for_contract`. */
    method GenerateForContract(id: nat, c: Contract, today: Day)
      returns (created: nat, skipped: nat, nextFuture: Option<Day>)
      requires id < |contracts.rows|
      modifies contracts, workOrders
      ensures workOrders.rows == Generated(old(workOrders.rows), id, c, today)
      ensures contracts.rows == old(contracts.rows)[id := old(contracts.rows)[id].(nextVisit := nextFuture)]
      ensures nextFuture == FirstAfter(VisitDates(c, today), today)
      ensures created == |MissingVisits(old(workOrders.rows), id, c, today)|
      ensures created + skipped == |DueVisits(c, today)|
    {
      var lead := DEFAULT_LEAD_DAYS;
      if c.leadDays.Some? {
        lead := if c.leadDays.value > 0 then c.leadDays.value else 0;
      }
      var existing := workOrders.ExistingContractScheduleDates(id);
      var visits := IterVisitDates(c, today);
      created, skipped, nextFuture := PlaceVisits(id, c, visits, today, lead, existing);
      contracts.UpdateNextVisitDate(id, nextFuture);
    }

    /** The loop of `_generate_for_contract` over the generator's visits. */
    method PlaceVisits(id: nat, c: Contract, visits: seq<Day>, today: Day, lead: nat, existing: set<Day>)
      returns (created: nat, skipped: nat, nextFuture: Option<Day>)
      modifies workOrders
      ensures workOrders.rows == old(workOrders.rows) + VisitRows(id, c, Missing(UpTo(visits, today + lead), existing))
      ensures nextFuture == FirstAfter(visits, today)
      ensures created == |Missing(UpTo(visits, today + lead), existing)|
      ensures created + skipped == |UpTo(visits, today + lead)|
    {
      created, skipped, nextFuture := 0, 0, None;
      var rest := visits;
      ghost var seen: seq<Day>, placed: seq<Day> := [], [];
      while rest != []
        invariant UpTo(visits, today + lead) == seen + UpTo(rest, today + lead)
        invariant FirstAfter(visits, today) == if nextFuture.Some? then nextFuture else FirstAfter(rest, today)
        invariant placed == Missing(seen, existing)
        invariant |placed| == created && created + skipped == |seen|
        invariant workOrders.rows == old(workOrders.rows) + VisitRows(id, c, placed)
        decreases |rest|
      {
        var visit := rest[0];
        if visit > today && nextFuture.None? {
          nextFuture := Some(visit);
        }
        if visit > today + lead {
          break;
        }
        MissingOneMore(seen, visit, existing);
        if visit in existing {
          skipped := skipped + 1;
        } else {
          VisitRowsOneMore(id, c, placed, visit);
          var _ := workOrders.Create(VisitRow(id, c, visit));
          created := created + 1;
          placed := placed + [visit];
        }
        seen := seen + [visit];
        rest := rest[1..];
      }
      assert UpTo(visits, today + lead) == seen;
    }

    /** `recompute_contract`; the reported count of cancelled rows is 0 on an active contract. */
    method RecomputeContract(id: nat, c: Contract, termsChanged: bool, statusChanged: bool, today: Day)
      returns (counts: Counts)
      requires id < |contracts.rows|
      modifies contracts, workOrders
      ensures workOrders.rows == Recomputed(old(workOrders.rows), id, c, termsChanged || statusChanged, today)
      ensures contracts.rows ==
              if c.active && c.status.Active?
              then old(contracts.rows)[id := old(contracts.rows)[id].(nextVisit := FirstAfter(VisitDates(c, today), today))]
              else old(contracts.rows)
      ensures c.active && c.status.Active? ==>
                && counts.cancelled == 0 && counts.created + counts.skipped == |DueVisits(c, today)|
                && counts.created == |workOrders.rows| - |old(workOrders.rows)|
      ensures !(c.active && c.status.Active?) ==>
                counts == Counts(0, if !c.active || IsTerminal(c.status) then PendingCount(old(workOrders.rows), id) else 0, 0)
    {
      if !c.active || IsTerminal(c.status) {
        var cancelled := workOrders.CancelContractWorkOrders(id);
        return Counts(0, cancelled, 0);
      }
      if !c.status.Active? {
        return Counts(0, 0, 0);
      }
      if termsChanged || statusChanged {
        var _ := workOrders.CancelContractWorkOrders(id);
      }
      var created, skipped, _ := GenerateForContract(id, c, today);
      return Counts(created, 0, skipped);
    }
  }

  lemma MissingOneMore(visits: seq<Day>, visit: Day, taken: set<Day>)
    ensures Missing(visits + [visit], taken) == Missing(visits, taken) + (if visit in taken then [] else [visit])
  {
    assert (visits + [visit])[..|visits|] == visits;
  }

  lemma VisitRowsOneMore(id: nat, c: Contract, visits: seq<Day>, visit: Day)
    ensures VisitRows(id, c, visits + [visit]) == VisitRows(id, c, visits) + [VisitRow(id, c, visit)]
  {
  }

  // ----- What a pass leaves behind -----

  function Days(s: seq<Day>): set<Day> {
    set d | d in s
  }

  lemma {:induction false} MissingMember(visits: seq<Day>, taken: set<Day>, d: Day)
    ensures d in Missing(visits, taken) <==> d in visits && d !in taken
  {
    if visits != [] {
      var front, last := visits[..|visits| - 1], visits[|visits| - 1];
      MissingMember(front, taken, d);
      assert visits == front + [last];
    }
  }

  lemma {:induction false} MissingIncreases(visits: seq<Day>, taken: set<Day>)
    requires Increasing(visits)
    ensures Increasing(Missing(visits, taken))
  {
    if visits != [] {
      var front, last := visits[..|visits| - 1], visits[|visits| - 1];
      MissingIncreases(front, taken);
      var m := Missing(front, taken);
      forall i | 0 <= i < |m|
        ensures m[i] < last
      {
        MissingMember(front, taken, m[i]);
      }
    }
  }

  lemma VisitRowDates(id: nat, c: Contract, visits: seq<Day>, other: nat)
    ensures LiveDates(VisitRows(id, c, visits), other) == if other == id then Days(visits) else {}
  {
    var rows := VisitRows(id, c, visits);
    if other == id {
      forall d | d in visits
        ensures d in LiveDates(rows, id)
      {
        var i :| 0 <= i < |visits| && visits[i] == d;
        assert IsLive(rows[i], id) && rows[i].scheduled == Some(d);
      }
    }
  }

  /** A pass adds exactly the due dates to the contract's live dates and touches no other contract's. */
  lemma LiveDatesAfterPass(rows: seq<WorkOrder>, id: nat, c: Contract, today: Day, other: nat)
    ensures LiveDates(Generated(rows, id, c, today), other) ==
            LiveDates(rows, other) + if other == id then Days(DueVisits(c, today)) else {}
  {
    var added := MissingVisits(rows, id, c, today);
    LiveDatesConcat(rows, VisitRows(id, c, added), other);
    VisitRowDates(id, c, added, other);
    if other == id {
      forall d | d in DueVisits(c, today)
        ensures d in LiveDates(rows, id) + Days(added)
      {
        MissingMember(DueVisits(c, today), LiveDates(rows, id), d);
      }
      forall d | d in added
        ensures d in DueVisits(c, today)
      {
        MissingMember(DueVisits(c, today), LiveDates(rows, id), d);
      }
    }
  }

  /** Passes on the given days, one after the other. */
  function Passes(rows: seq<WorkOrder>, id: nat, c: Contract, days: seq<Day>): seq<WorkOrder> {
    if days == [] then rows
    else Generated(Passes(rows, id, c, days[..|days| - 1]), id, c, days[|days| - 1])
  }

  lemma {:induction false} LiveDatesAfterPasses(rows: seq<WorkOrder>, id: nat, c: Contract, days: seq<Day>, last: Day)
    requires days != [] && last in days && forall d | d in days :: d <= last
    ensures LiveDates(Passes(rows, id, c, days), id) == LiveDates(rows, id) + Days(DueVisits(c, last))
    decreases |days|
  {
    var front, day := days[..|days| - 1], days[|days| - 1];
    assert days == front + [day] && day in days;
    var before := Passes(rows, id, c, front);
    assert Passes(rows, id, c, days) == Generated(before, id, c, day);
    LiveDatesAfterPass(before, id, c, day, id);
    DueStaysDue(c, day, last);
    if front == [] {
      assert before == rows && last == day;
    } else {
      var top := Latest(front);
      LatestOfFront(front, day, last, top);
      LiveDatesAfterPasses(rows, id, c, front, top);
      DueStaysDue(c, top, last);
    }
  }

  lemma LatestOfFront(front: seq<Day>, day: Day, last: Day, top: Day)
    requires front != [] && top == Latest(front)
    requires last in front + [day] && forall d | d in front + [day] :: d <= last
    ensures top <= last && (last == day || last == top)
  {
    assert top in front + [day];
  }

  lemma DueStaysDue(c: Contract, today: Day, later: Day)
    requires today <= later
    ensures Days(DueVisits(c, today)) <= Days(DueVisits(c, later))
  {
    DueGrows(c, today, later);
  }

  function Latest(days: seq<Day>): (last: Day)
    requires days != []
    ensures last in days && forall d | d in days :: d <= last
  {
    if |days| == 1 then days[0]
    else
      var rest := Latest(days[1..]);
      assert days == [days[0]] + days[1..];
      if days[0] < rest then rest else days[0]
  }

  /**
  Incremental equals one-shot: passes on any days in any order leave the live dates that
  a single pass on the latest of those days leaves.
  */
  lemma IncrementalEqualsOneShot(rows: seq<WorkOrder>, id: nat, c: Contract, days: seq<Day>)
    requires days != []
    ensures LiveDates(Passes(rows, id, c, days), id) == LiveDates(Generated(rows, id, c, Latest(days)), id)
    ensures LiveDates(Passes(rows, id, c, days), id) == LiveDates(rows, id) + Days(DueVisits(c, Latest(days)))
  {
    LiveDatesAfterPasses(rows, id, c, days, Latest(days));
    LiveDatesAfterPass(rows, id, c, Latest(days), id);
  }

  lemma {:induction false} NothingMissing(visits: seq<Day>, taken: set<Day>)
    requires forall d | d in visits :: d in taken
    ensures Missing(visits, taken) == []
  {
    if visits != [] {
      var front := visits[..|visits| - 1];
      assert forall d | d in front :: d in visits;
      NothingMissing(front, taken);
    }
  }

  /** A pass creates nothing exactly when every due date is taken; so a repeated pass, on the
      same or an earlier day, changes nothing. */
  lemma RepeatedPassCreatesNothing(rows: seq<WorkOrder>, id: nat, c: Contract, today: Day, again: Day)
    requires again <= today
    ensures Generated(rows, id, c, today) == rows <==> Days(DueVisits(c, today)) <= LiveDates(rows, id)
    ensures Generated(Generated(rows, id, c, today), id, c, again) == Generated(rows, id, c, today)
  {
    var after := Generated(rows, id, c, today);
    LiveDatesAfterPass(rows, id, c, today, id);
    DueGrows(c, again, today);
    NothingMissing(DueVisits(c, again), LiveDates(after, id));
    if Days(DueVisits(c, today)) <= LiveDates(rows, id) {
      NothingMissing(DueVisits(c, today), LiveDates(rows, id));
    } else {
      var d :| d in DueVisits(c, today) && d !in LiveDates(rows, id);
      MissingMember(DueVisits(c, today), LiveDates(rows, id), d);
      assert |after| > |rows|;
    }
  }

  // ----- Cancel and regenerate -----

  /** The dates that survive a cancellation: those of rows in progress, in review or completed. */
  function KeptDates(rows: seq<WorkOrder>, c: nat): set<Day> {
    set i | 0 <= i < |rows| && IsLive(rows[i], c) && !rows[i].state.Upcoming? && rows[i].scheduled.Some? :: rows[i].scheduled.value
  }

  lemma CancellationKeeps(rows: seq<WorkOrder>, c: nat)
    ensures LiveDates(CancelPending(rows, c), c) == KeptDates(rows, c)
  {
    var after := CancelPending(rows, c);
    forall d
      ensures d in LiveDates(after, c) <==> d in KeptDates(rows, c)
    {
      if d in KeptDates(rows, c) {
        var i :| 0 <= i < |rows| && IsLive(rows[i], c) && !rows[i].state.Upcoming? && rows[i].scheduled == Some(d);
        assert after[i] == rows[i];
      }
      if d in LiveDates(after, c) {
        var i :| 0 <= i < |after| && IsLive(after[i], c) && after[i].scheduled == Some(d);
        assert after[i] == rows[i];
      }
    }
  }

  /**
  Cancel-and-regenerate is exact.  Live dates are the kept ones and the due ones of the
  new terms; every old row is untouched unless it was pending, and then only terminated;
  the pending rows are exactly the new ones, whose dates are the due dates not kept, each
  once and in order.
  */
  lemma RegenerationIsExact(rows: seq<WorkOrder>, id: nat, c: Contract, today: Day)
    requires c.active && c.status.Active?
    ensures var after := Recomputed(rows, id, c, true, today);
            var added := MissingVisits(CancelPending(rows, id), id, c, today);
            && LiveDates(after, id) == KeptDates(rows, id) + Days(DueVisits(c, today))
            && Increasing(added) && Days(added) == Days(DueVisits(c, today)) - KeptDates(rows, id)
            && |after| == |rows| + |added|
            && (forall i | 0 <= i < |rows| :: after[i] == if IsPending(rows[i], id) then rows[i].(state := State.Terminated) else rows[i])
            && (forall i | 0 <= i < |added| :: after[|rows| + i] == VisitRow(id, c, added[i]))
            && (forall i | 0 <= i < |after| :: IsPending(after[i], id) <==> |rows| <= i)
  {
    var cancelled := CancelPending(rows, id);
    CancellationKeeps(rows, id);
    LiveDatesAfterPass(cancelled, id, c, today, id);
    DueVisitsIncrease(c, today);
    MissingIncreases(DueVisits(c, today), KeptDates(rows, id));
    forall d: Day
      ensures d in MissingVisits(cancelled, id, c, today) <==> d in DueVisits(c, today) && d !in KeptDates(rows, id)
    {
      MissingMember(DueVisits(c, today), KeptDates(rows, id), d);
    }
  }

  // ----- In plain terms -----

  /** A visit of contract `id` on day `d`, as the scheduler creates it. */
  predicate IsNewVisit(w: WorkOrder, id: nat, c: Contract, d: Day) {
    && w.contract == Some(id) && w.source == FromContract && w.tenant == c.tenant && w.assets == c.assets
    && w.state == Upcoming && w.active && w.scheduled == Some(d) && w.started == None
    && !w.isRecurring && w.parent == None && w.timeline == [TimelineEvent("created", None)]
  }

  /** Each row that a pass adds is a visit on a due day that had none. */
  lemma AddedVisitInPlainTerms(rows: seq<WorkOrder>, id: nat, c: Contract, today: Day, i: nat)
    requires |rows| <= i < |Generated(rows, id, c, today)|
    ensures var w := Generated(rows, id, c, today)[i];
            && w.scheduled.Some? && w.scheduled.value in DueVisits(c, today)
            && !HasVisit(rows, id, w.scheduled.value) && IsNewVisit(w, id, c, w.scheduled.value)
  {
    var added := MissingVisits(rows, id, c, today);
    var d := added[i - |rows|];
    assert d in added;
    MissingMember(DueVisits(c, today), LiveDates(rows, id), d);
    LiveDatesInPlainTerms(rows, id, d);
  }

  /** What a pass does: it leaves every row alone, and adds one visit for each due day that has none. */
  lemma PassInPlainTerms(rows: seq<WorkOrder>, id: nat, c: Contract, today: Day)
    ensures var after := Generated(rows, id, c, today);
            && rows <= after
            && (forall i, j | |rows| <= i < j < |after| :: after[i].scheduled != after[j].scheduled)
            && (forall d | d in DueVisits(c, today) :: HasVisit(after, id, d))
  {
    var after := Generated(rows, id, c, today);
    DueVisitsIncrease(c, today);
    MissingIncreases(DueVisits(c, today), LiveDates(rows, id));
    forall d | d in DueVisits(c, today)
      ensures HasVisit(after, id, d)
    {
      LiveDatesAfterPass(rows, id, c, today, id);
      LiveDatesInPlainTerms(after, id, d);
    }
  }

  /** The part of a visit's life that a cancellation spares. */
  ghost predicate HasStartedVisit(rows: seq<WorkOrder>, c: nat, d: Day) {
    exists i | 0 <= i < |rows| ::
      && rows[i].contract == Some(c) && rows[i].source == FromContract && rows[i].active && rows[i].scheduled == Some(d)
      && (rows[i].state == InProgress || rows[i].state == InReview || rows[i].state == Completed)
  }

  lemma KeptDatesInPlainTerms(rows: seq<WorkOrder>, c: nat, d: Day)
    ensures d in KeptDates(rows, c) <==> HasStartedVisit(rows, c, d)
  {
    if HasStartedVisit(rows, c, d) {
      var i :| 0 <= i < |rows| && rows[i].contract == Some(c) && rows[i].source == FromContract && rows[i].active
               && rows[i].scheduled == Some(d) && (rows[i].state == InProgress || rows[i].state == InReview || rows[i].state == Completed);
      assert IsLive(rows[i], c);
    }
  }
}
