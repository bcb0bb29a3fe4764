/**
Creating, updating and deleting contracts, each followed by a recompute of the contract's
work orders, and the sweep over all contracts and templates.
*/
module ContractLifecycle {
  import opened Calendar
  import opened Contracts
  import opened ContractScheduler
  import opened PartialUpdate
  import opened Recurrence
  import opened RecurringScheduler
  import opened Schedule
  import opened TemplateRetirement
  import opened WorkOrders
  import opened Wrappers

  /** The two tables. */
  datatype World = World(contracts: seq<Contract>, rows: seq<WorkOrder>)

  datatype ContractChange = ContractChange(
    status: Field<ContractStatus>,
    start: Field<Day>,
    end: Field<Day>,
    frequency: Field<Frequency>,
    lastServiced: Field<Day>,
    leadDays: Field<int>,
    assets: Field<seq<string>>,
    nextVisit: Field<Day>,
    descriptive: bool)  // some other field, such as the title, is sent with a value

  /** Nulls are dropped, except of the three dates that may be cleared. */
  predicate IsEmptyChange(ch: ContractChange) {
    && !ch.status.Given? && !ch.start.Given? && !ch.frequency.Given? && !ch.leadDays.Given? && !ch.assets.Given?
    && !ch.end.Sent() && !ch.lastServiced.Sent() && !ch.nextVisit.Sent()
    && !ch.descriptive
  }

  function Amended(c: Contract, ch: ContractChange): Contract {
    c.(status := Kept(ch.status, c.status),
       start := if ch.start.Given? then Some(ch.start.value) else c.start,
       end := KeptOrCleared(ch.end, c.end),
       frequency := if ch.frequency.Given? then Some(ch.frequency.value) else c.frequency,
       lastServiced := KeptOrCleared(ch.lastServiced, c.lastServiced),
       leadDays := if ch.leadDays.Given? then Some(ch.leadDays.value) else c.leadDays,
       assets := Kept(ch.assets, c.assets),
       nextVisit := KeptOrCleared(ch.nextVisit, c.nextVisit))
  }

  predicate TermsDiffer(a: Contract, b: Contract) {
    a.start != b.start || a.end != b.end || a.frequency != b.frequency || a.lastServiced != b.lastServiced
    || a.leadDays != b.leadDays || a.assets != b.assets
  }

  predicate IsContract(w: World, id: nat) {
    id < |w.contracts| && w.contracts[id].active
  }

  /** The tables after `recompute_contract` on contract `id`, whose stored record is `c`. */
  function AfterRecompute(w: World, id: nat, c: Contract, changed: bool, today: Day): World
    requires id < |w.contracts|
  {
    World(
      if c.active && c.status.Active? then Rescheduled(w.contracts, id, FirstAfter(VisitDates(c, today), today))
      else w.contracts,
      Recomputed(w.rows, id, c, changed, today))
  }

  function Rescheduled(contracts: seq<Contract>, id: nat, next: Option<Day>): seq<Contract>
    requires id < |contracts|
  {
    contracts[id := contracts[id].(nextVisit := next)]
  }

  function NewContract(c: Contract, status: Option<ContractStatus>): Contract {
    c.(active := true, status := status.GetOr(Active), frequency := Some(FrequencyOf(c)))
  }

  function Created(w: World, c: Contract, status: Option<ContractStatus>, today: Day): World {
    var record := NewContract(c, status);
    AfterRecompute(w.(contracts := w.contracts + [record]), |w.contracts|, record, false, today)
  }

  function Changed(w: World, id: nat, ch: ContractChange, today: Day): World {
    if !IsContract(w, id) || IsEmptyChange(ch) then w
    else
      var before := w.contracts[id];
      var record := Amended(before, ch);
      var changed := TermsDiffer(before, record) || before.status != record.status;
      AfterRecompute(w.(contracts := w.contracts[id := record]), id, record, changed, today)
  }

  function Removed(w: World, id: nat, today: Day): World {
    if !IsContract(w, id) then w
    else
      var record := w.contracts[id].(active := false);
      AfterRecompute(w.(contracts := w.contracts[id := record]), id, record, true, today)
  }

  class ContractService {
    const scheduler: ContractSchedulerService

    constructor (scheduler: ContractSchedulerService)
      ensures this.scheduler == scheduler
    {
      this.scheduler := scheduler;
    }

    function Tables(): World
      reads scheduler.contracts, scheduler.workOrders
    {
      World(scheduler.contracts.rows, scheduler.workOrders.rows)
    }

    method Create(c: Contract, status: Option<ContractStatus>, today: Day) returns (id: nat)
      modifies scheduler.contracts, scheduler.workOrders
      ensures Tables() == Created(old(Tables()), c, status, today)
      ensures id == |old(scheduler.contracts.rows)|
    {
      var contracts := scheduler.contracts;
      id := |contracts.rows|;
      var record := NewContract(c, status);
      contracts.rows := contracts.rows + [record];
      var _ := scheduler.RecomputeContract(id, record, false, false, today);
    }

    method Update(id: nat, ch: ContractChange, today: Day) returns (r: Result<Contract, Error>)
      modifies scheduler.contracts, scheduler.workOrders
      ensures Tables() == Changed(old(Tables()), id, ch, today)
      ensures r.Ok? <==> IsContract(old(Tables()), id)
      ensures r.Ok? ==> r.value == if IsEmptyChange(ch) then old(Tables()).contracts[id] else Amended(old(Tables()).contracts[id], ch)
    {
      var contracts := scheduler.contracts;
      if id >= |contracts.rows| || !contracts.rows[id].active {
        return Err(NotFound);
      }
      var before := contracts.rows[id];
      if IsEmptyChange(ch) {
        return Ok(before);
      }
      var record := Amended(before, ch);
      contracts.rows := contracts.rows[id := record];
      var _ := scheduler.RecomputeContract(id, record, TermsDiffer(before, record), before.status != record.status, today);
      r := Ok(record);
    }

    method Delete(id: nat, today: Day) returns (r: Result<nat, Error>)
      modifies scheduler.contracts, scheduler.workOrders
      ensures Tables() == Removed(old(Tables()), id, today)
      ensures r == if IsContract(old(Tables()), id) then Ok(id) else Err(NotFound)
    {
      var contracts := scheduler.contracts;
      if id >= |contracts.rows| || !contracts.rows[id].active {
        return Err(NotFound);
      }
      var record := contracts.rows[id].(active := false);
      contracts.rows := contracts.rows[id := record];
      var _ := scheduler.RecomputeContract(id, record, false, true, today);
      r := Ok(id);
    }
  }

  /**
  What a contract change does to the contract's dates.  Active afterwards: the due visits of
  the new record join the dates kept by started rows if a term or the status changed, and
  all live dates otherwise.  Terminated or expired: only kept dates are left.  Draft or
  paused: the rows stay as they are, pending ones included.
  */
  lemma ChangeRegeneratesExactly(w: World, id: nat, ch: ContractChange, today: Day)
    requires IsContract(w, id) && !IsEmptyChange(ch)
    ensures var before, record, rows := w.contracts[id], Amended(w.contracts[id], ch), Changed(w, id, ch, today).rows;
            && (record.status.Active? ==>
                  LiveDates(rows, id) == Days(DueVisits(record, today)) +
                    (if TermsDiffer(before, record) || before.status != record.status then KeptDates(w.rows, id) else LiveDates(w.rows, id)))
            && (IsTerminal(record.status) ==> LiveDates(rows, id) == KeptDates(w.rows, id) && |rows| == |w.rows|)
            && (!record.status.Active? && !IsTerminal(record.status) ==> rows == w.rows)
  {
    var record := Amended(w.contracts[id], ch);
    CancellationKeeps(w.rows, id);
    LiveDatesAfterPass(CancelPending(w.rows, id), id, record, today, id);
    LiveDatesAfterPass(w.rows, id, record, today, id);
  }

  // ----- Changes in plain terms -----

  /** Column by column: a value sent is stored, null clears three of the dates and nothing else, and what is not sent stays. */
  lemma ChangeInPlainTerms(w: World, id: nat, ch: ContractChange, today: Day)
    requires id < |w.contracts| && w.contracts[id].active
    ensures id < |Changed(w, id, ch, today).contracts|
    ensures var before, after := w.contracts[id], Changed(w, id, ch, today).contracts[id];
            && after.tenant == before.tenant && after.active
            && after.status == (if ch.status.Given? then ch.status.value else before.status)
            && after.start == (if ch.start.Given? then Some(ch.start.value) else before.start)
            && after.end == (match ch.end case Absent => before.end case Null => None case Given(d) => Some(d))
            && after.frequency == (if ch.frequency.Given? then Some(ch.frequency.value) else before.frequency)
            && after.lastServiced == (match ch.lastServiced case Absent => before.lastServiced case Null => None case Given(d) => Some(d))
            && after.leadDays == (if ch.leadDays.Given? then Some(ch.leadDays.value) else before.leadDays)
            && after.assets == (if ch.assets.Given? then ch.assets.value else before.assets)
  {
  }

  /** Some column that a visit's date or content depends on, or the status, is not what it was. */
  predicate IsRescheduled(before: Contract, after: Contract) {
    || before.start != after.start
    || before.end != after.end
    || before.frequency != after.frequency
    || before.lastServiced != after.lastServiced
    || before.leadDays != after.leadDays
    || before.assets != after.assets
    || before.status != after.status
  }

  /**
  What an update that leaves the contract active does to its rows: the upcoming ones are
  terminated if one of six columns or the status is not what it was, and no row is touched
  otherwise; new visits come after them.
  */
  lemma UpdateCancelsInPlainTerms(w: World, id: nat, ch: ContractChange, today: Day, i: nat)
    requires id < |w.contracts| && w.contracts[id].active && i < |w.rows|
    requires Changed(w, id, ch, today).contracts[id].status == Active
    ensures var before, after := w.contracts[id], Changed(w, id, ch, today);
            var v := w.rows[i];
            |w.rows| <= |after.rows| &&
            after.rows[i] ==
              if IsRescheduled(before, after.contracts[id])
                 && v.contract == Some(id) && v.source == FromContract && v.active && v.state == Upcoming
              then v.(state := State.Terminated) else v
  {
    var record := Amended(w.contracts[id], ch);
    if !IsEmptyChange(ch) {
      CancellationInPlainTerms(w.rows, id, i);
    }
  }

  /** Each of the columns is enough by itself: a new value in it, whatever else is sent, cancels the upcoming rows. */
  lemma EachColumnCancels(w: World, id: nat, ch: ContractChange, today: Day, i: nat)
    requires id < |w.contracts| && w.contracts[id].active
    requires Changed(w, id, ch, today).contracts[id].status == Active
    requires i < |w.rows| && w.rows[i].contract == Some(id) && w.rows[i].source == FromContract && w.rows[i].active && w.rows[i].state == Upcoming
    ensures var before, after := w.contracts[id], Changed(w, id, ch, today).rows;
            i < |after| &&
            ( || (ch.start.Given? && Some(ch.start.value) != before.start)
              || (ch.end.Given? && Some(ch.end.value) != before.end) || (ch.end.Null? && before.end.Some?)
              || (ch.frequency.Given? && Some(ch.frequency.value) != before.frequency)
              || (ch.lastServiced.Given? && Some(ch.lastServiced.value) != before.lastServiced) || (ch.lastServiced.Null? && before.lastServiced.Some?)
              || (ch.leadDays.Given? && Some(ch.leadDays.value) != before.leadDays)
              || (ch.assets.Given? && ch.assets.value != before.assets)
              || (ch.status.Given? && ch.status.value != before.status)
              <==> after[i].state == State.Terminated)
  {
    UpdateCancelsInPlainTerms(w, id, ch, today, i);
    ChangeInPlainTerms(w, id, ch, today);
  }

  /** What else an update can lead to: terminated or expired, the upcoming rows go; draft or paused, no row is touched. */
  lemma UpdateOfInactiveInPlainTerms(w: World, id: nat, ch: ContractChange, today: Day, i: nat)
    requires id < |w.contracts| && w.contracts[id].active && i < |w.rows|
    requires Changed(w, id, ch, today).contracts[id].status != Active && SendsSomething(ch)
    ensures var after, v := Changed(w, id, ch, today), w.rows[i];
            var status := after.contracts[id].status;
            |after.rows| == |w.rows| &&
            after.rows[i] ==
              if (status == ContractStatus.Terminated || status == Expired)
                 && v.contract == Some(id) && v.source == FromContract && v.active && v.state == Upcoming
              then v.(state := State.Terminated) else v
  {
    CancellationInPlainTerms(w.rows, id, i);
  }

  /** Something is sent that can be stored: any value, or null for a date that may be cleared. */
  predicate SendsSomething(ch: ContractChange) {
    || ch.status.Given? || ch.start.Given? || ch.frequency.Given? || ch.leadDays.Given? || ch.assets.Given?
    || ch.end != Absent || ch.lastServiced != Absent || ch.nextVisit != Absent
    || ch.descriptive
  }

  /** An update that sends something brings an active contract up to date; one that sends nothing does nothing. */
  lemma UpdateGeneratesInPlainTerms(w: World, id: nat, ch: ContractChange, today: Day)
    ensures var after := Changed(w, id, ch, today);
            if id < |w.contracts| && w.contracts[id].active && SendsSomething(ch) then
              && id < |after.contracts|
              && (after.contracts[id].status == Active ==> forall d | d in DueVisits(Amended(w.contracts[id], ch), today) :: HasVisit(after.rows, id, d))
            else after == w
  {
    if id < |w.contracts| && w.contracts[id].active && SendsSomething(ch) {
      var record := Amended(w.contracts[id], ch);
      PassInPlainTerms(w.rows, id, record, today);
      PassInPlainTerms(CancelPending(w.rows, id), id, record, today);
    }
  }

  /** A new contract is stored last, active and quarterly unless it says otherwise; no row is touched. */
  lemma CreateInPlainTerms(w: World, c: Contract, status: Option<ContractStatus>, today: Day)
    ensures var n, after := |w.contracts|, Created(w, c, status, today);
            && |after.contracts| == n + 1 && after.contracts[..n] == w.contracts
            && after.contracts[n].(nextVisit := c.nextVisit) ==
               c.(active := true,
                  status := match status case None => Active case Some(s) => s,
                  frequency := match c.frequency case None => Some(Quarterly) case f => f)
            && (after.contracts[n].status == Active ==> w.rows <= after.rows)
            && (after.contracts[n].status == Draft || after.contracts[n].status == Paused ==> after.rows == w.rows)
  {
  }

  /** A delete marks the contract and terminates its upcoming rows; nothing else changes. */
  lemma DeleteInPlainTerms(w: World, id: nat, today: Day, i: nat)
    requires id < |w.contracts| && w.contracts[id].active && i < |w.rows|
    ensures var after, v := Removed(w, id, today), w.rows[i];
            && after.contracts == w.contracts[id := w.contracts[id].(active := false)]
            && |after.rows| == |w.rows|
            && after.rows[i] ==
               if v.contract == Some(id) && v.source == FromContract && v.active && v.state == Upcoming
               then v.(state := State.Terminated) else v
  {
    CancellationInPlainTerms(w.rows, id, i);
  }

  // ----- The sweep over everything -----

  /** `list_active_for_scheduler`. */
  predicate IsListed(c: Contract, tenant: Option<string>) {
    c.active && InTenant(c.tenant, tenant)
  }

  /** The tables after the sweep has looked at contract `id`, listed as `c`. */
  function SweptOne(w: World, id: nat, c: Contract, tenant: Option<string>, today: Day): (r: World)
    requires id < |w.contracts|
  {
    if !IsListed(c, tenant) then w
    else if IsTerminal(c.status) then w.(rows := CancelPending(w.rows, id))
    else if !c.status.Active? then w
    else World(Rescheduled(w.contracts, id, FirstAfter(VisitDates(c, today), today)), Generated(w.rows, id, c, today))
  }

  /** The tables after the sweep has gone through the first n contracts. */
  function SweptContracts(w: World, tenant: Option<string>, today: Day, n: nat): (r: World)
    requires n <= |w.contracts|
    ensures |r.contracts| == |w.contracts|
  {
    if n == 0 then w else SweptOne(SweptContracts(w, tenant, today, n - 1), n - 1, w.contracts[n - 1], tenant, today)
  }

  function AfterContractSweep(w: World, tenant: Option<string>, today: Day): World {
    SweptContracts(w, tenant, today, |w.contracts|)
  }

  ghost function AfterSweep(w: World, tenant: Option<string>, today: Day): World {
    var after := AfterContractSweep(w, tenant, today);
    after.(rows := Sweep(after.rows, tenant, today))
  }

  function TerminatedCount(rows: seq<WorkOrder>): nat {
    if rows == [] then 0
    else TerminatedCount(rows[..|rows| - 1]) + (if rows[|rows| - 1].state.Terminated? then 1 else 0)
  }

  lemma {:induction false} CancellationTerminates(rows: seq<WorkOrder>, c: nat)
    ensures TerminatedCount(CancelPending(rows, c)) == TerminatedCount(rows) + PendingCount(rows, c)
  {
    if rows != [] {
      var n := |rows| - 1;
      CancellationTerminates(rows[..n], c);
      assert CancelPending(rows, c)[..n] == CancelPending(rows[..n], c);
    }
  }

  lemma {:induction false} NewRowsAreNotTerminated(rows: seq<WorkOrder>, added: seq<WorkOrder>)
    requires forall i | 0 <= i < |added| :: !added[i].state.Terminated?
    ensures TerminatedCount(rows + added) == TerminatedCount(rows)
  {
    if added == [] {
      assert rows + added == rows;
    } else {
      var n := |added| - 1;
      NewRowsAreNotTerminated(rows, added[..n]);
      assert (rows + added)[..|rows| + n] == rows + added[..n];
    }
  }

  lemma PassTerminatesNone(rows: seq<WorkOrder>, id: nat, c: Contract, today: Day)
    ensures TerminatedCount(Generated(rows, id, c, today)) == TerminatedCount(rows)
  {
    NewRowsAreNotTerminated(rows, VisitRows(id, c, MissingVisits(rows, id, c, today)));
  }

  lemma {:induction false} SameStatesSameCount(rows: seq<WorkOrder>, other: seq<WorkOrder>)
    requires |rows| == |other| && forall i | 0 <= i < |rows| :: rows[i].state == other[i].state
    ensures TerminatedCount(rows) == TerminatedCount(other)
  {
    if rows != [] {
      SameStatesSameCount(rows[..|rows| - 1], other[..|rows| - 1]);
    }
  }

  lemma SweepTerminatesNone(rows: seq<WorkOrder>, tenant: Option<string>, today: Day)
    ensures TerminatedCount(Sweep(rows, tenant, today)) == TerminatedCount(rows)
  {
    var plans := Plans(rows, tenant, today);
    var touched, added := Touched(rows, plans, |rows|), NewChildren(rows, plans, |rows|);
    SameStatesSameCount(rows, touched);
    forall i | 0 <= i < |added|
      ensures !added[i].state.Terminated?
    {
      var t := ParentOf(rows, plans, |rows|, i);
    }
    NewRowsAreNotTerminated(touched, added);
  }

  /** How many visits are due in all, over the first n contracts that a sweep generates for. */
  function DueTotal(contracts: seq<Contract>, tenant: Option<string>, today: Day, n: nat): nat
    requires n <= |contracts|
  {
    if n == 0 then 0
    else
      var c := contracts[n - 1];
      DueTotal(contracts, tenant, today, n - 1)
        + (if IsListed(c, tenant) && c.status.Active? then |DueVisits(c, today)| else 0)
  }

  /** The counters say how many rows were added and how many were terminated. */
  predicate CountsTell(counts: Counts, before: World, after: World) {
    && |after.rows| == |before.rows| + counts.created
    && TerminatedCount(after.rows) == TerminatedCount(before.rows) + counts.cancelled
  }

  /** The contract side counts each due visit as created or skipped; the recurring side skips the ended templates. */
  ghost predicate SkippedTells(skipped: nat, before: World, tenant: Option<string>, today: Day) {
    var after := AfterContractSweep(before, tenant, today);
    skipped + |after.rows| == DueTotal(before.contracts, tenant, today, |before.contracts|) + |before.rows|
      + EndedCount(after.rows, tenant, today, |after.rows|)
  }

  class SchedulerService {
    const contractSide: ContractSchedulerService
    const recurringSide: RecurringSchedulerService

    constructor (contractSide: ContractSchedulerService, recurringSide: RecurringSchedulerService)
      ensures this.contractSide == contractSide && this.recurringSide == recurringSide
    {
      this.contractSide := contractSide;
      this.recurringSide := recurringSide;
    }

    predicate SharesTable() {
      contractSide.workOrders == recurringSide.workOrders
    }

    function Tables(): World
      reads contractSide.contracts, contractSide.workOrders
    {
      World(contractSide.contracts.rows, contractSide.workOrders.rows)
    }

    /** The body of the contract loop of `generate_due_work_orders`. */
    method SweepContract(id: nat, c: Contract, tenant: Option<string>, today: Day) returns (counts: Counts)
      requires id < |contractSide.contracts.rows|
      modifies contractSide.contracts, contractSide.workOrders
      ensures Tables() == SweptOne(old(Tables()), id, c, tenant, today)
      ensures CountsTell(counts, old(Tables()), Tables())
      ensures counts.created + counts.skipped == if IsListed(c, tenant) && c.status.Active? then |DueVisits(c, today)| else 0
    {
      counts := Counts(0, 0, 0);
      ghost var rows := contractSide.workOrders.rows;
      if IsListed(c, tenant) {
        if IsTerminal(c.status) {
          CancellationTerminates(rows, id);
          var cancelled := contractSide.workOrders.CancelContractWorkOrders(id);
          counts := Counts(0, cancelled, 0);
        } else if c.status.Active? {
          PassTerminatesNone(rows, id, c, today);
          var created, skipped, _ := contractSide.GenerateForContract(id, c, today);
          counts := Counts(created, 0, skipped);
        }
      }
    }

    /** The contract loop of `generate_due_work_orders`, over the contracts as they were listed. */
    method SweepContracts(tenant: Option<string>, today: Day) returns (counts: Counts)
      modifies contractSide.contracts, contractSide.workOrders
      ensures Tables() == AfterContractSweep(old(Tables()), tenant, today)
      ensures CountsTell(counts, old(Tables()), Tables())
      ensures counts.created + counts.skipped == DueTotal(old(contractSide.contracts.rows), tenant, today, |old(contractSide.contracts.rows)|)
    {
      ghost var start := Tables();
      counts := Counts(0, 0, 0);
      var list := contractSide.contracts.rows;
      for id := 0 to |list|
        invariant list == start.contracts && Tables() == SweptContracts(start, tenant, today, id)
        invariant CountsTell(counts, start, Tables())
        invariant counts.created + counts.skipped == DueTotal(list, tenant, today, id)
      {
        var more := SweepContract(id, list[id], tenant, today);
        counts := Counts(counts.created + more.created, counts.cancelled + more.cancelled, counts.skipped + more.skipped);
      }
    }

    /** `generate_due_work_orders`. */
    method GenerateDueWorkOrders(tenant: Option<string>, today: Day) returns (counts: Counts)
      requires SharesTable()
      modifies contractSide.contracts, contractSide.workOrders
      ensures Tables() == AfterSweep(old(Tables()), tenant, today)
      ensures CountsTell(counts, old(Tables()), Tables())
      ensures SkippedTells(counts.skipped, old(Tables()), tenant, today)
    {
      counts := SweepContracts(tenant, today);
      SweepTerminatesNone(recurringSide.workOrders.rows, tenant, today);
      var created, skipped := recurringSide.GenerateRecurringWorkOrders(tenant, today);
      counts := counts.(created := counts.created + created, skipped := counts.skipped + skipped);
    }

    /** `run_once`: a sweep that is refused the advisory lock changes nothing. */
    method RunOnce(lockAcquired: bool, tenant: Option<string>, today: Day) returns (counts: Counts, locked: bool)
      requires SharesTable()
      modifies contractSide.contracts, contractSide.workOrders
      ensures locked == !lockAcquired
      ensures Tables() == if lockAcquired then AfterSweep(old(Tables()), tenant, today) else old(Tables())
      ensures CountsTell(counts, old(Tables()), Tables())
      ensures if locked then counts == Counts(0, 0, 0) else SkippedTells(counts.skipped, old(Tables()), tenant, today)
    {
      locked := !lockAcquired;
      if locked {
        return Counts(0, 0, 0), true;
      }
      counts := GenerateDueWorkOrders(tenant, today);
    }
  }
}
