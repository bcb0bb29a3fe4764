/**
Whole runs of the service: sweeps, contract changes with their recomputes, and staff and
vendor changes of work orders, in any order and on any days.  Two rules hold throughout a
run, one live contract row per contract and date and no pending row of a dead contract, if
and only if each step of it meets a condition on the tables it starts from.
*/
module ContractRuns {
  import opened Calendar
  import opened ContractRowsByHand
  import opened Contracts
  import opened ContractLifecycle
  import opened ContractScheduler
  import opened RecurringScheduler
  import opened Schedule
  import opened TemplateRetirement
  import opened WorkOrders
  import opened Wrappers

  // ----- The invariant -----

  predicate IsDead(c: Contract) {
    !c.active || IsTerminal(c.status)
  }

  predicate IsDeadIn(w: World, c: nat) {
    c < |w.contracts| && IsDead(w.contracts[c])
  }

  ghost predicate Good(w: World) {
    && (forall c: nat :: UniqueDates(w.rows, c))
    && (forall c | 0 <= c < |w.contracts| && IsDead(w.contracts[c]) :: NoPending(w.rows, c))
  }

  // ----- The steps -----

  datatype Action =
    | RunSweep(tenant: Option<string>, today: Day)
    | CreateContract(contract: Contract, status: Option<ContractStatus>, today: Day)
    | ChangeContract(id: nat, terms: ContractChange, today: Day)
    | DeleteContract(id: nat, today: Day)
    | AddWorkOrder(row: WorkOrder)
    | ChangeWorkOrder(id: nat, change: Change)
    | VendorChangesWorkOrder(id: nat, change: Change)
    | DeleteWorkOrder(id: nat)

  /** A new row may name a contract that exists, or none; otherwise it is not created. */
  predicate IsAccepted(w: World, row: WorkOrder) {
    row.contract.Some? ==> IsContract(w, row.contract.value)
  }

  ghost function After(w: World, a: Action): World {
    match a
    case RunSweep(tenant, today) => AfterSweep(w, tenant, today)
    case CreateContract(c, status, today) => Created(w, c, status, today)
    case ChangeContract(id, terms, today) => Changed(w, id, terms, today)
    case DeleteContract(id, today) => Removed(w, id, today)
    case AddWorkOrder(row) => if IsAccepted(w, row) then w.(rows := w.rows + [row]) else w
    case ChangeWorkOrder(id, change) => w.(rows := Updated(w.rows, id, change))
    case VendorChangesWorkOrder(id, change) => w.(rows := VendorUpdated(w.rows, id, change))
    case DeleteWorkOrder(id) => w.(rows := Deleted(w.rows, id))
  }

  // ----- What keeps the invariant -----

  /** A row on a date of its contract that is taken. */
  predicate IsTaken(rows: seq<WorkOrder>, row: WorkOrder, c: nat) {
    IsLive(row, c) && row.scheduled.Some? && row.scheduled.value in LiveDates(rows, c)
  }

  /** The row is not pending for a dead contract and not on a taken date of its own contract. */
  predicate MayAdd(w: World, row: WorkOrder) {
    row.contract.Some? ==>
      && !IsTaken(w.rows, row, row.contract.value)
      && (IsPending(row, row.contract.value) ==> !IsDeadIn(w, row.contract.value))
  }

  /** The same for a changed row, which may take its unstarted children off their dates. */
  predicate MayReplace(w: World, id: nat, record: WorkOrder, cut: bool) {
    record.contract.Some? ==>
      && !Meets(w.rows, id, record, record.contract.value, cut)
      && (RemainsPending(record, record.contract.value, id, cut) ==> !IsDeadIn(w, record.contract.value))
  }

  /** The templates that count as contract rows plan no date that is taken, none twice, and
      none for a dead contract. */
  ghost predicate MaySweep(w: World, tenant: Option<string>, today: Day) {
    && (forall c: nat :: NoClash(w.rows, tenant, today, c))
    && (forall c, t, d | 0 <= c < |w.contracts| && IsDead(w.contracts[c]) :: !Adds(w.rows, tenant, today, c, t, d))
  }

  /**
  What a step must look out for.  A change by hand must not put a live contract row on a
  taken date or leave a dead contract a pending row; a sweep depends on the contract rows
  that were made recurring templates; contract changes and deletions need no care at all.
  */
  ghost predicate Allowed(w: World, a: Action) {
    match a
    case RunSweep(tenant, today) => MaySweep(AfterContractSweep(w, tenant, today), tenant, today)
    case AddWorkOrder(row) => IsAccepted(w, row) ==> MayAdd(w, row)
    case ChangeWorkOrder(id, change) =>
      Exists(w.rows, id) ==> MayReplace(w, id, Applied(w.rows[id], change), CancelNote(w.rows[id], change).Some?)
    case VendorChangesWorkOrder(id, change) =>
      Exists(w.rows, id) ==> MayReplace(w, id, Applied(w.rows[id], change), false)
    case _ => true
  }

  // ----- Rows that change in place -----

  /** A row kept its contract fields, and its state moved forward if at all. */
  predicate Evolves(v: WorkOrder, w: WorkOrder) {
    && v.contract == w.contract && v.source == w.source && v.scheduled == w.scheduled
    && (w.active ==> v.active)
    && (v.state.Terminated? ==> w.state.Terminated?) && (w.state.Upcoming? ==> v.state.Upcoming?)
  }

  predicate AllEvolve(rows: seq<WorkOrder>, after: seq<WorkOrder>) {
    |after| == |rows| && forall i | 0 <= i < |rows| :: Evolves(rows[i], after[i])
  }

  lemma InPlaceKeepsGood(w: World, rows: seq<WorkOrder>)
    requires Good(w) && AllEvolve(w.rows, rows)
    ensures Good(w.(rows := rows))
  {
    forall c: nat
      ensures UniqueDates(rows, c)
    {
      assert UniqueDates(w.rows, c);
      forall i, j | 0 <= i < j < |rows| && IsLive(rows[i], c) && IsLive(rows[j], c) && rows[i].scheduled.Some?
        ensures rows[i].scheduled != rows[j].scheduled
      {
        assert Evolves(w.rows[i], rows[i]) && Evolves(w.rows[j], rows[j]);
      }
    }
    forall c | 0 <= c < |w.contracts| && IsDead(w.contracts[c])
      ensures NoPending(rows, c)
    {
      forall i | 0 <= i < |rows|
        ensures !IsPending(rows[i], c)
      {
        assert Evolves(w.rows[i], rows[i]) && !IsPending(w.rows[i], c);
      }
    }
  }

  // ----- The scheduler's own steps -----

  lemma CancellationEvolves(rows: seq<WorkOrder>, c: nat)
    ensures AllEvolve(rows, CancelPending(rows, c)) && NoPending(CancelPending(rows, c), c)
  {
  }

  /** New rows on dates not yet taken, in increasing order, clash with nothing. */
  lemma NewDatesStayUnique(rows: seq<WorkOrder>, id: nat, c: Contract, added: seq<Day>, other: nat)
    requires UniqueDates(rows, other)
    requires Increasing(added) && forall d | d in added :: d !in LiveDates(rows, id)
    ensures UniqueDates(rows + VisitRows(id, c, added), other)
  {
    var after := rows + VisitRows(id, c, added);
    forall i, j | 0 <= i < j < |after| && IsLive(after[i], other) && IsLive(after[j], other) && after[i].scheduled.Some?
      ensures after[i].scheduled != after[j].scheduled
    {
      if i < |rows| <= j {
        assert after[i].scheduled.value in LiveDates(rows, other);
        assert added[j - |rows|] in added;
      }
    }
  }

  lemma NewRowsKeepGood(w: World, id: nat, c: Contract, added: seq<Day>)
    requires Good(w) && id < |w.contracts| && !IsDead(w.contracts[id])
    requires Increasing(added) && forall d | d in added :: d !in LiveDates(w.rows, id)
    ensures Good(w.(rows := w.rows + VisitRows(id, c, added)))
  {
    var rows := w.rows + VisitRows(id, c, added);
    forall other: nat
      ensures UniqueDates(rows, other)
    {
      NewDatesStayUnique(w.rows, id, c, added, other);
    }
    forall d | 0 <= d < |w.contracts| && IsDead(w.contracts[d])
      ensures NoPending(rows, d)
    {
      assert NoPending(w.rows, d);
    }
  }

  /** A generation pass over a living contract keeps the invariant. */
  lemma PassKeepsGood(w: World, id: nat, c: Contract, today: Day)
    requires Good(w) && id < |w.contracts| && !IsDead(w.contracts[id])
    ensures Good(w.(rows := Generated(w.rows, id, c, today)))
  {
    var due, taken := DueVisits(c, today), LiveDates(w.rows, id);
    DueVisitsIncrease(c, today);
    MissingIncreases(due, taken);
    forall d | d in Missing(due, taken)
      ensures d !in taken
    {
      MissingMember(due, taken, d);
    }
    NewRowsKeepGood(w, id, c, Missing(due, taken));
  }

  lemma ReschedulingKeepsGood(w: World, id: nat, next: Option<Day>)
    requires Good(w) && id < |w.contracts|
    ensures Good(w.(contracts := Rescheduled(w.contracts, id, next)))
  {
    var after := w.(contracts := Rescheduled(w.contracts, id, next));
    forall c | 0 <= c < |after.contracts| && IsDead(after.contracts[c])
      ensures NoPending(after.rows, c)
    {
      assert IsDead(w.contracts[c]);
    }
  }

  /** Apart from the recorded next visit, the contracts are the same. */
  predicate SameTerms(before: seq<Contract>, after: seq<Contract>) {
    |before| == |after| && forall c | 0 <= c < |before| :: after[c] == before[c].(nextVisit := after[c].nextVisit)
  }

  lemma SweptOneKeepsGood(w: World, listed: seq<Contract>, id: nat, tenant: Option<string>, today: Day, after: World)
    requires Good(w) && SameTerms(listed, w.contracts) && id < |listed|
    requires after == SweptOne(w, id, listed[id], tenant, today)
    ensures Good(after) && SameTerms(listed, after.contracts)
  {
    var c := listed[id];
    if IsListed(c, tenant) {
      if IsTerminal(c.status) {
        CancellationEvolves(w.rows, id);
        InPlaceKeepsGood(w, CancelPending(w.rows, id));
      } else if c.status.Active? {
        PassKeepsGood(w, id, c, today);
        ReschedulingKeepsGood(w.(rows := Generated(w.rows, id, c, today)), id, FirstAfter(VisitDates(c, today), today));
      }
    }
  }

  lemma {:induction false} ContractSweepKeepsGood(w: World, tenant: Option<string>, today: Day, n: nat)
    requires Good(w) && n <= |w.contracts|
    ensures Good(SweptContracts(w, tenant, today, n)) && SameTerms(w.contracts, SweptContracts(w, tenant, today, n).contracts)
  {
    if n > 0 {
      var before, after := SweptContracts(w, tenant, today, n - 1), SweptContracts(w, tenant, today, n);
      ContractSweepKeepsGood(w, tenant, today, n - 1);
      SweptOneKeepsGood(before, w.contracts, n - 1, tenant, today, after);
    }
  }

  /** The recurring sweep keeps the invariant if and only if the contract rows among its templates clash with nothing. */
  lemma RecurringSweepKeepsGoodExactly(w: World, tenant: Option<string>, today: Day)
    requires Good(w)
    ensures Good(w.(rows := Sweep(w.rows, tenant, today))) <==> MaySweep(w, tenant, today)
  {
    forall c: nat
      ensures UniqueDates(Sweep(w.rows, tenant, today), c) <==> NoClash(w.rows, tenant, today, c)
    {
      SweepKeepsDatesUniqueExactly(w.rows, tenant, today, c);
    }
    forall c | 0 <= c < |w.contracts| && IsDead(w.contracts[c])
      ensures NoPending(Sweep(w.rows, tenant, today), c) <==> forall t, d :: !Adds(w.rows, tenant, today, c, t, d)
    {
      SweepKeepsNoPendingExactly(w.rows, tenant, today, c);
    }
  }

  // ----- Contract changes -----

  /** The invariant, but for the pending rows of contract `id`. */
  ghost predicate GoodExcept(w: World, id: nat) {
    && (forall c: nat :: UniqueDates(w.rows, c))
    && (forall c | 0 <= c < |w.contracts| && c != id && IsDead(w.contracts[c]) :: NoPending(w.rows, c))
  }

  lemma CancellationRestoresGood(w: World, id: nat)
    requires GoodExcept(w, id)
    ensures Good(w.(rows := CancelPending(w.rows, id)))
  {
    var rows := CancelPending(w.rows, id);
    CancellationEvolves(w.rows, id);
    forall c: nat
      ensures UniqueDates(rows, c)
    {
      assert UniqueDates(w.rows, c);
    }
    forall c | 0 <= c < |w.contracts| && IsDead(w.contracts[c])
      ensures NoPending(rows, c)
    {
      if c != id {
        assert NoPending(w.rows, c);
      }
    }
  }

  /** A recompute restores the invariant after any change of the contract it is for. */
  lemma RecomputeRestoresGood(w: World, id: nat, changed: bool, today: Day)
    requires id < |w.contracts| && GoodExcept(w, id)
    ensures Good(AfterRecompute(w, id, w.contracts[id], changed, today))
  {
    var c := w.contracts[id];
    if IsDead(c) {
      CancellationRestoresGood(w, id);
    } else if c.status.Active? {
      var rows := if changed then CancelPending(w.rows, id) else w.rows;
      if changed {
        CancellationRestoresGood(w, id);
      }
      PassKeepsGood(w.(rows := rows), id, c, today);
      ReschedulingKeepsGood(w.(rows := Generated(rows, id, c, today)), id, FirstAfter(VisitDates(c, today), today));
    }
  }

  lemma EditedContract(w: World, id: nat, record: Contract)
    requires Good(w) && id < |w.contracts|
    ensures GoodExcept(w.(contracts := w.contracts[id := record]), id)
  {
  }

  // ----- Every step, every run -----

  lemma AddingKeepsGoodExactly(w: World, row: WorkOrder)
    requires Good(w)
    ensures Good(w.(rows := w.rows + [row])) <==> MayAdd(w, row)
  {
    var after := w.rows + [row];
    forall c: nat
      ensures UniqueDates(after, c) <==> !IsTaken(w.rows, row, c)
    {
      AddingKeepsDatesUniqueExactly(w.rows, row, c);
    }
    forall c | 0 <= c < |w.contracts| && IsDead(w.contracts[c])
      ensures NoPending(after, c) <==> !IsPending(row, c)
    {
      assert NoPending(w.rows, c) && after[|w.rows|] == row;
    }
  }

  lemma ReplacingKeepsGoodExactly(w: World, id: nat, record: WorkOrder, note: Option<string>)
    requires Good(w) && id < |w.rows|
    ensures Good(w.(rows := Replaced(w.rows, id, record, note))) <==> MayReplace(w, id, record, note.Some?)
  {
    forall c: nat
      ensures UniqueDates(Replaced(w.rows, id, record, note), c) <==> !Meets(w.rows, id, record, c, note.Some?)
    {
      ReplacingKeepsDatesUniqueExactly(w.rows, id, record, note, c);
    }
    forall c | 0 <= c < |w.contracts| && IsDead(w.contracts[c])
      ensures NoPending(Replaced(w.rows, id, record, note), c) <==> !RemainsPending(record, c, id, note.Some?)
    {
      ReplacingKeepsNoPendingExactly(w.rows, id, record, note, c);
    }
  }

  lemma SameRowIsHarmless(w: World, id: nat, cut: bool)
    requires Good(w) && id < |w.rows|
    ensures MayReplace(w, id, w.rows[id], cut)
  {
    forall c: nat
      ensures !Meets(w.rows, id, w.rows[id], c, cut)
    {
      assert UniqueDates(w.rows, c);
    }
    forall c | 0 <= c < |w.contracts| && IsDead(w.contracts[c])
      ensures !RemainsPending(w.rows[id], c, id, cut)
    {
      assert NoPending(w.rows, c);
    }
  }

  lemma HandChangeKeepsGoodExactly(w: World, id: nat, change: Change)
    requires Good(w)
    ensures Good(After(w, ChangeWorkOrder(id, change))) <==> Allowed(w, ChangeWorkOrder(id, change))
    ensures Good(After(w, VendorChangesWorkOrder(id, change))) <==> Allowed(w, VendorChangesWorkOrder(id, change))
  {
    if Exists(w.rows, id) {
      var record, note := Applied(w.rows[id], change), CancelNote(w.rows[id], change);
      if IsEmptyPayload(change) {
        EmptyPayloadChangesNothing(w.rows[id], change);
        SameRowIsHarmless(w, id, note.Some?);
        SameRowIsHarmless(w, id, false);
      } else {
        ReplacingKeepsGoodExactly(w, id, record, note);
        ReplacingKeepsGoodExactly(w, id, record, None);
      }
    }
  }

  lemma ContractChangeKeepsGood(w: World, id: nat, terms: ContractChange, today: Day)
    requires Good(w)
    ensures Good(Changed(w, id, terms, today))
  {
    if IsContract(w, id) && !IsEmptyChange(terms) {
      var record := Amended(w.contracts[id], terms);
      EditedContract(w, id, record);
      RecomputeRestoresGood(w.(contracts := w.contracts[id := record]), id,
        TermsDiffer(w.contracts[id], record) || w.contracts[id].status != record.status, today);
    }
  }

  /** Each step keeps the invariant if and only if it is allowed. */
  lemma StepKeepsGoodExactly(w: World, a: Action)
    requires Good(w)
    ensures Good(After(w, a)) <==> Allowed(w, a)
  {
    match a
    case RunSweep(tenant, today) =>
      ContractSweepKeepsGood(w, tenant, today, |w.contracts|);
      RecurringSweepKeepsGoodExactly(AfterContractSweep(w, tenant, today), tenant, today);
    case CreateContract(c, status, today) =>
      var record := NewContract(c, status);
      RecomputeRestoresGood(w.(contracts := w.contracts + [record]), |w.contracts|, false, today);
    case ChangeContract(id, terms, today) =>
      ContractChangeKeepsGood(w, id, terms, today);
    case DeleteContract(id, today) =>
      if IsContract(w, id) {
        var record := w.contracts[id].(active := false);
        EditedContract(w, id, record);
        RecomputeRestoresGood(w.(contracts := w.contracts[id := record]), id, true, today);
      }
    case AddWorkOrder(row) =>
      AddingKeepsGoodExactly(w, row);
    case ChangeWorkOrder(id, change) =>
      HandChangeKeepsGoodExactly(w, id, change);
    case VendorChangesWorkOrder(id, change) =>
      HandChangeKeepsGoodExactly(w, id, change);
    case DeleteWorkOrder(id) =>
      InPlaceKeepsGood(w, Deleted(w.rows, id));
  }

  ghost function AfterRun(w: World, actions: seq<Action>): World
    decreases |actions|
  {
    if actions == [] then w else AfterRun(After(w, actions[0]), actions[1..])
  }

  ghost predicate AllAllowed(w: World, actions: seq<Action>)
    decreases |actions|
  {
    actions != [] ==> Allowed(w, actions[0]) && AllAllowed(After(w, actions[0]), actions[1..])
  }

  /** The invariant holds after every step of the run. */
  ghost predicate AlwaysGood(w: World, actions: seq<Action>)
    decreases |actions|
  {
    actions != [] ==> Good(After(w, actions[0])) && AlwaysGood(After(w, actions[0]), actions[1..])
  }

  /** Whole-run safety, both ways: the rules hold throughout a run if and only if each of its
      steps is allowed. */
  lemma {:induction false} RunsStayGoodExactly(w: World, actions: seq<Action>)
    requires Good(w)
    ensures AlwaysGood(w, actions) <==> AllAllowed(w, actions)
    ensures AllAllowed(w, actions) ==> Good(AfterRun(w, actions))
    decreases |actions|
  {
    if actions != [] {
      StepKeepsGoodExactly(w, actions[0]);
      if Good(After(w, actions[0])) {
        RunsStayGoodExactly(After(w, actions[0]), actions[1..]);
      }
    }
  }

  // ----- Runs in which no contract row is a template -----

  predicate IsContractTemplate(row: WorkOrder) {
    row.isRecurring && row.contract.Some? && row.source.FromContract?
  }

  predicate NoContractTemplate(rows: seq<WorkOrder>) {
    forall i | 0 <= i < |rows| :: !IsContractTemplate(rows[i])
  }

  /** Staff neither add a contract row as a template nor make one of a contract row. */
  predicate MakesNoContractTemplate(w: World, a: Action) {
    match a
    case AddWorkOrder(row) => !IsContractTemplate(row)
    case ChangeWorkOrder(id, change) => Exists(w.rows, id) ==> !IsContractTemplate(Applied(w.rows[id], change))
    case VendorChangesWorkOrder(id, change) => Exists(w.rows, id) ==> !IsContractTemplate(Applied(w.rows[id], change))
    case _ => true
  }

  lemma {:induction false} ContractSweepMakesNoTemplate(w: World, tenant: Option<string>, today: Day, n: nat)
    requires NoContractTemplate(w.rows) && n <= |w.contracts|
    ensures NoContractTemplate(SweptContracts(w, tenant, today, n).rows)
  {
    if n > 0 {
      ContractSweepMakesNoTemplate(w, tenant, today, n - 1);
    }
  }

  lemma RecurringSweepMakesNoTemplate(rows: seq<WorkOrder>, tenant: Option<string>, today: Day)
    requires NoContractTemplate(rows)
    ensures NoContractTemplate(Sweep(rows, tenant, today))
  {
    var after := Sweep(rows, tenant, today);
    forall i | |rows| <= i < |after|
      ensures !IsContractTemplate(after[i])
    {
      var t := ParentInSweep(rows, Plans(rows, tenant, today), i);
    }
  }

  /** Without contract rows among the templates, a sweep is allowed at any time. */
  lemma SweepsAreAllowed(w: World, tenant: Option<string>, today: Day)
    requires NoContractTemplate(w.rows)
    ensures Allowed(w, RunSweep(tenant, today))
  {
    ContractSweepMakesNoTemplate(w, tenant, today, |w.contracts|);
  }

  lemma RecomputeMakesNoTemplate(w: World, id: nat, c: Contract, changed: bool, today: Day)
    requires NoContractTemplate(w.rows) && id < |w.contracts|
    ensures NoContractTemplate(AfterRecompute(w, id, c, changed, today).rows)
  {
  }

  lemma HandChangeMakesNoTemplate(rows: seq<WorkOrder>, id: nat, change: Change)
    requires NoContractTemplate(rows) && (Exists(rows, id) ==> !IsContractTemplate(Applied(rows[id], change)))
    ensures NoContractTemplate(Updated(rows, id, change)) && NoContractTemplate(VendorUpdated(rows, id, change))
  {
  }

  lemma StepMakesNoTemplate(w: World, a: Action)
    requires NoContractTemplate(w.rows) && MakesNoContractTemplate(w, a)
    ensures NoContractTemplate(After(w, a).rows)
  {
    match a
    case RunSweep(tenant, today) =>
      ContractSweepMakesNoTemplate(w, tenant, today, |w.contracts|);
      RecurringSweepMakesNoTemplate(AfterContractSweep(w, tenant, today).rows, tenant, today);
    case CreateContract(c, status, today) =>
      var record := NewContract(c, status);
      RecomputeMakesNoTemplate(w.(contracts := w.contracts + [record]), |w.contracts|, record, false, today);
    case ChangeContract(id, terms, today) =>
      if IsContract(w, id) && !IsEmptyChange(terms) {
        var before, record := w.contracts[id], Amended(w.contracts[id], terms);
        RecomputeMakesNoTemplate(w.(contracts := w.contracts[id := record]), id, record,
          TermsDiffer(before, record) || before.status != record.status, today);
      }
    case DeleteContract(id, today) =>
      if IsContract(w, id) {
        var record := w.contracts[id].(active := false);
        RecomputeMakesNoTemplate(w.(contracts := w.contracts[id := record]), id, record, true, today);
      }
    case AddWorkOrder(row) =>
    case ChangeWorkOrder(id, change) =>
      HandChangeMakesNoTemplate(w.rows, id, change);
    case VendorChangesWorkOrder(id, change) =>
      HandChangeMakesNoTemplate(w.rows, id, change);
    case DeleteWorkOrder(id) =>
  }

  /** Nothing is asked of a sweep here: only changes by hand must be careful. */
  ghost predicate Careful(w: World, actions: seq<Action>)
    decreases |actions|
  {
    actions != [] ==>
      && (actions[0].RunSweep? || Allowed(w, actions[0])) && MakesNoContractTemplate(w, actions[0])
      && Careful(After(w, actions[0]), actions[1..])
  }

  lemma {:induction false} CarefulRunsAreAllowed(w: World, actions: seq<Action>)
    requires NoContractTemplate(w.rows) && Careful(w, actions)
    ensures AllAllowed(w, actions)
    decreases |actions|
  {
    if actions != [] {
      if actions[0].RunSweep? {
        SweepsAreAllowed(w, actions[0].tenant, actions[0].today);
      }
      StepMakesNoTemplate(w, actions[0]);
      CarefulRunsAreAllowed(After(w, actions[0]), actions[1..]);
    }
  }

  /**
  From empty tables on, as long as no hand puts a contract row on a taken date, revives one
  of a dead contract or makes one a template, no (contract, date) ever has two live contract
  rows, and a terminated, expired or deleted contract never has a pending one.
  */
  lemma RunsFromEmptyAreSafe(actions: seq<Action>)
    requires Careful(World([], []), actions)
    ensures var end := AfterRun(World([], []), actions);
            && (forall c: nat :: UniqueDates(end.rows, c))
            && (forall c | 0 <= c < |end.contracts| && IsDead(end.contracts[c]) :: NoPending(end.rows, c))
  {
    CarefulRunsAreAllowed(World([], []), actions);
    RunsStayGoodExactly(World([], []), actions);
  }

  lemma {:induction false} SweepKeepsTerms(w: World, tenant: Option<string>, today: Day, n: nat)
    requires n <= |w.contracts|
    ensures SameTerms(w.contracts, SweptContracts(w, tenant, today, n).contracts)
  {
    if n > 0 {
      SweepKeepsTerms(w, tenant, today, n - 1);
    }
  }

  lemma DeletedStaysDeleted(w: World, a: Action, id: nat)
    requires id < |w.contracts| && !w.contracts[id].active
    ensures id < |After(w, a).contracts| && !After(w, a).contracts[id].active
  {
    match a
    case RunSweep(tenant, today) =>
      SweepKeepsTerms(w, tenant, today, |w.contracts|);
    case _ =>
  }

  /** A deleted contract stays deleted in every run; as long as each step is allowed, it has no pending row either. */
  lemma {:induction false} DeletedForGood(w: World, actions: seq<Action>, id: nat)
    requires id < |w.contracts| && !w.contracts[id].active
    ensures var end := AfterRun(w, actions);
            && id < |end.contracts| && !end.contracts[id].active
            && (Good(w) && AllAllowed(w, actions) ==> NoPending(end.rows, id))
    decreases |actions|
  {
    if actions != [] {
      if Good(w) && AllAllowed(w, actions) {
        StepKeepsGoodExactly(w, actions[0]);
      }
      DeletedStaysDeleted(w, actions[0], id);
      DeletedForGood(After(w, actions[0]), actions[1..], id);
    }
  }
}
