/**
One sweep over all contracts: contracts do not influence each other, so the sweep does to
each what a pass or a cancellation of its own would do, and a second sweep on the same day
changes nothing.
*/
module ContractSweep {
  import opened Calendar
  import opened Contracts
  import opened ContractLifecycle
  import opened ContractScheduler
  import opened Recurrence
  import opened Schedule
  import opened WorkOrders
  import opened Wrappers

  /** The rows of contract `c` are the same in both tables, and the second has no further one. */
  predicate SameFor(rows: seq<WorkOrder>, after: seq<WorkOrder>, c: nat) {
    && |rows| <= |after|
    && (forall i | 0 <= i < |rows| && (IsContractRow(rows[i], c) || IsContractRow(after[i], c)) :: after[i] == rows[i])
    && (forall i | |rows| <= i < |after| :: !IsContractRow(after[i], c))
  }

  lemma SameForKeepsDates(rows: seq<WorkOrder>, after: seq<WorkOrder>, c: nat)
    requires SameFor(rows, after, c)
    ensures LiveDates(after, c) == LiveDates(rows, c) && KeptDates(after, c) == KeptDates(rows, c)
  {
    forall d
      ensures d in LiveDates(after, c) <==> d in LiveDates(rows, c)
    {
      if d in LiveDates(rows, c) {
        var i :| 0 <= i < |rows| && IsLive(rows[i], c) && rows[i].scheduled == Some(d);
        assert after[i] == rows[i];
      }
    }
    forall d
      ensures d in KeptDates(after, c) <==> d in KeptDates(rows, c)
    {
      if d in KeptDates(rows, c) {
        var i :| 0 <= i < |rows| && IsLive(rows[i], c) && !rows[i].state.Upcoming? && rows[i].scheduled == Some(d);
        assert after[i] == rows[i];
      }
    }
  }

  lemma SameForChains(rows: seq<WorkOrder>, between: seq<WorkOrder>, after: seq<WorkOrder>, c: nat)
    requires SameFor(rows, between, c) && SameFor(between, after, c)
    ensures SameFor(rows, after, c)
  {
  }

  lemma OthersRowsStay(rows: seq<WorkOrder>, id: nat, c: Contract, added: seq<Day>, other: nat)
    requires other != id
    ensures SameFor(rows, rows + VisitRows(id, c, added), other) && SameFor(rows, CancelPending(rows, id), other)
  {
  }

  lemma SweptOneSpares(w: World, id: nat, c: Contract, tenant: Option<string>, today: Day, other: nat, after: World)
    requires id < |w.contracts| && other != id && after == SweptOne(w, id, c, tenant, today)
    ensures SameFor(w.rows, after.rows, other)
    ensures |after.contracts| == |w.contracts| && (other < |w.contracts| ==> after.contracts[other] == w.contracts[other])
  {
    OthersRowsStay(w.rows, id, c, MissingVisits(w.rows, id, c, today), other);
  }

  /** Before its turn comes, a contract and its rows are as they were. */
  lemma {:induction false} Untouched(w: World, tenant: Option<string>, today: Day, n: nat, id: nat)
    requires n <= id < |w.contracts|
    ensures var before := SweptContracts(w, tenant, today, n);
            SameFor(w.rows, before.rows, id) && before.contracts[id] == w.contracts[id]
  {
    if n > 0 {
      var before, after := SweptContracts(w, tenant, today, n - 1), SweptContracts(w, tenant, today, n);
      Untouched(w, tenant, today, n - 1, id);
      SweptOneSpares(before, n - 1, w.contracts[n - 1], tenant, today, id, after);
      SameForChains(w.rows, before.rows, after.rows, id);
    }
  }

  /** After its turn, nothing changes it any more. */
  lemma {:induction false} LeftAlone(w: World, tenant: Option<string>, today: Day, id: nat, n: nat)
    requires id < n <= |w.contracts|
    ensures var first, last := SweptContracts(w, tenant, today, id + 1), SweptContracts(w, tenant, today, n);
            SameFor(first.rows, last.rows, id) && last.contracts[id] == first.contracts[id]
  {
    if id + 1 < n {
      var before, after := SweptContracts(w, tenant, today, n - 1), SweptContracts(w, tenant, today, n);
      LeftAlone(w, tenant, today, id, n - 1);
      SweptOneSpares(before, n - 1, w.contracts[n - 1], tenant, today, id, after);
      SameForChains(SweptContracts(w, tenant, today, id + 1).rows, before.rows, after.rows, id);
    }
  }

  /** What the sweep on `today` is to leave as contract `id`'s live dates. */
  function DatesToBe(w: World, tenant: Option<string>, today: Day, id: nat): set<Day>
    requires id < |w.contracts|
  {
    var c := w.contracts[id];
    if !IsListed(c, tenant) then LiveDates(w.rows, id)
    else if IsTerminal(c.status) then KeptDates(w.rows, id)
    else if c.status.Active? then LiveDates(w.rows, id) + Days(DueVisits(c, today))
    else LiveDates(w.rows, id)
  }

  lemma OwnTurn(w: World, before: World, tenant: Option<string>, today: Day, id: nat, after: World)
    requires id < |w.contracts| && id < |before.contracts| && SameFor(w.rows, before.rows, id)
    requires after == SweptOne(before, id, w.contracts[id], tenant, today)
    ensures LiveDates(after.rows, id) == DatesToBe(w, tenant, today, id)
  {
    var c := w.contracts[id];
    SameForKeepsDates(w.rows, before.rows, id);
    CancellationKeeps(before.rows, id);
    LiveDatesAfterPass(before.rows, id, c, today, id);
  }

  /**
  A sweep is exact for every contract at once: the live dates of an active one gain its due
  visits, those of a terminated or expired one are cut down to its started rows, and those
  of any other one stay.
  */
  lemma SweepIsExact(w: World, tenant: Option<string>, today: Day, id: nat)
    requires id < |w.contracts|
    ensures LiveDates(AfterContractSweep(w, tenant, today).rows, id) == DatesToBe(w, tenant, today, id)
  {
    var before, first := SweptContracts(w, tenant, today, id), SweptContracts(w, tenant, today, id + 1);
    Untouched(w, tenant, today, id, id);
    OwnTurn(w, before, tenant, today, id, first);
    LeftAlone(w, tenant, today, id, |w.contracts|);
    SameForKeepsDates(first.rows, AfterContractSweep(w, tenant, today).rows, id);
  }

  // ----- Sweeping twice -----

  /** A contract that the sweep has dealt with: nothing is left to do for it on that day. */
  predicate IsUpToDate(w: World, id: nat, tenant: Option<string>, today: Day)
    requires id < |w.contracts|
  {
    var c := w.contracts[id];
    IsListed(c, tenant) ==>
      && (IsTerminal(c.status) ==> forall i | 0 <= i < |w.rows| :: !IsPending(w.rows[i], id))
      && (c.status.Active? ==>
            Days(DueVisits(c, today)) <= LiveDates(w.rows, id) && c.nextVisit == FirstAfter(VisitDates(c, today), today))
  }

  lemma NextVisitIsNoTerm(c: Contract, next: Option<Day>, today: Day)
    ensures VisitDates(c.(nextVisit := next), today) == VisitDates(c, today)
    ensures DueVisits(c.(nextVisit := next), today) == DueVisits(c, today)
  {
    assert StepOf(c.(nextVisit := next)) == StepOf(c);
  }

  lemma OwnTurnIsEnough(w: World, id: nat, tenant: Option<string>, today: Day, after: World)
    requires id < |w.contracts| && after == SweptOne(w, id, w.contracts[id], tenant, today)
    ensures id < |after.contracts| && IsUpToDate(after, id, tenant, today)
  {
    var c := w.contracts[id];
    if IsListed(c, tenant) && c.status.Active? {
      NextVisitIsNoTerm(c, FirstAfter(VisitDates(c, today), today), today);
      LiveDatesAfterPass(w.rows, id, c, today, id);
    }
  }

  lemma SameForKeepsUpToDate(w: World, after: World, id: nat, tenant: Option<string>, today: Day)
    requires id < |w.contracts| && id < |after.contracts| && after.contracts[id] == w.contracts[id]
    requires SameFor(w.rows, after.rows, id) && IsUpToDate(w, id, tenant, today)
    ensures IsUpToDate(after, id, tenant, today)
  {
    SameForKeepsDates(w.rows, after.rows, id);
  }

  lemma SweepBringsUpToDate(w: World, tenant: Option<string>, today: Day, id: nat)
    requires id < |w.contracts|
    ensures id < |AfterContractSweep(w, tenant, today).contracts| && IsUpToDate(AfterContractSweep(w, tenant, today), id, tenant, today)
  {
    var before, first := SweptContracts(w, tenant, today, id), SweptContracts(w, tenant, today, id + 1);
    Untouched(w, tenant, today, id, id);
    OwnTurnIsEnough(before, id, tenant, today, first);
    LeftAlone(w, tenant, today, id, |w.contracts|);
    SameForKeepsUpToDate(first, AfterContractSweep(w, tenant, today), id, tenant, today);
  }

  lemma NothingToCancel(rows: seq<WorkOrder>, id: nat)
    requires forall i | 0 <= i < |rows| :: !IsPending(rows[i], id)
    ensures CancelPending(rows, id) == rows
  {
  }

  lemma UpToDateStays(w: World, id: nat, tenant: Option<string>, today: Day)
    requires id < |w.contracts| && IsUpToDate(w, id, tenant, today)
    ensures SweptOne(w, id, w.contracts[id], tenant, today) == w
  {
    var c := w.contracts[id];
    if IsListed(c, tenant) {
      if IsTerminal(c.status) {
        NothingToCancel(w.rows, id);
      } else if c.status.Active? {
        RepeatedPassCreatesNothing(w.rows, id, c, today, today);
      }
    }
  }

  lemma {:induction false} AllUpToDateStays(w: World, tenant: Option<string>, today: Day, n: nat)
    requires n <= |w.contracts| && forall id: nat | id < |w.contracts| :: IsUpToDate(w, id, tenant, today)
    ensures SweptContracts(w, tenant, today, n) == w
  {
    if n > 0 {
      AllUpToDateStays(w, tenant, today, n - 1);
      UpToDateStays(w, n - 1, tenant, today);
    }
  }

  /** The contract side of a second sweep on the same day changes nothing at all. */
  lemma SecondSweepChangesNothing(w: World, tenant: Option<string>, today: Day)
    ensures var after := AfterContractSweep(w, tenant, today);
            AfterContractSweep(after, tenant, today) == after
  {
    var after := AfterContractSweep(w, tenant, today);
    forall id: nat | id < |after.contracts|
      ensures IsUpToDate(after, id, tenant, today)
    {
      SweepBringsUpToDate(w, tenant, today, id);
    }
    AllUpToDateStays(after, tenant, today, |after.contracts|);
  }

  // ----- In plain terms -----

  /** The contract is in the sweep: not deleted, and of the tenant that the sweep is for, if it is for one. */
  predicate InSweep(c: Contract, tenant: Option<string>) {
    c.active && match tenant case None => true case Some(t) => t == "" || c.tenant == t
  }

  /** What a sweep leaves of a contract's visits, day by day, by the contract's status. */
  lemma SweepInPlainTerms(w: World, tenant: Option<string>, today: Day, id: nat, d: Day)
    requires id < |w.contracts|
    ensures var c, after := w.contracts[id], AfterContractSweep(w, tenant, today).rows;
            HasVisit(after, id, d) <==>
              if InSweep(c, tenant) && c.status == Active then HasVisit(w.rows, id, d) || d in DueVisits(c, today)
              else if InSweep(c, tenant) && (c.status == ContractStatus.Terminated || c.status == Expired) then HasStartedVisit(w.rows, id, d)
              else HasVisit(w.rows, id, d)
  {
    SweepIsExact(w, tenant, today, id);
    LiveDatesInPlainTerms(w.rows, id, d);
    KeptDatesInPlainTerms(w.rows, id, d);
    LiveDatesInPlainTerms(AfterContractSweep(w, tenant, today).rows, id, d);
  }

  lemma OwnNextVisit(before: World, c: Contract, tenant: Option<string>, today: Day, id: nat, after: World)
    requires id < |before.contracts| && after == SweptOne(before, id, c, tenant, today) && before.contracts[id] == c
    ensures id < |after.contracts|
    ensures after.contracts[id] ==
            if InSweep(c, tenant) && c.status == Active then c.(nextVisit := FirstAfter(VisitDates(c, today), today)) else c
  {
  }

  /** What it records of a contract: the next visit of an active one, and nothing else. */
  lemma SweptContractInPlainTerms(w: World, tenant: Option<string>, today: Day, id: nat)
    requires id < |w.contracts|
    ensures var c, after := w.contracts[id], AfterContractSweep(w, tenant, today).contracts;
            |after| == |w.contracts| &&
            after[id] == if InSweep(c, tenant) && c.status == Active then c.(nextVisit := FirstAfter(VisitDates(c, today), today)) else c
  {
    var before, first := SweptContracts(w, tenant, today, id), SweptContracts(w, tenant, today, id + 1);
    Untouched(w, tenant, today, id, id);
    OwnNextVisit(before, w.contracts[id], tenant, today, id, first);
    LeftAlone(w, tenant, today, id, |w.contracts|);
  }
}
