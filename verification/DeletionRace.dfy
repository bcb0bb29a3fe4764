/**
Deleting a contract while sweeps and recomputes are under way, as a machine of steps.  A
sweep lists the contracts that are not deleted, and works from that list until it commits;
a delete marks the contract and cancels the pending work orders it can see.  As in
`SweepLock`, whoever has written a contract's row keeps every other session from writing
it, and what a session does is invisible to the others until it commits.
*/
module DeletionRace {

  /** A pending work order of a contract. */
  datatype Row = Row(contract: nat, id: nat)

  /** `Marked` is a delete that has not cancelled yet; `Cleared` is one that has. */
  datatype Phase = Idle | Sweeping | Editing(contract: nat) | Marked(contract: nat) | Cleared(contract: nat)

  datatype Worker = Worker(phase: Phase, listed: set<nat>, own: set<Row>, cancelled: set<Row>, written: set<nat>) {
    predicate Generates() {
      phase.Sweeping? || phase.Editing?
    }
  }

  datatype System = System(deleted: set<nat>, pending: set<Row>, workers: seq<Worker>)

  datatype Step =
    | List(w: nat, contracts: set<nat>)
    | Edit(w: nat, contract: nat)
    | Delete(w: nat, contract: nat)
    | Insert(w: nat, row: Row)
    | Cancel(w: nat, contract: nat)
    | Record(w: nat, contract: nat)
    | Commit(w: nat)
    | Rollback(w: nat)

  predicate IsFree(s: System, w: nat, contract: nat) {
    forall i | 0 <= i < |s.workers| && i != w :: contract !in s.workers[i].written
  }

  predicate IsNew(s: System, row: Row) {
    row !in s.pending && forall i | 0 <= i < |s.workers| :: row !in s.workers[i].own && row !in s.workers[i].cancelled
  }

  /** Edits and deletes find a deleted contract no more; a pass ends by writing its contract, deleted or not. */
  predicate Enabled(s: System, a: Step) {
    a.w < |s.workers| &&
    var me := s.workers[a.w];
    match a
    case List(_, contracts) => me.phase.Idle? && contracts !! s.deleted
    case Edit(w, c) => me.phase.Idle? && c !in s.deleted && IsFree(s, w, c)
    case Delete(w, c) => me.phase.Idle? && c !in s.deleted && IsFree(s, w, c)
    case Insert(_, row) => me.Generates() && row.contract in me.listed && IsNew(s, row)
    case Cancel(_, c) => (me.Generates() || me.phase == Marked(c)) && c in me.listed
    case Record(w, c) => me.Generates() && c in me.listed && IsFree(s, w, c)
    case Commit(_) => (me.Generates() || me.phase.Cleared?) && forall r | r in me.own :: r.contract in me.written
    case Rollback(_) => !me.phase.Idle?
  }

  function Rested(): Worker {
    Worker(Idle, {}, {}, {}, {})
  }

  function Stepped(s: System, a: Step): Worker
    requires Enabled(s, a)
  {
    var me := s.workers[a.w];
    match a
    case List(_, contracts) => Worker(Sweeping, contracts, {}, {}, {})
    case Edit(_, c) => Worker(Editing(c), {c}, {}, {}, {c})
    case Delete(_, c) => Worker(Marked(c), {c}, {}, {}, {c})
    case Insert(_, row) => me.(own := me.own + {row})
    case Cancel(_, c) =>
      me.(phase := if me.phase.Marked? then Cleared(c) else me.phase,
          cancelled := me.cancelled + (set r | r in s.pending && r.contract == c) + (set r | r in me.own && r.contract == c))
    case Record(_, c) => me.(written := me.written + {c})
    case Commit(_) => Rested()
    case Rollback(_) => Rested()
  }

  function After(s: System, a: Step): System
    requires Enabled(s, a)
  {
    var me := s.workers[a.w];
    System(
      if a.Commit? && me.phase.Cleared? then s.deleted + {me.phase.contract} else s.deleted,
      if a.Commit? then s.pending + me.own - me.cancelled else s.pending,
      s.workers[a.w := Stepped(s, a)])
  }

  predicate AllEnabled(s: System, steps: seq<Step>)
    decreases |steps|
  {
    steps != [] ==> Enabled(s, steps[0]) && AllEnabled(After(s, steps[0]), steps[1..])
  }

  function AfterAll(s: System, steps: seq<Step>): System
    requires AllEnabled(s, steps)
    decreases |steps|
  {
    if steps == [] then s else AfterAll(After(s, steps[0]), steps[1..])
  }

  function Start(pending: set<Row>, n: nat): System {
    System({}, pending, seq(n, _ => Rested()))
  }

  // ----- What every run keeps -----

  /** Sessions work on contracts they have listed, and edits and deletes have written theirs. */
  ghost predicate SoundWorker(v: Worker) {
    && (forall r | r in v.own || r in v.cancelled :: r.contract in v.listed) && v.written <= v.listed
    && match v.phase
       case Idle => v == Rested()
       case Sweeping => true
       case Editing(c) => v.listed == {c} && c in v.written
       case Marked(c) => v.listed == {c} && c in v.written && v.own == {}
       case Cleared(c) => v.listed == {c} && c in v.written && v.own == {}
  }

  /** Nobody has written a contract that another session has written; and what a delete is still
      to see deleted is not deleted, and has no pending row that it has not cancelled. */
  ghost predicate Sound(s: System) {
    && (forall i | 0 <= i < |s.workers| :: SoundWorker(s.workers[i]))
    && (forall i, c | 0 <= i < |s.workers| && c in s.workers[i].written :: IsFree(s, i, c))
    && (forall i | 0 <= i < |s.workers| && s.workers[i].phase.Editing? :: s.workers[i].phase.contract !in s.deleted)
    && (forall i | 0 <= i < |s.workers| && s.workers[i].phase.Cleared? :: IsCleared(s, s.workers[i]))
  }

  predicate IsCleared(s: System, v: Worker)
    requires v.phase.Cleared?
  {
    forall r | r in s.pending && r.contract == v.phase.contract :: r in v.cancelled
  }

  lemma StepKeepsWorkers(s: System, a: Step)
    requires Sound(s) && Enabled(s, a)
    ensures SoundWorker(Stepped(s, a))
    ensures forall i, c | 0 <= i < |s.workers| && c in After(s, a).workers[i].written :: IsFree(After(s, a), i, c)
  {
  }

  /** While a session holds a contract's row, no other one commits a row for the contract or deletes it. */
  lemma HeldContractStays(s: System, a: Step, i: nat, c: nat)
    requires Sound(s) && Enabled(s, a) && a.w != i < |s.workers| && c in s.workers[i].written
    ensures c in After(s, a).deleted ==> c in s.deleted
    ensures forall r | r in After(s, a).pending && r.contract == c :: r in s.pending
  {
    assert IsFree(s, i, c);
  }

  lemma StepKeepsSound(s: System, a: Step)
    requires Sound(s) && Enabled(s, a)
    ensures Sound(After(s, a))
  {
    var next := After(s, a);
    StepKeepsWorkers(s, a);
    forall i | 0 <= i < |s.workers| && (next.workers[i].phase.Editing? || next.workers[i].phase.Cleared?)
      ensures next.workers[i].phase.Editing? ==> next.workers[i].phase.contract !in next.deleted
      ensures next.workers[i].phase.Cleared? ==> IsCleared(next, next.workers[i])
    {
      if i != a.w {
        HeldContractStays(s, a, i, s.workers[i].phase.contract);
      }
    }
  }

  // ----- Pending rows of deleted contracts -----

  ghost predicate Clean(s: System) {
    forall r | r in s.pending :: r.contract !in s.deleted
  }

  /** The session commits a row of a contract that has been deleted meanwhile. */
  predicate IsLate(s: System, a: Step)
    requires Enabled(s, a)
  {
    a.Commit? && exists r | r in s.workers[a.w].own :: r !in s.workers[a.w].cancelled && r.contract in s.deleted
  }

  /** A step leaves a deleted contract a pending row if and only if it is a late commit. */
  lemma StepKeepsCleanExactly(s: System, a: Step)
    requires Sound(s) && Clean(s) && Enabled(s, a)
    ensures Clean(After(s, a)) <==> !IsLate(s, a)
  {
    var me, next := s.workers[a.w], After(s, a);
    if IsLate(s, a) {
      var r :| r in me.own && r !in me.cancelled && r.contract in s.deleted;
      assert r in next.pending && r.contract in next.deleted;
    } else {
      forall r | r in next.pending
        ensures r.contract !in next.deleted
      {
        if a.Commit? && me.phase.Cleared? {
          assert IsCleared(s, me);
        }
      }
    }
  }

  ghost predicate AlwaysClean(s: System, steps: seq<Step>)
    requires AllEnabled(s, steps)
    decreases |steps|
  {
    steps != [] ==> Clean(After(s, steps[0])) && AlwaysClean(After(s, steps[0]), steps[1..])
  }

  predicate NeverLate(s: System, steps: seq<Step>)
    requires AllEnabled(s, steps)
    decreases |steps|
  {
    steps != [] ==> !IsLate(s, steps[0]) && NeverLate(After(s, steps[0]), steps[1..])
  }

  lemma {:induction false} CleanRunsExactly(s: System, steps: seq<Step>)
    requires Sound(s) && Clean(s) && AllEnabled(s, steps)
    ensures AlwaysClean(s, steps) <==> NeverLate(s, steps)
    decreases |steps|
  {
    if steps != [] {
      StepKeepsSound(s, steps[0]);
      StepKeepsCleanExactly(s, steps[0]);
      if !IsLate(s, steps[0]) {
        CleanRunsExactly(After(s, steps[0]), steps[1..]);
      }
    }
  }

  /**
  Exactly which runs leave a deleted contract a pending row, at some point: those in which
  a session commits, uncancelled, a row of a contract that was deleted while it was at work.
  */
  lemma RunsStayCleanExactly(pending: set<Row>, n: nat, steps: seq<Step>)
    requires AllEnabled(Start(pending, n), steps)
    ensures AlwaysClean(Start(pending, n), steps) <==> NeverLate(Start(pending, n), steps)
  {
    CleanRunsExactly(Start(pending, n), steps);
  }

  /** Only a sweep can be late: a recompute has written its contract from the start, which keeps a delete waiting. */
  lemma OnlySweepsAreLate(s: System, a: Step)
    requires Sound(s) && Enabled(s, a) && IsLate(s, a)
    ensures s.workers[a.w].phase.Sweeping?
  {
  }

  // ----- What would be enough -----

  /** A pass that ends on a contract finds it not deleted. */
  predicate RecordsLiving(s: System, steps: seq<Step>)
    requires AllEnabled(s, steps)
    decreases |steps|
  {
    steps != [] ==>
      && (steps[0].Record? ==> steps[0].contract !in s.deleted)
      && RecordsLiving(After(s, steps[0]), steps[1..])
  }

  ghost predicate WrittenLive(s: System) {
    forall i | 0 <= i < |s.workers| :: s.workers[i].written !! s.deleted
  }

  lemma StepKeepsWrittenLive(s: System, a: Step)
    requires Sound(s) && WrittenLive(s) && Enabled(s, a) && (a.Record? ==> a.contract !in s.deleted)
    ensures WrittenLive(After(s, a)) && !IsLate(s, a)
  {
    forall i | 0 <= i < |s.workers| && i != a.w
      ensures s.workers[i].written !! After(s, a).deleted
    {
      forall c | c in s.workers[i].written
        ensures c !in After(s, a).deleted
      {
        HeldContractStays(s, a, i, c);
      }
    }
  }

  /** If the write that ends a pass refused a deleted contract, as the other writes do, no commit would be late. */
  lemma {:induction false} RecordingLivingIsEnough(s: System, steps: seq<Step>)
    requires Sound(s) && WrittenLive(s) && AllEnabled(s, steps) && RecordsLiving(s, steps)
    ensures NeverLate(s, steps)
    decreases |steps|
  {
    if steps != [] {
      StepKeepsSound(s, steps[0]);
      StepKeepsWrittenLive(s, steps[0]);
      RecordingLivingIsEnough(After(s, steps[0]), steps[1..]);
    }
  }

  // ----- They stay -----

  ghost predicate ListedByNobody(s: System, c: nat) {
    forall i | 0 <= i < |s.workers| :: c !in s.workers[i].listed
  }

  lemma DeletedIsLeftAlone(s: System, a: Step, c: nat)
    requires Sound(s) && Enabled(s, a) && c in s.deleted && ListedByNobody(s, c)
    ensures c in After(s, a).deleted && ListedByNobody(After(s, a), c)
    ensures forall r: Row | r.contract == c :: r in After(s, a).pending <==> r in s.pending
  {
    assert c !in s.workers[a.w].listed;
  }

  /** Once no session has a deleted contract on its list, its pending rows stay as they are, in every run. */
  lemma {:induction false} OrphansStay(s: System, steps: seq<Step>, c: nat)
    requires Sound(s) && AllEnabled(s, steps) && c in s.deleted && ListedByNobody(s, c)
    ensures forall r: Row | r.contract == c :: r in AfterAll(s, steps).pending <==> r in s.pending
    decreases |steps|
  {
    if steps != [] {
      StepKeepsSound(s, steps[0]);
      DeletedIsLeftAlone(s, steps[0], c);
      OrphansStay(After(s, steps[0]), steps[1..], c);
    }
  }

  /** A sweep lists the contract, a delete clears it and commits, and the sweep goes on. */
  function SweptWhileDeleted(c: nat): seq<Step> {
    [List(0, {c}), Delete(1, c), Cancel(1, c), Commit(1), Insert(0, Row(c, 0)), Record(0, c), Commit(0)]
  }

  lemma AfterFirst(s: System, steps: seq<Step>, next: System)
    requires steps != [] && Enabled(s, steps[0]) && After(s, steps[0]) == next && AllEnabled(next, steps[1..])
    ensures AllEnabled(s, steps) && AfterAll(s, steps) == AfterAll(next, steps[1..])
  {
  }

  /** What the sweep does after the delete has committed. */
  lemma SweepGoesOn(c: nat)
    ensures var steps := SweptWhileDeleted(c)[4..];
            var s := System({c}, {}, [Worker(Sweeping, {c}, {}, {}, {}), Rested()]);
            AllEnabled(s, steps) && AfterAll(s, steps) == System({c}, {Row(c, 0)}, [Rested(), Rested()])
  {
    var s0 := System({c}, {}, [Worker(Sweeping, {c}, {}, {}, {}), Rested()]);
    var s1 := System({c}, {}, [Worker(Sweeping, {c}, {Row(c, 0)}, {}, {}), Rested()]);
    var s2 := System({c}, {}, [Worker(Sweeping, {c}, {Row(c, 0)}, {}, {c}), Rested()]);
    var s3 := System({c}, {Row(c, 0)}, [Rested(), Rested()]);
    var steps := SweptWhileDeleted(c)[4..];
    assert steps == [Insert(0, Row(c, 0)), Record(0, c), Commit(0)];
    assert {} + {Row(c, 0)} == {Row(c, 0)} && {} + {c} == {c};
    assert After(s0, Insert(0, Row(c, 0))) == s1 && After(s1, Record(0, c)) == s2 && After(s2, Commit(0)) == s3;
    AfterFirst(s2, [Commit(0)], s3);
    AfterFirst(s1, [Record(0, c), Commit(0)], s2);
    AfterFirst(s0, steps, s1);
  }

  /** What comes before. */
  lemma DeleteInBetween(c: nat)
    ensures var s := System({c}, {}, [Worker(Sweeping, {c}, {}, {}, {}), Rested()]);
            && AllEnabled(s, SweptWhileDeleted(c)[4..]) && AllEnabled(Start({}, 2), SweptWhileDeleted(c))
            && AfterAll(Start({}, 2), SweptWhileDeleted(c)) == AfterAll(s, SweptWhileDeleted(c)[4..])
  {
    var sweeping, steps := Worker(Sweeping, {c}, {}, {}, {}), SweptWhileDeleted(c);
    var s0, s1 := Start({}, 2), System({}, {}, [sweeping, Rested()]);
    var s2, s3 := System({}, {}, [sweeping, Worker(Marked(c), {c}, {}, {}, {c})]), System({}, {}, [sweeping, Worker(Cleared(c), {c}, {}, {}, {c})]);
    var s4 := System({c}, {}, [sweeping, Rested()]);
    SweepGoesOn(c);
    assert {} + {c} == {c};
    assert After(s0, List(0, {c})) == s1 && After(s1, Delete(1, c)) == s2;
    assert After(s2, Cancel(1, c)) == s3 && After(s3, Commit(1)) == s4;
    assert steps[1..][1..] == steps[2..] && steps[2..][1..] == steps[3..] && steps[3..][1..] == steps[4..];
    AfterFirst(s3, steps[3..], s4);
    AfterFirst(s2, steps[2..], s3);
    AfterFirst(s1, steps[1..], s2);
    AfterFirst(s0, steps, s1);
  }

  /** It does happen: the contract is deleted, has a pending row, and keeps it in every run from there. */
  lemma SweepOutlivesDelete(c: nat, steps: seq<Step>)
    requires AllEnabled(System({c}, {Row(c, 0)}, [Rested(), Rested()]), steps)
    ensures AllEnabled(Start({}, 2), SweptWhileDeleted(c))
    ensures AfterAll(Start({}, 2), SweptWhileDeleted(c)) == System({c}, {Row(c, 0)}, [Rested(), Rested()])
    ensures Row(c, 0) in AfterAll(System({c}, {Row(c, 0)}, [Rested(), Rested()]), steps).pending
  {
    var s := System({c}, {Row(c, 0)}, [Rested(), Rested()]);
    DeleteInBetween(c);
    SweepGoesOn(c);
    assert forall i | 0 <= i < |s.workers| :: s.workers[i] == Rested();
    OrphansStay(s, steps, c);
  }

  // ----- Rows of different sessions -----

  /** What a session has inserted is not committed, and neither inserted nor cancelled by another one. */
  ghost predicate RowsApart(s: System) {
    && (forall i | 0 <= i < |s.workers| :: s.workers[i].own !! s.pending)
    && (forall i, j | 0 <= i < |s.workers| && 0 <= j < |s.workers| && i != j ::
          s.workers[i].own !! s.workers[j].own && s.workers[i].own !! s.workers[j].cancelled)
  }

  lemma StepKeepsRowsApart(s: System, a: Step)
    requires Sound(s) && RowsApart(s) && Enabled(s, a)
    ensures RowsApart(After(s, a))
  {
  }

  /** So a commit adds every row that the session has inserted and not cancelled, and takes away those it cancelled alone. */
  lemma CommitInPlainTerms(s: System, w: nat, r: Row)
    requires Sound(s) && RowsApart(s) && Enabled(s, Commit(w))
    ensures var me, after := s.workers[w], After(s, Commit(w)).pending;
            && (r in me.own && r !in me.cancelled ==> r !in s.pending && r in after)
            && (r in s.pending && r !in me.cancelled ==> r in after)
            && (r in me.cancelled ==> r !in after)
            && (forall i | 0 <= i < |s.workers| && i != w :: r in s.workers[i].own ==> r !in after)
  {
  }

  /** A recompute replaces a visit: it edits the contract, cancels, inserts, and commits. */
  lemma EditReplacesVisit(c: nat)
    ensures var s, steps := Start({Row(c, 0)}, 1), [Edit(0, c), Cancel(0, c), Insert(0, Row(c, 1)), Record(0, c), Commit(0)];
            AllEnabled(s, steps) && AfterAll(s, steps) == System({}, {Row(c, 1)}, [Rested()])
  {
    var old_, new_ := Row(c, 0), Row(c, 1);
    var s0, s1 := Start({old_}, 1), System({}, {old_}, [Worker(Editing(c), {c}, {}, {}, {c})]);
    var s2 := System({}, {old_}, [Worker(Editing(c), {c}, {}, {old_}, {c})]);
    var s3 := System({}, {old_}, [Worker(Editing(c), {c}, {new_}, {old_}, {c})]);
    var s4 := System({}, {new_}, [Rested()]);
    assert After(s0, Edit(0, c)) == s1;
    assert s1.workers[0].cancelled + (set r | r in s1.pending && r.contract == c) + (set r | r in s1.workers[0].own && r.contract == c) == {old_};
    assert After(s1, Cancel(0, c)) == s2;
    assert {} + {new_} == {new_} && {c} + {c} == {c} && {old_} + {new_} - {old_} == {new_};
    assert After(s2, Insert(0, new_)) == s3 && After(s3, Record(0, c)) == s3 && After(s3, Commit(0)) == s4;
    AfterFirst(s3, [Commit(0)], s4);
    AfterFirst(s3, [Record(0, c), Commit(0)], s3);
    AfterFirst(s2, [Insert(0, new_), Record(0, c), Commit(0)], s3);
    AfterFirst(s1, [Cancel(0, c), Insert(0, new_), Record(0, c), Commit(0)], s2);
    AfterFirst(s0, [Edit(0, c), Cancel(0, c), Insert(0, new_), Record(0, c), Commit(0)], s1);
  }

  /** A session that is at work can be rolled back at any point, and leaves nothing behind. */
  lemma SessionCanFail(s: System, w: nat)
    requires w < |s.workers| && s.workers[w].phase != Idle
    ensures Enabled(s, Rollback(w)) && After(s, Rollback(w)) == System(s.deleted, s.pending, s.workers[w := Rested()])
  {
  }
}
