/**
Several scheduler workers at once, as a machine of steps.  A sweep tries the advisory lock;
contract by contract it reads the dates that already have a live row, inserts the missing
ones, visit by visit, and writes the next visit to the contract's row; it gives the lock
back, and only then commits.  A contract edited through the API is written first and then
recomputed in the same way, but without any advisory lock.  Whoever has written a contract's
row keeps every other session from writing it until it commits or is rolled back.  A live
work order of a contract stands here as its key (contract, date).
*/
module SweepLock {
  import opened Calendar
  import opened Contracts
  import opened ContractScheduler
  import opened Schedule
  import opened WorkOrders
  import opened Wrappers

  datatype Key = Key(contract: nat, date: Day)

  /** `Released` is a sweep that has unlocked but not yet committed; `Editing` is a recompute. */
  datatype Phase = Idle | Sweeping | Released | Editing

  /** A generation pass under way: the dates it read as existing, and the visits still ahead of it. */
  datatype Pass = Pass(contract: nat, existing: set<Day>, ahead: seq<Day>)

  /**
  A worker's session: what it has inserted is invisible to the others until it commits, and
  so are the contracts it has written, which stay locked against them.
  */
  datatype Worker = Worker(phase: Phase, own: set<Key>, pass: Option<Pass>, written: set<nat>) {
    predicate IsActive() {
      phase.Sweeping? || phase.Editing?
    }

    /** The worker read the key as absent and is still to insert it. */
    predicate Plans(k: Key) {
      pass.Some? && k.contract == pass.value.contract && k.date in pass.value.ahead && k.date !in pass.value.existing
    }

    predicate Claims(k: Key) {
      k in own || Plans(k)
    }
  }

  datatype System = System(lock: Option<nat>, committed: multiset<Key>, workers: seq<Worker>)

  datatype Step =
    | TryLock(w: nat)
    | Edit(w: nat, contract: nat)
    | Read(w: nat, contract: nat, due: seq<Day>)
    | Visit(w: nat)
    | Record(w: nat)
    | Unlock(w: nat)
    | Commit(w: nat)
    | Rollback(w: nat)

  /** No other session has written the contract. */
  predicate IsFree(s: System, w: nat, contract: nat) {
    forall i | 0 <= i < |s.workers| && i != w :: contract !in s.workers[i].written
  }

  /** A sweep may fail and unlock in the middle of a pass; it can then only be rolled back. */
  predicate Enabled(s: System, a: Step) {
    a.w < |s.workers| &&
    var me := s.workers[a.w];
    match a
    case TryLock(_) => me.phase.Idle?
    case Edit(w, contract) => me.phase.Idle? && IsFree(s, w, contract)
    case Read(_, contract, due) =>
      me.IsActive() && me.pass.None? && (me.phase.Editing? ==> contract in me.written) && Increasing(due)
    case Visit(_) => me.IsActive() && me.pass.Some? && me.pass.value.ahead != []
    case Record(w) => me.IsActive() && me.pass.Some? && me.pass.value.ahead == [] && IsFree(s, w, me.pass.value.contract)
    case Unlock(_) => me.phase.Sweeping?
    case Commit(_) => (me.phase.Released? || me.phase.Editing?) && me.pass.None?
    case Rollback(_) => me.phase.Released? || me.phase.Editing?
  }

  /** Worker `w` sees a row for the key: a committed one or its own. */
  predicate Sees(s: System, w: nat, k: Key)
    requires w < |s.workers|
  {
    k in s.committed || k in s.workers[w].own
  }

  function Existing(s: System, w: nat, contract: nat): (dates: set<Day>)
    requires w < |s.workers|
    ensures forall d :: d in dates <==> Sees(s, w, Key(contract, d))
  {
    (set k | k in s.committed && k.contract == contract :: k.date) + (set k | k in s.workers[w].own && k.contract == contract :: k.date)
  }

  /** The next visit of a pass: skipped when its date was read as existing, inserted otherwise. */
  function Visited(me: Worker): Worker
    requires me.pass.Some? && me.pass.value.ahead != []
  {
    var pass, d := me.pass.value, me.pass.value.ahead[0];
    me.(own := if d in pass.existing then me.own else me.own + {Key(pass.contract, d)},
        pass := Some(pass.(ahead := pass.ahead[1..])))
  }

  function Rested(): Worker {
    Worker(Idle, {}, None, {})
  }

  function Stepped(s: System, a: Step): Worker
    requires Enabled(s, a)
  {
    var me := s.workers[a.w];
    match a
    case TryLock(_) => if s.lock.Some? then me else me.(phase := Sweeping)
    case Edit(_, contract) => me.(phase := Editing, written := {contract})
    case Read(w, contract, due) => me.(pass := Some(Pass(contract, Existing(s, w, contract), due)))
    case Visit(_) => Visited(me)
    case Record(_) => me.(pass := None, written := me.written + {me.pass.value.contract})
    case Unlock(_) => me.(phase := Released)
    case Commit(_) => Rested()
    case Rollback(_) => Rested()
  }

  function After(s: System, a: Step): System
    requires Enabled(s, a)
  {
    System(
      if a.TryLock? && s.lock.None? then Some(a.w) else if a.Unlock? then None else s.lock,
      if a.Commit? then s.committed + multiset(s.workers[a.w].own) else s.committed,
      s.workers[a.w := Stepped(s, a)])
  }

  predicate AllEnabled(s: System, steps: seq<Step>)
    decreases |steps|
  {
    steps != [] ==> Enabled(s, steps[0]) && AllEnabled(After(s, steps[0]), steps[1..])
  }

  function AfterAll(s: System, steps: seq<Step>): System
    requires AllEnabled(s, steps)
    decreases |steps|
  {
    if steps == [] then s else AfterAll(After(s, steps[0]), steps[1..])
  }

  /** `n` idle workers in front of a table with the given rows. */
  function Start(committed: multiset<Key>, n: nat): System {
    System(None, committed, seq(n, _ => Rested()))
  }

  // ----- Mutual exclusion -----

  /** A session never plans a key it has inserted, and visits its dates in increasing order. */
  ghost predicate SoundWorker(v: Worker) {
    && (v.phase.Idle? ==> v == Rested())
    && (v.pass.Some? ==> Increasing(v.pass.value.ahead))
    && (forall k | v.Plans(k) :: k !in v.own)
  }

  ghost predicate Sound(s: System) {
    && (forall i: nat | i < |s.workers| :: s.workers[i].phase.Sweeping? <==> s.lock == Some(i))
    && (forall i | 0 <= i < |s.workers| :: SoundWorker(s.workers[i]))
  }

  lemma VisitKeepsClaims(v: Worker)
    requires SoundWorker(v) && !v.phase.Idle? && v.pass.Some? && v.pass.value.ahead != []
    ensures SoundWorker(Visited(v))
    ensures forall k :: Visited(v).Claims(k) <==> v.Claims(k)
    ensures forall k :: k in Visited(v).own <==> k in v.own || (v.Plans(k) && !Visited(v).Plans(k))
  {
    var ahead := v.pass.value.ahead;
    assert ahead == [ahead[0]] + ahead[1..];
    assert ahead[0] !in ahead[1..];
  }

  lemma StepKeepsSound(s: System, a: Step)
    requires Sound(s) && Enabled(s, a)
    ensures Sound(After(s, a))
  {
    if a.Visit? {
      VisitKeepsClaims(s.workers[a.w]);
    }
  }

  lemma {:induction false} RunKeepsSound(s: System, steps: seq<Step>)
    requires Sound(s) && AllEnabled(s, steps)
    ensures Sound(AfterAll(s, steps))
    decreases |steps|
  {
    if steps != [] {
      StepKeepsSound(s, steps[0]);
      RunKeepsSound(After(s, steps[0]), steps[1..]);
    }
  }

  /** In no run are two sweeps in the locked region, and a worker that is refused changes nothing. */
  lemma MutualExclusion(committed: multiset<Key>, n: nat, steps: seq<Step>, i: nat, j: nat)
    requires AllEnabled(Start(committed, n), steps)
    ensures var s := AfterAll(Start(committed, n), steps);
            && (i < |s.workers| && j < |s.workers| && s.workers[i].phase.Sweeping? && s.workers[j].phase.Sweeping? ==> i == j)
            && (i < |s.workers| && s.workers[i].phase.Sweeping? && Enabled(s, TryLock(j)) ==> After(s, TryLock(j)) == s)
  {
    RunKeepsSound(Start(committed, n), steps);
  }

  // ----- Counting workers -----

  function One(holds: bool): nat {
    if holds then 1 else 0
  }

  /** How many of the first n workers have the property. */
  function Count(n: nat, p: nat -> bool): nat {
    if n == 0 then 0 else Count(n - 1, p) + One(p(n - 1))
  }

  lemma {:induction false} OneWorkerChanges(n: nat, p: nat -> bool, q: nat -> bool, w: nat)
    requires forall i: nat | i < n && i != w :: p(i) == q(i)
    ensures Count(n, q) + One(w < n && p(w)) == Count(n, p) + One(w < n && q(w))
  {
    if n > 0 {
      OneWorkerChanges(n - 1, p, q, w);
    }
  }

  lemma {:induction false} CountZero(n: nat, p: nat -> bool)
    ensures Count(n, p) == 0 <==> forall i: nat | i < n :: !p(i)
  {
    if n > 0 {
      CountZero(n - 1, p);
    }
  }

  /** At most one worker has the property. */
  lemma {:induction false} CountOne(n: nat, p: nat -> bool, i: nat, j: nat)
    requires i < j < n && p(i) && p(j)
    ensures 2 <= Count(n, p)
  {
    if j < n - 1 {
      CountOne(n - 1, p, i, j);
    } else {
      CountZero(n - 1, p);
    }
  }

  // ----- Sessions that commit -----

  /** The session that worker `w` is in, or its next one, ends with a commit among these steps. */
  predicate Commits(steps: seq<Step>, w: nat) {
    steps != [] &&
    if steps[0] == Commit(w) then true
    else if steps[0] == Rollback(w) then false
    else Commits(steps[1..], w)
  }

  function Claiming(s: System, steps: seq<Step>, k: Key): nat -> bool {
    (i: nat) => i < |s.workers| && Commits(steps, i) && s.workers[i].Claims(k)
  }

  /** The rows for the key, together with those that sessions have inserted or are still to insert, and will commit. */
  function Claims(s: System, steps: seq<Step>, k: Key): nat {
    s.committed[k] + Count(|s.workers|, Claiming(s, steps, k))
  }

  /** The key is due and absent to the worker that is about to read. */
  predicate IsFresh(s: System, a: Step, k: Key)
    requires a.Read? && a.w < |s.workers|
  {
    k.contract == a.contract && k.date in a.due && !Sees(s, a.w, k)
  }

  /** The first step is a read, by a session that commits, which finds the key due and absent. */
  predicate Claimed(s: System, steps: seq<Step>, k: Key)
    requires AllEnabled(s, steps)
  {
    steps != [] && steps[0].Read? && Commits(steps[1..], steps[0].w) && IsFresh(s, steps[0], k)
  }

  lemma OthersCommitTheSame(steps: seq<Step>, i: nat)
    requires steps != [] && (i != steps[0].w || !(steps[0].Commit? || steps[0].Rollback?))
    ensures Commits(steps, i) == Commits(steps[1..], i)
  {
  }

  lemma WorkerClaims(s: System, steps: seq<Step>, k: Key)
    requires Sound(s) && AllEnabled(s, steps) && steps != []
    ensures var a := steps[0];
            var before, after := Claiming(s, steps, k)(a.w), Claiming(After(s, a), steps[1..], k)(a.w);
            if a.Commit? then before == (k in s.workers[a.w].own) && !after
            else if a.Rollback? then !before && !after
            else One(after) == One(before) + One(Claimed(s, steps, k))
  {
    var a, me := steps[0], s.workers[steps[0].w];
    if a.Visit? {
      VisitKeepsClaims(me);
    }
    if !a.Commit? && !a.Rollback? {
      OthersCommitTheSame(steps, a.w);
    }
  }

  /** Only a read of a session that commits adds claims; a commit turns them into rows. */
  lemma ClaimsAfter(s: System, steps: seq<Step>, k: Key)
    requires Sound(s) && AllEnabled(s, steps) && steps != []
    ensures Claims(After(s, steps[0]), steps[1..], k) == Claims(s, steps, k) + One(Claimed(s, steps, k))
  {
    var a, next := steps[0], After(s, steps[0]);
    var p, q := Claiming(s, steps, k), Claiming(next, steps[1..], k);
    forall i: nat | i < |s.workers| && i != a.w
      ensures p(i) == q(i)
    {
      OthersCommitTheSame(steps, i);
    }
    OneWorkerChanges(|s.workers|, p, q, a.w);
    WorkerClaims(s, steps, k);
  }

  /** The number of reads, by sessions that commit, that found the key due and absent. */
  ghost function FreshReads(s: System, steps: seq<Step>, k: Key): nat
    requires AllEnabled(s, steps)
    decreases |steps|
  {
    if steps == [] then 0 else One(Claimed(s, steps, k)) + FreshReads(After(s, steps[0]), steps[1..], k)
  }

  lemma {:induction false} NobodyCommits(s: System, k: Key)
    ensures Claims(s, [], k) == s.committed[k]
  {
    CountZero(|s.workers|, Claiming(s, [], k));
  }

  /** At the end every claim has become a row, and every fresh read one more. */
  lemma {:induction false} ClaimsBecomeRows(s: System, steps: seq<Step>, k: Key)
    requires Sound(s) && AllEnabled(s, steps)
    ensures AfterAll(s, steps).committed[k] == Claims(s, steps, k) + FreshReads(s, steps, k)
    decreases |steps|
  {
    if steps == [] {
      NobodyCommits(s, k);
    } else {
      StepKeepsSound(s, steps[0]);
      ClaimsAfter(s, steps, k);
      ClaimsBecomeRows(After(s, steps[0]), steps[1..], k);
    }
  }

  lemma NoClaimsAtStart(committed: multiset<Key>, n: nat, steps: seq<Step>, k: Key)
    ensures Sound(Start(committed, n)) && Claims(Start(committed, n), steps, k) == committed[k]
  {
    CountZero(n, Claiming(Start(committed, n), steps, k));
  }

  /**
  In closed form: the rows that a (contract, date) has after a run are those it had before,
  and one for each read, by a session that commits within the run, that found it due and
  absent.
  */
  lemma RowsAfterRun(committed: multiset<Key>, n: nat, steps: seq<Step>, k: Key)
    requires AllEnabled(Start(committed, n), steps)
    ensures AfterAll(Start(committed, n), steps).committed[k] == committed[k] + FreshReads(Start(committed, n), steps, k)
  {
    NoClaimsAtStart(committed, n, steps, k);
    ClaimsBecomeRows(Start(committed, n), steps, k);
  }

  // ----- Which runs duplicate a row -----

  ghost predicate OnceEach(s: System, steps: seq<Step>) {
    forall k :: Claims(s, steps, k) <= 1
  }

  ghost predicate Unique(m: multiset<Key>) {
    forall k :: m[k] <= 1
  }

  /**
  Among sessions that commit: the first step does not read as absent a key that another
  session has inserted, or is still to insert, without having committed.
  */
  ghost predicate Clear(s: System, steps: seq<Step>)
    requires AllEnabled(s, steps) && steps != []
  {
    forall k, i: nat | Claimed(s, steps, k) && i < |s.workers| && i != steps[0].w && Commits(steps, i) :: !s.workers[i].Claims(k)
  }

  lemma ClearClaim(s: System, steps: seq<Step>, k: Key)
    requires Sound(s) && AllEnabled(s, steps) && Claimed(s, steps, k)
    ensures Claims(s, steps, k) == 0 <==>
            forall i: nat | i < |s.workers| && i != steps[0].w && Commits(steps, i) :: !s.workers[i].Claims(k)
  {
    var p := Claiming(s, steps, k);
    CountZero(|s.workers|, p);
    assert forall i: nat | i < |s.workers| :: p(i) == (Commits(steps, i) && s.workers[i].Claims(k));
  }

  /** From a state without double claims, a step leads to one without if and only if it is clear. */
  lemma ClearExactly(s: System, steps: seq<Step>)
    requires Sound(s) && AllEnabled(s, steps) && steps != []
    ensures OnceEach(After(s, steps[0]), steps[1..]) <==> OnceEach(s, steps) && Clear(s, steps)
  {
    var next, rest := After(s, steps[0]), steps[1..];
    forall k
      ensures Claims(s, steps, k) <= Claims(next, rest, k) <= Claims(s, steps, k) + 1
      ensures Claimed(s, steps, k) ==> (Claims(next, rest, k) <= 1 <==> Claims(s, steps, k) == 0)
      ensures !Claimed(s, steps, k) ==> Claims(next, rest, k) == Claims(s, steps, k)
    {
      ClaimsAfter(s, steps, k);
    }
    forall k | Claimed(s, steps, k)
      ensures Claims(s, steps, k) == 0 <==>
              forall i: nat | i < |s.workers| && i != steps[0].w && Commits(steps, i) :: !s.workers[i].Claims(k)
    {
      ClearClaim(s, steps, k);
    }
    if OnceEach(s, steps) && !Clear(s, steps) {
      var k, i: nat :| Claimed(s, steps, k) && i < |s.workers| && i != steps[0].w && Commits(steps, i) && s.workers[i].Claims(k);
      assert Claims(next, rest, k) > 1;
    }
    if OnceEach(next, rest) {
      forall k
        ensures Claims(s, steps, k) <= 1
      {
        assert Claims(next, rest, k) <= 1;
      }
    }
  }

  ghost predicate AllClear(s: System, steps: seq<Step>)
    requires AllEnabled(s, steps)
    decreases |steps|
  {
    steps != [] ==> Clear(s, steps) && AllClear(After(s, steps[0]), steps[1..])
  }

  lemma OnceEachAtEnd(s: System)
    ensures OnceEach(s, []) <==> Unique(s.committed)
  {
    forall k
      ensures Claims(s, [], k) == s.committed[k]
    {
      NobodyCommits(s, k);
    }
    if OnceEach(s, []) {
      forall k
        ensures s.committed[k] <= 1
      {
        assert Claims(s, [], k) <= 1;
      }
    }
  }

  lemma {:induction false} UniqueExactly(s: System, steps: seq<Step>)
    requires Sound(s) && AllEnabled(s, steps)
    ensures Unique(AfterAll(s, steps).committed) <==> OnceEach(s, steps) && AllClear(s, steps)
    decreases |steps|
  {
    if steps == [] {
      OnceEachAtEnd(s);
    } else {
      StepKeepsSound(s, steps[0]);
      ClearExactly(s, steps);
      UniqueExactly(After(s, steps[0]), steps[1..]);
    }
  }

  lemma OnceEachAtStart(committed: multiset<Key>, n: nat, steps: seq<Step>)
    requires Unique(committed)
    ensures Sound(Start(committed, n)) && OnceEach(Start(committed, n), steps)
  {
    forall k
      ensures Claims(Start(committed, n), steps, k) <= 1
    {
      NoClaimsAtStart(committed, n, steps, k);
    }
  }

  /**
  Exactly which runs duplicate a row, whatever is rolled back or still under way at the end:
  the table has one live row per contract and date if and only if, among the sessions that
  commit, none ever read a key as absent while another one, not yet committed, had inserted
  it or was still to insert it.
  */
  lemma DuplicateFreeExactly(committed: multiset<Key>, n: nat, steps: seq<Step>)
    requires Unique(committed) && AllEnabled(Start(committed, n), steps)
    ensures Unique(AfterAll(Start(committed, n), steps).committed) <==> AllClear(Start(committed, n), steps)
  {
    OnceEachAtStart(committed, n, steps);
    UniqueExactly(Start(committed, n), steps);
  }

  /** Rows never go away here, so a run that ends without duplicates had none on the way. */
  lemma {:induction false} RowsStay(s: System, steps: seq<Step>)
    requires AllEnabled(s, steps)
    ensures s.committed <= AfterAll(s, steps).committed
    decreases |steps|
  {
    if steps != [] {
      RowsStay(After(s, steps[0]), steps[1..]);
    }
  }

  // ----- The same in terms of stale reads -----

  /** Among sessions that commit: nobody has inserted, uncommitted, a key that another one read as absent and is still to insert. */
  ghost predicate Undisturbed(s: System, steps: seq<Step>) {
    forall i: nat, j: nat, k |
      i < |s.workers| && j < |s.workers| && i != j && Commits(steps, i) && Commits(steps, j) && s.workers[i].Plans(k) ::
      k !in s.workers[j].own
  }

  ghost predicate AllUndisturbed(s: System, steps: seq<Step>)
    requires AllEnabled(s, steps)
    decreases |steps|
  {
    Undisturbed(s, steps) && (steps != [] ==> AllUndisturbed(After(s, steps[0]), steps[1..]))
  }

  function Holding(s: System, steps: seq<Step>, k: Key): nat -> bool {
    (i: nat) => i < |s.workers| && Commits(steps, i) && k in s.workers[i].own
  }

  /** The rows for the key that are committed or inserted by sessions that commit. */
  function Rows(s: System, steps: seq<Step>, k: Key): nat {
    s.committed[k] + Count(|s.workers|, Holding(s, steps, k))
  }

  /** No key has two such rows, and what such a session read as absent is not committed. */
  ghost predicate UpToDate(s: System, steps: seq<Step>) {
    && (forall k :: Rows(s, steps, k) <= 1)
    && (forall i: nat, k | i < |s.workers| && Commits(steps, i) && s.workers[i].Plans(k) :: k !in s.committed)
  }

  lemma RowsAfterStep(s: System, steps: seq<Step>, k: Key)
    requires Sound(s) && AllEnabled(s, steps) && steps != [] && Undisturbed(s, steps) && UpToDate(s, steps)
    ensures Rows(After(s, steps[0]), steps[1..], k) <= 1
  {
    var a, next := steps[0], After(s, steps[0]);
    var p, q := Holding(s, steps, k), Holding(next, steps[1..], k);
    assert Rows(s, steps, k) <= 1;
    forall i: nat | i < |s.workers| && i != a.w
      ensures p(i) == q(i)
    {
      OthersCommitTheSame(steps, i);
    }
    OneWorkerChanges(|s.workers|, p, q, a.w);
    if !a.Commit? && !a.Rollback? {
      OthersCommitTheSame(steps, a.w);
    }
    if a.Visit? && !p(a.w) && q(a.w) {
      VisitKeepsClaims(s.workers[a.w]);
      CountZero(|s.workers|, p);
    }
  }

  lemma UndisturbedStaysUpToDate(s: System, steps: seq<Step>)
    requires Sound(s) && AllEnabled(s, steps) && steps != [] && Undisturbed(s, steps) && UpToDate(s, steps)
    ensures UpToDate(After(s, steps[0]), steps[1..])
  {
    var a, next, rest := steps[0], After(s, steps[0]), steps[1..];
    forall k
      ensures Rows(next, rest, k) <= 1
    {
      RowsAfterStep(s, steps, k);
    }
    forall i: nat, k | i < |next.workers| && Commits(rest, i) && next.workers[i].Plans(k)
      ensures k !in next.committed
    {
      if !(i == a.w && (a.Commit? || a.Rollback?)) {
        OthersCommitTheSame(steps, i);
        if a.Visit? {
          VisitKeepsClaims(s.workers[a.w]);
        }
      }
    }
  }

  lemma {:induction false} UndisturbedRunsAreUnique(s: System, steps: seq<Step>)
    requires Sound(s) && UpToDate(s, steps) && AllEnabled(s, steps) && AllUndisturbed(s, steps)
    ensures Unique(AfterAll(s, steps).committed)
    decreases |steps|
  {
    if steps == [] {
      forall k
        ensures s.committed[k] <= 1
      {
        assert Rows(s, steps, k) <= 1;
      }
    } else {
      StepKeepsSound(s, steps[0]);
      UndisturbedStaysUpToDate(s, steps);
      UndisturbedRunsAreUnique(After(s, steps[0]), steps[1..]);
    }
  }

  lemma OnceEachIsUndisturbed(s: System, steps: seq<Step>)
    requires OnceEach(s, steps)
    ensures Undisturbed(s, steps)
  {
    forall i: nat, j: nat, k |
      i < |s.workers| && j < |s.workers| && i != j && Commits(steps, i) && Commits(steps, j) && s.workers[i].Plans(k)
      ensures k !in s.workers[j].own
    {
      if k in s.workers[j].own {
        assert Claims(s, steps, k) <= 1;
        CountOne(|s.workers|, Claiming(s, steps, k), if i < j then i else j, if i < j then j else i);
      }
    }
  }

  lemma {:induction false} UniqueRunsAreUndisturbed(s: System, steps: seq<Step>)
    requires Sound(s) && AllEnabled(s, steps) && Unique(AfterAll(s, steps).committed)
    ensures AllUndisturbed(s, steps)
    decreases |steps|
  {
    UniqueExactly(s, steps);
    OnceEachIsUndisturbed(s, steps);
    if steps != [] {
      StepKeepsSound(s, steps[0]);
      UniqueRunsAreUndisturbed(After(s, steps[0]), steps[1..]);
    }
  }

  /**
  The same runs, by a condition on the time between a read and its inserts: the table ends
  without duplicates if and only if at no moment had a session inserted, uncommitted, a key
  that another one had read as absent and was still to insert, both of them to commit.
  */
  lemma UndisturbedExactly(committed: multiset<Key>, n: nat, steps: seq<Step>)
    requires Unique(committed) && AllEnabled(Start(committed, n), steps)
    ensures Unique(AfterAll(Start(committed, n), steps).committed) <==> AllUndisturbed(Start(committed, n), steps)
  {
    var s := Start(committed, n);
    OnceEachAtStart(committed, n, steps);
    if AllUndisturbed(s, steps) {
      forall k
        ensures Rows(s, steps, k) <= 1
      {
        CountZero(n, Holding(s, steps, k));
      }
      UndisturbedRunsAreUnique(s, steps);
    }
    if Unique(AfterAll(s, steps).committed) {
      UniqueRunsAreUndisturbed(s, steps);
    }
  }

  // ----- When the locks are enough -----

  /** Whoever reads finds no sweep between its unlock and its commit, and no recompute under way. */
  predicate Settled(s: System, a: Step)
    requires Enabled(s, a)
  {
    a.Read? ==> forall i | 0 <= i < |s.workers| && i != a.w :: !s.workers[i].phase.Released? && !s.workers[i].phase.Editing?
  }

  predicate AllSettled(s: System, steps: seq<Step>)
    requires AllEnabled(s, steps)
    decreases |steps|
  {
    steps != [] ==> Settled(s, steps[0]) && AllSettled(After(s, steps[0]), steps[1..])
  }

  predicate NoEdits(steps: seq<Step>) {
    forall i | 0 <= i < |steps| :: !steps[i].Edit?
  }

  predicate NoneEditing(s: System) {
    forall i | 0 <= i < |s.workers| :: !s.workers[i].phase.Editing?
  }

  lemma {:induction false} SettledMeansClear(s: System, steps: seq<Step>)
    requires Sound(s) && NoneEditing(s) && AllEnabled(s, steps) && NoEdits(steps) && AllSettled(s, steps)
    ensures AllClear(s, steps)
    decreases |steps|
  {
    if steps != [] {
      assert forall i | 0 <= i < |steps[1..]| :: steps[1..][i] == steps[i + 1];
      StepKeepsSound(s, steps[0]);
      SettledMeansClear(After(s, steps[0]), steps[1..]);
    }
  }

  /**
  Under the advisory lock alone, sweeps are safe in every run in which each sweep commits
  before the next one reads, whatever the number of workers and wherever sweeps fail:
  between a sweep's read and its inserts the lock keeps every other sweep from reading.
  */
  lemma SettledRunsAreSafe(committed: multiset<Key>, n: nat, steps: seq<Step>)
    requires Unique(committed) && AllEnabled(Start(committed, n), steps)
    requires NoEdits(steps) && AllSettled(Start(committed, n), steps)
    ensures Unique(AfterAll(Start(committed, n), steps).committed)
  {
    OnceEachAtStart(committed, n, steps);
    SettledMeansClear(Start(committed, n), steps);
    DuplicateFreeExactly(committed, n, steps);
  }

  predicate NoSweeps(steps: seq<Step>) {
    forall i | 0 <= i < |steps| :: !steps[i].TryLock?
  }

  /** A session claims keys only of contracts it has written, and no two have written the same one. */
  ghost predicate RowLocked(s: System) {
    && (forall i | 0 <= i < |s.workers| :: s.workers[i].phase.Idle? || s.workers[i].phase.Editing?)
    && (forall i, k | 0 <= i < |s.workers| && s.workers[i].Claims(k) :: k.contract in s.workers[i].written)
    && (forall i, c | 0 <= i < |s.workers| && c in s.workers[i].written :: IsFree(s, i, c))
  }

  lemma StepClaimsWhatItWrote(s: System, a: Step, k: Key)
    requires Sound(s) && RowLocked(s) && Enabled(s, a) && !a.TryLock? && Stepped(s, a).Claims(k)
    ensures k.contract in Stepped(s, a).written
  {
    var me := s.workers[a.w];
    assert me.Claims(k) ==> k.contract in me.written;
    if a.Visit? {
      VisitKeepsClaims(me);
    }
  }

  lemma StepKeepsRowLocked(s: System, a: Step)
    requires Sound(s) && RowLocked(s) && Enabled(s, a) && !a.TryLock?
    ensures RowLocked(After(s, a))
  {
    forall k | Stepped(s, a).Claims(k)
      ensures k.contract in Stepped(s, a).written
    {
      StepClaimsWhatItWrote(s, a, k);
    }
  }

  lemma {:induction false} RowLocksMeanClear(s: System, steps: seq<Step>)
    requires Sound(s) && RowLocked(s) && AllEnabled(s, steps) && NoSweeps(steps)
    ensures AllClear(s, steps)
    decreases |steps|
  {
    if steps != [] {
      assert forall i | 0 <= i < |steps[1..]| :: steps[1..][i] == steps[i + 1];
      StepKeepsSound(s, steps[0]);
      StepKeepsRowLocked(s, steps[0]);
      RowLocksMeanClear(After(s, steps[0]), steps[1..]);
    }
  }

  /** Recomputes alone never duplicate a row, in any interleaving: each has written its contract before it reads. */
  lemma RecomputesAloneAreSafe(committed: multiset<Key>, n: nat, steps: seq<Step>)
    requires Unique(committed) && AllEnabled(Start(committed, n), steps) && NoSweeps(steps)
    ensures Unique(AfterAll(Start(committed, n), steps).committed)
  {
    OnceEachAtStart(committed, n, steps);
    RowLocksMeanClear(Start(committed, n), steps);
    DuplicateFreeExactly(committed, n, steps);
  }

  // ----- A pass here and a pass on the table -----

  /** What worker `w` sees of the table, as keys, is what these rows show. */
  ghost predicate Shows(s: System, w: nat, rows: seq<WorkOrder>)
    requires w < |s.workers|
  {
    forall k: Key :: Sees(s, w, k) <==> k.date in LiveDates(rows, k.contract)
  }

  predicate OnlyVisits(steps: seq<Step>, w: nat) {
    forall i | 0 <= i < |steps| && steps[i].w == w :: steps[i].Visit?
  }

  /** Whatever the other workers do meanwhile, a pass inserts what it planned when it read. */
  lemma {:induction false} PassInsertsItsPlan(s: System, steps: seq<Step>, w: nat, k: Key)
    requires Sound(s) && AllEnabled(s, steps) && OnlyVisits(steps, w) && w < |s.workers|
    ensures var v, end := s.workers[w], AfterAll(s, steps);
            && w < |end.workers|
            && (end.workers[w].Claims(k) <==> v.Claims(k)) && (end.workers[w].pass.Some? <==> v.pass.Some?)
    decreases |steps|
  {
    if steps != [] {
      assert forall i | 0 <= i < |steps[1..]| :: steps[1..][i] == steps[i + 1];
      StepKeepsSound(s, steps[0]);
      if steps[0].w == w {
        VisitKeepsClaims(s.workers[w]);
      }
      PassInsertsItsPlan(After(s, steps[0]), steps[1..], w, k);
    }
  }

  /**
  A read and its visits, interleaved with any steps of others, insert for the contract
  exactly the rows that `_generate_for_contract` adds to the table that the read saw.
  */
  lemma PassIsGeneration(s: System, w: nat, id: nat, c: Contract, today: Day, rows: seq<WorkOrder>, steps: seq<Step>, k: Key)
    requires Sound(s) && Enabled(s, Read(w, id, DueVisits(c, today))) && Shows(s, w, rows)
    requires AllEnabled(After(s, Read(w, id, DueVisits(c, today))), steps) && OnlyVisits(steps, w)
    ensures var end := AfterAll(After(s, Read(w, id, DueVisits(c, today))), steps);
            && w < |end.workers|
            && (end.workers[w].pass.Some? && end.workers[w].pass.value.ahead == [] ==>
                  (k in end.workers[w].own <==>
                   k in s.workers[w].own || (k.contract == id && k.date in MissingVisits(rows, id, c, today))))
  {
    var a := Read(w, id, DueVisits(c, today));
    StepKeepsSound(s, a);
    PassInsertsItsPlan(After(s, a), steps, w, k);
    MissingMember(DueVisits(c, today), LiveDates(rows, id), k.date);
    assert After(s, a).workers[w].Plans(k) <==> k.contract == id && k.date in DueVisits(c, today) && !Sees(s, w, k);
  }


  // ----- Runs that duplicate a row -----

  /** The steps can be taken in this order from `s`, and lead to `t`. */
  predicate Leads(s: System, steps: seq<Step>, t: System) {
    AllEnabled(s, steps) && AfterAll(s, steps) == t
  }

  lemma OneStep(s: System, a: Step, t: System)
    requires Enabled(s, a) && After(s, a) == t
    ensures Leads(s, [a], t)
  {
    assert [a][1..] == [];
  }

  lemma {:induction false} OneAfterTheOther(s: System, first: seq<Step>, between: System, then_: seq<Step>, t: System)
    requires Leads(s, first, between) && Leads(between, then_, t)
    ensures Leads(s, first + then_, t)
    decreases |first|
  {
    if first == [] {
      assert first + then_ == then_;
    } else {
      OneAfterTheOther(After(s, first[0]), first[1..], between, then_, t);
      assert (first + then_)[1..] == first[1..] + then_;
    }
  }

  /** How far a session is with a key: it has not looked, has read it as absent, has inserted it, or is done with its contract. */
  datatype Stage = New | Planned | Inserted | Done

  function At(phase: Phase, stage: Stage, k: Key): Worker {
    var written := if phase.Editing? || stage.Done? then {k.contract} else {};
    match stage
    case New => Worker(phase, {}, None, written)
    case Planned => Worker(phase, {}, Some(Pass(k.contract, {}, [k.date])), written)
    case Inserted => Worker(phase, {k}, Some(Pass(k.contract, {}, [])), written)
    case Done => Worker(phase, {k}, None, written)
  }

  function With(s: System, w: nat, v: Worker): System
    requires w < |s.workers|
  {
    s.(workers := s.workers[w := v])
  }

  function ReadOf(w: nat, k: Key): Step {
    Read(w, k.contract, [k.date])
  }

  predicate IsActivePhase(phase: Phase) {
    phase.Sweeping? || phase.Editing?
  }

  lemma ReadsAbsent(s: System, w: nat, phase: Phase, k: Key)
    requires w < |s.workers| && s.workers[w] == At(phase, New, k) && IsActivePhase(phase) && s.committed == multiset{}
    ensures Leads(s, [ReadOf(w, k)], With(s, w, At(phase, Planned, k)))
  {
    assert Existing(s, w, k.contract) == {};
    OneStep(s, ReadOf(w, k), With(s, w, At(phase, Planned, k)));
  }

  lemma InsertsPlanned(s: System, w: nat, phase: Phase, k: Key)
    requires w < |s.workers| && s.workers[w] == At(phase, Planned, k) && IsActivePhase(phase)
    ensures Leads(s, [Visit(w)], With(s, w, At(phase, Inserted, k)))
  {
    assert {} + {k} == {k};
    assert [k.date][1..] == [];
    OneStep(s, Visit(w), With(s, w, At(phase, Inserted, k)));
  }

  lemma RecordsDone(s: System, w: nat, phase: Phase, k: Key)
    requires w < |s.workers| && s.workers[w] == At(phase, Inserted, k) && IsActivePhase(phase) && IsFree(s, w, k.contract)
    ensures Leads(s, [Record(w)], With(s, w, At(phase, Done, k)))
  {
    assert {} + {k.contract} == {k.contract} + {k.contract} == {k.contract};
    OneStep(s, Record(w), With(s, w, At(phase, Done, k)));
  }

  /** Reads and inserts. */
  lemma ReadsAndInserts(s: System, w: nat, phase: Phase, k: Key)
    requires w < |s.workers| && s.workers[w] == At(phase, New, k) && IsActivePhase(phase) && s.committed == multiset{}
    ensures Leads(s, [ReadOf(w, k), Visit(w)], With(s, w, At(phase, Inserted, k)))
  {
    var planned := With(s, w, At(phase, Planned, k));
    ReadsAbsent(s, w, phase, k);
    InsertsPlanned(planned, w, phase, k);
    assert With(planned, w, At(phase, Inserted, k)) == With(s, w, At(phase, Inserted, k));
    OneAfterTheOther(s, [ReadOf(w, k)], planned, [Visit(w)], With(s, w, At(phase, Inserted, k)));
    assert [ReadOf(w, k)] + [Visit(w)] == [ReadOf(w, k), Visit(w)];
  }

  /** Two workers in front of a table that has `n` rows for the key. */
  function Two(k: Key, n: nat, lock: Option<nat>, mine: Worker, yours: Worker): System {
    System(lock, multiset{}[k := n], [mine, yours])
  }

  lemma Begins(k: Key, yours: Worker)
    ensures Leads(Two(k, 0, None, Rested(), yours), [TryLock(0)], Two(k, 0, Some(0), At(Sweeping, New, k), yours))
  {
    OneStep(Two(k, 0, None, Rested(), yours), TryLock(0), Two(k, 0, Some(0), At(Sweeping, New, k), yours));
  }

  /** A recompute of the contract, from beginning to end, while a sweep that has not written it is under way. */
  function WholeEdit(k: Key): seq<Step> {
    [Edit(1, k.contract)] + ([ReadOf(1, k), Visit(1)] + ([Record(1)] + [Commit(1)]))
  }

  lemma EditInBetween(k: Key, mine: Worker)
    requires k.contract !in mine.written
    ensures Leads(Two(k, 0, Some(0), mine, Rested()), WholeEdit(k), Two(k, 1, Some(0), mine, Rested()))
  {
    var s0, s1 := Two(k, 0, Some(0), mine, Rested()), Two(k, 0, Some(0), mine, At(Editing, New, k));
    var s2, s3, s4 := With(s1, 1, At(Editing, Inserted, k)), With(s1, 1, At(Editing, Done, k)), Two(k, 1, Some(0), mine, Rested());
    OneStep(s0, Edit(1, k.contract), s1);
    ReadsAndInserts(s1, 1, Editing, k);
    RecordsDone(s2, 1, Editing, k);
    assert With(s2, 1, At(Editing, Done, k)) == s3;
    assert After(s3, Commit(1)) == s4;
    OneStep(s3, Commit(1), s4);
    OneAfterTheOther(s2, [Record(1)], s3, [Commit(1)], s4);
    OneAfterTheOther(s1, [ReadOf(1, k), Visit(1)], s2, [Record(1)] + [Commit(1)], s4);
    OneAfterTheOther(s0, [Edit(1, k.contract)], s1, [ReadOf(1, k), Visit(1)] + ([Record(1)] + [Commit(1)]), s4);
  }

  /** Two rows for the key, and nobody at work. */
  function Twice(k: Key): System {
    Two(k, 2, None, Rested(), Rested())
  }

  /** The sweep that has inserted goes on to its commit. */
  lemma SweepEnds(k: Key)
    ensures Leads(Two(k, 1, Some(0), At(Sweeping, Inserted, k), Rested()), [Record(0)] + ([Unlock(0)] + [Commit(0)]), Twice(k))
  {
    var s0, s1 := Two(k, 1, Some(0), At(Sweeping, Inserted, k), Rested()), Two(k, 1, Some(0), At(Sweeping, Done, k), Rested());
    var s2 := Two(k, 1, None, At(Released, Done, k), Rested());
    RecordsDone(s0, 0, Sweeping, k);
    assert With(s0, 0, At(Sweeping, Done, k)) == s1;
    OneStep(s1, Unlock(0), s2);
    assert After(s2, Commit(0)) == Twice(k);
    OneStep(s2, Commit(0), Twice(k));
    OneAfterTheOther(s1, [Unlock(0)], s2, [Commit(0)], Twice(k));
    OneAfterTheOther(s0, [Record(0)], s1, [Unlock(0)] + [Commit(0)], Twice(k));
  }

  lemma NobodyAtWork(k: Key)
    ensures Start(multiset{}, 2) == Two(k, 0, None, Rested(), Rested())
  {
  }

  /** A recompute takes no advisory lock: between a sweep's insert and its commit it reads and inserts the visit again. */
  lemma RecomputeIgnoresTheLock(k: Key)
    ensures Leads(Start(multiset{}, 2),
                  [TryLock(0)] + ([ReadOf(0, k), Visit(0)] + (WholeEdit(k) + ([Record(0)] + ([Unlock(0)] + [Commit(0)])))),
                  Twice(k))
  {
    var s0, s1 := Two(k, 0, None, Rested(), Rested()), Two(k, 0, Some(0), At(Sweeping, New, k), Rested());
    var s2, s3 := Two(k, 0, Some(0), At(Sweeping, Inserted, k), Rested()), Two(k, 1, Some(0), At(Sweeping, Inserted, k), Rested());
    var end := [Record(0)] + ([Unlock(0)] + [Commit(0)]);
    NobodyAtWork(k);
    Begins(k, Rested());
    ReadsAndInserts(s1, 0, Sweeping, k);
    assert With(s1, 0, At(Sweeping, Inserted, k)) == s2;
    EditInBetween(k, At(Sweeping, Inserted, k));
    SweepEnds(k);
    OneAfterTheOther(s2, WholeEdit(k), s3, end, Twice(k));
    OneAfterTheOther(s1, [ReadOf(0, k), Visit(0)], s2, WholeEdit(k) + end, Twice(k));
    OneAfterTheOther(s0, [TryLock(0)], s1, [ReadOf(0, k), Visit(0)] + (WholeEdit(k) + end), Twice(k));
  }

  /**
  A stale read is enough: a sweep reads, a whole recompute comes and commits, and the sweep
  inserts what it still takes to be missing.  At neither insert does anybody else hold the
  key uncommitted.
  */
  lemma StaleReadDuplicates(k: Key)
    ensures Leads(Start(multiset{}, 2),
                  [TryLock(0)] + ([ReadOf(0, k)] + (WholeEdit(k) + ([Visit(0)] + ([Record(0)] + ([Unlock(0)] + [Commit(0)]))))),
                  Twice(k))
  {
    var s0, s1 := Two(k, 0, None, Rested(), Rested()), Two(k, 0, Some(0), At(Sweeping, New, k), Rested());
    var s2, s3 := Two(k, 0, Some(0), At(Sweeping, Planned, k), Rested()), Two(k, 1, Some(0), At(Sweeping, Planned, k), Rested());
    var s4, end := Two(k, 1, Some(0), At(Sweeping, Inserted, k), Rested()), [Record(0)] + ([Unlock(0)] + [Commit(0)]);
    NobodyAtWork(k);
    Begins(k, Rested());
    ReadsAbsent(s1, 0, Sweeping, k);
    assert With(s1, 0, At(Sweeping, Planned, k)) == s2;
    EditInBetween(k, At(Sweeping, Planned, k));
    InsertsPlanned(s3, 0, Sweeping, k);
    assert With(s3, 0, At(Sweeping, Inserted, k)) == s4;
    SweepEnds(k);
    OneAfterTheOther(s3, [Visit(0)], s4, end, Twice(k));
    OneAfterTheOther(s2, WholeEdit(k), s3, [Visit(0)] + end, Twice(k));
    OneAfterTheOther(s1, [ReadOf(0, k)], s2, WholeEdit(k) + ([Visit(0)] + end), Twice(k));
    OneAfterTheOther(s0, [TryLock(0)], s1, [ReadOf(0, k)] + (WholeEdit(k) + ([Visit(0)] + end)), Twice(k));
  }

  /** Worker 0 sweeps and unlocks. */
  lemma SweepsAndUnlocks(k: Key)
    ensures Leads(Two(k, 0, None, Rested(), Rested()), [TryLock(0)] + ([ReadOf(0, k), Visit(0)] + ([Record(0)] + [Unlock(0)])),
                  Two(k, 0, None, At(Released, Done, k), Rested()))
  {
    var s0, s1 := Two(k, 0, None, Rested(), Rested()), Two(k, 0, Some(0), At(Sweeping, New, k), Rested());
    var s2, s3 := With(s1, 0, At(Sweeping, Inserted, k)), With(s1, 0, At(Sweeping, Done, k));
    var s4 := Two(k, 0, None, At(Released, Done, k), Rested());
    Begins(k, Rested());
    ReadsAndInserts(s1, 0, Sweeping, k);
    RecordsDone(s2, 0, Sweeping, k);
    assert With(s2, 0, At(Sweeping, Done, k)) == s3;
    OneStep(s3, Unlock(0), s4);
    OneAfterTheOther(s2, [Record(0)], s3, [Unlock(0)], s4);
    OneAfterTheOther(s1, [ReadOf(0, k), Visit(0)], s2, [Record(0)] + [Unlock(0)], s4);
    OneAfterTheOther(s0, [TryLock(0)], s1, [ReadOf(0, k), Visit(0)] + ([Record(0)] + [Unlock(0)]), s4);
  }

  /** Worker 1 goes on to its commit after worker 0 has committed. */
  lemma SecondEnds(k: Key)
    ensures Leads(Two(k, 1, Some(1), Rested(), At(Sweeping, Inserted, k)), [Record(1)] + ([Unlock(1)] + [Commit(1)]), Twice(k))
  {
    var s0, s1 := Two(k, 1, Some(1), Rested(), At(Sweeping, Inserted, k)), Two(k, 1, Some(1), Rested(), At(Sweeping, Done, k));
    var s2 := Two(k, 1, None, Rested(), At(Released, Done, k));
    RecordsDone(s0, 1, Sweeping, k);
    assert With(s0, 1, At(Sweeping, Done, k)) == s1;
    OneStep(s1, Unlock(1), s2);
    assert After(s2, Commit(1)) == Twice(k);
    OneStep(s2, Commit(1), Twice(k));
    OneAfterTheOther(s1, [Unlock(1)], s2, [Commit(1)], Twice(k));
    OneAfterTheOther(s0, [Record(1)], s1, [Unlock(1)] + [Commit(1)], Twice(k));
  }

  /** Worker 1 has inserted when worker 0 commits. */
  lemma BothCommit(k: Key)
    ensures Leads(Two(k, 0, Some(1), At(Released, Done, k), At(Sweeping, Inserted, k)),
                  [Commit(0)] + ([Record(1)] + ([Unlock(1)] + [Commit(1)])), Twice(k))
  {
    var s0 := Two(k, 0, Some(1), At(Released, Done, k), At(Sweeping, Inserted, k));
    var s1 := Two(k, 1, Some(1), Rested(), At(Sweeping, Inserted, k));
    SecondEnds(k);
    assert After(s0, Commit(0)) == s1;
    OneStep(s0, Commit(0), s1);
    OneAfterTheOther(s0, [Commit(0)], s1, [Record(1)] + ([Unlock(1)] + [Commit(1)]), Twice(k));
  }

  /** Two sweeps, the second one between the first one's unlock and commit: the visit is there twice. */
  lemma UnlockBeforeCommitDuplicates(k: Key)
    ensures Leads(Start(multiset{}, 2),
                  ([TryLock(0)] + ([ReadOf(0, k), Visit(0)] + ([Record(0)] + [Unlock(0)]))) +
                  ([TryLock(1)] + ([ReadOf(1, k), Visit(1)] + ([Commit(0)] + ([Record(1)] + ([Unlock(1)] + [Commit(1)]))))),
                  Twice(k))
  {
    var s0, s1 := Two(k, 0, None, Rested(), Rested()), Two(k, 0, None, At(Released, Done, k), Rested());
    var s2, s3 := Two(k, 0, Some(1), At(Released, Done, k), At(Sweeping, New, k)), Two(k, 0, Some(1), At(Released, Done, k), At(Sweeping, Inserted, k));
    var first, end := [TryLock(0)] + ([ReadOf(0, k), Visit(0)] + ([Record(0)] + [Unlock(0)])), [Commit(0)] + ([Record(1)] + ([Unlock(1)] + [Commit(1)]));
    NobodyAtWork(k);
    SweepsAndUnlocks(k);
    OneStep(s1, TryLock(1), s2);
    ReadsAndInserts(s2, 1, Sweeping, k);
    assert With(s2, 1, At(Sweeping, Inserted, k)) == s3;
    BothCommit(k);
    OneAfterTheOther(s2, [ReadOf(1, k), Visit(1)], s3, end, Twice(k));
    OneAfterTheOther(s1, [TryLock(1)], s2, [ReadOf(1, k), Visit(1)] + end, Twice(k));
    OneAfterTheOther(s0, first, s1, [TryLock(1)] + ([ReadOf(1, k), Visit(1)] + end), Twice(k));
  }

  // ----- Any session can fail at any point -----

  /** A session that is at work can be rolled back, a sweep once it has unlocked, and leaves nothing behind. */
  lemma SessionCanFail(s: System, w: nat)
    requires Sound(s) && w < |s.workers| && !s.workers[w].phase.Idle?
    ensures var steps := if s.workers[w].phase.Sweeping? then [Unlock(w), Rollback(w)] else [Rollback(w)];
            AllEnabled(s, steps) &&
            AfterAll(s, steps) == System(if s.workers[w].phase.Sweeping? then None else s.lock, s.committed, s.workers[w := Rested()])
  {
    if s.workers[w].phase.Sweeping? {
      var next := After(s, Unlock(w));
      OneStep(s, Unlock(w), next);
      OneStep(next, Rollback(w), After(next, Rollback(w)));
      OneAfterTheOther(s, [Unlock(w)], next, [Rollback(w)], After(next, Rollback(w)));
      assert [Unlock(w)] + [Rollback(w)] == [Unlock(w), Rollback(w)];
      assert s.workers[w := next.workers[w]][w := Rested()] == s.workers[w := Rested()];
    } else {
      OneStep(s, Rollback(w), After(s, Rollback(w)));
    }
  }
}
