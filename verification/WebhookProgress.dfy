/**
Progress of the webhook worker when no row is added, no trigger is lost, and results are
recorded: which pending rows are settled in the end, and after how many batches.
*/
module WebhookProgress {
  import opened WebhookOutbox
  import opened WebhookRuns
  import opened Wrappers

  ghost predicate AllCalm(weathers: seq<Weather>) {
    forall k | 0 <= k < |weathers| :: Calm(weathers[k])
  }

  /** The rows after uninterrupted batches, one after the other. */
  ghost function AfterBatches(rows: seq<Delivery>, limit: nat, weathers: seq<Weather>): seq<Delivery>
    decreases |weathers|
  {
    if weathers == [] then rows else AfterBatches(AfterBatch(rows, limit, weathers[0]), limit, weathers[1..])
  }

  // ----- What a batch claims -----

  /** The number of pending rows before row `r`, from `from` on. */
  function PendingBefore(rows: seq<Delivery>, from: nat, r: nat): nat
    requires r <= |rows|
    decreases r - from
  {
    if from >= r then 0 else (if Pending(rows[from]) then 1 else 0) + PendingBefore(rows, from + 1, r)
  }

  /** Of these, the number that no batch can handle because they have no URL. */
  function BlockersBefore(rows: seq<Delivery>, from: nat, r: nat): (n: nat)
    requires r <= |rows|
    decreases r - from
  {
    if from >= r then 0
    else (if Pending(rows[from]) && !rows[from].hasUrl then 1 else 0) + BlockersBefore(rows, from + 1, r)
  }

  /** A pending row is claimed exactly when fewer than `limit` pending rows come before it. */
  lemma {:induction false} ClaimedExactly(rows: seq<Delivery>, from: nat, limit: nat, r: nat)
    requires from <= r < |rows|
    ensures r in Claim(rows, from, limit) <==> Pending(rows[r]) && PendingBefore(rows, from, r) < limit
    decreases |rows| - from
  {
    if limit > 0 {
      if Pending(rows[from]) {
        ClaimedArePending(rows, from + 1, limit - 1);
        if from < r {
          ClaimedExactly(rows, from + 1, limit - 1, r);
        }
      } else {
        ClaimedArePending(rows, from + 1, limit);
        if from < r {
          ClaimedExactly(rows, from + 1, limit, r);
        }
      }
    }
  }

  lemma {:induction false} BlockersArePending(rows: seq<Delivery>, from: nat, r: nat)
    requires r <= |rows|
    ensures BlockersBefore(rows, from, r) <= PendingBefore(rows, from, r)
    decreases r - from
  {
    if from < r {
      BlockersArePending(rows, from + 1, r);
    }
  }

  /** If some pending row before `r` has a URL, then the first such row has only blockers before it. */
  lemma {:induction false} FirstWithUrl(rows: seq<Delivery>, from: nat, r: nat) returns (j: nat)
    requires r <= |rows| && BlockersBefore(rows, from, r) < PendingBefore(rows, from, r)
    ensures from <= j < r && Pending(rows[j]) && rows[j].hasUrl
    ensures PendingBefore(rows, from, j) <= BlockersBefore(rows, from, r)
    decreases r - from
  {
    if Pending(rows[from]) && rows[from].hasUrl {
      j := from;
    } else {
      j := FirstWithUrl(rows, from + 1, r);
    }
  }

  // ----- The measure -----

  function AttemptsLeft(d: Delivery): nat {
    if Pending(d) && d.hasUrl then MAX_ATTEMPTS - d.attempt else 0
  }

  /** The attempts left to all pending rows with a URL. */
  function Left(rows: seq<Delivery>): nat {
    if rows == [] then 0 else AttemptsLeft(rows[0]) + Left(rows[1..])
  }

  lemma {:induction false} LeftRowByRow(rows: seq<Delivery>, after: seq<Delivery>)
    requires |rows| == |after|
    requires forall i | 0 <= i < |rows| :: AttemptsLeft(after[i]) <= AttemptsLeft(rows[i])
    ensures Left(after) <= Left(rows)
    ensures (exists i | 0 <= i < |rows| :: AttemptsLeft(after[i]) < AttemptsLeft(rows[i])) ==> Left(after) < Left(rows)
  {
    if rows != [] {
      assert forall i | 0 < i < |rows| :: after[i] == after[1..][i - 1] && rows[i] == rows[1..][i - 1];
      LeftRowByRow(rows[1..], after[1..]);
    }
  }

  lemma {:induction false} RowHasLeft(rows: seq<Delivery>, i: nat)
    requires i < |rows|
    ensures AttemptsLeft(rows[i]) <= Left(rows)
  {
    if i > 0 {
      RowHasLeft(rows[1..], i - 1);
    }
  }

  ghost predicate ClaimsWork(rows: seq<Delivery>, limit: nat) {
    exists i :: Handled(rows, Claim(rows, 0, limit), i)
  }

  /** Each row after a calm batch; URLs stay, and settled or unclaimed rows do not change. */
  lemma BatchRow(rows: seq<Delivery>, limit: nat, weather: Weather, i: nat)
    requires Calm(weather) && i < |rows|
    ensures |AfterBatch(rows, limit, weather)| == |rows|
    ensures var items, after := Claim(rows, 0, limit), AfterBatch(rows, limit, weather);
            && after[i].hasUrl == rows[i].hasUrl
            && (!Handled(rows, items, i) ==> after[i] == rows[i])
            && (Handled(rows, items, i) ==> AttemptsLeft(after[i]) < AttemptsLeft(rows[i]))
            && (!Pending(rows[i]) ==> after[i] == rows[i])
  {
    var items := Claim(rows, 0, limit);
    ClaimedArePending(rows, 0, limit);
    CalmBatchRow(rows, items, weather, i);
    if Handled(rows, items, i) {
      CalmCall(rows[i], weather, i);
      CallAccounts(rows[i], weather.reply(i));
    }
  }

  /**
  A batch that claims a row with a URL brings the measure down; a batch that claims none
  changes nothing.
  */
  lemma BatchProgress(rows: seq<Delivery>, limit: nat, weather: Weather)
    requires Calm(weather)
    ensures |AfterBatch(rows, limit, weather)| == |rows|
    ensures ClaimsWork(rows, limit) ==> Left(AfterBatch(rows, limit, weather)) < Left(rows)
    ensures !ClaimsWork(rows, limit) ==> AfterBatch(rows, limit, weather) == rows
  {
    var items, after := Claim(rows, 0, limit), AfterBatch(rows, limit, weather);
    if rows == [] {
      assert items == [];
    } else {
      BatchRow(rows, limit, weather, 0);
    }
    forall i | 0 <= i < |rows|
      ensures AttemptsLeft(after[i]) <= AttemptsLeft(rows[i])
      ensures Handled(rows, items, i) ==> AttemptsLeft(after[i]) < AttemptsLeft(rows[i])
      ensures !Handled(rows, items, i) ==> after[i] == rows[i]
    {
      BatchRow(rows, limit, weather, i);
    }
    LeftRowByRow(rows, after);
  }

  // ----- Which rows are settled -----

  lemma {:induction false} BlockersStay(rows: seq<Delivery>, after: seq<Delivery>, from: nat, r: nat)
    requires |rows| == |after| && r <= |rows|
    requires forall i | 0 <= i < |rows| :: after[i].hasUrl == rows[i].hasUrl && (!rows[i].hasUrl ==> after[i] == rows[i])
    ensures BlockersBefore(after, from, r) == BlockersBefore(rows, from, r)
    decreases r - from
  {
    if from < r {
      BlockersStay(rows, after, from + 1, r);
    }
  }

  lemma BlockersAfterBatch(rows: seq<Delivery>, limit: nat, weather: Weather, r: nat)
    requires Calm(weather) && r < |rows|
    ensures |AfterBatch(rows, limit, weather)| == |rows|
    ensures BlockersBefore(AfterBatch(rows, limit, weather), 0, r) == BlockersBefore(rows, 0, r)
    ensures AfterBatch(rows, limit, weather)[r].hasUrl == rows[r].hasUrl
  {
    var after := AfterBatch(rows, limit, weather);
    BatchRow(rows, limit, weather, r);
    forall i | 0 <= i < |rows|
      ensures after[i].hasUrl == rows[i].hasUrl && (!rows[i].hasUrl ==> after[i] == rows[i])
    {
      BatchRow(rows, limit, weather, i);
    }
    BlockersStay(rows, after, 0, r);
  }

  /** As long as a row with too few blockers before it is pending, every batch makes progress. */
  lemma UnblockedMeansWork(rows: seq<Delivery>, limit: nat, r: nat)
    requires r < |rows| && Pending(rows[r]) && rows[r].hasUrl && BlockersBefore(rows, 0, r) < limit
    ensures ClaimsWork(rows, limit)
  {
    ClaimedExactly(rows, 0, limit, r);
    if PendingBefore(rows, 0, r) < limit {
      assert Handled(rows, Claim(rows, 0, limit), r);
    } else {
      var j := FirstWithUrl(rows, 0, r);
      ClaimedExactly(rows, 0, limit, j);
      assert Handled(rows, Claim(rows, 0, limit), j);
    }
  }

  lemma {:induction false} UnblockedSettles(rows: seq<Delivery>, limit: nat, r: nat, weathers: seq<Weather>)
    requires AllCalm(weathers) && Left(rows) <= |weathers|
    requires r < |rows| && rows[r].hasUrl && BlockersBefore(rows, 0, r) < limit
    ensures r < |AfterBatches(rows, limit, weathers)| && !Pending(AfterBatches(rows, limit, weathers)[r])
    decreases |weathers|
  {
    RowHasLeft(rows, r);
    if weathers != [] {
      var next := AfterBatch(rows, limit, weathers[0]);
      BlockersAfterBatch(rows, limit, weathers[0], r);
      if Pending(rows[r]) {
        UnblockedMeansWork(rows, limit, r);
        BatchProgress(rows, limit, weathers[0]);
        UnblockedSettles(next, limit, r, weathers[1..]);
      } else {
        SettledStays(rows, limit, r, weathers);
      }
    }
  }

  lemma {:induction false} SettledStays(rows: seq<Delivery>, limit: nat, r: nat, weathers: seq<Weather>)
    requires AllCalm(weathers) && r < |rows| && !Pending(rows[r])
    ensures r < |AfterBatches(rows, limit, weathers)| && AfterBatches(rows, limit, weathers)[r] == rows[r]
    decreases |weathers|
  {
    if weathers != [] {
      BatchRow(rows, limit, weathers[0], r);
      SettledStays(AfterBatch(rows, limit, weathers[0]), limit, r, weathers[1..]);
    }
  }

  lemma {:induction false} BlockedStaysPending(rows: seq<Delivery>, limit: nat, r: nat, weathers: seq<Weather>)
    requires AllCalm(weathers) && r < |rows| && limit <= BlockersBefore(rows, 0, r)
    ensures r < |AfterBatches(rows, limit, weathers)| && AfterBatches(rows, limit, weathers)[r] == rows[r]
    decreases |weathers|
  {
    if weathers != [] {
      BlockersArePending(rows, 0, r);
      ClaimedExactly(rows, 0, limit, r);
      BatchRow(rows, limit, weathers[0], r);
      BlockersAfterBatch(rows, limit, weathers[0], r);
      BlockedStaysPending(AfterBatch(rows, limit, weathers[0]), limit, r, weathers[1..]);
    }
  }

  /**
  Exactly which rows are served.  Whatever the endpoints answer, after as many batches as
  there are attempts left, a pending row with a URL is still pending if and only if at
  least a whole batch of pending rows without a URL comes before it in id order.
  */
  lemma ServedExactly(rows: seq<Delivery>, limit: nat, r: nat, weathers: seq<Weather>)
    requires AllCalm(weathers) && Left(rows) <= |weathers|
    requires r < |rows| && Pending(rows[r]) && rows[r].hasUrl
    ensures r < |AfterBatches(rows, limit, weathers)|
    ensures Pending(AfterBatches(rows, limit, weathers)[r]) <==> limit <= BlockersBefore(rows, 0, r)
  {
    if BlockersBefore(rows, 0, r) < limit {
      UnblockedSettles(rows, limit, r, weathers);
    } else {
      BlockedStaysPending(rows, limit, r, weathers);
    }
  }

  lemma {:induction false} FewerBefore(rows: seq<Delivery>, from: nat, r: nat, s: nat)
    requires r <= s <= |rows|
    ensures BlockersBefore(rows, from, r) <= BlockersBefore(rows, from, s)
    decreases s - from
  {
    if from < s {
      FewerBefore(rows, from + 1, r, s);
    }
  }

  /** With fewer than `limit` pending rows without a URL in all, every row with one is delivered or exhausted. */
  lemma EveryRowIsServed(rows: seq<Delivery>, limit: nat, weathers: seq<Weather>)
    requires AllCalm(weathers) && Left(rows) <= |weathers| && BlockersBefore(rows, 0, |rows|) < limit
    ensures var end := AfterBatches(rows, limit, weathers);
            |rows| <= |end| && forall r | 0 <= r < |rows| && rows[r].hasUrl :: end[r].delivered || end[r].attempt >= MAX_ATTEMPTS
  {
    var end := AfterBatches(rows, limit, weathers);
    forall r | 0 <= r < |rows| && rows[r].hasUrl
      ensures r < |end| && !Pending(end[r])
    {
      FewerBefore(rows, 0, r, |rows|);
      UnblockedSettles(rows, limit, r, weathers);
    }
    SameLength(rows, limit, weathers);
  }

  lemma {:induction false} SameLength(rows: seq<Delivery>, limit: nat, weathers: seq<Weather>)
    requires AllCalm(weathers)
    ensures |AfterBatches(rows, limit, weathers)| == |rows|
    decreases |weathers|
  {
    if weathers != [] {
      BatchProgress(rows, limit, weathers[0]);
      SameLength(AfterBatch(rows, limit, weathers[0]), limit, weathers[1..]);
    }
  }
}
