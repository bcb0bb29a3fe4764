/**
Accounting over whole runs of one webhook worker: attempts, requests sent, and successes of
every row, whatever the endpoints answer, whatever raises or is not recorded, whichever
pending rows are claimed, and whatever rows are added or lose their trigger in between.
*/
module WebhookRuns {
  import opened WebhookOutbox
  import opened Wrappers

  // ----- One call of `deliver_webhook` -----

  lemma {:induction false} AttemptsAccount(attempt: nat, sofar: Tried, reply: nat -> Reply)
    requires attempt == sofar.attempts + 1 && !sofar.escaped
    ensures var t := Attempts(attempt, sofar, reply);
            && sofar.posts <= t.posts <= sofar.posts + (t.attempts - sofar.attempts)
            && t.successes - sofar.successes <= t.posts - sofar.posts
            && (attempt <= MAX_ATTEMPTS ==> attempt <= t.attempts <= MAX_ATTEMPTS)
            && (!t.escaped && attempt <= MAX_ATTEMPTS ==>
                  t.successes == sofar.successes + (if IsDelivered(t) then 1 else 0) && (IsDelivered(t) ==> t.error.None?))
    decreases MAX_ATTEMPTS + 1 - attempt
  {
    if attempt <= MAX_ATTEMPTS {
      match reply(attempt)
      case Rejected(_) =>
      case Raised =>
      case Failed(reason) =>
        AttemptsAccount(attempt + 1, Tried(None, Some(reason), attempt, false, sofar.posts + 1, sofar.successes), reply);
      case Answered(code) =>
        if !IsSuccess(code) {
          AttemptsAccount(attempt + 1, Tried(Some(code), None, attempt, false, sofar.posts + 1, sofar.successes), reply);
        }
    }
  }

  /**
  A recorded call uses up at least as many attempts as it sent requests, had a success
  exactly if the row is now delivered, and left an error exactly if it is not.
  */
  lemma CallAccounts(d: Delivery, reply: nat -> Reply)
    requires Pending(d) && !Escapes(d, reply)
    ensures var after := Delivered(d, reply, true);
            && d.attempt < after.attempt <= MAX_ATTEMPTS
            && PostsOf(d, reply) <= after.attempt - d.attempt
            && SuccessesOf(d, reply) == (if after.delivered then 1 else 0)
            && (after.delivered <==> after.error.None?)
            && after.hasUrl == d.hasUrl
  {
    AttemptsAccount(d.attempt + 1, NothingTried(d.attempt), reply);
  }

  /** Requests go unaccounted for exactly when some were sent and the call escaped or was not recorded. */
  lemma UnaccountedExactly(d: Delivery, reply: nat -> Reply, saved: bool)
    requires Pending(d)
    ensures PostsOf(d, reply) <= Delivered(d, reply, saved).attempt - d.attempt
            <==> PostsOf(d, reply) == 0 || (saved && !Escapes(d, reply))
  {
    AttemptsAccount(d.attempt + 1, NothingTried(d.attempt), reply);
  }

  // ----- One batch -----

  predicate Distinct(items: seq<nat>) {
    forall k, l | 0 <= k < l < |items| :: items[k] != items[l]
  }

  predicate ArePending(rows: seq<Delivery>, items: seq<nat>) {
    AreIds(items, |rows|) && Distinct(items) && forall k | 0 <= k < |items| :: Pending(rows[items[k]])
  }

  /** Every result is recorded and no exception escapes. */
  ghost predicate Calm(weather: Weather) {
    && (forall i: nat :: weather.saved(i))
    && (forall i: nat, a: nat :: !weather.reply(i)(a).Raised?)
  }

  lemma {:induction false} CalmNeverEscapes(attempt: nat, sofar: Tried, reply: nat -> Reply)
    requires !sofar.escaped && forall a: nat :: !reply(a).Raised?
    ensures !Attempts(attempt, sofar, reply).escaped
    decreases MAX_ATTEMPTS + 1 - attempt
  {
    if attempt <= MAX_ATTEMPTS {
      match reply(attempt)
      case Rejected(_) =>
      case Raised =>
      case Failed(reason) =>
        CalmNeverEscapes(attempt + 1, Tried(None, Some(reason), attempt, false, sofar.posts + 1, sofar.successes), reply);
      case Answered(code) =>
        if !IsSuccess(code) {
          CalmNeverEscapes(attempt + 1, Tried(Some(code), None, attempt, false, sofar.posts + 1, sofar.successes), reply);
        }
    }
  }

  lemma CalmCall(d: Delivery, weather: Weather, i: nat)
    requires Calm(weather)
    ensures !Escapes(d, weather.reply(i)) && weather.saved(i)
  {
    CalmNeverEscapes(d.attempt + 1, NothingTried(d.attempt), weather.reply(i));
  }

  predicate Handled(rows: seq<Delivery>, items: seq<nat>, i: nat) {
    i < |rows| && i in items && rows[i].hasUrl
  }

  /** An item that has a URL and whose call lets an exception escape: it ends the batch. */
  predicate EndsBatch(rows: seq<Delivery>, items: seq<nat>, weather: Weather, k: nat)
    requires AreIds(items, |rows|) && k < |items|
  {
    rows[items[k]].hasUrl && Escapes(rows[items[k]], weather.reply(items[k]))
  }

  /** The k-th item is posted: it has a URL, and no earlier item ended the batch. */
  predicate Reached(rows: seq<Delivery>, items: seq<nat>, weather: Weather, k: nat)
    requires AreIds(items, |rows|) && k < |items|
  {
    rows[items[k]].hasUrl && forall j | 0 <= j < k :: !EndsBatch(rows, items, weather, j)
  }

  /** Which items are reached does not depend on the first one's row, unless that one ends the batch. */
  lemma ReachedInRest(rows: seq<Delivery>, next: seq<Delivery>, items: seq<nat>, weather: Weather, k: nat)
    requires |next| == |rows| && AreIds(items, |rows|) && 0 < k < |items|
    requires forall j | 0 < j < |items| :: next[items[j]] == rows[items[j]]
    requires !EndsBatch(rows, items, weather, 0)
    ensures Reached(next, items[1..], weather, k - 1) <==> Reached(rows, items, weather, k)
  {
    forall j | 0 <= j < k - 1
      ensures EndsBatch(next, items[1..], weather, j) == EndsBatch(rows, items, weather, j + 1)
    {
      assert items[1..][j] == items[j + 1];
    }
    if Reached(next, items[1..], weather, k - 1) {
      forall j | 0 <= j < k
        ensures !EndsBatch(rows, items, weather, j)
      {
        assert j > 0 ==> !EndsBatch(next, items[1..], weather, j - 1);
      }
    }
  }

  /**
  What a batch does, in any weather, to each row on its own: a claimed row is delivered to,
  once, if and only if it is reached; any other row stays as it is.
  */
  lemma {:induction false} BatchRowByRow(rows: seq<Delivery>, items: seq<nat>, weather: Weather, k: nat)
    requires AreIds(items, |rows|) && Distinct(items) && k < |items|
    ensures |Processed(rows, items, weather)| == |rows|
    ensures Processed(rows, items, weather)[items[k]] ==
            if Reached(rows, items, weather, k) then Delivered(rows[items[k]], weather.reply(items[k]), weather.saved(items[k]))
            else rows[items[k]]
    decreases |items|
  {
    var i := items[0];
    var next := if rows[i].hasUrl then rows[i := Delivered(rows[i], weather.reply(i), weather.saved(i))] else rows;
    if EndsBatch(rows, items, weather, 0) {
      assert k > 0 ==> !Reached(rows, items, weather, k);
    } else if k == 0 {
      UnclaimedStays(next, items[1..], weather, i);
    } else {
      BatchRowByRow(next, items[1..], weather, k - 1);
      ReachedInRest(rows, next, items, weather, k);
    }
  }

  lemma {:induction false} UnclaimedStays(rows: seq<Delivery>, items: seq<nat>, weather: Weather, i: nat)
    requires AreIds(items, |rows|) && i < |rows| && forall k | 0 <= k < |items| :: items[k] != i
    ensures |Processed(rows, items, weather)| == |rows| && Processed(rows, items, weather)[i] == rows[i]
    decreases |items|
  {
    if items != [] {
      var j := items[0];
      var next := if rows[j].hasUrl then rows[j := Delivered(rows[j], weather.reply(j), weather.saved(j))] else rows;
      UnclaimedStays(next, items[1..], weather, i);
    }
  }

  /** In calm weather every claimed row with a URL is reached. */
  lemma CalmBatchRow(rows: seq<Delivery>, items: seq<nat>, weather: Weather, i: nat)
    requires Calm(weather) && AreIds(items, |rows|) && Distinct(items) && i < |rows|
    ensures |Processed(rows, items, weather)| == |rows|
    ensures Processed(rows, items, weather)[i] ==
            if Handled(rows, items, i) then Delivered(rows[i], weather.reply(i), true) else rows[i]
  {
    if i in items {
      var k :| 0 <= k < |items| && items[k] == i;
      forall j | 0 <= j < k
        ensures !EndsBatch(rows, items, weather, j)
      {
        CalmCall(rows[items[j]], weather, items[j]);
      }
      BatchRowByRow(rows, items, weather, k);
    } else {
      UnclaimedStays(rows, items, weather, i);
    }
  }

  // ----- Runs -----

  /** What happens to the table: a batch of claimed rows, a new delivery, or the loss of a trigger. */
  datatype Event = Batch(items: seq<nat>, weather: Weather) | Enqueue(hasUrl: bool) | DropTrigger(id: nat)

  function After(rows: seq<Delivery>, e: Event): seq<Delivery>
    requires Possible(rows, e)
  {
    match e
    case Batch(items, weather) => Processed(rows, items, weather)
    case Enqueue(hasUrl) => rows + [Enqueued(hasUrl)]
    case DropTrigger(id) => rows[id := rows[id].(hasUrl := false)]
  }

  predicate Possible(rows: seq<Delivery>, e: Event) {
    match e
    case Batch(items, _) => ArePending(rows, items)
    case Enqueue(_) => true
    case DropTrigger(id) => id < |rows|
  }

  predicate AllPossible(rows: seq<Delivery>, events: seq<Event>)
    decreases |events|
  {
    events != [] ==> Possible(rows, events[0]) && AllPossible(After(rows, events[0]), events[1..])
  }

  function AfterAll(rows: seq<Delivery>, events: seq<Event>): seq<Delivery>
    requires AllPossible(rows, events)
    decreases |events|
  {
    if events == [] then rows else AfterAll(After(rows, events[0]), events[1..])
  }

  /** The worker's own batches, interrupted or not, are among these events. */
  lemma WorkerBatchIsPossible(rows: seq<Delivery>, limit: nat, patience: nat, weather: Weather)
    ensures var items := FirstOf(Claim(rows, 0, limit), patience);
            && Possible(rows, Batch(items, weather))
            && After(rows, Batch(items, weather)) == ProcessedUntil(rows, limit, patience, weather)
  {
    ClaimedArePending(rows, 0, limit);
  }

  /** Row `i` is posted in the event. */
  predicate IsPosted(rows: seq<Delivery>, e: Event, i: nat)
    requires Possible(rows, e)
  {
    e.Batch? && exists k | 0 <= k < |e.items| :: e.items[k] == i && Reached(rows, e.items, e.weather, k)
  }

  /** Row `i` is posted, but an exception escapes or the result is not recorded. */
  predicate IsLost(rows: seq<Delivery>, e: Event, i: nat)
    requires Possible(rows, e) && i < |rows|
  {
    IsPosted(rows, e, i) && (Escapes(rows[i], e.weather.reply(i)) || !e.weather.saved(i))
  }

  /** Requests sent and 2xx answers received. */
  datatype Tally = Tally(posts: nat, successes: nat) {
    function Plus(other: Tally): Tally {
      Tally(posts + other.posts, successes + other.successes)
    }
  }

  function CallTally(d: Delivery, reply: nat -> Reply): Tally {
    Tally(PostsOf(d, reply), SuccessesOf(d, reply))
  }

  function SentIn(rows: seq<Delivery>, e: Event, i: nat): Tally
    requires Possible(rows, e) && i < |rows|
  {
    if IsPosted(rows, e, i) then CallTally(rows[i], e.weather.reply(i)) else Tally(0, 0)
  }

  function LostIn(rows: seq<Delivery>, e: Event, i: nat): Tally
    requires Possible(rows, e) && i < |rows|
  {
    if IsLost(rows, e, i) then CallTally(rows[i], e.weather.reply(i)) else Tally(0, 0)
  }

  lemma RowsStay(rows: seq<Delivery>, e: Event)
    requires Possible(rows, e)
    ensures |rows| <= |After(rows, e)|
  {
    if e.Batch? {
      SameLength(rows, e.items, e.weather);
    }
  }

  lemma {:induction false} SameLength(rows: seq<Delivery>, items: seq<nat>, weather: Weather)
    requires AreIds(items, |rows|)
    ensures |Processed(rows, items, weather)| == |rows|
    decreases |items|
  {
    if items != [] {
      var i := items[0];
      var next := if rows[i].hasUrl then rows[i := Delivered(rows[i], weather.reply(i), weather.saved(i))] else rows;
      SameLength(next, items[1..], weather);
    }
  }

  /** What is sent for row `i` over the run. */
  ghost function Sent(rows: seq<Delivery>, events: seq<Event>, i: nat): Tally
    requires AllPossible(rows, events) && i < |rows|
    decreases |events|
  {
    if events == [] then Tally(0, 0)
    else
      RowsStay(rows, events[0]);
      SentIn(rows, events[0], i).Plus(Sent(After(rows, events[0]), events[1..], i))
  }

  /** The part of it that leaves no trace in the table. */
  ghost function Lost(rows: seq<Delivery>, events: seq<Event>, i: nat): Tally
    requires AllPossible(rows, events) && i < |rows|
    decreases |events|
  {
    if events == [] then Tally(0, 0)
    else
      RowsStay(rows, events[0]);
      LostIn(rows, events[0], i).Plus(Lost(After(rows, events[0]), events[1..], i))
  }

  /** What may become of a row: it is left alone, or its outcome is recorded with more attempts. */
  predicate Evolves(d: Delivery, after: Delivery) {
    && d.attempt <= after.attempt && (after.attempt <= MAX_ATTEMPTS || after.attempt == d.attempt)
    && (d.delivered ==> after.delivered)
    && (after.attempt == d.attempt ==> after.error == d.error && after.delivered == d.delivered)
    && (after.attempt != d.attempt ==> (after.delivered <==> after.error.None?))
  }

  /** The attempts used and the success cover what was sent, but for what was lost. */
  predicate Accounts(d: Delivery, after: Delivery, sent: Tally, lost: Tally) {
    && lost.posts <= sent.posts <= after.attempt - d.attempt + lost.posts
    && sent.successes == (if after.delivered && !d.delivered then 1 else 0) + lost.successes
  }

  /** What one event does to row `i`. */
  lemma EventRow(rows: seq<Delivery>, e: Event, i: nat)
    requires Possible(rows, e) && i < |rows|
    ensures i < |After(rows, e)|
    ensures e.Batch? ==>
              After(rows, e)[i] == if IsPosted(rows, e, i) then Delivered(rows[i], e.weather.reply(i), e.weather.saved(i)) else rows[i]
    ensures IsPosted(rows, e, i) ==> Pending(rows[i])
  {
    if e.Batch? {
      if i in e.items {
        var k :| 0 <= k < |e.items| && e.items[k] == i;
        BatchRowByRow(rows, e.items, e.weather, k);
      } else {
        UnclaimedStays(rows, e.items, e.weather, i);
      }
    }
  }

  lemma EventAccounts(rows: seq<Delivery>, e: Event, i: nat)
    requires Possible(rows, e) && i < |rows|
    ensures i < |After(rows, e)|
    ensures Evolves(rows[i], After(rows, e)[i])
    ensures Accounts(rows[i], After(rows, e)[i], SentIn(rows, e, i), LostIn(rows, e, i))
  {
    EventRow(rows, e, i);
    if IsPosted(rows, e, i) && !IsLost(rows, e, i) {
      CallAccounts(rows[i], e.weather.reply(i));
    }
  }

  /**
  Accounting for a row over any run, whatever raises and whatever is not recorded.  Its
  attempt number only grows, and not past 3, it stays delivered once it is, and a recorded
  outcome has an error exactly if it is no delivery.  But for the calls whose exception
  escaped or whose result was not recorded, it is sent at most as many requests as its
  attempt number grew, and got a 2xx answer at most once, exactly if it is now delivered.
  */
  lemma {:induction false} RunAccounts(rows: seq<Delivery>, events: seq<Event>, i: nat)
    requires AllPossible(rows, events) && i < |rows|
    ensures i < |AfterAll(rows, events)|
    ensures Evolves(rows[i], AfterAll(rows, events)[i])
    ensures Accounts(rows[i], AfterAll(rows, events)[i], Sent(rows, events, i), Lost(rows, events, i))
    decreases |events|
  {
    if events != [] {
      EventAccounts(rows, events[0], i);
      RunAccounts(After(rows, events[0]), events[1..], i);
    }
  }

  /** The call for row `i`, if one is reached, sends nothing, or is recorded without an exception. */
  predicate LosesNothing(rows: seq<Delivery>, e: Event, i: nat)
    requires Possible(rows, e) && i < |rows|
  {
    IsLost(rows, e, i) ==> PostsOf(rows[i], e.weather.reply(i)) == 0
  }

  ghost predicate NothingLost(rows: seq<Delivery>, events: seq<Event>, i: nat)
    requires AllPossible(rows, events) && i < |rows|
    decreases |events|
  {
    if events == [] then true
    else
      RowsStay(rows, events[0]);
      LosesNothing(rows, events[0], i) && NothingLost(After(rows, events[0]), events[1..], i)
  }

  lemma NothingLostInEvent(rows: seq<Delivery>, e: Event, i: nat)
    requires Possible(rows, e) && i < |rows|
    ensures i < |After(rows, e)|
    ensures LosesNothing(rows, e, i) <==> LostIn(rows, e, i).posts == 0
    ensures LostIn(rows, e, i).posts == 0 ==> LostIn(rows, e, i) == Tally(0, 0)
  {
    EventRow(rows, e, i);
    if IsLost(rows, e, i) {
      AttemptsAccount(rows[i].attempt + 1, NothingTried(rows[i].attempt), e.weather.reply(i));
    }
  }

  lemma LostInRun(rows: seq<Delivery>, events: seq<Event>, i: nat)
    requires AllPossible(rows, events) && i < |rows| && events != []
    ensures i < |After(rows, events[0])|
    ensures var later := Lost(After(rows, events[0]), events[1..], i);
            && (Lost(rows, events, i).posts == 0 <==> LosesNothing(rows, events[0], i) && later.posts == 0)
            && (Lost(rows, events, i).posts == 0 ==> Lost(rows, events, i) == later)
  {
    NothingLostInEvent(rows, events[0], i);
  }

  lemma {:induction false} NothingLostExactly(rows: seq<Delivery>, events: seq<Event>, i: nat)
    requires AllPossible(rows, events) && i < |rows|
    ensures NothingLost(rows, events, i) <==> Lost(rows, events, i).posts == 0
    ensures NothingLost(rows, events, i) ==> Lost(rows, events, i) == Tally(0, 0)
    decreases |events|
  {
    if events != [] {
      LostInRun(rows, events, i);
      NothingLostExactly(After(rows, events[0]), events[1..], i);
    }
  }

  ghost predicate AllCalm(events: seq<Event>) {
    forall k | 0 <= k < |events| && events[k].Batch? :: Calm(events[k].weather)
  }

  lemma {:induction false} CalmLosesNothing(rows: seq<Delivery>, events: seq<Event>, i: nat)
    requires AllPossible(rows, events) && AllCalm(events) && i < |rows|
    ensures NothingLost(rows, events, i)
    decreases |events|
  {
    if events != [] {
      assert forall k | 0 < k < |events| :: events[k] == events[1..][k - 1];
      if events[0].Batch? {
        CalmCall(rows[i], events[0].weather, i);
      }
      RowsStay(rows, events[0]);
      CalmLosesNothing(After(rows, events[0]), events[1..], i);
    }
  }

  /** A freshly enqueued row of which nothing is lost is sent at most two requests in its life, not three. */
  lemma FreshRowGetsTwoPosts(rows: seq<Delivery>, events: seq<Event>, i: nat)
    requires AllPossible(rows, events) && i < |rows| && rows[i] == Enqueued(rows[i].hasUrl) && NothingLost(rows, events, i)
    ensures Sent(rows, events, i).posts <= 2 && Sent(rows, events, i).successes <= 1
    ensures PostsOf(rows[i], _ => Answered(500)) == 2
  {
    RunAccounts(rows, events, i);
    NothingLostExactly(rows, events, i);
  }

  lemma RaisingBatch(rows: seq<Delivery>, weather: Weather)
    requires rows == [Enqueued(true)] && weather.reply(0)(2) == Answered(500) && weather.reply(0)(3) == Raised
    ensures Possible(rows, Batch([0], weather)) && After(rows, Batch([0], weather)) == rows
    ensures SentIn(rows, Batch([0], weather), 0).posts == 1
  {
    assert Escapes(rows[0], weather.reply(0)) && PostsOf(rows[0], weather.reply(0)) == 1;
    assert Reached(rows, [0], weather, 0) && [0 as nat][0] == 0;
  }

  /** Otherwise there is no limit: a fresh row whose second attempt fails and whose third one
      raises is sent one more request in every batch that claims it. */
  lemma {:induction false} RaisingRowIsPostedForever(rows: seq<Delivery>, weather: Weather, batches: seq<Event>)
    requires rows == [Enqueued(true)] && weather.reply(0)(2) == Answered(500) && weather.reply(0)(3) == Raised
    requires forall k | 0 <= k < |batches| :: batches[k] == Batch([0], weather)
    ensures AllPossible(rows, batches) && Sent(rows, batches, 0).posts == |batches|
    decreases |batches|
  {
    if batches != [] {
      RaisingBatch(rows, weather);
      RaisingRowIsPostedForever(rows, weather, batches[1..]);
    }
  }

  predicate NeverClaimed(events: seq<Event>, i: nat) {
    forall k | 0 <= k < |events| && events[k].Batch? :: i !in events[k].items
  }

  lemma SettledStays(rows: seq<Delivery>, e: Event, i: nat)
    requires Possible(rows, e) && i < |rows| && !Pending(rows[i])
    ensures i < |After(rows, e)| && !Pending(After(rows, e)[i])
    ensures (e.Batch? ==> i !in e.items) && SentIn(rows, e, i) == Tally(0, 0)
  {
    EventRow(rows, e, i);
  }

  /** In any run, a delivered or exhausted row is never claimed again, and no request is sent for it. */
  lemma {:induction false} SettledForGood(rows: seq<Delivery>, events: seq<Event>, i: nat)
    requires AllPossible(rows, events) && i < |rows| && !Pending(rows[i])
    ensures NeverClaimed(events, i) && Sent(rows, events, i) == Tally(0, 0)
    decreases |events|
  {
    if events != [] {
      SettledStays(rows, events[0], i);
      SettledForGood(After(rows, events[0]), events[1..], i);
      assert forall k | 0 < k < |events| :: events[k] == events[1..][k - 1];
    }
  }

  // ----- When results are lost -----

  ghost predicate NothingRecorded(rounds: seq<Round>) {
    forall k, i: nat | 0 <= k < |rounds| :: !rounds[k].weather.saved(i)
  }

  lemma {:induction false} UnrecordedBatch(rows: seq<Delivery>, items: seq<nat>, weather: Weather)
    requires AreIds(items, |rows|) && forall i: nat :: !weather.saved(i)
    ensures Processed(rows, items, weather) == rows
    decreases |items|
  {
    if items != [] {
      assert rows[items[0] := rows[items[0]]] == rows;
      UnrecordedBatch(rows, items[1..], weather);
    }
  }

  /** While no result is recorded every round claims and posts the same rows anew, even those
      that the endpoint accepts each time. */
  lemma {:induction false} UnrecordedRoundsRepeat(rows: seq<Delivery>, limit: nat, rounds: seq<Round>)
    requires NothingRecorded(rounds)
    ensures AfterRounds(rows, limit, rounds) == rows
    ensures forall i: nat, code | i < |rows| && Pending(rows[i]) && IsSuccess(code) :: SuccessesOf(rows[i], _ => Answered(code)) == 1
  {
    if rounds != [] {
      var last := rounds[|rounds| - 1];
      UnrecordedRoundsRepeat(rows, limit, rounds[..|rounds| - 1]);
      ClaimedArePending(rows, 0, limit);
      UnrecordedBatch(rows, FirstOf(Claim(rows, 0, limit), last.patience), last.weather);
    }
  }

  /** The k-th item is the first one with a URL, and it ends the batch. */
  predicate Poisons(rows: seq<Delivery>, items: seq<nat>, k: nat, weather: Weather)
    requires AreIds(items, |rows|)
  {
    && k < |items| && EndsBatch(rows, items, weather, k)
    && forall j | 0 <= j < k :: !rows[items[j]].hasUrl
  }

  lemma PoisonedBatch(rows: seq<Delivery>, items: seq<nat>, k: nat, weather: Weather)
    requires AreIds(items, |rows|) && Distinct(items) && Poisons(rows, items, k, weather)
    ensures Processed(rows, items, weather) == rows
  {
    BatchRowByRow(rows, items, weather, k);
    forall i | 0 <= i < |rows|
      ensures Processed(rows, items, weather)[i] == rows[i]
    {
      if i in items {
        var m :| 0 <= m < |items| && items[m] == i;
        BatchRowByRow(rows, items, weather, m);
      } else {
        UnclaimedStays(rows, items, weather, i);
      }
    }
  }

  ghost predicate AlwaysPoisoned(rows: seq<Delivery>, limit: nat, k: nat, rounds: seq<Round>)
    requires AreIds(Claim(rows, 0, limit), |rows|)
  {
    forall r | 0 <= r < |rounds| ::
      k < rounds[r].patience && Poisons(rows, Claim(rows, 0, limit), k, rounds[r].weather)
  }

  /** As long as the first row that the worker handles raises, the worker handles nothing else, ever. */
  lemma {:induction false} PoisonBlocksEverything(rows: seq<Delivery>, limit: nat, k: nat, rounds: seq<Round>)
    requires AreIds(Claim(rows, 0, limit), |rows|) && AlwaysPoisoned(rows, limit, k, rounds)
    ensures AfterRounds(rows, limit, rounds) == rows
  {
    if rounds != [] {
      var last, items := rounds[|rounds| - 1], Claim(rows, 0, limit);
      PoisonBlocksEverything(rows, limit, k, rounds[..|rounds| - 1]);
      ClaimedArePending(rows, 0, limit);
      assert Poisons(rows, items, k, last.weather);
      var first := FirstOf(items, last.patience);
      assert forall j | 0 <= j < |first| :: first[j] == items[j];
      assert Poisons(rows, first, k, last.weather);
      PoisonedBatch(rows, first, k, last.weather);
    }
  }

  /**
  It does happen: of two fresh deliveries the first one raises, at its second attempt, in
  every round.  The second one is never made, in however many rounds, although its very
  next request would succeed.
  */
  lemma {:induction false} PoisonedPair(rows: seq<Delivery>, weather: Weather, rounds: seq<Round>)
    requires rows == [Enqueued(true), Enqueued(true)]
    requires weather.reply(0)(2) == Raised && weather.reply(1)(2) == Answered(200)
    requires forall r | 0 <= r < |rounds| :: rounds[r].weather == weather && rounds[r].patience >= 2
    ensures AfterRounds(rows, 2, rounds) == rows
    ensures Delivered(rows[1], weather.reply(1), true).delivered
  {
    assert Claim(rows, 2, 0) == [] && Claim(rows, 1, 1) == [1] && Claim(rows, 0, 2) == [0, 1];
    assert Escapes(rows[0], weather.reply(0));
    PoisonBlocksEverything(rows, 2, 0, rounds);
  }

  // ----- One call in plain terms -----

  /** An answer that counts as delivery. */
  predicate Accepts(reply: Reply) {
    reply.Answered? && 200 <= reply.code < 300
  }

  /** Neither accepted, nor a rejected URL, nor an exception: another attempt follows, if one is left. */
  predicate GoesOn(reply: Reply) {
    reply.Failed? || (reply.Answered? && !(200 <= reply.code < 300))
  }

  /** Attempt `a` is made: it is not past the third, and every one after the `prior` ones and before it went on. */
  predicate IsMade(prior: nat, reply: nat -> Reply, a: nat) {
    prior < a <= 3 && forall b: nat | prior < b < a :: GoesOn(reply(b))
  }

  /** The state of the loop once attempts have gone on up to number `a`. */
  lemma {:induction false} LoopReaches(attempt: nat, sofar: Tried, reply: nat -> Reply, a: nat) returns (now: Tried)
    requires attempt <= a <= 3 && !sofar.escaped && forall b: nat | attempt <= b < a :: GoesOn(reply(b))
    ensures Attempts(attempt, sofar, reply) == Attempts(a, now, reply)
    ensures !now.escaped && now.posts == sofar.posts + (a - attempt) && now.successes == sofar.successes
    decreases a - attempt
  {
    if attempt == a {
      now := sofar;
    } else {
      var next := match reply(attempt)
        case Failed(reason) => Tried(None, Some(reason), attempt, false, sofar.posts + 1, sofar.successes)
        case Answered(code) => Tried(Some(code), None, attempt, false, sofar.posts + 1, sofar.successes)
        case _ => sofar;
      now := LoopReaches(attempt + 1, next, reply, a);
    }
  }

  /**
  The attempt that ends a call decides what is recorded.  An accepted one: delivered, with
  its code and its number and no error.  A rejected URL: not delivered, with the reason.  An
  exception: nothing at all.  The third attempt, if it goes on like the others: not
  delivered, with the last code or the last transport error.
  */
  lemma LastAttemptDecides(d: Delivery, reply: nat -> Reply, a: nat)
    requires !d.delivered && d.attempt < 3 && IsMade(d.attempt, reply, a) && (GoesOn(reply(a)) ==> a == 3)
    ensures Delivered(d, reply, true) ==
            match reply(a)
            case Answered(code) =>
              if 200 <= code < 300 then Delivery(a, true, Some(code), None, d.hasUrl)
              else Delivery(a, false, Some(code), Some("endpoint returned an error status"), d.hasUrl)
            case Failed(reason) => Delivery(a, false, None, Some(reason), d.hasUrl)
            case Rejected(reason) => Delivery(a, false, None, Some(reason), d.hasUrl)
            case Raised => d
    ensures Escapes(d, reply) <==> reply(a).Raised?
    ensures PostsOf(d, reply) == if reply(a).Rejected? || reply(a).Raised? then a - d.attempt - 1 else a - d.attempt
    ensures SuccessesOf(d, reply) == if Accepts(reply(a)) then 1 else 0
    ensures Delivered(d, reply, false) == d
  {
    var now := LoopReaches(d.attempt + 1, NothingTried(d.attempt), reply, a);
    assert Retried(d.attempt, reply) == Attempts(a, now, reply);
  }

  /** There is exactly one attempt that ends the call. */
  lemma OneAttemptEnds(prior: nat, reply: nat -> Reply) returns (a: nat)
    requires prior < 3
    ensures IsMade(prior, reply, a) && (GoesOn(reply(a)) ==> a == 3)
    ensures forall b | IsMade(prior, reply, b) && (GoesOn(reply(b)) ==> b == 3) :: b == a
  {
    a := prior + 1;
    while a < 3 && GoesOn(reply(a))
      invariant IsMade(prior, reply, a)
    {
      a := a + 1;
    }
  }

  /** A recorded call delivers if and only if an attempt that is made is answered with a 2xx code. */
  lemma DeliversExactly(d: Delivery, reply: nat -> Reply)
    requires !d.delivered && d.attempt < 3
    ensures Delivered(d, reply, true).delivered <==>
            exists a :: IsMade(d.attempt, reply, a) && Accepts(reply(a))
  {
    var a := OneAttemptEnds(d.attempt, reply);
    LastAttemptDecides(d, reply, a);
    if Accepts(reply(a)) {
      assert IsMade(d.attempt, reply, a) && Accepts(reply(a));
    }
  }

  /** What is claimed is neither delivered nor at its third attempt; a call for any other row does nothing. */
  lemma PendingInPlainTerms(rows: seq<Delivery>, limit: nat, i: nat, reply: nat -> Reply, saved: bool)
    requires i < |rows|
    ensures i in Claim(rows, 0, limit) ==> !rows[i].delivered && rows[i].attempt < 3
    ensures |rows| <= limit && !rows[i].delivered && rows[i].attempt < 3 ==> i in Claim(rows, 0, limit)
    ensures rows[i].attempt >= 3 ==> Delivered(rows[i], reply, saved) == rows[i] && PostsOf(rows[i], reply) == SuccessesOf(rows[i], reply) == 0
  {
    ClaimedArePending(rows, 0, limit);
    if |rows| <= limit && !rows[i].delivered && rows[i].attempt < 3 {
      AllPendingClaimed(rows, 0, limit, i);
    }
  }

  lemma {:induction false} AllPendingClaimed(rows: seq<Delivery>, from: nat, limit: nat, i: nat)
    requires from <= i < |rows| && |rows| - from <= limit && Pending(rows[i])
    ensures i in Claim(rows, from, limit)
    decreases |rows| - from
  {
    if from < i {
      AllPendingClaimed(rows, from + 1, if Pending(rows[from]) then limit - 1 else limit, i);
    }
  }
}
