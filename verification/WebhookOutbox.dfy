/**
The webhook outbox: claiming pending delivery rows, posting each with inline retries, and
recording the result.  What the endpoints answer, whether recording succeeds, and when a
shutdown signal arrives are parameters.
*/
module WebhookOutbox {
  import opened Wrappers

  const MAX_ATTEMPTS: nat := 3

  /** A stored delivery; `hasUrl` is false when its trigger is gone. */
  datatype Delivery = Delivery(
    attempt: nat,
    delivered: bool,
    response: Option<int>,
    error: Option<string>,
    hasUrl: bool)

  /** A freshly enqueued row starts at attempt 1, before any request was made. */
  function Enqueued(hasUrl: bool): Delivery {
    Delivery(1, false, None, None, hasUrl)
  }

  /**
  What one attempt meets: a URL that validation rejects, an HTTP answer, a transport
  error, or an exception that escapes (the client validates the URL again, outside any
  handler, before it sends).
  */
  datatype Reply = Rejected(reason: string) | Answered(code: int) | Failed(reason: string) | Raised

  predicate IsSuccess(code: int) {
    200 <= code < 300
  }

  predicate Pending(d: Delivery) {
    !d.delivered && d.attempt < MAX_ATTEMPTS
  }

  // ----- Inline retries -----

  /** The result of the retry loop; `posts` and `successes` count requests sent and 2xx answers. */
  datatype Tried = Tried(
    response: Option<int>,
    error: Option<string>,
    attempts: nat,
    escaped: bool,
    posts: nat,
    successes: nat)

  /** The attempts from number `attempt` on, after `sofar`. */
  function Attempts(attempt: nat, sofar: Tried, reply: nat -> Reply): Tried
    decreases MAX_ATTEMPTS + 1 - attempt
  {
    if attempt > MAX_ATTEMPTS then sofar
    else match reply(attempt)
      case Rejected(reason) => sofar.(response := None, error := Some(reason), attempts := attempt)
      case Raised => sofar.(attempts := attempt, escaped := true)
      case Failed(reason) =>
        Attempts(attempt + 1, Tried(None, Some(reason), attempt, false, sofar.posts + 1, sofar.successes), reply)
      case Answered(code) =>
        if IsSuccess(code) then Tried(Some(code), None, attempt, false, sofar.posts + 1, sofar.successes + 1)
        else Attempts(attempt + 1, Tried(Some(code), None, attempt, false, sofar.posts + 1, sofar.successes), reply)
  }

  function NothingTried(prior: nat): Tried {
    Tried(None, None, prior, false, 0, 0)
  }

  function Retried(prior: nat, reply: nat -> Reply): Tried {
    Attempts(prior + 1, NothingTried(prior), reply)
  }

  /** `_post_with_retries`. */
  method PostWithRetries(prior: nat, reply: nat -> Reply) returns (t: Tried)
    ensures t == Retried(prior, reply)
  {
    t := NothingTried(prior);
    var attempt := prior + 1;
    while attempt <= MAX_ATTEMPTS
      invariant Attempts(attempt, t, reply) == Retried(prior, reply)
      decreases MAX_ATTEMPTS + 1 - attempt
    {
      match reply(attempt) {
        case Rejected(reason) =>
          return t.(response := None, error := Some(reason), attempts := attempt);
        case Raised =>
          return t.(attempts := attempt, escaped := true);
        case Failed(reason) =>
          t := Tried(None, Some(reason), attempt, false, t.posts + 1, t.successes);
        case Answered(code) =>
          if IsSuccess(code) {
            return Tried(Some(code), None, attempt, false, t.posts + 1, t.successes + 1);
          }
          t := Tried(Some(code), None, attempt, false, t.posts + 1, t.successes);
      }
      attempt := attempt + 1;
    }
  }

  // ----- One delivery -----

  predicate IsDelivered(t: Tried) {
    t.response.Some? && IsSuccess(t.response.value)
  }

  const ENDPOINT_RETURNED := "endpoint returned an error status"

  /** The row as `update_result` writes it after the attempts `t`. */
  function Recorded(d: Delivery, t: Tried): Delivery {
    var delivered := IsDelivered(t);
    d.(response := t.response,
       error := if !delivered && t.error.None? then Some(ENDPOINT_RETURNED) else t.error,
       attempt := t.attempts,
       delivered := delivered)
  }

  /** What one call of `deliver_webhook` leaves; `saved` says whether recording succeeds. */
  function Delivered(d: Delivery, reply: nat -> Reply, saved: bool): Delivery {
    var t := Retried(d.attempt, reply);
    if d.attempt >= MAX_ATTEMPTS || t.escaped || !saved then d else Recorded(d, t)
  }

  predicate Escapes(d: Delivery, reply: nat -> Reply) {
    d.attempt < MAX_ATTEMPTS && Retried(d.attempt, reply).escaped
  }

  function PostsOf(d: Delivery, reply: nat -> Reply): nat {
    if d.attempt >= MAX_ATTEMPTS then 0 else Retried(d.attempt, reply).posts
  }

  function SuccessesOf(d: Delivery, reply: nat -> Reply): nat {
    if d.attempt >= MAX_ATTEMPTS then 0 else Retried(d.attempt, reply).successes
  }

  // ----- One batch -----

  /** The ids of the first `limit` pending rows from `from` on, in id order. */
  function Claim(rows: seq<Delivery>, from: nat, limit: nat): seq<nat>
    decreases |rows| - from
  {
    if from >= |rows| || limit == 0 then []
    else if Pending(rows[from]) then [from] + Claim(rows, from + 1, limit - 1)
    else Claim(rows, from + 1, limit)
  }

  /** What a batch meets: the replies per row and attempt, and whether each result is recorded. */
  datatype Weather = Weather(reply: nat -> nat -> Reply, saved: nat -> bool)

  predicate AreIds(items: seq<nat>, n: nat) {
    forall k | 0 <= k < |items| :: items[k] < n
  }

  /** The rows after the claimed items are gone through in turn; an escaping exception ends the batch. */
  function Processed(rows: seq<Delivery>, items: seq<nat>, weather: Weather): seq<Delivery>
    requires AreIds(items, |rows|)
    decreases |items|
  {
    if items == [] then rows
    else
      var i := items[0];
      if !rows[i].hasUrl then Processed(rows, items[1..], weather)
      else if Escapes(rows[i], weather.reply(i)) then rows
      else Processed(rows[i := Delivered(rows[i], weather.reply(i), weather.saved(i))], items[1..], weather)
  }

  /** How many of the items are handled: those with a URL, up to the first one from which an exception escapes. */
  function HandledCount(rows: seq<Delivery>, items: seq<nat>, weather: Weather): nat
    requires AreIds(items, |rows|)
    decreases |items|
  {
    if items == [] then 0
    else
      var i := items[0];
      if !rows[i].hasUrl then HandledCount(rows, items[1..], weather)
      else if Escapes(rows[i], weather.reply(i)) then 0
      else 1 + HandledCount(rows[i := Delivered(rows[i], weather.reply(i), weather.saved(i))], items[1..], weather)
  }

  lemma {:induction false} ClaimedArePending(rows: seq<Delivery>, from: nat, limit: nat)
    ensures var items := Claim(rows, from, limit);
            && AreIds(items, |rows|)
            && (forall k | 0 <= k < |items| :: from <= items[k] && Pending(rows[items[k]]))
            && (forall k, l | 0 <= k < l < |items| :: items[k] < items[l])
    decreases |rows| - from
  {
    if from < |rows| && limit > 0 {
      if Pending(rows[from]) {
        var items, later := Claim(rows, from, limit), Claim(rows, from + 1, limit - 1);
        ClaimedArePending(rows, from + 1, limit - 1);
        assert items[0] == from && forall k | 0 < k < |items| :: items[k] == later[k - 1];
      } else {
        ClaimedArePending(rows, from + 1, limit);
      }
    }
  }

  /** The rows after one uninterrupted batch. */
  function AfterBatch(rows: seq<Delivery>, limit: nat, weather: Weather): seq<Delivery> {
    ClaimedArePending(rows, 0, limit);
    Processed(rows, Claim(rows, 0, limit), weather)
  }

  function FirstOf(items: seq<nat>, n: nat): (first: seq<nat>)
    ensures first <= items && |first| == if n < |items| then n else |items|
  {
    items[..if n < |items| then n else |items|]
  }

  /** The rows after a batch whose worker is told to shut down once `patience` items are looked at. */
  function ProcessedUntil(rows: seq<Delivery>, limit: nat, patience: nat, weather: Weather): seq<Delivery> {
    ClaimedArePending(rows, 0, limit);
    Processed(rows, FirstOf(Claim(rows, 0, limit), patience), weather)
  }

  function HandledUntil(rows: seq<Delivery>, limit: nat, patience: nat, weather: Weather): nat {
    ClaimedArePending(rows, 0, limit);
    HandledCount(rows, FirstOf(Claim(rows, 0, limit), patience), weather)
  }

  /** One round of the worker's loop: what its batch meets and how soon it is interrupted. */
  datatype Round = Round(weather: Weather, patience: nat)

  function AfterRounds(rows: seq<Delivery>, limit: nat, rounds: seq<Round>): seq<Delivery> {
    if rounds == [] then rows
    else
      var last := rounds[|rounds| - 1];
      ProcessedUntil(AfterRounds(rows, limit, rounds[..|rounds| - 1]), limit, last.patience, last.weather)
  }

  class DeliveryTable {
    var rows: seq<Delivery>

    constructor (rows: seq<Delivery>)
      ensures this.rows == rows
    {
      this.rows := rows;
    }

    /** `create`, with the column defaults. */
    method Create(hasUrl: bool) returns (id: nat)
      modifies this
      ensures rows == old(rows) + [Enqueued(hasUrl)] && id == |old(rows)|
    {
      id := |rows|;
      rows := rows + [Delivery(1, false, None, None, hasUrl)];
    }

    /** `claim_pending_batch`. */
    method ClaimPendingBatch(limit: nat) returns (items: seq<nat>)
      ensures items == Claim(rows, 0, limit)
    {
      items := [];
      var i := 0;
      while i < |rows| && |items| < limit
        invariant i <= |rows| && |items| <= limit
        invariant items + Claim(rows, i, limit - |items|) == Claim(rows, 0, limit)
      {
        if !rows[i].delivered && rows[i].attempt < MAX_ATTEMPTS {
          items := items + [i];
        }
        i := i + 1;
      }
    }

    /** `update_result`. */
    method UpdateResult(id: nat, response: Option<int>, error: Option<string>, attempt: nat, delivered: bool)
      requires id < |rows|
      modifies this
      ensures rows == old(rows)[id := Delivery(attempt, delivered, response, error, old(rows)[id].hasUrl)]
    {
      rows := rows[id := rows[id].(response := response, error := error, attempt := attempt, delivered := delivered)];
    }
  }

  class WebhookDeliveryWorker {
    const table: DeliveryTable
    const batchSize: nat
    var isRunning: bool
    var shutdown: bool
    var shutdownInitiated: bool

    constructor (table: DeliveryTable, batchSize: nat)
      ensures this.table == table && this.batchSize == batchSize
      ensures !isRunning && !shutdown && !shutdownInitiated
    {
      this.table, this.batchSize := table, batchSize;
      isRunning, shutdown, shutdownInitiated := false, false, false;
    }

    /** `deliver_webhook`; `escaped` stands for an exception that leaves it. */
    method DeliverWebhook(id: nat, reply: nat -> Reply, saved: bool) returns (escaped: bool)
      requires id < |table.rows|
      modifies table
      ensures escaped == Escapes(old(table.rows)[id], reply)
      ensures table.rows == old(table.rows)[id := Delivered(old(table.rows)[id], reply, saved)]
    {
      var prior := table.rows[id].attempt;
      if prior >= MAX_ATTEMPTS {
        return false;
      }
      var t := PostWithRetries(prior, reply);
      if t.escaped {
        return true;
      }
      var delivered := IsDelivered(t);
      var error := t.error;
      if !delivered && error.None? {
        error := Some(ENDPOINT_RETURNED);
      }
      if saved {
        table.UpdateResult(id, t.response, error, t.attempts, delivered);
      }
      escaped := false;
    }

    /**
    `_process_batch`; a shutdown signal arrives once `patience` items have been looked at
    (never, if the batch is no longer than that).
    */
    method ProcessBatch(weather: Weather, patience: nat) returns (processed: nat)
      modifies table, this`shutdown
      ensures |table.rows| == |old(table.rows)|
      ensures table.rows == ProcessedUntil(old(table.rows), batchSize, if old(shutdown) then 0 else patience, weather)
      ensures old(shutdown) ==> shutdown && processed == 0
      ensures processed == HandledUntil(old(table.rows), batchSize, if old(shutdown) then 0 else patience, weather)
    {
      var items := table.ClaimPendingBatch(batchSize);
      ghost var start := table.rows;
      ghost var until := if shutdown then 0 else patience;
      ClaimedArePending(start, 0, batchSize);
      ghost var list := FirstOf(items, until);
      processed := 0;
      for k := 0 to |items|
        invariant k <= until && |table.rows| == |start|
        invariant shutdown == old(shutdown) && (shutdown ==> processed == 0)
        invariant AreIds(list[k..], |start|)
        invariant Processed(table.rows, list[k..], weather) == ProcessedUntil(start, batchSize, until, weather)
        invariant processed + HandledCount(table.rows, list[k..], weather) == HandledCount(start, list, weather)
      {
        if k == patience {
          shutdown := true;
        }
        if shutdown {
          break;
        }
        var id := items[k];
        assert list[k..][0] == id && list[k..][1..] == list[k + 1..];
        if !table.rows[id].hasUrl {
          continue;
        }
        var escaped := DeliverWebhook(id, weather.reply(id), weather.saved(id));
        if escaped {
          return;
        }
        processed := processed + 1;
      }
    }

    /**
    `run_forever`, up to a shutdown or to the end of `rounds` (a cancellation).  A worker that
    was stopped before processes nothing, and is left marked as running.
    */
    method RunForever(rounds: seq<Round>) returns (n: nat)
      modifies this, table
      ensures n <= |rounds| && table.rows == AfterRounds(old(table.rows), batchSize, rounds[..n])
      ensures n < |rounds| ==> shutdown
      ensures old(shutdown) ==> n == 0
      ensures shutdownInitiated && isRunning == old(shutdownInitiated)
    {
      isRunning := true;
      n := 0;
      while n < |rounds| && isRunning && !shutdown
        invariant n <= |rounds| && isRunning && shutdownInitiated == old(shutdownInitiated)
        invariant table.rows == AfterRounds(old(table.rows), batchSize, rounds[..n])
        invariant old(shutdown) ==> shutdown && n == 0
      {
        assert rounds[..n + 1][..n] == rounds[..n];
        var _ := ProcessBatch(rounds[n].weather, rounds[n].patience);
        n := n + 1;
      }
      Stop();
    }

    /** `stop`: takes effect once. */
    method Stop()
      modifies this
      ensures shutdownInitiated
      ensures !old(shutdownInitiated) ==> !isRunning && shutdown
      ensures old(shutdownInitiated) ==> isRunning == old(isRunning) && shutdown == old(shutdown)
    {
      if shutdownInitiated {
        return;
      }
      shutdownInitiated := true;
      isRunning := false;
      shutdown := true;
    }
  }
}
