/**
The audit trail: what `record_and_dispatch` records about every change, the webhook events
it raises, and how far the trail tells a row's history.
*/
module AuditTrail {
  import opened FieldDiffs

  // ----- Events -----

  /** `event_for`. */
  function EventFor<V>(action: string, changes: Changes<V>): string {
    if action == "updated" && ("state" in changes || "status" in changes) then "status_changed" else action
  }

  /** An update of a record with a status and no state raises `status_changed` exactly if the status differs. */
  lemma StatusChangedExactly<V>(k: Values<V>, before: Record<V>, after: Record<V>, changes: Changes<V>)
    requires "status" in after && "state" !in after && IsDiff(k, before, after, changes)
    ensures EventFor("updated", changes) == "status_changed" <==> !k.same(Get(k, before, "status"), after["status"])
  {
    assert "status" != SKIPPED;
  }

  datatype AuditEvent<V> = AuditEvent(entity: string, action: string, changes: Changes<V>, snapshot: Record<V>)

  datatype Trigger = Trigger(tenant: string, project: string, entity: string, event: string, enabled: bool)

  /** A webhook delivery as it is enqueued. */
  datatype Dispatch<V> = Dispatch(trigger: nat, event: string, changes: Changes<V>, snapshot: Record<V>)

  predicate Matches(t: Trigger, tenant: string, project: string, entity: string, event: string) {
    t.tenant == tenant && t.project == project && t.entity == entity && t.event == event && t.enabled
  }

  function DispatchOf<V>(trigger: nat, e: AuditEvent<V>): Dispatch<V> {
    Dispatch(trigger, e.entity + "." + EventFor(e.action, e.changes), e.changes, e.snapshot)
  }

  /** One dispatch for each of the first n triggers that matches. */
  function Dispatches<V>(triggers: seq<Trigger>, n: nat, tenant: string, project: string, e: AuditEvent<V>): seq<Dispatch<V>>
    requires n <= |triggers|
  {
    if n == 0 then []
    else
      var ds := Dispatches(triggers, n - 1, tenant, project, e);
      if Matches(triggers[n - 1], tenant, project, e.entity, EventFor(e.action, e.changes)) then ds + [DispatchOf(n - 1, e)] else ds
  }

  predicate Dispatched<V>(ds: seq<Dispatch<V>>, t: nat) {
    exists i | 0 <= i < |ds| :: ds[i].trigger == t
  }

  lemma DispatchedOneMore<V>(ds: seq<Dispatch<V>>, d: Dispatch<V>, t: nat)
    ensures Dispatched(ds + [d], t) <==> Dispatched(ds, t) || d.trigger == t
  {
    if Dispatched(ds, t) {
      var i :| 0 <= i < |ds| && ds[i].trigger == t;
      assert (ds + [d])[i].trigger == t;
    }
    assert (ds + [d])[|ds|] == d;
  }

  /** Every matching trigger, and no other, gets a dispatch, and none gets two. */
  lemma {:induction false} OneDispatchPerTrigger<V>(triggers: seq<Trigger>, n: nat, tenant: string, project: string, e: AuditEvent<V>, t: nat)
    requires n <= |triggers|
    ensures var ds := Dispatches(triggers, n, tenant, project, e);
            && (Dispatched(ds, t) <==> t < n && Matches(triggers[t], tenant, project, e.entity, EventFor(e.action, e.changes)))
            && (forall i | 0 <= i < |ds| :: ds[i].trigger < n && ds[i] == DispatchOf(ds[i].trigger, e))
            && (forall i, j | 0 <= i < j < |ds| :: ds[i].trigger != ds[j].trigger)
  {
    if n > 0 {
      OneDispatchPerTrigger(triggers, n - 1, tenant, project, e, t);
      DispatchedOneMore(Dispatches(triggers, n - 1, tenant, project, e), DispatchOf(n - 1, e), t);
    }
  }

  /** The event that an action raises: a change of state or status, or the action itself. */
  function RaisedEvent<V>(e: AuditEvent<V>): string {
    if e.action == "updated" && (exists f | f in e.changes :: f == "state" || f == "status") then "status_changed" else e.action
  }

  /**
  Which triggers get a delivery: the enabled ones of the tenant, the project and the entity
  for the raised event, each a single one, named by entity and event, with the recorded
  changes and snapshot.
  */
  lemma DispatchesInPlainTerms<V>(triggers: seq<Trigger>, tenant: string, project: string, e: AuditEvent<V>, t: nat)
    ensures var ds := Dispatches(triggers, |triggers|, tenant, project, e);
            && ((exists i | 0 <= i < |ds| :: ds[i].trigger == t) <==>
                  t < |triggers| && triggers[t] == Trigger(tenant, project, e.entity, RaisedEvent(e), true))
            && (forall i | 0 <= i < |ds| :: ds[i] == Dispatch(ds[i].trigger, e.entity + "." + RaisedEvent(e), e.changes, e.snapshot))
            && (forall i, j | 0 <= i < j < |ds| :: ds[i].trigger != ds[j].trigger)
  {
    assert RaisedEvent(e) == EventFor(e.action, e.changes);
    OneDispatchPerTrigger(triggers, |triggers|, tenant, project, e, t);
  }

  class EventsService<V> {
    const values: Values<V>
    const triggers: seq<Trigger>
    var audit: seq<AuditEvent<V>>
    var outbox: seq<Dispatch<V>>

    constructor (values: Values<V>, triggers: seq<Trigger>)
      ensures this.values == values && this.triggers == triggers && audit == [] && outbox == []
    {
      this.values, this.triggers, audit, outbox := values, triggers, [], [];
    }

    /** `record_and_dispatch`; without a tenant or a project nothing is recorded. */
    method RecordAndDispatch(entity: string, action: string, record: Record<V>, changes: Changes<V>, tenant: string, project: string)
      modifies this
      ensures var e := AuditEvent(entity, action, changes, Snapshot(values, record));
              if tenant == "" || project == "" then audit == old(audit) && outbox == old(outbox)
              else audit == old(audit) + [e] && outbox == old(outbox) + Dispatches(triggers, |triggers|, tenant, project, e)
    {
      if tenant == "" || project == "" {
        return;
      }
      var event := EventFor(action, changes);
      var e := AuditEvent(entity, action, changes, Snapshot(values, record));
      audit := audit + [e];
      for i := 0 to |triggers|
        invariant audit == old(audit) + [e]
        invariant outbox == old(outbox) + Dispatches(triggers, i, tenant, project, e)
      {
        if Matches(triggers[i], tenant, project, entity, event) {
          outbox := outbox + [Dispatch(i, entity + "." + event, changes, e.snapshot)];
        }
      }
    }
  }

  // ----- Whole histories -----

  /** Rows of one table have the same columns. */
  predicate OneTable<V>(rows: seq<Record<V>>) {
    forall i, j | 0 <= i < j < |rows| :: rows[i].Keys == rows[j].Keys
  }

  /** What `record_and_dispatch` records for a creation, and for an update. */
  ghost predicate IsCreation<V>(k: Values<V>, entity: string, row: Record<V>, e: AuditEvent<V>) {
    e.entity == entity && e.action == "created" && IsSnapshot(k, row, e.snapshot)
  }

  ghost predicate IsUpdate<V>(k: Values<V>, entity: string, before: Record<V>, after: Record<V>, e: AuditEvent<V>) {
    e.entity == entity && e.action == "updated" && IsDiff(k, before, after, e.changes) && IsSnapshot(k, after, e.snapshot)
  }

  /** The trail of a row that was created as rows[0] and then updated to rows[1], rows[2] and so on. */
  ghost predicate IsTrail<V>(k: Values<V>, entity: string, rows: seq<Record<V>>, trail: seq<AuditEvent<V>>) {
    && |trail| == |rows| && rows != []
    && IsCreation(k, entity, rows[0], trail[0])
    && forall i | 0 < i < |trail| :: IsUpdate(k, entity, rows[i - 1], rows[i], trail[i])
  }

  /** The created snapshot with the diffs of the n events after it applied. */
  function Reconstructed<V>(trail: seq<AuditEvent<V>>, n: nat): Record<V>
    requires n < |trail|
  {
    if n == 0 then trail[0].snapshot else Applied(Reconstructed(trail, n - 1), trail[n].changes)
  }

  /**
  The trail is a faithful history: after any sequence of updates the created snapshot with
  all later diffs applied agrees with the current row, `updated_at` aside.
  */
  lemma {:induction false} TrailTellsTheRow<V(!new)>(k: Values<V>, entity: string, rows: seq<Record<V>>, trail: seq<AuditEvent<V>>, n: nat)
    requires Lawful(k) && IsTrail(k, entity, rows, trail) && OneTable(rows) && n < |rows|
    ensures Agrees(k, Reconstructed(trail, n), rows[n])
  {
    if n > 0 {
      TrailTellsTheRow(k, entity, rows, trail, n - 1);
      assert IsUpdate(k, entity, rows[n - 1], rows[n], trail[n]);
      DiffKeepsAgreement(k, Reconstructed(trail, n - 1), rows[n - 1], rows[n], trail[n].changes);
    }
  }

  lemma ExactStep<V>(k: Values<V>, entity: string, rows: seq<Record<V>>, trail: seq<AuditEvent<V>>, n: nat)
    requires IsTrail(k, entity, rows, trail) && OneTable(rows) && 0 < n < |rows|
    requires AgreesExactly(k, Reconstructed(trail, n - 1), rows[n - 1])
    ensures AgreesExactly(k, Reconstructed(trail, n), rows[n]) <==> Lossless(k, rows[n - 1], rows[n])
  {
    assert IsUpdate(k, entity, rows[n - 1], rows[n], trail[n]);
    DiffIsExactIfLossless(k, Reconstructed(trail, n - 1), rows[n - 1], rows[n], trail[n].changes);
  }

  ghost predicate LosslessUpTo<V>(k: Values<V>, rows: seq<Record<V>>, n: nat) {
    forall i | 0 < i <= n && i < |rows| :: Lossless(k, rows[i - 1], rows[i])
  }

  lemma {:induction false} LosslessIsExact<V>(k: Values<V>, entity: string, rows: seq<Record<V>>, trail: seq<AuditEvent<V>>, n: nat)
    requires IsTrail(k, entity, rows, trail) && OneTable(rows) && n < |rows| && LosslessUpTo(k, rows, n)
    ensures AgreesExactly(k, Reconstructed(trail, n), rows[n])
  {
    if n > 0 {
      LosslessIsExact(k, entity, rows, trail, n - 1);
      ExactStep(k, entity, rows, trail, n);
    }
  }

  /** At every point of its history the row is told exactly. */
  ghost predicate AlwaysExact<V>(k: Values<V>, rows: seq<Record<V>>, trail: seq<AuditEvent<V>>) {
    |trail| == |rows| && forall n: nat | n < |rows| :: AgreesExactly(k, Reconstructed(trail, n), rows[n])
  }

  /**
  Exactly which histories the trail tells exactly: after every update the folded trail is
  the JSON-safe row, `updated_at` aside, if and only if no update ever changed a field's
  JSON by a value that compares equal to the old one.
  */
  lemma HistoryIsExactIfLossless<V>(k: Values<V>, entity: string, rows: seq<Record<V>>, trail: seq<AuditEvent<V>>)
    requires IsTrail(k, entity, rows, trail) && OneTable(rows)
    ensures AlwaysExact(k, rows, trail) <==> LosslessUpTo(k, rows, |rows|)
  {
    if AlwaysExact(k, rows, trail) {
      forall i | 0 < i < |rows|
        ensures Lossless(k, rows[i - 1], rows[i])
      {
        assert AgreesExactly(k, Reconstructed(trail, i - 1), rows[i - 1]) && AgreesExactly(k, Reconstructed(trail, i), rows[i]);
        ExactStep(k, entity, rows, trail, i);
      }
    }
    if LosslessUpTo(k, rows, |rows|) {
      forall n: nat | n < |rows|
        ensures AgreesExactly(k, Reconstructed(trail, n), rows[n])
      {
        LosslessIsExact(k, entity, rows, trail, n);
      }
    }
  }

  /** The latest row, up to the n-th, whose value of the field the trail recorded. */
  function LastRecorded<V>(k: Values<V>, rows: seq<Record<V>>, f: string, n: nat): (m: nat)
    requires n < |rows|
    ensures m <= n
  {
    if n == 0 || Differs(k, rows[n - 1], rows[n], f) then n else LastRecorded(k, rows, f, n - 1)
  }

  /** The folded trail in closed form: every field has the JSON that was recorded last. */
  lemma {:induction false} ReconstructedField<V>(k: Values<V>, entity: string, rows: seq<Record<V>>, trail: seq<AuditEvent<V>>, n: nat, f: string)
    requires IsTrail(k, entity, rows, trail) && OneTable(rows) && n < |rows| && f in rows[n] && f != SKIPPED
    ensures f in rows[LastRecorded(k, rows, f, n)]
    ensures f in Reconstructed(trail, n) && Reconstructed(trail, n)[f] == k.safe(rows[LastRecorded(k, rows, f, n)][f])
  {
    if n > 0 {
      assert rows[n - 1].Keys == rows[n].Keys;
      ReconstructedField(k, entity, rows, trail, n - 1, f);
      assert IsUpdate(k, entity, rows[n - 1], rows[n], trail[n]);
      assert f in trail[n].changes <==> Differs(k, rows[n - 1], rows[n], f);
    }
  }

  /** The trail tells the n-th row exactly if and only if no field's JSON has moved since it was last recorded. */
  ghost predicate NothingDrifted<V>(k: Values<V>, rows: seq<Record<V>>, n: nat)
    requires OneTable(rows) && n < |rows|
  {
    forall f | f in rows[n] && f != SKIPPED ::
      var m := LastRecorded(k, rows, f, n);
      f in rows[m] && k.safe(rows[m][f]) == k.safe(rows[n][f])
  }

  lemma {:induction false} ReconstructedFields<V>(k: Values<V>, entity: string, rows: seq<Record<V>>, trail: seq<AuditEvent<V>>, n: nat)
    requires IsTrail(k, entity, rows, trail) && OneTable(rows) && n < |rows|
    ensures Reconstructed(trail, n).Keys == rows[n].Keys
  {
    if n > 0 {
      ReconstructedFields(k, entity, rows, trail, n - 1);
      assert IsUpdate(k, entity, rows[n - 1], rows[n], trail[n]);
      assert rows[n - 1].Keys == rows[n].Keys;
    }
  }

  lemma RowIsExactIfNothingDrifted<V>(k: Values<V>, entity: string, rows: seq<Record<V>>, trail: seq<AuditEvent<V>>, n: nat)
    requires IsTrail(k, entity, rows, trail) && OneTable(rows) && n < |rows|
    ensures AgreesExactly(k, Reconstructed(trail, n), rows[n]) <==> NothingDrifted(k, rows, n)
  {
    ReconstructedFields(k, entity, rows, trail, n);
    forall f | f in rows[n] && f != SKIPPED
      ensures f in rows[LastRecorded(k, rows, f, n)]
      ensures f in Reconstructed(trail, n) && Reconstructed(trail, n)[f] == k.safe(rows[LastRecorded(k, rows, f, n)][f])
    {
      ReconstructedField(k, entity, rows, trail, n, f);
    }
  }

  // ----- A row that records its changes -----

  /** A row after an update: `updated_at` is set, sent columns are replaced, the others kept. */
  function UpdatedRow<V>(row: Record<V>, payload: Record<V>, now: V): (r: Record<V>)
    ensures r.Keys == row.Keys
  {
    map f | f in row :: if f == SKIPPED then now else if f in payload then payload[f] else row[f]
  }

  /** A stored row with everything the services recorded about it. */
  class AuditedRow<V> {
    const entity: string
    const events: EventsService<V>
    const tenant: string
    const project: string
    var row: Record<V>
    ghost var history: seq<Record<V>>

    ghost predicate Valid()
      reads this, events
    {
      && tenant != "" && project != ""
      && history != [] && row == history[|history| - 1]
      && OneTable(history)
      && IsTrail(events.values, entity, history, events.audit)
    }

    /** `create`. */
    constructor (entity: string, record: Record<V>, values: Values<V>, triggers: seq<Trigger>, tenant: string, project: string)
      requires tenant != "" && project != ""
      ensures Valid() && fresh(events) && this.entity == entity && events.values == values && row == record && history == [record]
    {
      var service := new EventsService(values, triggers);
      service.RecordAndDispatch(entity, "created", record, map[], tenant, project);
      this.entity, this.events, this.tenant, this.project := entity, service, tenant, project;
      row, history := record, [record];
    }

    /** `update`, with the prepared payload: an empty one changes and records nothing. */
    method Update(payload: Record<V>, now: V)
      requires Valid()
      modifies this, events
      ensures Valid()
      ensures history == if payload.Keys == {} then old(history) else old(history) + [UpdatedRow(old(row), payload, now)]
    {
      if payload.Keys == {} {
        return;
      }
      var record := UpdatedRow(row, payload, now);
      RecordUpdate(record);
      row, history := record, history + [record];
    }

    /** The audit side of an update. */
    method RecordUpdate(record: Record<V>)
      requires tenant != "" && project != ""
      modifies events
      ensures |events.audit| == |old(events.audit)| + 1 && old(events.audit) <= events.audit
      ensures IsUpdate(events.values, entity, row, record, events.audit[|events.audit| - 1])
    {
      var changes := DiffRecords(events.values, row, record);
      events.RecordAndDispatch(entity, "updated", record, changes, tenant, project);
    }
  }

  /** Whatever updates were made, the recorded trail tells the current row. */
  lemma AuditedRowIsFaithful<V(!new)>(p: AuditedRow<V>)
    requires p.Valid() && Lawful(p.events.values)
    ensures Agrees(p.events.values, Reconstructed(p.events.audit, |p.events.audit| - 1), p.row)
  {
    TrailTellsTheRow(p.events.values, p.entity, p.history, p.events.audit, |p.history| - 1);
  }
}
