/**
Staff and vendor changes of work orders, and what they do to the children of a recurring
template.
*/
module TemplateRetirement {
  import opened Calendar
  import opened PartialUpdate
  import opened Recurrence
  import opened RecurringChain
  import opened RecurringScheduler
  import opened WorkOrders
  import opened Wrappers

  datatype Change = Change(
    state: Field<State>,
    scheduled: Field<Day>,
    started: Field<Day>,
    assets: Field<seq<string>>,
    isRecurring: Field<bool>,
    frequency: Field<Frequency>,
    days: Field<seq<RawDay>>,
    recurringEnd: Field<Day>,
    descriptive: bool)  // some other field is sent, such as the title, with a value, or the description, if only as null

  datatype Error = NotFound

  /** `_prepare_update_payload` drops nulls, except of the fields that may be cleared. */
  predicate IsEmptyPayload(ch: Change) {
    && !ch.state.Given? && !ch.assets.Given? && !ch.isRecurring.Given? && !ch.frequency.Given? && !ch.days.Given?
    && !ch.scheduled.Sent() && !ch.started.Sent() && !ch.recurringEnd.Sent()
    && !ch.descriptive
  }

  /** The updated record. */
  function Applied(w: WorkOrder, ch: Change): WorkOrder {
    w.(state := Kept(ch.state, w.state),
       scheduled := KeptOrCleared(ch.scheduled, w.scheduled),
       started := KeptOrCleared(ch.started, w.started),
       assets := Kept(ch.assets, w.assets),
       isRecurring := Kept(ch.isRecurring, w.isRecurring),
       frequency := if ch.frequency.Given? then Some(ch.frequency.value) else w.frequency,
       days := Kept(ch.days, w.days),
       recurringEnd := KeptOrCleared(ch.recurringEnd, w.recurringEnd))
  }

  /** Some key of `RECURRING_FIELDS` was sent, with a value or as null. */
  predicate TouchesSchedule(ch: Change) {
    ch.isRecurring.Sent() || ch.frequency.Sent() || ch.days.Sent() || ch.scheduled.Sent() || ch.recurringEnd.Sent()
  }

  /** The note of the branch of `update` that cancels children, if one is taken. */
  function CancelNote(before: WorkOrder, ch: Change): Option<string> {
    var record := Applied(before, ch);
    if before.isRecurring && TouchesSchedule(ch) && record.isRecurring then Some("Recurring schedule changed")
    else if before.isRecurring && ch.isRecurring == Given(false) then Some("Recurring schedule disabled")
    else if before.isRecurring && ch.state == Given(Terminated) then Some("Cancelled \U{2014} template terminated")
    else None
  }

  function Cancelled(rows: seq<WorkOrder>, t: nat, note: string): seq<WorkOrder> {
    CancelChildren(rows, t, TimelineEvent("status_changed", Some(note)))
  }

  /** The table after a staff update. */
  function Updated(rows: seq<WorkOrder>, id: nat, ch: Change): seq<WorkOrder> {
    if !Exists(rows, id) || IsEmptyPayload(ch) then rows
    else
      var changed := rows[id := Applied(rows[id], ch)];
      match CancelNote(rows[id], ch)
      case None => changed
      case Some(note) => Cancelled(changed, id, note)
  }

  /** The table after a staff delete. */
  function Deleted(rows: seq<WorkOrder>, id: nat): seq<WorkOrder> {
    if !Exists(rows, id) then rows
    else
      var kept := if rows[id].isRecurring then Cancelled(rows, id, "Cancelled \U{2014} template deleted") else rows;
      kept[id := kept[id].(active := false)]
  }

  /** The table after a vendor update, which reaches no child. */
  function VendorUpdated(rows: seq<WorkOrder>, id: nat, ch: Change): seq<WorkOrder> {
    if !Exists(rows, id) || IsEmptyPayload(ch) then rows else rows[id := Applied(rows[id], ch)]
  }

  class WorkOrderService {
    const table: WorkOrderTable

    constructor (table: WorkOrderTable)
      ensures this.table == table
    {
      this.table := table;
    }

    /** `update`. */
    method Update(id: nat, ch: Change) returns (r: Result<WorkOrder, Error>)
      modifies table
      ensures table.rows == Updated(old(table.rows), id, ch)
      ensures r.Ok? <==> Exists(old(table.rows), id)
      ensures r.Ok? ==> r.value == if IsEmptyPayload(ch) then old(table.rows)[id] else Applied(old(table.rows)[id], ch)
    {
      if !Exists(table.rows, id) {
        return Err(NotFound);
      }
      var before := table.rows[id];
      if IsEmptyPayload(ch) {
        return Ok(before);
      }
      var wasTemplate := before.isRecurring;
      var recurringChanged := wasTemplate && TouchesSchedule(ch);
      var terminating := ch.state == Given(Terminated);
      var record := Applied(before, ch);
      table.rows := table.rows[id := record];
      if wasTemplate && recurringChanged && record.isRecurring {
        var _ := table.CancelRecurringChildren(id, "Recurring schedule changed");
      } else if wasTemplate && ch.isRecurring == Given(false) {
        var _ := table.CancelRecurringChildren(id, "Recurring schedule disabled");
      } else if wasTemplate && terminating {
        var _ := table.CancelRecurringChildren(id, "Cancelled \U{2014} template terminated");
      }
      r := Ok(record);
    }

    /** `delete`. */
    method Delete(id: nat) returns (r: Result<nat, Error>)
      modifies table
      ensures table.rows == Deleted(old(table.rows), id)
      ensures r == if Exists(old(table.rows), id) then Ok(id) else Err(NotFound)
    {
      if !Exists(table.rows, id) {
        return Err(NotFound);
      }
      if table.rows[id].isRecurring {
        var _ := table.CancelRecurringChildren(id, "Cancelled \U{2014} template deleted");
      }
      var deleted := table.SoftDelete(id);
      r := if deleted then Ok(id) else Err(NotFound);
    }

    /** `vendor_update`. */
    method VendorUpdate(id: nat, ch: Change) returns (r: Result<WorkOrder, Error>)
      modifies table
      ensures table.rows == VendorUpdated(old(table.rows), id, ch)
      ensures r.Ok? <==> Exists(old(table.rows), id)
      ensures r.Ok? ==> r.value == if IsEmptyPayload(ch) then old(table.rows)[id] else Applied(old(table.rows)[id], ch)
    {
      if !Exists(table.rows, id) {
        return Err(NotFound);
      }
      if IsEmptyPayload(ch) {
        return Ok(table.rows[id]);
      }
      var record := Applied(table.rows[id], ch);
      table.rows := table.rows[id := record];
      r := Ok(record);
    }
  }

  // ----- Retirement -----

  predicate NoOrphans(rows: seq<WorkOrder>, t: nat) {
    forall i | 0 <= i < |rows| :: !IsUnstartedChild(rows[i], t)
  }

  /** Everything but row `t` and its unstarted children is as before. */
  predicate OthersUntouched(rows: seq<WorkOrder>, after: seq<WorkOrder>, t: nat) {
    && |after| == |rows|
    && forall i | 0 <= i < |rows| && i != t && !IsUnstartedChild(rows[i], t) :: after[i] == rows[i]
  }

  /**
  Over every combination of changed fields: an update of a template cancels its unstarted
  children exactly when some schedule field was sent or the state was set to terminated,
  whatever else was sent along; otherwise it leaves all of them alone.
  */
  lemma UpdateCancelsExactly(rows: seq<WorkOrder>, id: nat, ch: Change)
    requires Exists(rows, id) && rows[id].isRecurring && !IsEmptyPayload(ch)
    ensures OthersUntouched(rows, Updated(rows, id, ch), id)
    ensures TouchesSchedule(ch) || ch.state == Given(Terminated) ==> NoOrphans(Updated(rows, id, ch), id)
    ensures !TouchesSchedule(ch) && ch.state != Given(Terminated) ==>
              forall i | 0 <= i < |rows| && i != id :: Updated(rows, id, ch)[i] == rows[i]
  {
    assert CancelNote(rows[id], ch).Some? <==> TouchesSchedule(ch) || ch.state == Given(Terminated);
  }

  /** Deleting a template leaves no live upcoming unstarted child, and touches nothing else. */
  lemma DeleteLeavesNoOrphans(rows: seq<WorkOrder>, id: nat)
    requires Exists(rows, id) && rows[id].isRecurring
    ensures NoOrphans(Deleted(rows, id), id) && OthersUntouched(rows, Deleted(rows, id), id)
    ensures !Deleted(rows, id)[id].active
  {
    var kept := Cancelled(rows, id, "Cancelled \U{2014} template deleted");
    assert NoOrphans(kept, id);
  }

  /** A sweep gives no row to a work order that is not a template (any more). */
  lemma SweepSkipsRetired(rows: seq<WorkOrder>, tenant: Option<string>, today: Day, t: nat)
    requires t < |rows| && !IsTemplate(rows[t]) && NoOrphans(rows, t)
    ensures var after := Sweep(rows, tenant, today);
            && |rows| <= |after| && !IsTemplate(after[t]) && NoOrphans(after, t)
            && forall i | |rows| <= i < |after| :: after[i].parent != Some(t)
  {
    var plans := Plans(rows, tenant, today);
    var after := Sweep(rows, tenant, today);
    forall i | |rows| <= i < |after|
      ensures after[i].parent != Some(t)
    {
      var u := ParentInSweep(rows, plans, i);
    }
    forall i | 0 <= i < |rows|
      ensures !IsUnstartedChild(after[i], t)
    {
      assert !IsUnstartedChild(rows[i], t);
    }
  }

  /** While a template stays retired, no run of sweeps on any days brings an orphan back. */
  lemma {:induction false} RetiredForGood(rows: seq<WorkOrder>, tenant: Option<string>, days: seq<Day>, t: nat)
    requires t < |rows| && !IsTemplate(rows[t]) && NoOrphans(rows, t)
    ensures NoOrphans(Sweeps(rows, tenant, days), t)
    decreases |days|
  {
    if days != [] {
      SweepSkipsRetired(rows, tenant, days[0], t);
      RetiredForGood(Sweep(rows, tenant, days[0]), tenant, days[1..], t);
    }
  }

  /** Retiring an update: the record is no longer a template afterwards. */
  predicate Retires(ch: Change) {
    ch.isRecurring == Given(false) || ch.state == Given(Terminated)
  }

  /** Disable or terminate a template, in whatever combination with other fields: no orphan is
      left, and none appears in any later run of sweeps. */
  lemma RetirementIsFinal(rows: seq<WorkOrder>, id: nat, ch: Change, tenant: Option<string>, days: seq<Day>)
    requires Exists(rows, id) && rows[id].isRecurring && Retires(ch)
    ensures NoOrphans(Sweeps(Updated(rows, id, ch), tenant, days), id)
  {
    UpdateCancelsExactly(rows, id, ch);
    var after := Updated(rows, id, ch);
    assert after[id].isRecurring == Applied(rows[id], ch).isRecurring;
    RetiredForGood(after, tenant, days, id);
  }

  lemma SweepKeepsOrphansOfRetired(rows: seq<WorkOrder>, tenant: Option<string>, today: Day, t: nat)
    requires t < |rows| && !IsTemplate(rows[t]) && !NoOrphans(rows, t)
    ensures var after := Sweep(rows, tenant, today);
            t < |after| && !IsTemplate(after[t]) && !NoOrphans(after, t)
  {
    var after := Sweep(rows, tenant, today);
    var i :| 0 <= i < |rows| && IsUnstartedChild(rows[i], t);
    assert IsUnstartedChild(after[i], t);
  }

  /** No run of sweeps cancels the unstarted children of a row that is no template (any more). */
  lemma {:induction false} OrphansStay(rows: seq<WorkOrder>, tenant: Option<string>, days: seq<Day>, t: nat)
    requires t < |rows| && !IsTemplate(rows[t]) && !NoOrphans(rows, t)
    ensures !NoOrphans(Sweeps(rows, tenant, days), t)
    decreases |days|
  {
    if days != [] {
      SweepKeepsOrphansOfRetired(rows, tenant, days[0], t);
      OrphansStay(Sweep(rows, tenant, days[0]), tenant, days[1..], t);
    }
  }

  /**
  A vendor who terminates a template cancels nothing, and no later run of sweeps does: there
  are orphans at the end exactly if the template had an unstarted child before.
  */
  lemma VendorTerminationKeepsOrphans(rows: seq<WorkOrder>, id: nat, ch: Change, tenant: Option<string>, days: seq<Day>)
    requires Exists(rows, id) && rows[id].parent != Some(id)
    requires ch.state == Given(Terminated)
    ensures NoOrphans(Sweeps(VendorUpdated(rows, id, ch), tenant, days), id) <==> NoOrphans(rows, id)
  {
    var after := VendorUpdated(rows, id, ch);
    assert forall i | 0 <= i < |rows| :: IsUnstartedChild(after[i], id) <==> IsUnstartedChild(rows[i], id);
    if NoOrphans(rows, id) {
      RetiredForGood(after, tenant, days, id);
    } else {
      var i :| 0 <= i < |rows| && IsUnstartedChild(rows[i], id);
      assert IsUnstartedChild(after[i], id);
      OrphansStay(after, tenant, days, id);
    }
  }

  // ----- In plain terms -----

  /** Something is sent that can be stored: any value, or null for a date that may be cleared. */
  predicate SendsSomething(ch: Change) {
    || ch.state.Given? || ch.assets.Given? || ch.isRecurring.Given? || ch.frequency.Given? || ch.days.Given?
    || ch.scheduled != Absent || ch.started != Absent || ch.recurringEnd != Absent
    || ch.descriptive
  }

  /** Column by column: a value sent is stored, null clears three of the dates and nothing else, and what is not sent stays. */
  predicate Stores(w: WorkOrder, ch: Change, after: WorkOrder) {
    && after == w.(state := after.state, scheduled := after.scheduled, started := after.started, assets := after.assets,
                   isRecurring := after.isRecurring, frequency := after.frequency, days := after.days, recurringEnd := after.recurringEnd)
    && after.state == (if ch.state.Given? then ch.state.value else w.state)
    && after.scheduled == (match ch.scheduled case Absent => w.scheduled case Null => None case Given(d) => Some(d))
    && after.started == (match ch.started case Absent => w.started case Null => None case Given(d) => Some(d))
    && after.assets == (if ch.assets.Given? then ch.assets.value else w.assets)
    && after.isRecurring == (if ch.isRecurring.Given? then ch.isRecurring.value else w.isRecurring)
    && after.frequency == (if ch.frequency.Given? then Some(ch.frequency.value) else w.frequency)
    && after.days == (if ch.days.Given? then ch.days.value else w.days)
    && after.recurringEnd == (match ch.recurringEnd case Absent => w.recurringEnd case Null => None case Given(d) => Some(d))
  }

  /** The row itself after a staff or vendor update. */
  lemma UpdatedRowInPlainTerms(rows: seq<WorkOrder>, id: nat, ch: Change)
    requires id < |rows| && rows[id].active && rows[id].parent != Some(id)
    ensures id < |Updated(rows, id, ch)| == |rows| && Stores(rows[id], ch, Updated(rows, id, ch)[id])
    ensures id < |VendorUpdated(rows, id, ch)| == |rows| && Stores(rows[id], ch, VendorUpdated(rows, id, ch)[id])
  {
  }

  /** Why an update cancels a template's children: one of five schedule fields is sent, and it stays
      a template; it is none any more; or it is terminated. */
  function ReasonToCancel(w: WorkOrder, ch: Change): Option<string> {
    if !w.isRecurring then None
    else if (ch.isRecurring != Absent || ch.frequency != Absent || ch.days != Absent || ch.scheduled != Absent || ch.recurringEnd != Absent)
            && ch.isRecurring != Given(false) then Some("Recurring schedule changed")
    else if ch.isRecurring == Given(false) then Some("Recurring schedule disabled")
    else if ch.state == Given(Terminated) then Some("Cancelled \U{2014} template terminated")
    else None
  }

  /** The other rows after a staff update: upcoming, unstarted children are terminated, with the
      reason noted, if there is one; a vendor update touches none. */
  lemma OtherRowsInPlainTerms(rows: seq<WorkOrder>, id: nat, ch: Change, i: nat)
    requires id < |rows| && rows[id].active && SendsSomething(ch) && i < |rows| && i != id
    ensures |Updated(rows, id, ch)| == |VendorUpdated(rows, id, ch)| == |rows|
    ensures var v, reason := rows[i], ReasonToCancel(rows[id], ch);
            Updated(rows, id, ch)[i] ==
            if reason.Some? && v.parent == Some(id) && v.active && v.state == Upcoming && v.started == None
            then v.(state := Terminated, timeline := v.timeline + [TimelineEvent("status_changed", reason)]) else v
    ensures VendorUpdated(rows, id, ch)[i] == rows[i]
  {
  }

  /** A missing or deleted row, or an update that sends nothing: no row is touched. */
  lemma NothingToUpdate(rows: seq<WorkOrder>, id: nat, ch: Change)
    requires !(id < |rows| && rows[id].active && SendsSomething(ch))
    ensures Updated(rows, id, ch) == VendorUpdated(rows, id, ch) == rows
  {
  }

  /** A staff delete marks the row, and terminates its upcoming, unstarted children if it is a template. */
  lemma DeleteInPlainTerms(rows: seq<WorkOrder>, id: nat, i: nat)
    requires id < |rows| && rows[id].active && rows[id].parent != Some(id) && i < |rows|
    ensures |Deleted(rows, id)| == |rows|
    ensures var v := rows[i];
            Deleted(rows, id)[i] ==
            if i == id then v.(active := false)
            else if rows[id].isRecurring && v.parent == Some(id) && v.active && v.state == Upcoming && v.started == None
            then v.(state := Terminated, timeline := v.timeline + [TimelineEvent("status_changed", Some("Cancelled \U{2014} template deleted"))])
            else v
  {
  }
}
