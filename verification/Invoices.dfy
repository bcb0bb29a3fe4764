/**
Vendor invoices: creating, updating and deleting them, and the timeline that records every
change of status.
*/
module Invoices {
  import opened Calendar
  import opened PartialUpdate
  import opened Text
  import opened WorkOrders
  import opened Wrappers

  datatype InvoiceStatus = Submitted | RevisionRequested | Resubmitted | Approved | Rejected | Paid

  datatype Invoice = Invoice(
    workOrder: nat,
    number: string,
    date: Option<Day>,
    status: InvoiceStatus,
    active: bool,
    payment: Option<nat>,
    timeline: seq<TimelineEvent>)

  /** What a caller sends to create an invoice. */
  datatype Draft = Draft(workOrder: nat, number: string, date: Option<Day>, status: Option<InvoiceStatus>, timeline: seq<TimelineEvent>)

  datatype InvoiceChange = InvoiceChange(
    number: Field<string>,
    date: Field<Day>,
    status: Field<InvoiceStatus>,
    payment: Field<nat>,
    descriptive: bool,  // some other field, such as the total, is sent with a value
    note: Option<string>)

  datatype Failure = Missing | DuplicateNumber

  predicate IsInvoice(rows: seq<Invoice>, id: nat) {
    id < |rows| && rows[id].active
  }

  /** Invoice numbers are unique among all rows, deleted ones included. */
  predicate NumberTaken(rows: seq<Invoice>, number: string, except: nat) {
    exists i | 0 <= i < |rows| && i != except :: rows[i].number == number
  }

  // ----- Creating -----

  /** `_prepare_create_payload`. */
  function Prepared(d: Draft): Invoice {
    Invoice(d.workOrder, Strip(d.number), d.date, d.status.GetOr(Submitted), true, None,
            if d.timeline == [] then [TimelineEvent("submitted", None)] else d.timeline)
  }

  // ----- Updating -----

  predicate IsEmptyInvoiceChange(ch: InvoiceChange) {
    !ch.number.Given? && !ch.date.Sent() && !ch.status.Given? && !ch.payment.Given? && !ch.descriptive
  }

  function Amended(v: Invoice, ch: InvoiceChange): Invoice {
    v.(number := if ch.number.Given? then Strip(ch.number.value) else v.number,
       date := KeptOrCleared(ch.date, v.date),
       status := Kept(ch.status, v.status),
       payment := if ch.payment.Given? then Some(ch.payment.value) else v.payment)
  }

  /** The timeline event of a status change; a change to `resubmitted` has none. */
  function EventFor(before: InvoiceStatus, after: InvoiceStatus): Option<string> {
    if before == after then None
    else
      match after
      case RevisionRequested => Some("revision_requested")
      case Approved => Some("approved")
      case Rejected => Some("rejected")
      case Paid => Some("paid")
      case Submitted => Some("resubmitted")
      case Resubmitted => None
  }

  function NoteOf(note: Option<string>): Option<string> {
    if note == Some("") then None else note
  }

  function WithStatusEvent(v: Invoice, before: InvoiceStatus, note: Option<string>): Invoice {
    match EventFor(before, v.status)
    case None => v
    case Some(kind) => v.(timeline := v.timeline + [TimelineEvent(kind, NoteOf(note))])
  }

  /** The record after an accepted update. */
  function AfterUpdate(v: Invoice, ch: InvoiceChange): Invoice {
    if IsEmptyInvoiceChange(ch) then v else WithStatusEvent(Amended(v, ch), v.status, ch.note)
  }

  predicate Clashes(rows: seq<Invoice>, id: nat, ch: InvoiceChange) {
    !IsEmptyInvoiceChange(ch) && ch.number.Given? && NumberTaken(rows, Strip(ch.number.value), id)
  }

  function UpdateResult(rows: seq<Invoice>, id: nat, ch: InvoiceChange): Result<Invoice, Failure> {
    if !IsInvoice(rows, id) then Err(Missing)
    else if Clashes(rows, id, ch) then Err(DuplicateNumber)
    else Ok(AfterUpdate(rows[id], ch))
  }

  class InvoiceTable {
    var rows: seq<Invoice>

    constructor (rows: seq<Invoice>)
      ensures this.rows == rows
    {
      this.rows := rows;
    }

    /** The unique constraint, checked against every other row. */
    method IsTaken(number: string, except: nat) returns (taken: bool)
      ensures taken == NumberTaken(rows, number, except)
    {
      for i := 0 to |rows|
        invariant forall j | 0 <= j < i && j != except :: rows[j].number != number
      {
        if i != except && rows[i].number == number {
          return true;
        }
      }
      return false;
    }

    /** `append_timeline`: None when the row is missing or soft-deleted. */
    method AppendTimeline(id: nat, event: TimelineEvent) returns (timeline: Option<seq<TimelineEvent>>)
      modifies this
      ensures timeline.Some? <==> IsInvoice(old(rows), id)
      ensures timeline.Some? ==> timeline.value == old(rows)[id].timeline + [event]
      ensures rows == if timeline.Some? then old(rows)[id := old(rows)[id].(timeline := timeline.value)] else old(rows)
    {
      if !IsInvoice(rows, id) {
        return None;
      }
      timeline := Some(rows[id].timeline + [event]);
      rows := rows[id := rows[id].(timeline := timeline.value)];
    }

    /** `soft_delete`. */
    method SoftDelete(id: nat) returns (deleted: bool)
      modifies this
      ensures deleted == IsInvoice(old(rows), id)
      ensures rows == if deleted then old(rows)[id := old(rows)[id].(active := false)] else old(rows)
    {
      deleted := IsInvoice(rows, id);
      if deleted {
        rows := rows[id := rows[id].(active := false)];
      }
    }
  }

  class InvoiceService {
    const invoices: InvoiceTable
    const workOrders: WorkOrderTable

    constructor (invoices: InvoiceTable, workOrders: WorkOrderTable)
      ensures this.invoices == invoices && this.workOrders == workOrders
    {
      this.invoices, this.workOrders := invoices, workOrders;
    }

    method Create(d: Draft) returns (r: Result<nat, Failure>)
      modifies invoices
      ensures r == if !Exists(workOrders.rows, d.workOrder) then Err(Missing)
                   else if NumberTaken(old(invoices.rows), Strip(d.number), |old(invoices.rows)|) then Err(DuplicateNumber)
                   else Ok(|old(invoices.rows)|)
      ensures invoices.rows == old(invoices.rows) + if r.Ok? then [Prepared(d)] else []
    {
      if !Exists(workOrders.rows, d.workOrder) {
        return Err(Missing);
      }
      var payload := Prepared(d);
      var taken := invoices.IsTaken(payload.number, |invoices.rows|);
      if taken {
        return Err(DuplicateNumber);
      }
      r := Ok(|invoices.rows|);
      invoices.rows := invoices.rows + [payload];
    }

    /** `update`: write the row, append to its timeline when the status changed, read it back. */
    method Update(id: nat, ch: InvoiceChange) returns (r: Result<Invoice, Failure>)
      modifies invoices
      ensures r == UpdateResult(old(invoices.rows), id, ch)
      ensures invoices.rows == if r.Ok? then old(invoices.rows)[id := r.value] else old(invoices.rows)
    {
      if !IsInvoice(invoices.rows, id) {
        return Err(Missing);
      }
      var before := invoices.rows[id];
      if IsEmptyInvoiceChange(ch) {
        return Ok(before);
      }
      if ch.number.Given? {
        var taken := invoices.IsTaken(Strip(ch.number.value), id);
        if taken {
          return Err(DuplicateNumber);
        }
      }
      var record := Amended(before, ch);
      invoices.rows := invoices.rows[id := record];
      if record.status != before.status {
        var kind := EventFor(before.status, record.status);
        if kind.Some? {
          var _ := invoices.AppendTimeline(id, TimelineEvent(kind.value, NoteOf(ch.note)));
          record := invoices.rows[id];
        }
      }
      r := Ok(record);
    }

    method Delete(id: nat) returns (r: Result<nat, Failure>)
      modifies invoices
      ensures r == if IsInvoice(old(invoices.rows), id) then Ok(id) else Err(Missing)
      ensures invoices.rows == if r.Ok? then old(invoices.rows)[id := old(invoices.rows)[id].(active := false)] else old(invoices.rows)
    {
      if !IsInvoice(invoices.rows, id) {
        return Err(Missing);
      }
      var deleted := invoices.SoftDelete(id);
      r := if deleted then Ok(id) else Err(Missing);
    }
  }

  // ----- Reading a timeline back -----

  /** The status that an event of this kind records. */
  function Recorded(kind: string): Option<InvoiceStatus> {
    if kind == "submitted" || kind == "resubmitted" then Some(Submitted)
    else if kind == "revision_requested" then Some(RevisionRequested)
    else if kind == "approved" then Some(Approved)
    else if kind == "rejected" then Some(Rejected)
    else if kind == "paid" then Some(Paid)
    else None
  }

  /** The status after the last event that records one. */
  function Replay(timeline: seq<TimelineEvent>): Option<InvoiceStatus> {
    if timeline == [] then None
    else
      var status := Recorded(timeline[|timeline| - 1].kind);
      if status.Some? then status else Replay(timeline[..|timeline| - 1])
  }

  lemma ReplayOneMore(timeline: seq<TimelineEvent>, e: TimelineEvent)
    ensures Replay(timeline + [e]) == if Recorded(e.kind).Some? then Recorded(e.kind) else Replay(timeline)
  {
    assert (timeline + [e])[..|timeline|] == timeline;
  }

  /** Events and statuses correspond: an event records the very status whose change wrote it. */
  lemma EventRecordsItsStatus(before: InvoiceStatus, after: InvoiceStatus)
    ensures EventFor(before, after).Some? <==> before != after && after != Resubmitted
    ensures EventFor(before, after).Some? ==> Recorded(EventFor(before, after).value) == Some(after)
  {
  }

  /** The timeline tells the current status. */
  predicate Faithful(v: Invoice) {
    Replay(v.timeline) == Some(v.status)
  }

  lemma {:induction false} ReplayIsNeverResubmitted(timeline: seq<TimelineEvent>)
    ensures Replay(timeline) != Some(Resubmitted)
  {
    if timeline != [] {
      ReplayIsNeverResubmitted(timeline[..|timeline| - 1]);
    }
  }

  /** An invoice created without a timeline of its own is faithful exactly if it starts as submitted. */
  lemma CreatedFaithfulExactly(d: Draft)
    requires d.timeline == []
    ensures Faithful(Prepared(d)) <==> Prepared(d).status == Submitted
  {
    assert Prepared(d).timeline == [] + [TimelineEvent("submitted", None)];
    ReplayOneMore([], TimelineEvent("submitted", None));
  }

  // ----- Whole histories -----

  /** What happens to an invoice once it is created: updates, and events added by hand. */
  datatype Entry = Change(change: InvoiceChange) | Note(event: TimelineEvent)

  function AfterEntry(v: Invoice, e: Entry): Invoice {
    match e
    case Change(ch) => AfterUpdate(v, ch)
    case Note(event) => v.(timeline := v.timeline + [event])
  }

  function AfterEntries(v: Invoice, entries: seq<Entry>): Invoice
    decreases |entries|
  {
    if entries == [] then v else AfterEntries(AfterEntry(v, entries[0]), entries[1..])
  }

  /** Events added by hand are of kinds that record no status. */
  predicate NoStatusByHand(entries: seq<Entry>) {
    forall i | 0 <= i < |entries| && entries[i].Note? :: Recorded(entries[i].event.kind).None?
  }

  /** What a timeline is good for: it tells every status but `resubmitted`. */
  predicate TellsStatus(v: Invoice) {
    v.status != Resubmitted ==> Faithful(v)
  }

  lemma EntryKeepsTelling(v: Invoice, e: Entry)
    requires TellsStatus(v) && (e.Note? ==> Recorded(e.event.kind).None?)
    ensures TellsStatus(AfterEntry(v, e))
  {
    match e
    case Change(ch) =>
      var record := Amended(v, ch);
      EventRecordsItsStatus(v.status, record.status);
      if !IsEmptyInvoiceChange(ch) && EventFor(v.status, record.status).Some? {
        ReplayOneMore(v.timeline, TimelineEvent(EventFor(v.status, record.status).value, NoteOf(ch.note)));
      }
    case Note(event) =>
      ReplayOneMore(v.timeline, event);
  }

  /**
  Replay, for every history: from a state whose timeline tells the status, and without
  status events added by hand, the timeline replays to the current status if and only if
  that status is not `resubmitted`.
  */
  lemma {:induction false} ReplaysExactly(v: Invoice, entries: seq<Entry>)
    requires TellsStatus(v) && NoStatusByHand(entries)
    ensures Faithful(AfterEntries(v, entries)) <==> AfterEntries(v, entries).status != Resubmitted
    decreases |entries|
  {
    if entries == [] {
      ReplayIsNeverResubmitted(v.timeline);
    } else {
      assert entries[0].Note? ==> Recorded(entries[0].event.kind).None?;
      assert forall i | 0 <= i < |entries[1..]| :: entries[1..][i] == entries[i + 1];
      EntryKeepsTelling(v, entries[0]);
      ReplaysExactly(AfterEntry(v, entries[0]), entries[1..]);
    }
  }

  predicate RecordsChange(v: Invoice, e: Entry) {
    e.Change? && AfterEntry(v, e).status != v.status && AfterEntry(v, e).status != Resubmitted
  }

  /** The number of events that the history calls for: one a note, one a change to a status other than `resubmitted`. */
  function EventsCalledFor(v: Invoice, entries: seq<Entry>): nat
    decreases |entries|
  {
    if entries == [] then 0
    else (if entries[0].Note? || RecordsChange(v, entries[0]) then 1 else 0) + EventsCalledFor(AfterEntry(v, entries[0]), entries[1..])
  }

  /** The timeline only grows at its end, by exactly the events called for. */
  lemma {:induction false} TimelineOnlyGrows(v: Invoice, entries: seq<Entry>)
    ensures v.timeline <= AfterEntries(v, entries).timeline
    ensures |AfterEntries(v, entries).timeline| == |v.timeline| + EventsCalledFor(v, entries)
    decreases |entries|
  {
    if entries != [] {
      if entries[0].Change? {
        EventRecordsItsStatus(v.status, Amended(v, entries[0].change).status);
      }
      TimelineOnlyGrows(AfterEntry(v, entries[0]), entries[1..]);
    }
  }

  /** The gap is real: submitted, resubmitted, and the timeline still says submitted. */
  lemma ResubmittedIsUnrecorded(v: Invoice, ch: InvoiceChange)
    requires Faithful(v) && v.status == Submitted && ch.status == Given(Resubmitted)
    ensures AfterUpdate(v, ch).timeline == v.timeline && Replay(AfterUpdate(v, ch).timeline) == Some(Submitted)
    ensures !Faithful(AfterUpdate(v, ch))
  {
  }

  // ----- Numbers stay unique -----

  predicate UniqueNumbers(rows: seq<Invoice>) {
    forall i, j | 0 <= i < j < |rows| :: rows[i].number != rows[j].number
  }

  lemma UpdateKeepsNumbersUnique(rows: seq<Invoice>, id: nat, ch: InvoiceChange)
    requires UniqueNumbers(rows) && UpdateResult(rows, id, ch).Ok?
    ensures UniqueNumbers(rows[id := UpdateResult(rows, id, ch).value])
  {
    var after := rows[id := UpdateResult(rows, id, ch).value];
    forall i, j | 0 <= i < j < |after|
      ensures after[i].number != after[j].number
    {
      assert rows[i].number != rows[j].number;
    }
  }

  // ----- In plain terms -----

  /** A new invoice: its number without white space around it, submitted unless it says otherwise, and with a
      timeline of its own or one that says it was submitted. */
  lemma CreateInPlainTerms(d: Draft)
    ensures var v := Prepared(d);
            && v.workOrder == d.workOrder && IsStripped(v.number, d.number) && v.date == d.date && v.active && v.payment == None
            && v.status == (match d.status case None => Submitted case Some(s) => s)
            && v.timeline == if d.timeline == [] then [TimelineEvent("submitted", None)] else d.timeline
  {
    StripExactly(d.number, Prepared(d).number);
  }

  /** Something is sent that can be stored: any value, or null for the date. */
  predicate SendsSomething(ch: InvoiceChange) {
    ch.number.Given? || ch.date != Absent || ch.status.Given? || ch.payment.Given? || ch.descriptive
  }

  /** Another invoice, deleted or not, has the number that is sent. */
  ghost predicate SendsTakenNumber(rows: seq<Invoice>, id: nat, ch: InvoiceChange) {
    ch.number.Given? && exists i | 0 <= i < |rows| && i != id :: IsStripped(rows[i].number, ch.number.value)
  }

  /** What a timeline calls a change to the status; a change to `resubmitted` has no name. */
  function NameOfChange(status: InvoiceStatus): Option<string> {
    match status
    case Submitted => Some("resubmitted")
    case RevisionRequested => Some("revision_requested")
    case Resubmitted => None
    case Approved => Some("approved")
    case Rejected => Some("rejected")
    case Paid => Some("paid")
  }

  /** Column by column: a value sent is stored, null clears the date and nothing else, and what is not sent stays;
      a change of status adds its event, with the note unless that is empty. */
  predicate Stores(v: Invoice, ch: InvoiceChange, after: Invoice) {
    && after.workOrder == v.workOrder && after.active == v.active
    && (if ch.number.Given? then IsStripped(after.number, ch.number.value) else after.number == v.number)
    && after.date == (match ch.date case Absent => v.date case Null => None case Given(d) => Some(d))
    && after.status == (if ch.status.Given? then ch.status.value else v.status)
    && after.payment == (if ch.payment.Given? then Some(ch.payment.value) else v.payment)
    && after.timeline ==
       if after.status != v.status && NameOfChange(after.status).Some?
       then v.timeline + [TimelineEvent(NameOfChange(after.status).value, if ch.note == Some("") then None else ch.note)]
       else v.timeline
  }

  /** What an update comes to: a missing invoice, nothing to store, a number that is taken, or the stored record. */
  lemma UpdateInPlainTerms(rows: seq<Invoice>, id: nat, ch: InvoiceChange)
    ensures var r := UpdateResult(rows, id, ch);
            if !(id < |rows| && rows[id].active) then r == Err(Missing)
            else if !SendsSomething(ch) then r == Ok(rows[id])
            else if SendsTakenNumber(rows, id, ch) then r == Err(DuplicateNumber)
            else r.Ok? && Stores(rows[id], ch, r.value)
  {
    if ch.number.Given? {
      StripExactly(ch.number.value, Strip(ch.number.value));
      forall i | 0 <= i < |rows|
        ensures rows[i].number == Strip(ch.number.value) <==> IsStripped(rows[i].number, ch.number.value)
      {
        StripExactly(ch.number.value, rows[i].number);
      }
    }
  }

  /** The same check when an invoice is created: no invoice, deleted or not, may have the number. */
  lemma TakenInPlainTerms(rows: seq<Invoice>, number: string)
    ensures NumberTaken(rows, Strip(number), |rows|) <==> exists i | 0 <= i < |rows| :: IsStripped(rows[i].number, number)
  {
    forall i | 0 <= i < |rows|
      ensures rows[i].number == Strip(number) <==> IsStripped(rows[i].number, number)
    {
      StripExactly(number, rows[i].number);
    }
  }
}
