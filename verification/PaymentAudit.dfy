/**
The audit trail of payments, with Python's values and the columns of the payments table:
how far it is faithful, and exactly where it is not.
*/
module PaymentAudit {
  import opened AuditTrail
  import opened FieldDiffs
  import opened JsonValues

  function Python(): Values<Value> {
    Values(Nil, v => DeepSafe(v), (a, b) => PyEq(a, b))
  }

  lemma PythonIsLawful()
    ensures Lawful(Python())
  {
    forall a
      ensures PyEq(a, a)
    {
      PyEqReflexive(a);
    }
    forall a, b, c | PyEq(a, b) && PyEq(b, c)
      ensures PyEq(a, c)
    {
      PyEqTransitive(a, b, c);
    }
    forall a, b | PyEq(a, b)
      ensures PyEq(DeepSafe(a), DeepSafe(b))
    {
      DeepSafeRespectsEquality(a, b);
    }
  }

  // ----- Payment rows and requests -----

  const RECEIPT := "receipt"

  const CLEARABLE := {"date", "reference", "receipt", "notes"}

  /** A receipt is a JSON object; every other column of the table holds a number, a text, a moment or null. */
  predicate ColumnHolds(f: string, v: Value) {
    if f == RECEIPT then v.Dict? && IsJson(v) else v.Nil? || v.Int? || v.Text? || v.Moment?
  }

  predicate IsPaymentRow(row: Record<Value>) {
    RECEIPT in row && forall f | f in row :: ColumnHolds(f, row[f])
  }

  /** A request sends columns of the row; it may send null for each of them. */
  predicate IsPaymentRequest(data: Record<Value>, row: Record<Value>) {
    data.Keys <= row.Keys - {SKIPPED} && forall f | f in data :: data[f].Nil? || ColumnHolds(f, data[f])
  }

  /** A null sent for a column that cannot be cleared is dropped; a cleared receipt reads back as an empty one. */
  predicate IsDropped(data: Record<Value>, f: string) {
    f !in data || (data[f].Nil? && f !in CLEARABLE)
  }

  function ReadBack(f: string, v: Value): Value {
    if f == RECEIPT && v.Nil? then Dict(map[]) else v
  }

  /** `_prepare_update_payload`, as its values are stored and read back. */
  function PaymentPayload(data: Record<Value>): Record<Value> {
    map f | f in data && !IsDropped(data, f) :: ReadBack(f, data[f])
  }

  predicate ArePaymentRows(rows: seq<Record<Value>>) {
    forall i | 0 <= i < |rows| :: IsPaymentRow(rows[i])
  }

  predicate NothingToWrite(data: Record<Value>) {
    forall f | f in data :: IsDropped(data, f)
  }

  /** Every column that is written gets its new value, and every other one stays, the time of the update aside. */
  predicate Writes(row: Record<Value>, data: Record<Value>, after: Record<Value>) {
    && after.Keys == row.Keys
    && (forall f | f in row && f != SKIPPED && IsDropped(data, f) :: after[f] == row[f])
    && (forall f | f in data && !IsDropped(data, f) :: f in after && after[f] == ReadBack(f, data[f]))
  }

  /** A payment row, kept with its audit trail. */
  class AuditedPayment {
    const kept: AuditedRow<Value>

    ghost predicate Valid()
      reads kept, kept.events
    {
      kept.Valid() && kept.entity == "payment" && kept.events.values == Python() && ArePaymentRows(kept.history)
    }

    /** `create`. */
    constructor (record: Record<Value>, triggers: seq<Trigger>, tenant: string, project: string)
      requires IsPaymentRow(record) && tenant != "" && project != ""
      ensures Valid() && fresh(kept) && fresh(kept.events) && kept.row == record && kept.history == [record]
    {
      kept := new AuditedRow("payment", record, Python(), triggers, tenant, project);
    }

    /** `update`: a request in which nothing is left to write changes and records nothing. */
    method Update(data: Record<Value>, now: Value)
      requires Valid() && IsPaymentRequest(data, kept.row) && now.Moment?
      modifies kept, kept.events
      ensures Valid()
      ensures kept.history == if NothingToWrite(data) then old(kept.history) else old(kept.history) + [kept.row]
      ensures if NothingToWrite(data) then kept.row == old(kept.row) else Writes(old(kept.row), data, kept.row)
    {
      assert IsPaymentRow(kept.row);
      UpdateKeepsColumns(kept.history, kept.row, data, now);
      kept.Update(PaymentPayload(data), now);
    }
  }

  lemma UpdateKeepsColumns(history: seq<Record<Value>>, row: Record<Value>, data: Record<Value>, now: Value)
    requires ArePaymentRows(history) && IsPaymentRow(row) && IsPaymentRequest(data, row) && now.Moment?
    ensures var after := UpdatedRow(row, PaymentPayload(data), now);
            Writes(row, data, after) && ArePaymentRows(history + [after])
    ensures PaymentPayload(data).Keys == {} <==> NothingToWrite(data)
  {
    var payload := PaymentPayload(data);
    forall f | f in data && !IsDropped(data, f)
      ensures f in payload && ColumnHolds(f, payload[f])
    {
    }
    if payload.Keys == {} {
      forall f | f in data
        ensures IsDropped(data, f)
      {
        assert f !in payload;
      }
    }
    assert IsPaymentRow(UpdatedRow(row, payload, now));
  }

  // ----- The trail -----

  /** For every payment, the recorded trail tells the current row up to Python's equality. */
  lemma PaymentTrailIsFaithful(p: AuditedPayment)
    requires p.Valid()
    ensures Agrees(Python(), Reconstructed(p.kept.events.audit, |p.kept.events.audit| - 1), p.kept.row)
  {
    PythonIsLawful();
    AuditedRowIsFaithful(p.kept);
  }

  /** The receipt's JSON changed, but not in a way that Python's comparison sees. */
  predicate ReceiptSlips(before: Record<Value>, after: Record<Value>)
    requires RECEIPT in before && RECEIPT in after
  {
    PyEq(before[RECEIPT], after[RECEIPT]) && before[RECEIPT] != after[RECEIPT]
  }

  /** Of a payment row's columns, only the receipt can lose a change. */
  lemma LosslessUnlessReceiptSlips(before: Record<Value>, after: Record<Value>)
    requires IsPaymentRow(before) && IsPaymentRow(after)
    ensures Lossless(Python(), before, after) <==> !ReceiptSlips(before, after)
  {
    JsonIsSafe(before[RECEIPT]);
    JsonIsSafe(after[RECEIPT]);
    forall f | f in before && f in after && f != RECEIPT && PyEq(before[f], after[f])
      ensures before[f] == after[f]
    {
      PlainEquality(before[f], after[f]);
    }
    assert RECEIPT != SKIPPED;
  }

  ghost predicate ReceiptSlipsAt(rows: seq<Record<Value>>, i: nat)
    requires ArePaymentRows(rows) && 0 < i < |rows|
  {
    assert IsPaymentRow(rows[i - 1]) && IsPaymentRow(rows[i]);
    ReceiptSlips(rows[i - 1], rows[i])
  }

  ghost predicate NoReceiptSlips(rows: seq<Record<Value>>)
    requires ArePaymentRows(rows)
  {
    forall i | 0 < i < |rows| :: !ReceiptSlipsAt(rows, i)
  }

  lemma LosslessExactly(rows: seq<Record<Value>>, k: Values<Value>)
    requires ArePaymentRows(rows) && k == Python()
    ensures LosslessUpTo(k, rows, |rows|) <==> NoReceiptSlips(rows)
  {
    forall i | 0 < i < |rows|
      ensures Lossless(k, rows[i - 1], rows[i]) <==> !ReceiptSlipsAt(rows, i)
    {
      assert IsPaymentRow(rows[i - 1]) && IsPaymentRow(rows[i]);
      LosslessUnlessReceiptSlips(rows[i - 1], rows[i]);
    }
  }

  /**
  Exactly which payments the trail tells exactly: after every update the folded trail is
  the JSON-safe row, `updated_at` aside, if and only if no update replaced the receipt by
  a different one that compares equal to it.
  */
  lemma PaymentTrailIsExactUnlessReceiptSlips(p: AuditedPayment)
    requires p.Valid()
    ensures AlwaysExact(p.kept.events.values, p.kept.history, p.kept.events.audit) <==> NoReceiptSlips(p.kept.history)
  {
    HistoryIsExactIfLossless(p.kept.events.values, p.kept.entity, p.kept.history, p.kept.events.audit);
    LosslessExactly(p.kept.history, p.kept.events.values);
  }

  /** So it is exact for every payment whose receipts never hold a boolean, a float or a decimal. */
  lemma PlainReceiptsNeverSlip(rows: seq<Record<Value>>)
    requires ArePaymentRows(rows) && forall i | 0 <= i < |rows| :: IsPaymentRow(rows[i]) && IsPlain(rows[i][RECEIPT])
    ensures NoReceiptSlips(rows)
  {
    forall i | 0 < i < |rows|
      ensures !ReceiptSlipsAt(rows, i)
    {
      PlainEquality(rows[i - 1][RECEIPT], rows[i][RECEIPT]);
    }
  }

  function ReceiptOf(v: Value): Value {
    Dict(map["a" := v])
  }

  lemma EqualReceipts()
    ensures PyEq(ReceiptOf(Int(1)), ReceiptOf(Bool(true))) && ReceiptOf(Int(1)) != ReceiptOf(Bool(true))
  {
    assert PyEq(Int(1), Bool(true));
    assert ReceiptOf(Int(1)).entries["a"] != ReceiptOf(Bool(true)).entries["a"];
  }

  /** A receipt does slip: an entry that goes from 1 to true leaves no trace in the diff. */
  lemma ReceiptLost(before: Record<Value>, after: Record<Value>, changes: Changes<Value>)
    requires IsPaymentRow(before) && before[RECEIPT] == ReceiptOf(Int(1)) && after == before[RECEIPT := ReceiptOf(Bool(true))]
    requires IsDiff(Python(), before, after, changes)
    ensures ReceiptSlips(before, after) && changes == map[]
  {
    EqualReceipts();
    forall f | f in after
      ensures f !in changes
    {
      PyEqReflexive(before[f]);
      assert f in changes <==> Differs(Python(), before, after, f);
    }
  }

  // ----- In plain terms -----

  /** A request, column by column: a value is stored, null clears the date, the reference, the notes and, to an
      empty one, the receipt, and is dropped otherwise. */
  lemma PayloadInPlainTerms(data: Record<Value>, f: string)
    ensures f in PaymentPayload(data) <==>
            f in data && (data[f] != Nil || f == "date" || f == "reference" || f == "receipt" || f == "notes")
    ensures f in PaymentPayload(data) ==>
              PaymentPayload(data)[f] == if f == "receipt" && data[f] == Nil then Dict(map[]) else data[f]
  {
  }

  /** What a diff says of two payment rows: the columns, other than `updated_at`, whose values differ, with the JSON of both. */
  lemma DiffInPlainTerms(before: Record<Value>, after: Record<Value>, changes: Changes<Value>, f: string)
    requires IsDiff(Python(), before, after, changes)
    ensures f in changes <==> f != "updated_at" && f in after && !PyEq(if f in before then before[f] else Nil, after[f])
    ensures f in changes ==>
              IsJsonOf(changes[f].before, if f in before then before[f] else Nil) && IsJsonOf(changes[f].after, after[f])
  {
    assert f in changes <==> f in after && Differs(Python(), before, after, f);
    if f in changes {
      DeepSafeExactly(if f in before then before[f] else Nil, changes[f].before);
      DeepSafeExactly(after[f], changes[f].after);
    }
  }

  /** What a column other than the receipt may hold: null, a number, a text, a date or a datetime. */
  lemma ColumnsInPlainTerms(f: string, v: Value)
    requires f != "receipt"
    ensures ColumnHolds(f, v) <==> v == Nil || (exists n :: v == Int(n)) || (exists s :: v == Text(s)) || (exists iso :: v == Moment(iso))
  {
  }

  lemma ColumnsArePlain(f: string, v: Value)
    requires ColumnHolds(f, v) && f != RECEIPT
    ensures IsPlain(v) && IsPlain(DeepSafe(v)) && DeepSafe(v).Text? == (v.Text? || v.Moment?)
  {
  }

  lemma PlainJsonIsExact(f: string, old_: Value, v: Value)
    requires ColumnHolds(f, old_) && ColumnHolds(f, v) && f != RECEIPT && PyEq(DeepSafe(old_), DeepSafe(v))
    ensures DeepSafe(old_) == DeepSafe(v)
  {
    ColumnsArePlain(f, old_);
    ColumnsArePlain(f, v);
    PlainEquality(DeepSafe(old_), DeepSafe(v));
  }

  lemma ColumnIsTold(rows: seq<Record<Value>>, trail: seq<AuditEvent<Value>>, n: nat, f: string)
    requires IsTrail(Python(), "payment", rows, trail) && OneTable(rows) && ArePaymentRows(rows)
    requires n < |rows| && f in rows[n] && f != RECEIPT && f != "updated_at"
    ensures f in Reconstructed(trail, n) && Reconstructed(trail, n)[f] == DeepSafe(rows[n][f])
  {
    var m := LastRecorded(Python(), rows, f, n);
    PythonIsLawful();
    ReconstructedField(Python(), "payment", rows, trail, n, f);
    TrailTellsTheRow(Python(), "payment", rows, trail, n);
    assert IsPaymentRow(rows[m]) && IsPaymentRow(rows[n]);
    PlainJsonIsExact(f, rows[m][f], rows[n][f]);
  }

  /**
  What the folded trail of a payment holds, column by column, after any number of updates:
  for every column but the receipt and `updated_at`, the very text of a text, the ISO text
  of a date or a datetime, the number of a number, and null for null.
  */
  lemma TrailInPlainTerms(p: AuditedPayment, n: nat, f: string)
    requires p.Valid() && n < |p.kept.history|
    requires f in p.kept.history[n] && f != "receipt" && f != "updated_at"
    ensures n < |p.kept.events.audit| && f in Reconstructed(p.kept.events.audit, n)
    ensures var told, v := Reconstructed(p.kept.events.audit, n)[f], p.kept.history[n][f];
            match v
            case Moment(iso) => told == Text(iso)
            case Text(s) => told == Text(s)
            case Int(i) => told == Int(i)
            case _ => v == Nil && told == Nil
  {
    var v := p.kept.history[n][f];
    ColumnIsTold(p.kept.history, p.kept.events.audit, n, f);
    assert IsPaymentRow(p.kept.history[n]);
    assert ColumnHolds(f, v);
    DeepSafeExactly(v, DeepSafe(v));
  }

  /** So payments with different dates, at any point of their histories, never have the same folded trail. */
  lemma DifferentDatesAreTold(p: AuditedPayment, q: AuditedPayment, m: nat, n: nat, f: string)
    requires p.Valid() && m < |p.kept.history| && f in p.kept.history[m]
    requires q.Valid() && n < |q.kept.history| && f in q.kept.history[n]
    requires f != "receipt" && f != "updated_at"
    requires p.kept.history[m][f].Moment? && q.kept.history[n][f].Moment? && p.kept.history[m][f] != q.kept.history[n][f]
    ensures m < |p.kept.events.audit| && n < |q.kept.events.audit|
    ensures Reconstructed(p.kept.events.audit, m) != Reconstructed(q.kept.events.audit, n)
  {
    TrailInPlainTerms(p, m, f);
    TrailInPlainTerms(q, n, f);
  }
}
