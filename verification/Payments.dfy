/**
Payments, and the settlement that a completed payment brings about: the linked invoice is
marked paid, and its work order is told that a payment was released.
*/
module Payments {
  import opened Invoices
  import opened PartialUpdate
  import opened WorkOrders
  import opened Wrappers

  datatype PaymentStatus = Pending | Completed | Failed | Voided

  datatype Payment = Payment(
    invoice: Option<nat>,
    workOrder: Option<nat>,
    amount: int,
    status: PaymentStatus,
    active: bool)

  /** What a caller sends; `note` is the text that the amount and the invoice number give. */
  datatype PaymentDraft = PaymentDraft(
    invoice: Option<nat>,
    workOrder: Option<nat>,
    amount: int,
    status: Option<PaymentStatus>,
    note: string)

  /** `other`: some other field, such as the reference, is sent. */
  datatype PaymentChange = PaymentChange(amount: Field<int>, status: Field<PaymentStatus>, other: bool)

  /** The three tables of one session. */
  datatype Books = Books(payments: seq<Payment>, invoices: seq<Invoice>, rows: seq<WorkOrder>)

  function Filled(d: PaymentDraft): Payment {
    Payment(d.invoice, d.workOrder, d.amount, d.status.GetOr(PaymentStatus.Completed), true)
  }

  predicate IsPayment(payments: seq<Payment>, id: nat) {
    id < |payments| && payments[id].active
  }

  predicate ReferencesExist(b: Books, d: PaymentDraft) {
    (d.invoice.Some? ==> IsInvoice(b.invoices, d.invoice.value)) && (d.workOrder.Some? ==> Exists(b.rows, d.workOrder.value))
  }

  /** The update of the invoice that settles it. */
  function PaidBy(id: nat, note: string): InvoiceChange {
    InvoiceChange(Absent, Absent, Given(Paid), Given(id), false, Some(note))
  }

  /** The payment would settle its invoice: it is completed, and the invoice is not paid yet. */
  predicate Settles(b: Books, d: PaymentDraft) {
    d.invoice.Some? && Filled(d).status.Completed? && IsInvoice(b.invoices, d.invoice.value) && b.invoices[d.invoice.value].status != Paid
  }

  function Released(note: string): TimelineEvent {
    TimelineEvent("payment_released", Some(note))
  }

  /**
  Creating a payment, with the session's commit or rollback: when the work order of the
  settled invoice is gone, the failure takes the payment and the settlement with it.
  */
  function Created(b: Books, d: PaymentDraft): Books {
    if !ReferencesExist(b, d) then b
    else if !Settles(b, d) then b.(payments := b.payments + [Filled(d)])
    else
      var v := d.invoice.value;
      var workOrder := b.invoices[v].workOrder;
      if !Exists(b.rows, workOrder) then b
      else Books(
        b.payments + [Filled(d)],
        b.invoices[v := AfterUpdate(b.invoices[v], PaidBy(|b.payments|, d.note))],
        WithEvent(b.rows, workOrder, Released(d.note)))
  }

  predicate IsEmptyPaymentChange(ch: PaymentChange) {
    !ch.amount.Given? && !ch.status.Given? && !ch.other
  }

  function Updated(payments: seq<Payment>, id: nat, ch: PaymentChange): seq<Payment> {
    if !IsPayment(payments, id) || IsEmptyPaymentChange(ch) then payments
    else payments[id := payments[id].(amount := Kept(ch.amount, payments[id].amount), status := Kept(ch.status, payments[id].status))]
  }

  class PaymentTable {
    var rows: seq<Payment>

    constructor (rows: seq<Payment>)
      ensures this.rows == rows
    {
      this.rows := rows;
    }
  }

  class PaymentService {
    const payments: PaymentTable
    const invoiceService: InvoiceService

    constructor (payments: PaymentTable, invoiceService: InvoiceService)
      ensures this.payments == payments && this.invoiceService == invoiceService
    {
      this.payments, this.invoiceService := payments, invoiceService;
    }

    function Tables(): Books
      reads payments, invoiceService.invoices, invoiceService.workOrders
    {
      Books(payments.rows, invoiceService.invoices.rows, invoiceService.workOrders.rows)
    }

    /** `create` inside its session: on failure the tables are rolled back to what they were. */
    method Create(d: PaymentDraft) returns (r: Result<nat, Failure>)
      modifies payments, invoiceService.invoices, invoiceService.workOrders
      ensures Tables() == Created(old(Tables()), d)
      ensures r.Ok? <==> |payments.rows| == |old(payments.rows)| + 1
      ensures r == if r.Ok? then Ok(|old(payments.rows)|) else Err(Missing)
    {
      var invoices, workOrders := invoiceService.invoices, invoiceService.workOrders;
      var before := (payments.rows, invoices.rows, workOrders.rows);
      if (d.invoice.Some? && !IsInvoice(invoices.rows, d.invoice.value)) || (d.workOrder.Some? && !Exists(workOrders.rows, d.workOrder.value)) {
        return Err(Missing);
      }
      var id := |payments.rows|;
      var record := Filled(d);
      payments.rows := payments.rows + [record];
      r := Ok(id);
      if d.invoice.Some? && record.status.Completed? {
        var settled := SettleLinkedInvoice(d.invoice.value, id, d.note);
        if !settled {
          payments.rows, invoices.rows, workOrders.rows := before.0, before.1, before.2;
          r := Err(Missing);
        }
      }
    }

    /** `_settle_linked_invoice`; false when the invoice's work order is not found. */
    method SettleLinkedInvoice(v: nat, id: nat, note: string) returns (ok: bool)
      modifies invoiceService.invoices, invoiceService.workOrders
      ensures var invoices, rows := old(invoiceService.invoices.rows), old(invoiceService.workOrders.rows);
              if !IsInvoice(invoices, v) || invoices[v].status == Paid then
                ok && invoiceService.invoices.rows == invoices && invoiceService.workOrders.rows == rows
              else
                && ok == Exists(rows, invoices[v].workOrder)
                && invoiceService.invoices.rows == invoices[v := AfterUpdate(invoices[v], PaidBy(id, note))]
                && invoiceService.workOrders.rows == WithEvent(rows, invoices[v].workOrder, Released(note))
    {
      var invoices, workOrders := invoiceService.invoices, invoiceService.workOrders;
      if !IsInvoice(invoices.rows, v) || invoices.rows[v].status == Paid {
        return true;
      }
      var invoice := invoices.rows[v];
      var _ := invoiceService.Update(v, PaidBy(id, note));
      var timeline := workOrders.AppendTimeline(invoice.workOrder, Released(note));
      ok := timeline.Some?;
    }

    /** `update`: only the payment changes, whatever its new status. */
    method Update(id: nat, ch: PaymentChange) returns (r: Result<Payment, Failure>)
      modifies payments
      ensures payments.rows == Updated(old(payments.rows), id, ch)
      ensures r == if IsPayment(old(payments.rows), id) then Ok(payments.rows[id]) else Err(Missing)
    {
      if !IsPayment(payments.rows, id) {
        return Err(Missing);
      }
      var before := payments.rows[id];
      if IsEmptyPaymentChange(ch) {
        return Ok(before);
      }
      var record := before.(amount := Kept(ch.amount, before.amount), status := Kept(ch.status, before.status));
      payments.rows := payments.rows[id := record];
      r := Ok(record);
    }

    /** `delete`. */
    method Delete(id: nat) returns (r: Result<nat, Failure>)
      modifies payments
      ensures payments.rows == Deleted(old(payments.rows), id)
      ensures r == if IsPayment(old(payments.rows), id) then Ok(id) else Err(Missing)
    {
      if !IsPayment(payments.rows, id) {
        return Err(Missing);
      }
      payments.rows := payments.rows[id := payments.rows[id].(active := false)];
      r := Ok(id);
    }
  }

  function Deleted(payments: seq<Payment>, id: nat): seq<Payment> {
    if IsPayment(payments, id) then payments[id := payments[id].(active := false)] else payments
  }

  // ----- In plain terms -----

  /** The records that a payment refers to exist, if it refers to any. */
  predicate RefersToExisting(b: Books, d: PaymentDraft) {
    && (match d.invoice case None => true case Some(v) => v < |b.invoices| && b.invoices[v].active)
    && (match d.workOrder case None => true case Some(w) => w < |b.rows| && b.rows[w].active)
  }

  /** The payment counts as completed, which it does unless it says otherwise, and is for an invoice that is not paid. */
  predicate CompletesUnpaid(b: Books, d: PaymentDraft) {
    && (d.status == None || d.status == Some(PaymentStatus.Completed))
    && d.invoice.Some? && d.invoice.value < |b.invoices| && b.invoices[d.invoice.value].status != Paid
  }

  /** The work order of the payment's invoice exists. */
  predicate InvoicedWorkExists(b: Books, d: PaymentDraft) {
    d.invoice.Some? && d.invoice.value < |b.invoices| &&
    var w := b.invoices[d.invoice.value].workOrder;
    w < |b.rows| && b.rows[w].active
  }

  /** What creating a payment changes: nothing, the payments alone, or all three tables. */
  lemma CreateInPlainTerms(b: Books, d: PaymentDraft)
    ensures var after := Created(b, d);
            if !RefersToExisting(b, d) || (CompletesUnpaid(b, d) && !InvoicedWorkExists(b, d)) then after == b
            else
              && after.payments == b.payments + [Payment(d.invoice, d.workOrder, d.amount,
                   match d.status case None => PaymentStatus.Completed case Some(s) => s, true)]
              && (!CompletesUnpaid(b, d) ==> after.invoices == b.invoices && after.rows == b.rows)
    ensures RefersToExisting(b, d) && CompletesUnpaid(b, d) && InvoicedWorkExists(b, d) ==>
              var after, v := Created(b, d), d.invoice.value;
              var w := b.invoices[v].workOrder;
              && after.invoices == b.invoices[v := b.invoices[v].(status := Paid, payment := Some(|b.payments|),
                   timeline := b.invoices[v].timeline + [TimelineEvent("paid", if d.note == "" then None else Some(d.note))])]
              && after.rows == b.rows[w := b.rows[w].(timeline := b.rows[w].timeline + [TimelineEvent("payment_released", Some(d.note))])]
  {
  }

  /** Updating or deleting a payment changes its amount, its status or its mark, and no other payment. */
  lemma UpdateInPlainTerms(payments: seq<Payment>, id: nat, ch: PaymentChange, i: nat)
    requires i < |payments|
    ensures |Updated(payments, id, ch)| == |Deleted(payments, id)| == |payments|
    ensures var p := payments[i];
            && Updated(payments, id, ch)[i] ==
               (if i == id && p.active
                then p.(amount := if ch.amount.Given? then ch.amount.value else p.amount,
                        status := if ch.status.Given? then ch.status.value else p.status)
                else p)
            && Deleted(payments, id)[i] == if i == id then p.(active := false) else p
  {
  }

  // ----- Runs of payments -----

  datatype Action = Create(draft: PaymentDraft) | Update(id: nat, change: PaymentChange) | Delete(id: nat)

  function After(b: Books, a: Action): Books {
    match a
    case Create(d) => Created(b, d)
    case Update(id, ch) => b.(payments := Updated(b.payments, id, ch))
    case Delete(id) => b.(payments := Deleted(b.payments, id))
  }

  function AfterAll(b: Books, actions: seq<Action>): Books
    decreases |actions|
  {
    if actions == [] then b else AfterAll(After(b, actions[0]), actions[1..])
  }

  /** The action creates a completed payment for invoice `v` that no missing reference turns down. */
  predicate Pays(b: Books, a: Action, v: nat) {
    && a.Create? && a.draft.invoice == Some(v) && Filled(a.draft).status.Completed?
    && ReferencesExist(b, a.draft)
    && v < |b.invoices| && Exists(b.rows, b.invoices[v].workOrder)
  }

  /** What no payment action changes: which invoices and work orders exist, and whose they are. */
  predicate SameReferences(b: Books, c: Books) {
    && |b.invoices| == |c.invoices| && |b.rows| == |c.rows|
    && (forall i | 0 <= i < |b.invoices| ::
          b.invoices[i].active == c.invoices[i].active && b.invoices[i].workOrder == c.invoices[i].workOrder)
    && (forall i | 0 <= i < |b.rows| :: b.rows[i].active == c.rows[i].active)
  }

  lemma ActionKeepsReferences(b: Books, a: Action)
    ensures SameReferences(b, After(b, a))
  {
  }

  lemma PaysDependsOnReferences(b: Books, c: Books, a: Action, v: nat)
    requires SameReferences(b, c)
    ensures Pays(b, a, v) <==> Pays(c, a, v)
  {
  }

  /** One action: it settles an unpaid invoice exactly if it pays it, and leaves a paid one alone. */
  lemma ActionOnInvoice(b: Books, a: Action, v: nat)
    requires IsInvoice(b.invoices, v)
    ensures v < |After(b, a).invoices|
    ensures After(b, a).invoices[v] ==
            if Pays(b, a, v) && b.invoices[v].status != Paid
            then AfterUpdate(b.invoices[v], PaidBy(|b.payments|, a.draft.note))
            else b.invoices[v]
  {
  }

  /** The position of the first action that pays invoice `v`. */
  function FirstPaying(b: Books, actions: seq<Action>, v: nat): (k: Option<nat>)
    ensures k.Some? ==> k.value < |actions|
    decreases |actions|
  {
    if actions == [] then None
    else if Pays(b, actions[0], v) then Some(0)
    else
      match FirstPaying(b, actions[1..], v)
      case None => None
      case Some(k) => Some(k + 1)
  }

  lemma {:induction false} FirstPayingDependsOnReferences(b: Books, c: Books, actions: seq<Action>, v: nat)
    requires SameReferences(b, c)
    ensures FirstPaying(b, actions, v) == FirstPaying(c, actions, v)
    decreases |actions|
  {
    if actions != [] {
      PaysDependsOnReferences(b, c, actions[0], v);
      FirstPayingDependsOnReferences(b, c, actions[1..], v);
    }
  }

  lemma {:induction false} PaidStaysAsIs(b: Books, actions: seq<Action>, v: nat)
    requires IsInvoice(b.invoices, v) && b.invoices[v].status == Paid
    ensures v < |AfterAll(b, actions).invoices| && AfterAll(b, actions).invoices[v] == b.invoices[v]
    decreases |actions|
  {
    if actions != [] {
      ActionOnInvoice(b, actions[0], v);
      PaidStaysAsIs(After(b, actions[0]), actions[1..], v);
    }
  }

  /**
  The first completed payment wins.  Over any sequence of payments created, changed and
  deleted, an unpaid invoice ends up paid by the first completed payment that refers to it
  and to existing records, with that payment's id and one `paid` event; every later or
  non-completed payment leaves it as it is, and without such a payment nothing happens.
  */
  lemma {:induction false} FirstCompletedWins(b: Books, actions: seq<Action>, v: nat)
    requires IsInvoice(b.invoices, v) && b.invoices[v].status != Paid
    ensures var end, k := AfterAll(b, actions), FirstPaying(b, actions, v);
            && v < |end.invoices|
            && (k.None? ==> end.invoices[v] == b.invoices[v])
            && (k.Some? ==>
                  var winner := |AfterAll(b, actions[..k.value]).payments|;
                  && actions[k.value].Create?
                  && end.invoices[v] == b.invoices[v].(status := Paid, payment := Some(winner),
                       timeline := b.invoices[v].timeline + [TimelineEvent("paid", NoteOf(Some(actions[k.value].draft.note)))]))
    decreases |actions|
  {
    if actions != [] {
      var next := After(b, actions[0]);
      ActionOnInvoice(b, actions[0], v);
      if Pays(b, actions[0], v) {
        PaidStaysAsIs(next, actions[1..], v);
        assert actions[..0] == [];
      } else {
        ActionKeepsReferences(b, actions[0]);
        FirstPayingDependsOnReferences(b, next, actions[1..], v);
        FirstCompletedWins(next, actions[1..], v);
        var k := FirstPaying(b, actions, v);
        if k.Some? {
          assert actions[..k.value][0] == actions[0] && actions[..k.value][1..] == actions[1..][..k.value - 1];
        }
      }
    }
  }

  /** An invoice whose work order is deleted can never be settled: every attempt is rolled back whole. */
  lemma {:induction false} NoSettlementWithoutWorkOrder(b: Books, actions: seq<Action>, v: nat)
    requires IsInvoice(b.invoices, v) && b.invoices[v].status != Paid && !Exists(b.rows, b.invoices[v].workOrder)
    ensures v < |AfterAll(b, actions).invoices| && AfterAll(b, actions).invoices[v] == b.invoices[v]
    decreases |actions|
  {
    if actions != [] {
      ActionOnInvoice(b, actions[0], v);
      ActionKeepsReferences(b, actions[0]);
      NoSettlementWithoutWorkOrder(After(b, actions[0]), actions[1..], v);
    }
  }

  // ----- Releases -----

  predicate IsRelease(e: TimelineEvent) {
    e.kind == "payment_released"
  }

  function Releases(timeline: seq<TimelineEvent>): nat {
    if timeline == [] then 0
    else Releases(timeline[..|timeline| - 1]) + (if IsRelease(timeline[|timeline| - 1]) then 1 else 0)
  }

  /** The number of invoices of work order `w`, among the first n, that became paid. */
  function NewlyPaid(before: seq<Invoice>, after: seq<Invoice>, w: nat, n: nat): nat
    requires n <= |before| && n <= |after|
  {
    if n == 0 then 0
    else
      var i := n - 1;
      NewlyPaid(before, after, w, i) + (if before[i].workOrder == w && before[i].status != Paid && after[i].status == Paid then 1 else 0)
  }

  lemma {:induction false} NothingPaid(invoices: seq<Invoice>, w: nat, n: nat)
    requires n <= |invoices|
    ensures NewlyPaid(invoices, invoices, w, n) == 0
  {
    if n > 0 {
      NothingPaid(invoices, w, n - 1);
    }
  }

  lemma {:induction false} OneInvoicePaid(invoices: seq<Invoice>, v: nat, paid: Invoice, w: nat, n: nat)
    requires n <= |invoices| && v < |invoices|
    requires invoices[v].status != Paid && paid.status == Paid
    ensures NewlyPaid(invoices, invoices[v := paid], w, n) == if v < n && invoices[v].workOrder == w then 1 else 0
  {
    if n > 0 {
      OneInvoicePaid(invoices, v, paid, w, n - 1);
    }
  }

  /** Paid invoices stay paid, so what two stretches of a run pay adds up. */
  lemma {:induction false} PaidAddsUp(a: seq<Invoice>, b: seq<Invoice>, c: seq<Invoice>, w: nat, n: nat)
    requires n <= |a| == |b| == |c|
    requires forall i | 0 <= i < |a| ::
               a[i].workOrder == b[i].workOrder && (a[i].status == Paid ==> b[i].status == Paid) && (b[i].status == Paid ==> c[i].status == Paid)
    ensures NewlyPaid(a, c, w, n) == NewlyPaid(a, b, w, n) + NewlyPaid(b, c, w, n)
  {
    if n > 0 {
      PaidAddsUp(a, b, c, w, n - 1);
    }
  }

  predicate PaidForGood(before: seq<Invoice>, after: seq<Invoice>) {
    |before| == |after| &&
    forall i | 0 <= i < |before| ::
      before[i].workOrder == after[i].workOrder && (before[i].status == Paid ==> after[i].status == Paid)
  }

  lemma ActionReleases(b: Books, a: Action, w: nat)
    requires w < |b.rows|
    ensures var c := After(b, a);
            && w < |c.rows| && PaidForGood(b.invoices, c.invoices)
            && Releases(c.rows[w].timeline) == Releases(b.rows[w].timeline) + NewlyPaid(b.invoices, c.invoices, w, |b.invoices|)
  {
    var c := After(b, a);
    if c.invoices == b.invoices {
      NothingPaid(b.invoices, w, |b.invoices|);
    } else {
      var v := a.draft.invoice.value;
      OneInvoicePaid(b.invoices, v, c.invoices[v], w, |b.invoices|);
      var timeline, e := b.rows[w].timeline, Released(a.draft.note);
      assert (timeline + [e])[..|timeline|] == timeline;
    }
  }

  /** Conservation: a work order's timeline gains one `payment_released` event for each of its
      invoices that became paid, and no other. */
  lemma {:induction false} OneReleasePerPaidInvoice(b: Books, actions: seq<Action>, w: nat)
    requires w < |b.rows|
    ensures var end := AfterAll(b, actions);
            && w < |end.rows| && PaidForGood(b.invoices, end.invoices)
            && Releases(end.rows[w].timeline) == Releases(b.rows[w].timeline) + NewlyPaid(b.invoices, end.invoices, w, |b.invoices|)
    decreases |actions|
  {
    if actions == [] {
      NothingPaid(b.invoices, w, |b.invoices|);
    } else {
      var next := After(b, actions[0]);
      ActionReleases(b, actions[0], w);
      OneReleasePerPaidInvoice(next, actions[1..], w);
      PaidAddsUp(b.invoices, next.invoices, AfterAll(b, actions).invoices, w, |b.invoices|);
    }
  }
}
