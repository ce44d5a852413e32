/** Every statement keeps the ledger valid. */
module Upkeep {
  import opened Tables
  import opened Books

  // --- looking a row up -----------------------------------------------------

  lemma BillIs(rows: seq<Invoice>, i: Invoice)
    requires DistinctBills(rows) && i in rows
    ensures i.id in BillIds(rows) && Bill(rows, i.id) == i
  {
  }

  lemma ReceiptIs(rows: seq<Payment>, p: Payment)
    requires DistinctPayments(rows) && p in rows
    ensures p.id in PaymentIds(rows) && Receipt(rows, p.id) == p
  {
  }

  lemma BillOfMore(rows: seq<Invoice>, more: seq<Invoice>, id: nat)
    requires DistinctBills(rows + more) && id in BillIds(rows)
    ensures id in BillIds(rows + more) && Bill(rows + more, id) == Bill(rows, id)
  {
    assert Bill(rows, id) in rows + more;
    BillIs(rows + more, Bill(rows, id));
  }

  lemma ReceiptOfMore(rows: seq<Payment>, more: seq<Payment>, id: nat)
    requires DistinctPayments(rows + more) && id in PaymentIds(rows)
    ensures id in PaymentIds(rows + more) && Receipt(rows + more, id) == Receipt(rows, id)
  {
    assert Receipt(rows, id) in rows + more;
    ReceiptIs(rows + more, Receipt(rows, id));
  }

  lemma BillOfEach(rows: seq<Invoice>, u: Invoice -> Invoice)
    requires DistinctBills(rows) && forall i :: i in rows ==> u(i).id == i.id && u(i).no == i.no
    ensures DistinctBills(Each(rows, u)) && BillIds(Each(rows, u)) == BillIds(rows)
    ensures forall id :: id in BillIds(rows) ==> Bill(Each(rows, u), id) == u(Bill(rows, id))
  {
    var r := Each(rows, u);
    assert forall k :: 0 <= k < |rows| ==> r[k] == u(rows[k]);
    forall id | id in BillIds(rows) ensures id in BillIds(r) && Bill(r, id) == u(Bill(rows, id)) {
      var k :| 0 <= k < |rows| && rows[k] == Bill(rows, id);
      assert r[k] in r;
    }
  }

  lemma ReceiptOfEach(rows: seq<Payment>, u: Payment -> Payment)
    requires DistinctPayments(rows) && forall p :: p in rows ==> u(p).id == p.id && u(p).receipt == p.receipt
    ensures DistinctPayments(Each(rows, u)) && PaymentIds(Each(rows, u)) == PaymentIds(rows)
    ensures forall id :: id in PaymentIds(rows) ==> Receipt(Each(rows, u), id) == u(Receipt(rows, id))
  {
    var r := Each(rows, u);
    assert forall k :: 0 <= k < |rows| ==> r[k] == u(rows[k]);
    forall id | id in PaymentIds(rows) ensures id in PaymentIds(r) && Receipt(r, id) == u(Receipt(rows, id)) {
      var k :| 0 <= k < |rows| && rows[k] == Receipt(rows, id);
      assert r[k] in r;
    }
  }

  /** Drawing numbers keeps the ledger. */
  lemma NumbersAreFree(b: Books, next: nat, serial: nat, open: set<nat>)
    requires ValidWith(b, open) && next >= b.next
    ensures ValidWith(b.(next := next, serial := serial), open)
  {
    var r := b.(next := next, serial := serial);
    forall a | a in r.allocations ensures Joins(r, a) {
      assert Joins(b, a);
    }
    forall c | c in r.carries ensures Carries(r, c) {
      assert Carries(b, c);
    }
  }

  // --- a new bill -----------------------------------------------------------

  lemma NewBillKeyed(b: Books, row: Invoice)
    requires Keyed(b) && InsertInvoice(b, row).Some?
    ensures Keyed(InsertInvoice(b, row).value)
  {
  }

  lemma NewBillItemised(b: Books, row: Invoice, open: set<nat>)
    requires Itemised(b, open) && InsertInvoice(b, row).Some?
    ensures Itemised(InsertInvoice(b, row).value, open + {b.next})
  {
    var r := InsertInvoice(b, row).value;
    assert forall i :: i in b.invoices ==> i in r.invoices;
  }

  lemma NewBillTallied(b: Books, row: Invoice)
    requires Keyed(b) && Tallied(b) && Joined(b) && row.paid == 0 && InsertInvoice(b, row).Some?
    ensures Tallied(InsertInvoice(b, row).value)
  {
    SumZero(b.allocations, PaidTo(b.next));
  }

  lemma NewBillJoined(b: Books, row: Invoice)
    requires Keyed(b) && Joined(b) && InsertInvoice(b, row).Some?
    ensures Joined(InsertInvoice(b, row).value)
  {
    NewBillKeyed(b, row);
    forall a | a in b.allocations ensures Joins(InsertInvoice(b, row).value, a) {
      BillOfMore(b.invoices, [row.(id := b.next)], a.invoice);
    }
  }

  lemma NewBillCarried(b: Books, row: Invoice)
    requires Keyed(b) && Carried(b) && InsertInvoice(b, row).Some?
    ensures Carried(InsertInvoice(b, row).value)
  {
    NewBillKeyed(b, row);
    forall c | c in b.carries ensures Carries(InsertInvoice(b, row).value, c) {
      BillOfMore(b.invoices, [row.(id := b.next)], c.from);
      BillOfMore(b.invoices, [row.(id := b.next)], c.to);
    }
  }

  lemma InsertInvoiceKeeps(b: Books, row: Invoice, open: set<nat>)
    requires ValidWith(b, open) && row.paid == 0 && row.fine >= 0 && InsertInvoice(b, row).Some?
    ensures ValidWith(InsertInvoice(b, row).value, open + {b.next})
  {
    NewBillKeyed(b, row);
    NewBillItemised(b, row, open);
    NewBillTallied(b, row);
    NewBillJoined(b, row);
    NewBillCarried(b, row);
  }

  // --- updates in place -----------------------------------------------------

  /** An update of bills that leaves their id, number, student and year alone. */
  ghost predicate KeepsBill(rows: seq<Invoice>, u: Invoice -> Invoice)
  {
    forall i :: i in rows ==>
      u(i).id == i.id && u(i).no == i.no && u(i).student == i.student && u(i).year == i.year && u(i).fine == i.fine
  }

  lemma UpdateBillsKeeps(b: Books, u: Invoice -> Invoice)
    requires Keyed(b) && Joined(b) && Carried(b) && KeepsBill(b.invoices, u)
    ensures
      var r := b.(invoices := Each(b.invoices, u));
      Keyed(r) && Joined(r) && Carried(r) && BillIds(r.invoices) == BillIds(b.invoices)
  {
    var r := b.(invoices := Each(b.invoices, u));
    BillOfEach(b.invoices, u);
    forall a | a in r.allocations ensures Joins(r, a) {
    }
    forall c | c in r.carries ensures Carries(r, c) {
    }
  }

  /** Two ledgers alike but for headers and payments' progress. */
  lemma UpdatePaymentsKeeps(b: Books, u: Payment -> Payment)
    requires Keyed(b) && Joined(b) && Carried(b)
    requires forall p :: p in b.payments ==> u(p) == p.(drawn := u(p).drawn)
    requires forall c :: c in b.carries ==> u(Receipt(b.payments, c.payment)) == Receipt(b.payments, c.payment)
    ensures
      var r := b.(payments := Each(b.payments, u));
      Keyed(r) && Joined(r) && Carried(r) && PaymentIds(r.payments) == PaymentIds(b.payments)
  {
    var r := b.(payments := Each(b.payments, u));
    ReceiptOfEach(b.payments, u);
    forall a | a in r.allocations ensures Joins(r, a) {
    }
    forall c | c in r.carries ensures Carries(r, c) {
    }
  }

  // --- lines and headers ----------------------------------------------------

  lemma InsertLineKeeps(b: Books, l: Line, open: set<nat>)
    requires ValidWith(b, open) && l.invoice in open && l.invoice in BillIds(b.invoices) && 0 <= l.discount <= l.amount
    ensures ValidWith(InsertLine(b, l), open)
  {
    var r := InsertLine(b, l);
    forall i | i in r.invoices && i.id !in open ensures Headed(i, r.lines) {
      SumSnoc(b.lines, l, AmountOn(i.id));
      SumSnoc(b.lines, l, DiscountOn(i.id));
    }
  }

  lemma NetOfLines(lines: seq<Line>, bill: nat)
    requires forall l :: l in lines ==> 0 <= l.discount <= l.amount
    ensures 0 <= Sum(lines, DiscountOn(bill)) <= Sum(lines, AmountOn(bill))
  {
    SumNonNegative(lines, DiscountOn(bill));
    SumAtMost(lines, DiscountOn(bill), AmountOn(bill));
  }

  lemma RecomputeItemised(b: Books, bills: set<nat>)
    requires Keyed(b) && Itemised(b, bills)
    ensures Itemised(RecomputeHeaders(b, bills), {})
  {
    BillOfEach(b.invoices, Rehead(b.lines, bills));
  }

  lemma RecomputeHeadersKeeps(b: Books, open: set<nat>)
    requires ValidWith(b, open)
    ensures Valid(RecomputeHeaders(b, open))
  {
    var r := RecomputeHeaders(b, open);
    UpdateBillsKeeps(b, Rehead(b.lines, open));
    RecomputeItemised(b, open);
    forall i | i in r.invoices ensures i.paid <= i.Net() && i.fine >= 0 {
      NetOfLines(b.lines, i.id);
    }
  }

  // --- receipts and allocations ---------------------------------------------

  lemma InsertPaymentKeeps(b: Books, row: Payment, open: set<nat>)
    requires ValidWith(b, open) && row.amount > 0 && row.drawn == 0 && InsertPayment(b, row).Some?
    ensures ValidWith(InsertPayment(b, row).value, open)
  {
    var r := InsertPayment(b, row).value;
    var new' := row.(id := b.next);
    assert DistinctPayments(r.payments);
    SumZero(b.allocations, DrawnFrom(b.next));
    forall a | a in b.allocations ensures Joins(r, a) {
      ReceiptOfMore(b.payments, [new'], a.payment);
    }
    forall c | c in b.carries ensures Carries(r, c) {
      ReceiptOfMore(b.payments, [new'], c.payment);
    }
  }

  ghost predicate Touches(changed: seq<Allocation>, bill: nat) { exists a :: a in changed && a.invoice == bill }
  ghost predicate Draws(changed: seq<Allocation>, receipt: nat) { exists a :: a in changed && a.payment == receipt }

  /** `allocations` differs from the ledger's only on the bills and receipts that `changed` names. */
  ghost predicate ChangesOnly(b: Books, allocations: seq<Allocation>, changed: seq<Allocation>)
  {
    && (forall i :: i in b.invoices && !Touches(changed, i.id) ==>
          Sum(allocations, PaidTo(i.id)) == Sum(b.allocations, PaidTo(i.id)))
    && (forall p :: p in b.payments && !Draws(changed, p.id) ==>
          Sum(allocations, DrawnFrom(p.id)) == Sum(b.allocations, DrawnFrom(p.id)))
  }

  /** After the triggers fire, paid and drawn are again the sums, whatever was allocated. */
  lemma TriggersTally(b: Books, allocations: seq<Allocation>, changed: seq<Allocation>, today: int)
    requires Tallied(b) && ChangesOnly(b, allocations, changed)
    ensures Tallied(WithAllocations(b, allocations, changed, today))
  {
    var r := WithAllocations(b, allocations, changed, today);
    forall i | i in r.invoices ensures i.paid == Sum(allocations, PaidTo(i.id)) {
      var k :| 0 <= k < |r.invoices| && r.invoices[k] == i;
      assert b.invoices[k] in b.invoices;
    }
    forall p | p in r.payments ensures p.drawn == Sum(allocations, DrawnFrom(p.id)) {
      var k :| 0 <= k < |r.payments| && r.payments[k] == p;
      assert b.payments[k] in b.payments;
    }
  }

  /** What the bill's status says of its money: paid off, part paid, overdue or unpaid, unless it is cancelled. */
  ghost predicate StatusSays(i: Invoice, today: int)
  {
    && (i.status == Paid <==> i.paid >= i.Net() > 0)
    && (i.status == PartlyPaid <==> i.paid > 0 && !(i.paid >= i.Net() > 0))
    && (i.status == Overdue <==> i.paid <= 0 && !(i.paid >= i.Net() > 0) && i.due.Some? && i.due.value < today)
    && i.status != Draft
  }

  /** Every live bill whose allocations change has its status read off its money afresh; a cancelled one stays so. */
  lemma StatusesFollow(b: Books, allocations: seq<Allocation>, changed: seq<Allocation>, today: int, k: nat)
    requires k < |b.invoices| && Touches(changed, b.invoices[k].id)
    ensures |WithAllocations(b, allocations, changed, today).invoices| == |b.invoices|
    ensures
      var j := WithAllocations(b, allocations, changed, today).invoices[k];
      if b.invoices[k].status == Cancelled then j.status == Cancelled else StatusSays(j, today) && j.status != Cancelled
  {
  }

  /** The parts of validity that only look at keys survive the triggers. */
  lemma TriggersKeep(b: Books, allocations: seq<Allocation>, changed: seq<Allocation>, today: int)
    requires Keyed(b) && Carried(b)
    requires Joined(b.(allocations := allocations))
    requires forall c :: c in b.carries ==> !Draws(changed, c.payment)
    requires forall c, a :: c in b.carries && a in allocations && a.payment == c.payment ==> a.invoice == c.from
    ensures
      var r := WithAllocations(b, allocations, changed, today);
      Keyed(r) && Joined(r) && Carried(r)
      && BillIds(r.invoices) == BillIds(b.invoices) && PaymentIds(r.payments) == PaymentIds(b.payments)
  {
    var b1 := b.(allocations := allocations);
    assert forall c :: c in b.carries ==> Carries(b, c) ==> Carries(b1, c);
    var u := SyncBill(allocations, set a | a in changed :: a.invoice, today);
    UpdateBillsKeeps(b1, u);
    var b2 := b1.(invoices := Each(b.invoices, u));
    UpdatePaymentsKeeps(b2, SyncPayment(allocations, set a | a in changed :: a.payment));
  }

  lemma TriggersItemised(b: Books, allocations: seq<Allocation>, changed: seq<Allocation>, today: int, open: set<nat>)
    requires Keyed(b) && Itemised(b, open)
    ensures Itemised(WithAllocations(b, allocations, changed, today), open)
  {
    BillOfEach(b.invoices, SyncBill(allocations, set a | a in changed :: a.invoice, today));
  }

  lemma TriggersWithin(b: Books, allocations: seq<Allocation>, changed: seq<Allocation>, today: int, open: set<nat>)
    requires Within(b, open)
    requires forall i :: i in b.invoices && Touches(changed, i.id) ==>
      var total := Sum(allocations, PaidTo(i.id));
      0 <= total <= i.paid || (i.id !in open && i.status != Cancelled && total <= i.Net())
    requires forall p :: p in b.payments && Draws(changed, p.id) ==> Sum(allocations, DrawnFrom(p.id)) <= p.amount
    ensures Within(WithAllocations(b, allocations, changed, today), open)
  {
    var r := WithAllocations(b, allocations, changed, today);
    forall k | 0 <= k < |r.invoices|
      ensures r.invoices[k].fine >= 0
      ensures r.invoices[k].id !in open ==> r.invoices[k].paid <= r.invoices[k].Net()
      ensures r.invoices[k].id in open || r.invoices[k].status == Cancelled ==> r.invoices[k].paid == 0
    {
      assert b.invoices[k] in b.invoices;
    }
    forall k | 0 <= k < |r.payments| ensures 0 < r.payments[k].amount && r.payments[k].drawn <= r.payments[k].amount {
      assert b.payments[k] in b.payments;
    }
  }

  // --- allocating -----------------------------------------------------------

  /** What the source checks, or arranges, before it allocates. */
  ghost predicate MayAllocate(b: Books, a: Allocation, open: set<nat>)
  {
    && Joins(b, a) && a.invoice !in open && Bill(b.invoices, a.invoice).Live()
    && a.amount <= Bill(b.invoices, a.invoice).Balance()
    && a.amount <= Receipt(b.payments, a.payment).Left()
    && (forall x :: x in b.allocations ==> x.payment != a.payment || x.invoice != a.invoice)
  }

  lemma AllocationSums(allocations: seq<Allocation>, a: Allocation)
    ensures forall id ::
      Sum(allocations + [a], PaidTo(id)) == Sum(allocations, PaidTo(id)) + (if a.invoice == id then a.amount else 0)
    ensures forall id ::
      Sum(allocations + [a], DrawnFrom(id))
        == Sum(allocations, DrawnFrom(id)) + (if a.payment == id then a.amount else 0)
  {
    forall id: nat
      ensures Sum(allocations + [a], PaidTo(id))
        == Sum(allocations, PaidTo(id)) + (if a.invoice == id then a.amount else 0)
    {
      SumSnoc(allocations, a, PaidTo(id));
    }
    forall id: nat
      ensures Sum(allocations + [a], DrawnFrom(id))
        == Sum(allocations, DrawnFrom(id)) + (if a.payment == id then a.amount else 0)
    {
      SumSnoc(allocations, a, DrawnFrom(id));
    }
  }

  lemma AllocateWithin(b: Books, a: Allocation, today: int, open: set<nat>)
    requires ValidWith(b, open) && MayAllocate(b, a, open)
    ensures Within(Allocate(b, a, today), open)
    ensures ChangesOnly(b, b.allocations + [a], [a])
  {
    AllocationSums(b.allocations, a);
    forall i | i in b.invoices && Touches([a], i.id) ensures i == Bill(b.invoices, a.invoice) {
      BillIs(b.invoices, i);
    }
    forall p | p in b.payments && Draws([a], p.id) ensures p == Receipt(b.payments, a.payment) {
      ReceiptIs(b.payments, p);
    }
    assert a in [a];
    TriggersWithin(b, b.allocations + [a], [a], today, open);
  }

  lemma AllocateKeeps(b: Books, a: Allocation, today: int, open: set<nat>)
    requires ValidWith(b, open) && MayAllocate(b, a, open)
    ensures ValidWith(Allocate(b, a, today), open)
    ensures BillIds(Allocate(b, a, today).invoices) == BillIds(b.invoices)
    ensures PaymentIds(Allocate(b, a, today).payments) == PaymentIds(b.payments)
  {
    AllocateWithin(b, a, today, open);
    TriggersTally(b, b.allocations + [a], [a], today);
    TriggersItemised(b, b.allocations + [a], [a], today, open);
    var b1 := b.(allocations := b.allocations + [a]);
    forall x | x in b1.allocations ensures Joins(b1, x) {
      assert Joins(b, x);
    }
    forall c | c in b.carries ensures !Draws([a], c.payment) {
      assert Carries(b, c);
    }
    TriggersKeep(b, b.allocations + [a], [a], today);
  }

  lemma AllocateBill(b: Books, a: Allocation, today: int)
    requires Keyed(b) && Tallied(b) && a.invoice in BillIds(b.invoices)
    ensures BillIds(Allocate(b, a, today).invoices) == BillIds(b.invoices)
    ensures
      var i := Bill(b.invoices, a.invoice);
      Bill(Allocate(b, a, today).invoices, a.invoice)
      == i.(paid := i.paid + a.amount, status := StatusAfter(i, i.paid + a.amount, today))
    ensures forall id :: id in BillIds(b.invoices) && id != a.invoice ==>
      Bill(Allocate(b, a, today).invoices, id) == Bill(b.invoices, id)
  {
    SumSnoc(b.allocations, a, PaidTo(a.invoice));
    var touched := set x | x in [a] :: x.invoice;
    assert touched == {a.invoice} by { assert a in [a]; }
    BillOfEach(b.invoices, SyncBill(b.allocations + [a], touched, today));
  }

  lemma AllocateReceipt(b: Books, a: Allocation, today: int)
    requires Keyed(b) && Tallied(b) && a.payment in PaymentIds(b.payments)
    ensures PaymentIds(Allocate(b, a, today).payments) == PaymentIds(b.payments)
    ensures
      var p := Receipt(b.payments, a.payment);
      Receipt(Allocate(b, a, today).payments, a.payment) == p.(drawn := p.drawn + a.amount)
    ensures forall id :: id in PaymentIds(b.payments) && id != a.payment ==>
      Receipt(Allocate(b, a, today).payments, id) == Receipt(b.payments, id)
  {
    SumSnoc(b.allocations, a, DrawnFrom(a.payment));
    var touched := set x | x in [a] :: x.payment;
    assert touched == {a.payment} by { assert a in [a]; }
    ReceiptOfEach(b.payments, SyncPayment(b.allocations + [a], touched));
  }

  // --- deleting -------------------------------------------------------------

  lemma KeptSums(b: Books, gone: Allocation -> bool)
    requires forall a :: a in b.allocations ==> a.amount > 0
    ensures ChangesOnly(b, Where(b.allocations, Not(gone)), Where(b.allocations, gone))
    ensures forall id :: 0 <= Sum(Where(b.allocations, Not(gone)), PaidTo(id)) <= Sum(b.allocations, PaidTo(id))
    ensures forall id :: 0 <= Sum(Where(b.allocations, Not(gone)), DrawnFrom(id)) <= Sum(b.allocations, DrawnFrom(id))
  {
    var kept, dropped := Where(b.allocations, Not(gone)), Where(b.allocations, gone);
    WhereIn(b.allocations, gone);
    forall id: nat
      ensures 0 <= Sum(kept, PaidTo(id)) <= Sum(b.allocations, PaidTo(id))
      ensures !Touches(dropped, id) ==> Sum(kept, PaidTo(id)) == Sum(b.allocations, PaidTo(id))
    {
      var g := (a: Allocation) => if !gone(a) && a.invoice == id then a.amount else 0;
      SumWhere(b.allocations, Not(gone), PaidTo(id), g);
      SumAtMost(b.allocations, g, PaidTo(id));
      SumNonNegative(b.allocations, g);
      if !Touches(dropped, id) {
        SumSame(b.allocations, g, PaidTo(id));
      }
    }
    forall id: nat
      ensures 0 <= Sum(kept, DrawnFrom(id)) <= Sum(b.allocations, DrawnFrom(id))
      ensures !Draws(dropped, id) ==> Sum(kept, DrawnFrom(id)) == Sum(b.allocations, DrawnFrom(id))
    {
      var g := (a: Allocation) => if !gone(a) && a.payment == id then a.amount else 0;
      SumWhere(b.allocations, Not(gone), DrawnFrom(id), g);
      SumAtMost(b.allocations, g, DrawnFrom(id));
      SumNonNegative(b.allocations, g);
      if !Draws(dropped, id) {
        SumSame(b.allocations, g, DrawnFrom(id));
      }
    }
  }

  lemma KeptPairsDistinct(rows: seq<Allocation>, p: Allocation -> bool)
    requires forall j, k :: 0 <= j < k < |rows| ==>
      rows[j].payment != rows[k].payment || rows[j].invoice != rows[k].invoice
    ensures
      var r := Where(rows, p);
      forall j, k :: 0 <= j < k < |r| ==> r[j].payment != r[k].payment || r[j].invoice != r[k].invoice
  {
    WherePairs(rows, p, (x: Allocation, y: Allocation) => x.payment != y.payment || x.invoice != y.invoice);
  }

  lemma DeleteAllocationsKeeps(b: Books, gone: Allocation -> bool, today: int, open: set<nat>)
    requires ValidWith(b, open)
    requires forall c, a :: c in b.carries && a in b.allocations && a.payment == c.payment ==> !gone(a)
    ensures
      var r := DeleteAllocations(b, gone, today);
      ValidWith(r, open) && BillIds(r.invoices) == BillIds(b.invoices)
        && PaymentIds(r.payments) == PaymentIds(b.payments)
  {
    var kept, dropped := Where(b.allocations, Not(gone)), Where(b.allocations, gone);
    KeptSums(b, gone);
    WhereIn(b.allocations, Not(gone));
    WhereIn(b.allocations, gone);
    KeptPairsDistinct(b.allocations, Not(gone));
    TriggersTally(b, kept, dropped, today);
    TriggersItemised(b, kept, dropped, today, open);
    TriggersWithin(b, kept, dropped, today, open);
    var b1 := b.(allocations := kept);
    forall x | x in kept ensures Joins(b1, x) {
      assert Joins(b, x);
    }
    TriggersKeep(b, kept, dropped, today);
  }

  lemma KeptBillsDistinct(rows: seq<Invoice>, p: Invoice -> bool)
    requires DistinctBills(rows)
    ensures DistinctBills(Where(rows, p))
    ensures forall id :: id in BillIds(Where(rows, p)) ==>
      id in BillIds(rows) && Bill(Where(rows, p), id) == Bill(rows, id)
    ensures forall id :: id in BillIds(rows) && p(Bill(rows, id)) ==> id in BillIds(Where(rows, p))
  {
    WherePairs(rows, p, (x: Invoice, y: Invoice) => x.id != y.id && x.no != y.no);
    WhereIn(rows, p);
    var r := Where(rows, p);
    forall id | id in BillIds(r) ensures id in BillIds(rows) && Bill(r, id) == Bill(rows, id) {
      BillIs(rows, Bill(r, id));
    }
  }

  lemma KeptPaymentsDistinct(rows: seq<Payment>, p: Payment -> bool)
    requires DistinctPayments(rows)
    ensures DistinctPayments(Where(rows, p))
    ensures forall id :: id in PaymentIds(Where(rows, p)) ==>
      id in PaymentIds(rows) && Receipt(Where(rows, p), id) == Receipt(rows, id)
    ensures forall id :: id in PaymentIds(rows) && p(Receipt(rows, id)) ==> id in PaymentIds(Where(rows, p))
  {
    WherePairs(rows, p, (x: Payment, y: Payment) => x.id != y.id && (x.receipt.Some? ==> x.receipt != y.receipt));
    WhereIn(rows, p);
    var r := Where(rows, p);
    forall id | id in PaymentIds(r) ensures id in PaymentIds(rows) && Receipt(r, id) == Receipt(rows, id) {
      ReceiptIs(rows, Receipt(r, id));
    }
  }

  lemma DropBillsItemised(b: Books, bills: set<nat>)
    requires Keyed(b) && Itemised(b, {})
    ensures Itemised(DropBills(b, bills), {})
  {
    var r := DropBills(b, bills);
    KeptBillsDistinct(b.invoices, Not(BillGone(bills)));
    WhereIn(b.invoices, Not(BillGone(bills)));
    WhereIn(b.lines, Not(LineGone(bills)));
    forall i | i in r.invoices ensures Headed(i, r.lines) {
      SumWhere(b.lines, Not(LineGone(bills)), AmountOn(i.id), AmountOn(i.id));
      SumWhere(b.lines, Not(LineGone(bills)), DiscountOn(i.id), DiscountOn(i.id));
    }
  }

  lemma DropBillsCarried(b: Books, bills: set<nat>)
    requires Keyed(b) && Carried(b)
    requires forall c :: c in b.carries ==> c.from !in bills
    ensures Carried(DropBills(b, bills))
  {
    var r := DropBills(b, bills);
    KeptBillsDistinct(b.invoices, Not(BillGone(bills)));
    WhereIn(b.carries, Not(CarryGone(bills)));
    WherePairs(b.carries, Not(CarryGone(bills)), (x: Carry, y: Carry) => x.from != y.from && x.payment != y.payment);
    forall c | c in r.carries ensures Carries(r, c) {
      assert Carries(b, c);
    }
  }

  lemma DropBillsJoined(b: Books, bills: set<nat>)
    requires Keyed(b) && Joined(b)
    requires forall a :: a in b.allocations ==> a.invoice !in bills
    ensures Joined(DropBills(b, bills))
  {
    KeptBillsDistinct(b.invoices, Not(BillGone(bills)));
    forall a | a in b.allocations ensures Joins(DropBills(b, bills), a) {
      assert Joins(b, a);
    }
  }

  /** Bills leave with their lines, once nothing is allocated to them and no carry leaves them. */
  lemma DropBillsKeeps(b: Books, bills: set<nat>)
    requires Valid(b)
    requires forall a :: a in b.allocations ==> a.invoice !in bills
    requires forall c :: c in b.carries ==> c.from !in bills
    ensures Valid(DropBills(b, bills))
  {
    KeptBillsDistinct(b.invoices, Not(BillGone(bills)));
    WhereIn(b.invoices, Not(BillGone(bills)));
    DropBillsItemised(b, bills);
    DropBillsJoined(b, bills);
    DropBillsCarried(b, bills);
  }

  lemma DeleteInvoicesKeeps(b: Books, bills: set<nat>, today: int)
    requires Valid(b) && DeleteInvoices(b, bills, today).Some?
    ensures Valid(DeleteInvoices(b, bills, today).value)
  {
    DeleteAllocationsKeeps(b, OfBills(bills), today, {});
    WhereIn(b.allocations, Not(OfBills(bills)));
    DropBillsKeeps(DeleteAllocations(b, OfBills(bills), today), bills);
  }

  lemma DropPaymentsKeeps(b: Books, receipts: set<nat>)
    requires Valid(b)
    requires forall a :: a in b.allocations ==> a.payment !in receipts
    requires forall c :: c in b.carries ==> c.payment !in receipts
    ensures Valid(DropPayments(b, receipts))
  {
    var r := DropPayments(b, receipts);
    KeptPaymentsDistinct(b.payments, Not(PaymentGone(receipts)));
    WhereIn(b.payments, Not(PaymentGone(receipts)));
    forall a | a in r.allocations ensures Joins(r, a) {
      assert Joins(b, a);
    }
    forall c | c in r.carries ensures Carries(r, c) {
      assert Carries(b, c);
    }
  }

  lemma DeletePaymentsKeeps(b: Books, receipts: set<nat>, today: int)
    requires Valid(b) && DeletePayments(b, receipts, today).Some?
    ensures Valid(DeletePayments(b, receipts, today).value)
  {
    DeleteAllocationsKeeps(b, OfPayments(receipts), today, {});
    WhereIn(b.allocations, Not(OfPayments(receipts)));
    DropPaymentsKeeps(DeleteAllocations(b, OfPayments(receipts), today), receipts);
  }
}
