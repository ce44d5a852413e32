/** The statements of a year's programs are work on that year alone, and what each does to a family's account. */
module Growth {
  import opened Tables
  import opened Books
  import opened Withdrawal
  import opened Undo
  import opened Balances

  lemma GrownFromItself(b: Books, year: Year)
    ensures Grown(b, b, year)
  {
  }

  lemma MoreSince<T>(before: seq<T>, after: seq<T>, x: T)
    requires before <= after
    ensures before <= after + [x] && Since(before, after + [x]) == Since(before, after) + [x]
  {
  }

  lemma InsertInvoiceGrows(b0: Books, b: Books, year: Year, row: Invoice)
    requires Grown(b0, b, year) && row.year == year && InsertInvoice(b, row).Some?
    ensures Grown(b0, InsertInvoice(b, row).value, year)
  {
  }

  lemma InsertLineGrows(b0: Books, b: Books, year: Year, l: Line)
    requires Grown(b0, b, year) && l.invoice >= b0.next
    ensures Grown(b0, InsertLine(b, l), year)
  {
    MoreSince(b0.lines, b.lines, l);
  }

  lemma InsertLoaderReceiptGrows(b0: Books, b: Books, year: Year, row: Payment)
    requires Grown(b0, b, year) && LoaderWrote(row) && !Forwards(row) && InsertPayment(b, row).Some?
    ensures Grown(b0, InsertPayment(b, row).value, year)
  {
  }

  lemma RecomputeHeadersGrows(b0: Books, b: Books, year: Year, bills: set<nat>)
    requires Keyed(b0) && Grown(b0, b, year) && forall id :: id in bills ==> id >= b0.next
    ensures Grown(b0, RecomputeHeaders(b, bills), year)
  {
    forall k | 0 <= k < |b0.invoices| ensures b.invoices[k].id !in bills {
      assert b0.invoices[k] in b0.invoices;
    }
  }

  lemma AllocateGrows(b0: Books, b: Books, year: Year, a: Allocation, today: int)
    requires Keyed(b0) && Grown(b0, b, year) && a.invoice >= b0.next
    ensures Grown(b0, Allocate(b, a, today), year)
  {
    var r := Allocate(b, a, today);
    MoreSince(b0.allocations, b.allocations, a);
    assert forall x :: x in Since(b0.allocations, b.allocations) ==> x in Since(b0.allocations, r.allocations);
    forall k | 0 <= k < |b0.invoices| ensures r.invoices[k] == b.invoices[k] {
      assert b0.invoices[k] in b0.invoices;
    }
  }

  // --- what each statement does to a family's account -----------------------

  lemma InsertInvoiceCharges(b: Books, row: Invoice, student: nat)
    requires InsertInvoice(b, row).Some?
    ensures Charged(InsertInvoice(b, row).value, student) == Charged(b, student) + NetOf(student)(row)
  {
    SumSnoc(b.invoices, row.(id := b.next), NetOf(student));
  }

  lemma InsertPaymentReceives(b: Books, row: Payment, student: nat)
    requires InsertPayment(b, row).Some?
    ensures Received(InsertPayment(b, row).value, student) == Received(b, student) + AmountOf(student)(row)
  {
    SumSnoc(b.payments, row.(id := b.next), AmountOf(student));
  }

  /** Allocating, or taking an allocation away, charges nothing and receives nothing. */
  lemma AllocationsMoveNothing(b: Books, allocations: seq<Allocation>, changed: seq<Allocation>, today: int,
                               student: nat)
    ensures Charged(WithAllocations(b, allocations, changed, today), student) == Charged(b, student)
    ensures Received(WithAllocations(b, allocations, changed, today), student) == Received(b, student)
  {
    SumEach(b.invoices, SyncBill(allocations, set a | a in changed :: a.invoice, today), NetOf(student),
            NetOf(student));
    SumEach(b.payments, SyncPayment(allocations, set a | a in changed :: a.payment), AmountOf(student),
            AmountOf(student));
  }
}
