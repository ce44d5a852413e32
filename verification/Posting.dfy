/**
Two things several programs do: raise a bill with one line, and post a receipt
against a bill, allocating no more than the bill still owes and leaving the
surplus as credit.
*/
module Posting {
  import opened Tables
  import opened Books
  import opened Upkeep
  import opened Withdrawal
  import opened Undo
  import opened Balances
  import opened Growth
  import opened Waterfall

  /** A bill with a header and one line that agree. */
  function RaiseBill(b: Books, row: Invoice, head: Option<nat>): Option<Books>
  {
    var b1 :- InsertInvoice(b, row);
    Some(InsertLine(b1, Line(b.next, head, row.gross, row.discount)))
  }

  function FindBill(rows: seq<Invoice>, id: nat): Option<Invoice>
  {
    if rows == [] then None
    else if rows[|rows| - 1].id == id then Some(rows[|rows| - 1])
    else FindBill(rows[..|rows| - 1], id)
  }

  /** The column updated by hand after the allocation, over what the trigger wrote. */
  function SetDrawn(receipt: nat, amount: int): Payment -> Payment
  {
    (p: Payment) => if p.id == receipt then p.(drawn := amount) else p
  }

  /** A receipt for the whole amount; the bill takes what it still owes of it. */
  function PostReceipt(b: Books, row: Payment, bill: nat, today: int): Option<Books>
  {
    var b1 :- InsertPayment(b, row);
    var target :- FindBill(b1.invoices, bill);
    var alloc := Min(row.amount, target.Balance());
    if alloc <= 0 then Some(b1)
    else
      var b2 := Allocate(b1, Allocation(b.next, bill, alloc), today);
      Some(b2.(payments := Each(b2.payments, SetDrawn(b.next, alloc))))
  }

  lemma {:induction false} FindBillIs(rows: seq<Invoice>, id: nat)
    requires DistinctBills(rows)
    ensures FindBill(rows, id).Some? <==> id in BillIds(rows)
    ensures id in BillIds(rows) ==> FindBill(rows, id) == Some(Bill(rows, id))
  {
    if rows != [] {
      var m := |rows| - 1;
      FindBillIs(rows[..m], id);
      if rows[m].id == id {
        BillIs(rows, rows[m]);
      } else if id in BillIds(rows[..m]) {
        BillIs(rows, Bill(rows[..m], id));
      } else {
        assert forall i :: i in rows ==> i == rows[m] || i in rows[..m];
      }
    }
  }

  // --- raising --------------------------------------------------------------

  /** A bill about to be raised: nothing paid on it, and a discount within its charge. */
  ghost predicate Fresh(row: Invoice) { row.paid == 0 && row.fine == 0 && 0 <= row.discount <= row.gross && row.Live() }

  lemma LinesOfNewBill(b: Books, head: Option<nat>, amount: int, discount: int)
    requires Keyed(b) && Itemised(b, {})
    ensures Sum(b.lines + [Line(b.next, head, amount, discount)], AmountOn(b.next)) == amount
    ensures Sum(b.lines + [Line(b.next, head, amount, discount)], DiscountOn(b.next)) == discount
  {
    forall l | l in b.lines ensures l.invoice != b.next {
      var i := Bill(b.invoices, l.invoice);
    }
    SumZero(b.lines, AmountOn(b.next));
    SumZero(b.lines, DiscountOn(b.next));
    SumSnoc(b.lines, Line(b.next, head, amount, discount), AmountOn(b.next));
    SumSnoc(b.lines, Line(b.next, head, amount, discount), DiscountOn(b.next));
  }

  lemma CloseBill(b: Books, id: nat)
    requires ValidWith(b, {id}) && id in BillIds(b.invoices)
    requires Headed(Bill(b.invoices, id), b.lines) && Bill(b.invoices, id).Net() >= 0
    ensures Valid(b)
  {
    forall i | i in b.invoices && i.id == id ensures i == Bill(b.invoices, id) { BillIs(b.invoices, i); }
  }

  lemma RaiseBillKeeps(b: Books, row: Invoice, head: Option<nat>)
    requires Valid(b) && Fresh(row) && RaiseBill(b, row, head).Some?
    ensures Valid(RaiseBill(b, row, head).value)
    ensures b.next in BillIds(RaiseBill(b, row, head).value.invoices)
    ensures Bill(RaiseBill(b, row, head).value.invoices, b.next) == row.(id := b.next)
  {
    var b1 := InsertInvoice(b, row).value;
    InsertInvoiceKeeps(b, row, {});
    assert b1.invoices[|b.invoices|] == row.(id := b.next);
    BillIs(b1.invoices, row.(id := b.next));
    InsertLineKeeps(b1, Line(b.next, head, row.gross, row.discount), {} + {b.next});
    LinesOfNewBill(b, head, row.gross, row.discount);
    CloseBill(RaiseBill(b, row, head).value, b.next);
  }

  lemma RaiseBillGrows(b0: Books, b: Books, year: Year, row: Invoice, head: Option<nat>)
    requires Grown(b0, b, year) && row.year == year && RaiseBill(b, row, head).Some?
    ensures Grown(b0, RaiseBill(b, row, head).value, year)
  {
    InsertInvoiceGrows(b0, b, year, row);
    InsertLineGrows(b0, InsertInvoice(b, row).value, year, Line(b.next, head, row.gross, row.discount));
  }

  /** Raising a bill charges the child its net and nobody else anything. */
  lemma RaiseBillCharges(b: Books, row: Invoice, head: Option<nat>, student: nat)
    requires RaiseBill(b, row, head).Some?
    ensures Charged(RaiseBill(b, row, head).value, student) == Charged(b, student) + NetOf(student)(row)
    ensures Received(RaiseBill(b, row, head).value, student) == Received(b, student)
  {
    InsertInvoiceCharges(b, row, student);
  }

  // --- posting --------------------------------------------------------------

  ghost predicate Payable(b: Books, row: Payment, bill: nat)
  {
    && row.amount > 0 && row.drawn == 0 && bill in BillIds(b.invoices)
    && Bill(b.invoices, bill).Live() && Bill(b.invoices, bill).student == row.student
  }

  lemma NewReceiptMayPay(b: Books, row: Payment, bill: nat, amount: int)
    requires Valid(b) && Payable(b, row, bill) && InsertPayment(b, row).Some?
    requires 0 < amount <= row.amount && amount <= Bill(b.invoices, bill).Balance()
    ensures Valid(InsertPayment(b, row).value)
    ensures MayAllocate(InsertPayment(b, row).value, Allocation(b.next, bill, amount), {})
  {
    var b1 := InsertPayment(b, row).value;
    InsertPaymentKeeps(b, row, {});
    assert b1.payments[|b.payments|] == row.(id := b.next);
    ReceiptIs(b1.payments, row.(id := b.next));
    forall x | x in b.allocations ensures x.payment != b.next {
      assert Joins(b, x);
    }
  }

  lemma HandWritten(b: Books, a: Allocation, today: int)
    requires forall x :: x in b.allocations ==> x.payment != a.payment
    ensures
      var r := Allocate(b, a, today);
      Each(r.payments, SetDrawn(a.payment, a.amount)) == r.payments
  {
    SumZero(b.allocations, DrawnFrom(a.payment));
    SumSnoc(b.allocations, a, DrawnFrom(a.payment));
  }

  /** The update of `drawn` by hand writes what the trigger has already written. */
  lemma HandWrittenAgrees(b: Books, row: Payment, bill: nat, today: int)
    requires Valid(b) && bill in BillIds(b.invoices) && InsertPayment(b, row).Some?
    ensures
      var b1 := InsertPayment(b, row).value;
      var alloc := Min(row.amount, Bill(b.invoices, bill).Balance());
      PostReceipt(b, row, bill, today)
      == Some(if alloc <= 0 then b1 else Allocate(b1, Allocation(b.next, bill, alloc), today))
  {
    FindBillIs(b.invoices, bill);
    forall x | x in b.allocations ensures x.payment != b.next {
      assert Joins(b, x);
    }
    var alloc := Min(row.amount, Bill(b.invoices, bill).Balance());
    HandWritten(InsertPayment(b, row).value, Allocation(b.next, bill, alloc), today);
  }

  lemma PostReceiptKeeps(b: Books, row: Payment, bill: nat, today: int)
    requires Valid(b) && Payable(b, row, bill) && PostReceipt(b, row, bill, today).Some?
    ensures Valid(PostReceipt(b, row, bill, today).value)
  {
    HandWrittenAgrees(b, row, bill, today);
    InsertPaymentKeeps(b, row, {});
    var alloc := Min(row.amount, Bill(b.invoices, bill).Balance());
    if alloc > 0 {
      NewReceiptMayPay(b, row, bill, alloc);
      AllocateKeeps(InsertPayment(b, row).value, Allocation(b.next, bill, alloc), today, {});
    }
  }

  /** The bill takes what it owes of the receipt, and the rest is the family's credit. */
  lemma SurplusIsCredit(b: Books, row: Payment, bill: nat, today: int)
    requires Valid(b) && Payable(b, row, bill) && PostReceipt(b, row, bill, today).Some?
    ensures
      var r := PostReceipt(b, row, bill, today).value;
      var owed := Bill(b.invoices, bill).Balance();
      && bill in BillIds(r.invoices) && b.next in PaymentIds(r.payments)
      && Bill(r.invoices, bill).Balance() == Max(0, owed - row.amount)
      && Receipt(r.payments, b.next).Left() == Max(0, row.amount - owed)
  {
    HandWrittenAgrees(b, row, bill, today);
    var owed := Bill(b.invoices, bill).Balance();
    var b1 := InsertPayment(b, row).value;
    InsertPaymentKeeps(b, row, {});
    assert b1.payments[|b.payments|] == row.(id := b.next);
    ReceiptIs(b1.payments, row.(id := b.next));
    var alloc := Min(row.amount, owed);
    if alloc > 0 {
      AllocateBill(b1, Allocation(b.next, bill, alloc), today);
      AllocateReceipt(b1, Allocation(b.next, bill, alloc), today);
    }
  }

  lemma PostReceiptGrows(b0: Books, b: Books, year: Year, row: Payment, bill: nat, today: int)
    requires Keyed(b0) && Valid(b) && Grown(b0, b, year) && LoaderWrote(row) && !Forwards(row) && bill >= b0.next
    requires bill in BillIds(b.invoices)
    requires PostReceipt(b, row, bill, today).Some?
    ensures Grown(b0, PostReceipt(b, row, bill, today).value, year)
  {
    HandWrittenAgrees(b, row, bill, today);
    InsertLoaderReceiptGrows(b0, b, year, row);
    var alloc := Min(row.amount, Bill(b.invoices, bill).Balance());
    AllocateGrows(b0, InsertPayment(b, row).value, year, Allocation(b.next, bill, alloc), today);
  }

  /** A receipt changes a family's account by exactly its amount. */
  lemma PostReceiptReceives(b: Books, row: Payment, bill: nat, today: int, student: nat)
    requires Valid(b) && bill in BillIds(b.invoices) && PostReceipt(b, row, bill, today).Some?
    ensures Charged(PostReceipt(b, row, bill, today).value, student) == Charged(b, student)
    ensures Received(PostReceipt(b, row, bill, today).value, student) == Received(b, student) + AmountOf(student)(row)
  {
    HandWrittenAgrees(b, row, bill, today);
    InsertPaymentReceives(b, row, student);
    var b1 := InsertPayment(b, row).value;
    var alloc := Min(row.amount, Bill(b.invoices, bill).Balance());
    var a := Allocation(b.next, bill, alloc);
    AllocationsMoveNothing(b1, b1.allocations + [a], [a], today, student);
  }
}
