/**
The fee ledger as data: bills with their lines, receipts, the allocation of
receipts to bills, and the record of debt carried from one year's bill onto a
later one. What each SQL statement of the programs does to it is a function
here; what every statement keeps is `Valid`.
*/
module Books {
  import opened Tables

  datatype Year = Year(id: nat, starts: int)

  /** A document number: the text of its series, then a serial. */
  datatype DocNo = DocNo(series: string, serial: nat)

  datatype Status = Draft | Unpaid | PartlyPaid | Paid | Overdue | Cancelled

  datatype Mode = Adjustment | Cash | Cheque | Upi | Card | NetBanking

  datatype Remark = CarriedForwardTo(bill: DocNo) | Words(text: string)

  datatype Invoice = Invoice(
    id: nat, student: nat, year: Year, no: DocNo, instalment: Option<nat>,
    issued: int, due: Option<int>, gross: int, discount: int, fine: int, paid: int, status: Status)
  {
    function Net(): int { gross - discount + fine }
    function Balance(): int { Net() - paid }
    predicate Live() { status != Cancelled }
  }

  datatype Line = Line(invoice: nat, head: Option<nat>, amount: int, discount: int)

  datatype Payment = Payment(
    id: nat, student: nat, receipt: Option<DocNo>, amount: int, drawn: int,
    mode: Mode, paidOn: int, remark: Remark)
  {
    function Left(): int { amount - drawn }
  }

  datatype Allocation = Allocation(payment: nat, invoice: nat, amount: int)

  datatype Carry = Carry(from: nat, to: nat, payment: nat, amount: int)

  /** `next` is above every row id drawn so far; `serial` is the school's own invoice series. */
  datatype Books = Books(
    invoices: seq<Invoice>, lines: seq<Line>, payments: seq<Payment>,
    allocations: seq<Allocation>, carries: seq<Carry>, next: nat, serial: nat)

  // --- columns and conditions -----------------------------------------------

  function AmountOn(bill: nat): Line -> int { (l: Line) => if l.invoice == bill then l.amount else 0 }
  function DiscountOn(bill: nat): Line -> int { (l: Line) => if l.invoice == bill then l.discount else 0 }
  function PaidTo(bill: nat): Allocation -> int { (a: Allocation) => if a.invoice == bill then a.amount else 0 }
  function DrawnFrom(receipt: nat): Allocation -> int
  {
    (a: Allocation) => if a.payment == receipt then a.amount else 0
  }

  ghost function BillIds(invoices: seq<Invoice>): set<nat> { set i | i in invoices :: i.id }
  ghost function PaymentIds(payments: seq<Payment>): set<nat> { set p | p in payments :: p.id }

  ghost function Bill(invoices: seq<Invoice>, id: nat): (i: Invoice)
    requires id in BillIds(invoices)
    ensures i in invoices && i.id == id
  {
    var i :| i in invoices && i.id == id; i
  }

  ghost function Receipt(payments: seq<Payment>, id: nat): (p: Payment)
    requires id in PaymentIds(payments)
    ensures p in payments && p.id == id
  {
    var p :| p in payments && p.id == id; p
  }

  // --- what the two triggers on payment_allocations write -------------------

  function StatusAfter(i: Invoice, total: int, today: int): Status
  {
    if i.status == Cancelled then Cancelled
    else if total >= i.Net() && i.Net() > 0 then Paid
    else if total > 0 then PartlyPaid
    else if i.due.Some? && i.due.value < today then Overdue
    else Unpaid
  }

  function SyncBill(allocations: seq<Allocation>, touched: set<nat>, today: int): Invoice -> Invoice
  {
    (i: Invoice) =>
      if i.id in touched then
        var total := Sum(allocations, PaidTo(i.id));
        i.(paid := total, status := StatusAfter(i, total, today))
      else i
  }

  function SyncPayment(allocations: seq<Allocation>, touched: set<nat>): Payment -> Payment
  {
    (p: Payment) => if p.id in touched then p.(drawn := Sum(allocations, DrawnFrom(p.id))) else p
  }

  /** The ledger with its allocations replaced and both triggers fired for the rows that changed. */
  function WithAllocations(b: Books, allocations: seq<Allocation>, changed: seq<Allocation>, today: int): Books
  {
    b.(allocations := allocations,
       invoices := Each(b.invoices, SyncBill(allocations, set a | a in changed :: a.invoice, today)),
       payments := Each(b.payments, SyncPayment(allocations, set a | a in changed :: a.payment)))
  }

  // --- statements -----------------------------------------------------------

  predicate NumberTaken(b: Books, no: DocNo) { exists i :: i in b.invoices && i.no == no }
  predicate ReceiptTaken(b: Books, no: DocNo) { exists p :: p in b.payments && p.receipt == Some(no) }

  /** A new bill under the id `b.next`; refused when its number is taken. */
  function InsertInvoice(b: Books, row: Invoice): Option<Books>
  {
    if NumberTaken(b, row.no) then None
    else Some(b.(invoices := b.invoices + [row.(id := b.next)], next := b.next + 1))
  }

  function InsertLine(b: Books, l: Line): Books { b.(lines := b.lines + [l]) }

  /** A new receipt under the id `b.next`; refused when its number is taken. */
  function InsertPayment(b: Books, row: Payment): Option<Books>
  {
    if row.receipt.Some? && ReceiptTaken(b, row.receipt.value) then None
    else Some(b.(payments := b.payments + [row.(id := b.next)], next := b.next + 1))
  }

  function Allocate(b: Books, a: Allocation, today: int): Books
  {
    WithAllocations(b, b.allocations + [a], [a], today)
  }

  function InsertCarry(b: Books, c: Carry): Books { b.(carries := b.carries + [c]) }

  function Rehead(lines: seq<Line>, bills: set<nat>): Invoice -> Invoice
  {
    (i: Invoice) =>
      if i.id in bills then i.(gross := Sum(lines, AmountOn(i.id)), discount := Sum(lines, DiscountOn(i.id)))
      else i
  }

  /** Headers of the named bills recomputed from their lines. */
  function RecomputeHeaders(b: Books, bills: set<nat>): Books
  {
    b.(invoices := Each(b.invoices, Rehead(b.lines, bills)))
  }

  function DeleteAllocations(b: Books, gone: Allocation -> bool, today: int): Books
  {
    WithAllocations(b, Where(b.allocations, Not(gone)), Where(b.allocations, gone), today)
  }

  function OfBills(bills: set<nat>): Allocation -> bool { (a: Allocation) => a.invoice in bills }
  function OfPayments(payments: set<nat>): Allocation -> bool { (a: Allocation) => a.payment in payments }

  function BillGone(bills: set<nat>): Invoice -> bool { (i: Invoice) => i.id in bills }
  function LineGone(bills: set<nat>): Line -> bool { (l: Line) => l.invoice in bills }
  function CarryGone(bills: set<nat>): Carry -> bool { (c: Carry) => c.to in bills }
  function PaymentGone(receipts: set<nat>): Payment -> bool { (p: Payment) => p.id in receipts }

  function DropBills(b: Books, bills: set<nat>): Books
  {
    b.(invoices := Where(b.invoices, Not(BillGone(bills))),
       lines := Where(b.lines, Not(LineGone(bills))),
       carries := Where(b.carries, Not(CarryGone(bills))))
  }

  function DropPayments(b: Books, receipts: set<nat>): Books
  {
    b.(payments := Where(b.payments, Not(PaymentGone(receipts))))
  }

  /** Lines, allocations and carries into a deleted bill go with it; a carry out of it forbids the deletion. */
  function DeleteInvoices(b: Books, bills: set<nat>, today: int): Option<Books>
  {
    if exists c :: c in b.carries && c.from in bills then None
    else Some(DropBills(DeleteAllocations(b, OfBills(bills), today), bills))
  }

  /** The allocations of a deleted receipt go with it; a carry it settles forbids the deletion. */
  function DeletePayments(b: Books, receipts: set<nat>, today: int): Option<Books>
  {
    if exists c :: c in b.carries && c.payment in receipts then None
    else Some(DropPayments(DeleteAllocations(b, OfPayments(receipts), today), receipts))
  }

  // --- what every statement keeps -------------------------------------------

  /** Row ids and bill numbers each name one row. */
  ghost predicate DistinctBills(invoices: seq<Invoice>)
  {
    forall j, k :: 0 <= j < k < |invoices| ==>
      invoices[j].id != invoices[k].id && invoices[j].no != invoices[k].no
  }

  /** Row ids and receipt numbers each name one row; an adjustment may have no number. */
  ghost predicate DistinctPayments(payments: seq<Payment>)
  {
    forall j, k :: 0 <= j < k < |payments| ==>
      && payments[j].id != payments[k].id
      && (payments[j].receipt.Some? ==> payments[j].receipt != payments[k].receipt)
  }

  ghost predicate Keyed(b: Books)
  {
    && DistinctBills(b.invoices) && DistinctPayments(b.payments)
    && (forall i :: i in b.invoices ==> i.id < b.next)
    && (forall p :: p in b.payments ==> p.id < b.next)
  }

  ghost predicate Headed(i: Invoice, lines: seq<Line>)
  {
    i.gross == Sum(lines, AmountOn(i.id)) && i.discount == Sum(lines, DiscountOn(i.id))
  }

  /** Every line belongs to a bill and discounts no more than it charges; headers are the sums of their lines. */
  ghost predicate Itemised(b: Books, open: set<nat>)
  {
    && (forall l :: l in b.lines ==> l.invoice in BillIds(b.invoices) && 0 <= l.discount <= l.amount)
    && (forall i :: i in b.invoices && i.id !in open ==> Headed(i, b.lines))
  }

  /** Paid is the sum of a bill's allocations, drawn the sum of a receipt's. */
  ghost predicate Tallied(b: Books)
  {
    && (forall i :: i in b.invoices ==> i.paid == Sum(b.allocations, PaidTo(i.id)))
    && (forall p :: p in b.payments ==> p.drawn == Sum(b.allocations, DrawnFrom(p.id)))
  }

  /** An allocation joins a receipt and a bill of one student. */
  ghost predicate Joins(b: Books, a: Allocation)
  {
    && a.amount > 0 && a.invoice in BillIds(b.invoices) && a.payment in PaymentIds(b.payments)
    && Bill(b.invoices, a.invoice).student == Receipt(b.payments, a.payment).student
  }

  /** A receipt is allocated to a bill at most once. */
  ghost predicate Joined(b: Books)
  {
    && (forall a :: a in b.allocations ==> Joins(b, a))
    && (forall j, k :: 0 <= j < k < |b.allocations| ==>
          b.allocations[j].payment != b.allocations[k].payment || b.allocations[j].invoice != b.allocations[k].invoice)
  }

  /** No bill is paid beyond its net and no receipt allocated beyond its amount. */
  ghost predicate Within(b: Books, open: set<nat>)
  {
    && (forall p :: p in b.payments ==> 0 < p.amount && p.drawn <= p.amount)
    && (forall i :: i in b.invoices ==> i.fine >= 0)
    && (forall i :: i in b.invoices && i.id !in open ==> i.paid <= i.Net())
    && (forall i :: i in b.invoices && (i.id in open || i.status == Cancelled) ==> i.paid == 0)
  }

  /** A carry moves an earlier year's debt of one student onto a later bill, settled by an adjustment. */
  ghost predicate Carries(b: Books, c: Carry)
  {
    && c.from in BillIds(b.invoices) && c.to in BillIds(b.invoices) && c.payment in PaymentIds(b.payments)
    && var f, t, p := Bill(b.invoices, c.from), Bill(b.invoices, c.to), Receipt(b.payments, c.payment);
    && f.student == t.student == p.student && f.year.starts < t.year.starts
    && p.mode == Adjustment && p.receipt == None && p.amount == c.amount == p.drawn
    && p.remark == CarriedForwardTo(t.no)
  }

  /** A bill is carried at most once, and the adjustment settling it pays nothing else. */
  ghost predicate Carried(b: Books)
  {
    && (forall c :: c in b.carries ==> Carries(b, c))
    && (forall c, a :: c in b.carries && a in b.allocations && a.payment == c.payment ==> a.invoice == c.from)
    && (forall j, k :: 0 <= j < k < |b.carries| ==>
          b.carries[j].from != b.carries[k].from && b.carries[j].payment != b.carries[k].payment)
  }

  /** Valid except that the headers of the `open` bills are still being written. */
  ghost predicate ValidWith(b: Books, open: set<nat>)
  {
    Keyed(b) && Itemised(b, open) && Tallied(b) && Joined(b) && Within(b, open) && Carried(b)
  }

  ghost predicate Valid(b: Books) { ValidWith(b, {}) }
}
