/**
Withdrawing a year before its register is loaded again: the arrears carried
onto the year's bills are put back, the bills go, and the receipts the loader
itself wrote go with them.
*/
module Withdrawal {
  import opened Tables
  import opened Books
  import opened Upkeep

  const CARRIED_TO_INV := "Carried forward to INV/"
  const INV := "INV/"
  const LOADER_RECEIPTS := "RCT/2026-27/"

  /** The remark begins "Carried forward to INV/". The serial that ends a number is digits, so its series decides. */
  predicate SaysCarried(r: Remark)
  {
    match r
    case CarriedForwardTo(bill) => IsPrefix(INV, bill.series)
    case Words(text) => IsPrefix(CARRIED_TO_INV, text)
  }

  /** An adjustment that says it carried a balance forward to a bill of the INV series. */
  predicate Forwards(p: Payment) { p.mode == Adjustment && SaysCarried(p.remark) }

  /** The receipt number begins "RCT/2026-27/". */
  predicate LoaderWrote(p: Payment) { p.receipt.Some? && IsPrefix(LOADER_RECEIPTS, p.receipt.value.series) }

  function YearBills(b: Books, year: Year): set<nat> { set i | i in b.invoices && i.year == year :: i.id }

  function CarryPayments(b: Books, bills: set<nat>): set<nat> { set c | c in b.carries && c.to in bills :: c.payment }

  predicate LeftOver(b: Books, p: Payment)
  {
    Forwards(p) && forall a :: a in b.allocations ==> a.payment != p.id
  }

  function LeftOvers(b: Books): set<nat> { set p | p in b.payments && LeftOver(b, p) :: p.id }
  function LoaderReceipts(b: Books): set<nat> { set p | p in b.payments && LoaderWrote(p) :: p.id }

  /** The carries into the year are deleted, then the allocations their adjustments made. */
  function UndoCarries(b: Books, year: Year, today: int): Books
  {
    var bills := YearBills(b, year);
    DeleteAllocations(b.(carries := Where(b.carries, Not(CarryGone(bills)))), OfPayments(CarryPayments(b, bills)),
                      today)
  }

  /** None when the database refuses, and the whole load rolls back. */
  function Withdraw(b: Books, year: Year, today: int): Option<Books>
  {
    var b1 := UndoCarries(b, year, today);
    var b2 :- DeletePayments(b1, LeftOvers(b1), today);
    var b3 :- DeleteInvoices(b2, YearBills(b, year), today);
    DeletePayments(b3, LoaderReceipts(b3), today)
  }

  // --- what a withdrawal keeps ----------------------------------------------

  lemma FewerCarries(b: Books, keep: Carry -> bool)
    requires Carried(b)
    ensures Carried(b.(carries := Where(b.carries, keep)))
    ensures forall c, d :: c in b.carries && d in b.carries && c.payment == d.payment ==> c == d
  {
    var r := b.(carries := Where(b.carries, keep));
    WhereIn(b.carries, keep);
    WherePairs(b.carries, keep, (x: Carry, y: Carry) => x.from != y.from && x.payment != y.payment);
    forall c | c in r.carries ensures Carries(r, c) {
      assert Carries(b, c);
    }
  }

  lemma UndoCarriesKeeps(b: Books, year: Year, today: int)
    requires Valid(b)
    ensures Valid(UndoCarries(b, year, today))
  {
    var bills := YearBills(b, year);
    FewerCarries(b, Not(CarryGone(bills)));
    WhereIn(b.carries, Not(CarryGone(bills)));
    DeleteAllocationsKeeps(b.(carries := Where(b.carries, Not(CarryGone(bills)))),
                           OfPayments(CarryPayments(b, bills)), today, {});
  }

  lemma WithdrawKeeps(b: Books, year: Year, today: int)
    requires Valid(b) && Withdraw(b, year, today).Some?
    ensures Valid(Withdraw(b, year, today).value)
  {
    var b1 := UndoCarries(b, year, today);
    UndoCarriesKeeps(b, year, today);
    DeletePaymentsKeeps(b1, LeftOvers(b1), today);
    var b2 := DeletePayments(b1, LeftOvers(b1), today).value;
    DeleteInvoicesKeeps(b2, YearBills(b, year), today);
    var b3 := DeleteInvoices(b2, YearBills(b, year), today).value;
    DeletePaymentsKeeps(b3, LoaderReceipts(b3), today);
  }

  // --- what a withdrawal leaves, row by row ---------------------------------

  /** The same bill, or the same bill with its paid amount and status written again by the trigger. */
  ghost predicate Progressed(i: Invoice, j: Invoice, today: int)
  {
    j == i || j == i.(paid := j.paid, status := StatusAfter(i, j.paid, today))
  }

  /** Bills progress one by one, and only those an allocation in `changed` names. */
  ghost predicate BillsProgress(rows: seq<Invoice>, after: seq<Invoice>, changed: seq<Allocation>, today: int)
  {
    |rows| == |after| && forall k :: 0 <= k < |rows| ==>
      Progressed(rows[k], after[k], today) && (!Touches(changed, rows[k].id) ==> after[k] == rows[k])
  }

  ghost predicate PaymentsRedrawn(rows: seq<Payment>, after: seq<Payment>)
  {
    |rows| == |after| && forall k :: 0 <= k < |rows| ==> after[k] == rows[k].(drawn := after[k].drawn)
  }

  lemma DeletionProgress(b: Books, gone: Allocation -> bool, today: int)
    ensures BillsProgress(b.invoices, DeleteAllocations(b, gone, today).invoices, Where(b.allocations, gone), today)
    ensures PaymentsRedrawn(b.payments, DeleteAllocations(b, gone, today).payments)
  {
  }

  lemma ProgressFurther(a: seq<Invoice>, b: seq<Invoice>, c: seq<Invoice>, first: seq<Allocation>,
                        then': seq<Allocation>,
                        all: seq<Allocation>, today: int)
    requires BillsProgress(a, b, first, today) && BillsProgress(b, c, then', today)
    requires forall x :: x in first || x in then' ==> x in all
    ensures BillsProgress(a, c, all, today)
  {
    forall k | 0 <= k < |a| ensures Progressed(a[k], c[k], today) && (!Touches(all, a[k].id) ==> c[k] == a[k]) {
      assert Progressed(a[k], b[k], today) && Progressed(b[k], c[k], today);
    }
  }

  lemma ProgressOfKept(a: seq<Invoice>, b: seq<Invoice>, changed: seq<Allocation>, today: int, bills: set<nat>)
    requires BillsProgress(a, b, changed, today)
    ensures BillsProgress(Where(a, Not(BillGone(bills))), Where(b, Not(BillGone(bills))), changed, today)
  {
    WhereParallel(a, b, Not(BillGone(bills)), (i: Invoice, j: Invoice) =>
      (j == i || j == i.(paid := j.paid, status := StatusAfter(i, j.paid, today)))
      && ((forall x :: x in changed ==> x.invoice != i.id) ==> j == i));
  }

  lemma RedrawnOfKept(a: seq<Payment>, b: seq<Payment>, receipts: set<nat>)
    requires PaymentsRedrawn(a, b)
    ensures PaymentsRedrawn(Where(a, Not(PaymentGone(receipts))), Where(b, Not(PaymentGone(receipts))))
  {
    WhereParallel(a, b, Not(PaymentGone(receipts)), (x: Payment, y: Payment) => y == x.(drawn := y.drawn));
  }

  // --- the withdrawal as one step -------------------------------------------

  /** An adjustment whose remark says it was carried to a bill of the INV series, and which pays nothing
      once the carries into the year are undone. */
  predicate Stranded(b: Books, bills: set<nat>, p: Payment)
  {
    && Forwards(p)
    && (p.id in CarryPayments(b, bills) || forall a :: a in b.allocations ==> a.payment != p.id)
  }

  function StrandedIn(b: Books, bills: set<nat>): set<nat> { set p | p in b.payments && Stranded(b, bills, p) :: p.id }

  /** The allocations a withdrawal takes away. */
  function Withdrawn(b: Books, bills: set<nat>): Allocation -> bool
  {
    (a: Allocation) =>
      a.payment in CarryPayments(b, bills) || a.invoice in bills || a.payment in LoaderReceipts(b)
  }

  lemma SameReceipts(a: seq<Payment>, c: seq<Payment>, p: Payment -> bool, q: Payment -> bool)
    requires |a| == |c| && forall k :: 0 <= k < |a| ==> a[k].id == c[k].id && p(a[k]) == q(c[k])
    ensures (set x | x in a && p(x) :: x.id) == (set x | x in c && q(x) :: x.id)
  {
    forall x | x in a && p(x) ensures exists y :: y in c && q(y) && y.id == x.id {
      var k :| 0 <= k < |a| && a[k] == x;
      assert c[k] in c;
    }
    forall y | y in c && q(y) ensures exists x :: x in a && p(x) && x.id == y.id {
      var k :| 0 <= k < |c| && c[k] == y;
      assert a[k] in a;
    }
  }

  lemma UndoCarriesAllocations(b: Books, year: Year, today: int, p: Payment)
    ensures
      var bills := YearBills(b, year);
      (forall a :: a in UndoCarries(b, year, today).allocations ==> a.payment != p.id)
      == (p.id in CarryPayments(b, bills) || forall a :: a in b.allocations ==> a.payment != p.id)
  {
    WhereIn(b.allocations, Not(OfPayments(CarryPayments(b, YearBills(b, year)))));
  }

  lemma UndoCarriesLeaves(b: Books, year: Year, today: int)
    ensures LeftOvers(UndoCarries(b, year, today)) == StrandedIn(b, YearBills(b, year))
    ensures LoaderReceipts(UndoCarries(b, year, today)) == LoaderReceipts(b)
  {
    var bills := YearBills(b, year);
    var b1 := UndoCarries(b, year, today);
    DeletionProgress(b.(carries := b1.carries), OfPayments(CarryPayments(b, bills)), today);
    var stranded, leftOver, loader := p => Stranded(b, bills, p), p => LeftOver(b1, p), p => LoaderWrote(p);
    forall k | 0 <= k < |b.payments| ensures stranded(b.payments[k]) == leftOver(b1.payments[k]) {
      UndoCarriesAllocations(b, year, today, b.payments[k]);
    }
    SameReceipts(b.payments, b1.payments, stranded, leftOver);
    SameReceipts(b.payments, b1.payments, loader, loader);
  }

  lemma DeleteNothing(b: Books, gone: Allocation -> bool, today: int)
    requires forall a :: a in b.allocations ==> !gone(a)
    ensures DeleteAllocations(b, gone, today) == b
  {
    WhereAll(b.allocations, Not(gone));
    WhereNone(b.allocations, gone);
    assert Each(b.invoices, SyncBill(b.allocations, {}, today)) == b.invoices;
    assert Each(b.payments, SyncPayment(b.allocations, {})) == b.payments;
    assert (set a | a in Where(b.allocations, gone) :: a.invoice) == {};
    assert (set a | a in Where(b.allocations, gone) :: a.payment) == {};
  }

  /** The receipts left standing by carries that are undone pay nothing, so deleting them moves nothing else. */
  lemma LeftOversPayNothing(b: Books, today: int)
    requires DeletePayments(b, LeftOvers(b), today).Some?
    ensures DeletePayments(b, LeftOvers(b), today).value == DropPayments(b, LeftOvers(b))
    ensures forall a :: a in b.allocations ==> a.payment !in LeftOvers(b)
  {
    DeleteNothing(b, OfPayments(LeftOvers(b)), today);
  }

  lemma LoaderReceiptsOfKept(a: seq<Payment>, c: seq<Payment>, receipts: set<nat>)
    requires DistinctPayments(a) && PaymentsRedrawn(Where(a, Not(PaymentGone(receipts))), c)
    ensures (set p | p in c && LoaderWrote(p) :: p.id) == (set p | p in a && LoaderWrote(p) :: p.id) - receipts
  {
    var kept := Where(a, Not(PaymentGone(receipts)));
    WhereIn(a, Not(PaymentGone(receipts)));
    SameReceipts(kept, c, p => LoaderWrote(p), p => LoaderWrote(p));
    assert (set p | p in kept && LoaderWrote(p) :: p.id) == (set p | p in c && LoaderWrote(p) :: p.id);
  }

  /** What is left of each table. */
  ghost predicate Leaves(b: Books, year: Year, today: int, w: Books)
  {
    var bills := YearBills(b, year);
    && w.allocations == Where(b.allocations, Not(Withdrawn(b, bills)))
    && w.lines == Where(b.lines, Not(LineGone(bills)))
    && w.carries == Where(b.carries, Not(CarryGone(bills)))
    && BillsProgress(Where(b.invoices, Not(BillGone(bills))), w.invoices, Where(b.allocations, Withdrawn(b, bills)),
                     today)
    && PaymentsRedrawn(Where(b.payments, Not(PaymentGone(StrandedIn(b, bills) + LoaderReceipts(b)))), w.payments)
    && w.next == b.next && w.serial == b.serial
  }

  // The ledger after the first two steps, then after the third; the fourth deletes `OwnReceipts`.

  function CarriesUndone(b: Books, year: Year, today: int): Books
  {
    DropPayments(UndoCarries(b, year, today), StrandedIn(b, YearBills(b, year)))
  }

  function BillsWithdrawn(b: Books, year: Year, today: int): Books
  {
    var bills := YearBills(b, year);
    DropBills(DeleteAllocations(CarriesUndone(b, year, today), OfBills(bills), today), bills)
  }

  function OwnReceipts(b: Books, year: Year): set<nat> { LoaderReceipts(b) - StrandedIn(b, YearBills(b, year)) }

  lemma PaymentsToTheEnd(b: Books, year: Year, today: int)
    requires Valid(b)
    ensures LoaderReceipts(BillsWithdrawn(b, year, today)) == OwnReceipts(b, year)
    ensures
      PaymentsRedrawn(Where(b.payments, Not(PaymentGone(StrandedIn(b, YearBills(b, year))))),
                      BillsWithdrawn(b, year, today).payments)
  {
    var bills := YearBills(b, year);
    var stranded := StrandedIn(b, bills);
    DeletionProgress(b.(carries := UndoCarries(b, year, today).carries), OfPayments(CarryPayments(b, bills)), today);
    RedrawnOfKept(b.payments, UndoCarries(b, year, today).payments, stranded);
    DeletionProgress(CarriesUndone(b, year, today), OfBills(bills), today);
    LoaderReceiptsOfKept(b.payments, BillsWithdrawn(b, year, today).payments, stranded);
  }

  lemma CarriesUndoneIs(b: Books, year: Year, today: int)
    requires DeletePayments(UndoCarries(b, year, today), LeftOvers(UndoCarries(b, year, today)), today).Some?
    ensures DeletePayments(UndoCarries(b, year, today), LeftOvers(UndoCarries(b, year, today)), today).value
         == CarriesUndone(b, year, today)
    ensures forall a :: a in UndoCarries(b, year, today).allocations ==> a.payment !in StrandedIn(b, YearBills(b, year))
  {
    UndoCarriesLeaves(b, year, today);
    LeftOversPayNothing(UndoCarries(b, year, today), today);
  }

  lemma WithdrawIs(b: Books, year: Year, today: int)
    requires Valid(b) && Withdraw(b, year, today).Some?
    ensures
      var b3 := BillsWithdrawn(b, year, today);
      Withdraw(b, year, today).value
      == DropPayments(DeleteAllocations(b3, OfPayments(OwnReceipts(b, year)), today), OwnReceipts(b, year))
  {
    CarriesUndoneIs(b, year, today);
    var b2 := CarriesUndone(b, year, today);
    assert DeleteInvoices(b2, YearBills(b, year), today) == Some(BillsWithdrawn(b, year, today));
    PaymentsToTheEnd(b, year, today);
  }

  lemma FirstTwoSteps(b: Books, year: Year, today: int)
    requires Valid(b) && Withdraw(b, year, today).Some?
    ensures
      var bills := YearBills(b, year);
      var carried, onBills := OfPayments(CarryPayments(b, bills)), OfBills(bills);
      && BillsWithdrawn(b, year, today).allocations == Where(Where(b.allocations, Not(carried)), Not(onBills))
      && (forall a :: a in BillsWithdrawn(b, year, today).allocations ==>
            a in b.allocations && a.payment !in StrandedIn(b, bills))
  {
    var bills := YearBills(b, year);
    CarriesUndoneIs(b, year, today);
    WhereIn(b.allocations, Not(OfPayments(CarryPayments(b, bills))));
    WhereIn(UndoCarries(b, year, today).allocations, Not(OfBills(bills)));
  }

  lemma ThreeFilters(rows: seq<Allocation>, p: Allocation -> bool, q: Allocation -> bool, r: Allocation -> bool,
                     r': Allocation -> bool, any: Allocation -> bool)
    requires forall a :: a in rows ==> any(a) == (p(a) || q(a) || r'(a))
    requires forall a :: a in Where(Where(rows, Not(p)), Not(q)) ==> r(a) == r'(a)
    ensures Where(Where(Where(rows, Not(p)), Not(q)), Not(r)) == Where(rows, Not(any))
  {
    var two := (a: Allocation) => !p(a) && !q(a);
    WhereSame(Where(Where(rows, Not(p)), Not(q)), Not(r), Not(r'));
    WhereTwice(rows, Not(p), Not(q), two);
    WhereTwice(rows, two, Not(r'), Not(any));
  }

  lemma WithdrawAllocations(b: Books, year: Year, today: int)
    requires Valid(b) && Withdraw(b, year, today).Some?
    ensures Withdraw(b, year, today).value.allocations == Where(b.allocations, Not(Withdrawn(b, YearBills(b, year))))
  {
    var bills := YearBills(b, year);
    WithdrawIs(b, year, today);
    FirstTwoSteps(b, year, today);
    ThreeFilters(b.allocations, OfPayments(CarryPayments(b, bills)), OfBills(bills), OfPayments(OwnReceipts(b, year)),
                 OfPayments(LoaderReceipts(b)), Withdrawn(b, bills));
  }

  lemma OwnAllocationsGo(b: Books, year: Year, today: int)
    requires Valid(b) && Withdraw(b, year, today).Some?
    ensures forall a :: a in Where(BillsWithdrawn(b, year, today).allocations, OfPayments(OwnReceipts(b, year))) ==>
      a in Where(b.allocations, Withdrawn(b, YearBills(b, year)))
  {
    FirstTwoSteps(b, year, today);
    WhereIn(b.allocations, Withdrawn(b, YearBills(b, year)));
    WhereIn(BillsWithdrawn(b, year, today).allocations, OfPayments(OwnReceipts(b, year)));
  }

  lemma BillsProgressTwice(b: Books, year: Year, today: int, all: seq<Allocation>)
    requires all == Where(b.allocations, Withdrawn(b, YearBills(b, year)))
    ensures BillsProgress(Where(b.invoices, Not(BillGone(YearBills(b, year)))), BillsWithdrawn(b, year, today).invoices,
                          all, today)
  {
    var bills := YearBills(b, year);
    var carried, onBills := OfPayments(CarryPayments(b, bills)), OfBills(bills);
    var b1, b2 := UndoCarries(b, year, today), CarriesUndone(b, year, today);
    WhereIn(b.allocations, Withdrawn(b, bills));
    WhereIn(b.allocations, carried);
    WhereIn(b.allocations, Not(carried));
    WhereIn(b1.allocations, onBills);
    DeletionProgress(b.(carries := b1.carries), carried, today);
    DeletionProgress(b2, onBills, today);
    var after := DeleteAllocations(b2, onBills, today).invoices;
    ProgressFurther(b.invoices, b1.invoices, after, Where(b.allocations, carried), Where(b2.allocations, onBills), all,
                    today);
    ProgressOfKept(b.invoices, after, all, today, bills);
  }

  lemma WithdrawBills(b: Books, year: Year, today: int)
    requires Valid(b) && Withdraw(b, year, today).Some?
    ensures
      var bills := YearBills(b, year);
      BillsProgress(Where(b.invoices, Not(BillGone(bills))), Withdraw(b, year, today).value.invoices,
                    Where(b.allocations, Withdrawn(b, bills)), today)
  {
    var bills := YearBills(b, year);
    var own := OfPayments(OwnReceipts(b, year));
    var all := Where(b.allocations, Withdrawn(b, bills));
    var b3 := BillsWithdrawn(b, year, today);
    WithdrawIs(b, year, today);
    BillsProgressTwice(b, year, today, all);
    OwnAllocationsGo(b, year, today);
    DeletionProgress(b3, own, today);
    ProgressFurther(Where(b.invoices, Not(BillGone(bills))), b3.invoices, DeleteAllocations(b3, own, today).invoices,
                    all, Where(b3.allocations, own), all, today);
  }

  lemma WithdrawPayments(b: Books, year: Year, today: int)
    requires Valid(b) && Withdraw(b, year, today).Some?
    ensures PaymentsRedrawn(Where(b.payments, Not(PaymentGone(StrandedIn(b, YearBills(b, year)) + LoaderReceipts(b)))),
                            Withdraw(b, year, today).value.payments)
  {
    var stranded, own := StrandedIn(b, YearBills(b, year)), OwnReceipts(b, year);
    var b3 := BillsWithdrawn(b, year, today);
    WithdrawIs(b, year, today);
    PaymentsToTheEnd(b, year, today);
    DeletionProgress(b3, OfPayments(own), today);
    var after := DeleteAllocations(b3, OfPayments(own), today).payments;
    assert PaymentsRedrawn(Where(b.payments, Not(PaymentGone(stranded))), after);
    RedrawnOfKept(Where(b.payments, Not(PaymentGone(stranded))), after, own);
    WhereTwice(b.payments, Not(PaymentGone(stranded)), Not(PaymentGone(own)),
               Not(PaymentGone(stranded + LoaderReceipts(b))));
  }

  lemma WithdrawCarries(b: Books, year: Year, today: int)
    requires Valid(b) && Withdraw(b, year, today).Some?
    ensures Withdraw(b, year, today).value.carries == Where(b.carries, Not(CarryGone(YearBills(b, year))))
    ensures Withdraw(b, year, today).value.lines == Where(b.lines, Not(LineGone(YearBills(b, year))))
  {
    var bills := YearBills(b, year);
    WithdrawIs(b, year, today);
    WhereTwice(b.carries, Not(CarryGone(bills)), Not(CarryGone(bills)), Not(CarryGone(bills)));
  }

  /** A withdrawal leaves exactly: the bills, lines and carries of other years; the receipts neither in the loader's
      series nor stranded by an undone carry; and the allocations joining what is left. */
  lemma WithdrawLeaves(b: Books, year: Year, today: int)
    requires Valid(b) && Withdraw(b, year, today).Some?
    ensures Leaves(b, year, today, Withdraw(b, year, today).value)
  {
    WithdrawIs(b, year, today);
    WithdrawAllocations(b, year, today);
    WithdrawBills(b, year, today);
    WithdrawPayments(b, year, today);
    WithdrawCarries(b, year, today);
  }

  // --- when it is refused ---------------------------------------------------

  lemma CarryPaysSomething(b: Books, c: Carry)
    requires Valid(b) && c in b.carries
    ensures exists a :: a in b.allocations && a.payment == c.payment
  {
    assert Carries(b, c);
    var p := Receipt(b.payments, c.payment);
    assert p.drawn > 0;
    if forall a :: a in b.allocations ==> a.payment != c.payment {
      SumZero(b.allocations, DrawnFrom(c.payment));
    }
  }

  lemma DeletionsOfReceiptsAllowed(b: Books)
    requires Valid(b)
    ensures forall c :: c in b.carries ==> c.payment !in LeftOvers(b) && c.payment !in LoaderReceipts(b)
  {
    forall c | c in b.carries ensures c.payment !in LeftOvers(b) && c.payment !in LoaderReceipts(b) {
      CarryPaysSomething(b, c);
      assert Carries(b, c);
      forall p | p in b.payments && p.id == c.payment ensures p.receipt == None { ReceiptIs(b.payments, p); }
    }
  }

  /** A carry joins bills of different years. */
  lemma CarryAcrossYears(b: Books, year: Year, c: Carry)
    requires Valid(b) && c in b.carries
    ensures c.from !in YearBills(b, year) || c.to !in YearBills(b, year)
  {
    assert Carries(b, c);
    forall i | i in b.invoices && (i.id == c.from || i.id == c.to) ensures i == Bill(b.invoices, i.id) {
      BillIs(b.invoices, i);
    }
  }

  lemma LaterStepsAllowed(b: Books, year: Year, today: int)
    requires Valid(CarriesUndone(b, year, today)) && forall c :: c in b.carries ==> c.from !in YearBills(b, year)
    ensures
      var b3 := DeleteInvoices(CarriesUndone(b, year, today), YearBills(b, year), today);
      b3.Some? && DeletePayments(b3.value, LoaderReceipts(b3.value), today).Some?
  {
    var b2 := CarriesUndone(b, year, today);
    WhereIn(b.carries, Not(CarryGone(YearBills(b, year))));
    DeleteInvoicesKeeps(b2, YearBills(b, year), today);
    DeletionsOfReceiptsAllowed(DeleteInvoices(b2, YearBills(b, year), today).value);
  }

  lemma WithdrawNotRefused(b: Books, year: Year, today: int)
    requires Valid(b) && forall c :: c in b.carries ==> c.from !in YearBills(b, year)
    ensures Withdraw(b, year, today).Some?
  {
    var b1 := UndoCarries(b, year, today);
    UndoCarriesKeeps(b, year, today);
    DeletionsOfReceiptsAllowed(b1);
    DeletePaymentsKeeps(b1, LeftOvers(b1), today);
    CarriesUndoneIs(b, year, today);
    LaterStepsAllowed(b, year, today);
  }

  lemma WithdrawIsRefused(b: Books, year: Year, today: int, c: Carry)
    requires Valid(b) && c in b.carries && c.from in YearBills(b, year)
    ensures Withdraw(b, year, today).None?
  {
    CarryAcrossYears(b, year, c);
    WhereIn(b.carries, Not(CarryGone(YearBills(b, year))));
    StillCarriedRefuses(UndoCarries(b, year, today), YearBills(b, year), today, c);
  }

  /** Deleting receipts keeps the carries, so a carry out of the bills forbids deleting them next. */
  lemma StillCarriedRefuses(b1: Books, bills: set<nat>, today: int, c: Carry)
    requires c in b1.carries && c.from in bills
    ensures
      var b2 := DeletePayments(b1, LeftOvers(b1), today);
      b2.Some? ==> DeleteInvoices(b2.value, bills, today) == None
  {
    if b2 :| DeletePayments(b1, LeftOvers(b1), today) == Some(b2) {
      assert b2.carries == b1.carries;
    }
  }

  /** The database refuses the withdrawal exactly when a bill of the year has itself been carried onward. */
  lemma WithdrawRefused(b: Books, year: Year, today: int)
    requires Valid(b)
    ensures Withdraw(b, year, today).None? <==> exists c :: c in b.carries && c.from in YearBills(b, year)
  {
    if c :| c in b.carries && c.from in YearBills(b, year) {
      WithdrawIsRefused(b, year, today, c);
    } else {
      WithdrawNotRefused(b, year, today);
    }
  }

  // --- what it restores -----------------------------------------------------

  /** What the other years' allocations paid on a bill: not the carries into the year, not the loader's own receipts. */
  function PaidOtherwise(b: Books, year: Year, bill: nat): Allocation -> int
  {
    (a: Allocation) =>
      if a.invoice == bill && a.payment !in CarryPayments(b, YearBills(b, year)) && a.payment !in LoaderReceipts(b)
      then a.amount else 0
  }

  lemma RestoredRow(b: Books, year: Year, today: int, w: Books, i: Invoice)
    requires Valid(b) && Valid(w) && Leaves(b, year, today, w) && i in b.invoices && i.year != year
    ensures i.id in BillIds(w.invoices)
    ensures var j := Bill(w.invoices, i.id); j == i.(paid := j.paid, status := j.status)
    ensures !Touches(Where(b.allocations, Withdrawn(b, YearBills(b, year))), i.id) ==> Bill(w.invoices, i.id) == i
  {
    var bills := YearBills(b, year);
    forall x | x in b.invoices && x.id == i.id ensures x == i { BillIs(b.invoices, x); BillIs(b.invoices, i); }
    var kept := Where(b.invoices, Not(BillGone(bills)));
    WhereIn(b.invoices, Not(BillGone(bills)));
    assert i in kept;
    var k :| 0 <= k < |kept| && kept[k] == i;
    assert w.invoices[k] in w.invoices && Progressed(kept[k], w.invoices[k], today);
    BillIs(w.invoices, w.invoices[k]);
  }

  lemma PaidOnKept(b: Books, year: Year, i: Invoice)
    requires Keyed(b) && i in b.invoices && i.year != year
    ensures Sum(Where(b.allocations, Not(Withdrawn(b, YearBills(b, year)))), PaidTo(i.id))
         == Sum(b.allocations, PaidOtherwise(b, year, i.id))
  {
    var bills := YearBills(b, year);
    forall x | x in b.invoices && x.id == i.id ensures x == i { BillIs(b.invoices, x); BillIs(b.invoices, i); }
    assert i.id !in bills;
    SumWhere(b.allocations, Not(Withdrawn(b, bills)), PaidTo(i.id), PaidOtherwise(b, year, i.id));
  }

  /** Every bill of another year is back to what was paid on it otherwise, and is otherwise as it was. */
  lemma EarlierBillsRestored(b: Books, year: Year, today: int, w: Books, i: Invoice)
    requires Valid(b) && Withdraw(b, year, today) == Some(w) && i in b.invoices && i.year != year
    ensures i.id in BillIds(w.invoices)
    ensures
      var j := Bill(w.invoices, i.id);
      j == i.(paid := j.paid, status := j.status) && j.paid == Sum(b.allocations, PaidOtherwise(b, year, i.id))
  {
    WithdrawKeeps(b, year, today);
    WithdrawLeaves(b, year, today);
    RestoredRow(b, year, today, w, i);
    PaidOnKept(b, year, i);
  }

  lemma NoBillOfYear(b: Books, year: Year, today: int, w: Books)
    requires Leaves(b, year, today, w)
    ensures YearBills(w, year) == {}
  {
    var kept := Where(b.invoices, Not(BillGone(YearBills(b, year))));
    WhereIn(b.invoices, Not(BillGone(YearBills(b, year))));
    forall k | 0 <= k < |w.invoices| ensures w.invoices[k].year != year {
      assert kept[k] in kept && Progressed(kept[k], w.invoices[k], today);
    }
  }

  lemma NoLoaderReceipt(b: Books, year: Year, today: int, w: Books)
    requires Leaves(b, year, today, w)
    ensures LoaderReceipts(w) == {}
  {
    var gone := StrandedIn(b, YearBills(b, year)) + LoaderReceipts(b);
    var kept := Where(b.payments, Not(PaymentGone(gone)));
    WhereIn(b.payments, Not(PaymentGone(gone)));
    forall k | 0 <= k < |w.payments| ensures !LoaderWrote(w.payments[k]) {
      assert kept[k] in kept && kept[k].id !in LoaderReceipts(b);
    }
  }

  /** No bill, loader receipt or carry of the year is left; the other carries are. */
  lemma YearIsGone(b: Books, year: Year, today: int, w: Books)
    requires Valid(b) && Withdraw(b, year, today) == Some(w)
    ensures YearBills(w, year) == {} && LoaderReceipts(w) == {}
    ensures forall c :: c in w.carries <==> c in b.carries && c.to !in YearBills(b, year)
  {
    WithdrawLeaves(b, year, today);
    NoBillOfYear(b, year, today, w);
    NoLoaderReceipt(b, year, today, w);
    WhereIn(b.carries, Not(CarryGone(YearBills(b, year))));
  }

  lemma ReceiptRow(b: Books, year: Year, today: int, w: Books, p: Payment)
    requires Valid(b) && Valid(w) && Leaves(b, year, today, w) && p in b.payments
    ensures p.id in PaymentIds(w.payments) <==> p.id !in StrandedIn(b, YearBills(b, year)) + LoaderReceipts(b)
    ensures p.id in PaymentIds(w.payments) ==> var q := Receipt(w.payments, p.id); q == p.(drawn := q.drawn)
  {
    var gone := StrandedIn(b, YearBills(b, year)) + LoaderReceipts(b);
    var kept := Where(b.payments, Not(PaymentGone(gone)));
    WhereIn(b.payments, Not(PaymentGone(gone)));
    if p.id !in gone {
      var k :| 0 <= k < |kept| && kept[k] == p;
      assert w.payments[k] in w.payments;
      ReceiptIs(w.payments, w.payments[k]);
    }
    forall k | 0 <= k < |w.payments| ensures w.payments[k].id !in gone {
      assert kept[k] in kept;
    }
  }

  /** A receipt survives, with its amount, exactly when it is neither the loader's nor stranded. */
  lemma ReceiptsKept(b: Books, year: Year, today: int, w: Books, p: Payment)
    requires Valid(b) && Withdraw(b, year, today) == Some(w) && p in b.payments
    ensures p.id in PaymentIds(w.payments) <==> !LoaderWrote(p) && !Stranded(b, YearBills(b, year), p)
    ensures p.id in PaymentIds(w.payments) ==> var q := Receipt(w.payments, p.id); q == p.(drawn := q.drawn)
  {
    WithdrawKeeps(b, year, today);
    WithdrawLeaves(b, year, today);
    ReceiptRow(b, year, today, w, p);
    forall x | x in b.payments && x.id == p.id ensures x == p { ReceiptIs(b.payments, x); ReceiptIs(b.payments, p); }
  }

  /** The remark a carry writes to a bill numbered in the INV series, read off the text. */
  ghost predicate ReadsForward(r: Remark)
  {
    match r
    case CarriedForwardTo(no) => "INV/" <= no.series
    case Words(text) => "Carried forward to INV/" <= text
  }

  /** The receipt settles a carry onto a bill of the year, or pays nothing at all. */
  ghost predicate SettlesIntoOrNothing(b: Books, year: Year, p: Payment)
  {
    || (exists c, i :: c in b.carries && i in b.invoices && c.payment == p.id && c.to == i.id && i.year == year)
    || (forall a :: a in b.allocations ==> a.payment != p.id)
  }

  /** Which receipts go: those numbered in the series "RCT/2026-27/", and the adjustments whose remark begins
      "Carried forward to INV/" that settle a carry into the year or pay nothing. Every other stays, with its amount. */
  lemma WhichReceiptsGo(b: Books, year: Year, today: int, w: Books, p: Payment)
    requires Valid(b) && Withdraw(b, year, today) == Some(w) && p in b.payments
    ensures p.id !in PaymentIds(w.payments) <==>
      || (p.receipt.Some? && "RCT/2026-27/" <= p.receipt.value.series)
      || (p.mode == Adjustment && ReadsForward(p.remark) && SettlesIntoOrNothing(b, year, p))
    ensures p.id in PaymentIds(w.payments) ==> Receipt(w.payments, p.id).amount == p.amount
  {
    ReceiptsKept(b, year, today, w, p);
    LoadersByNumber(p);
    StrandedByRemark(b, year, p);
  }

  lemma LoadersByNumber(p: Payment)
    ensures LoaderWrote(p) <==> p.receipt.Some? && "RCT/2026-27/" <= p.receipt.value.series
  {
  }

  lemma RemarkReads(r: Remark)
    ensures SaysCarried(r) <==> ReadsForward(r)
  {
  }

  lemma StrandedByRemark(b: Books, year: Year, p: Payment)
    ensures Stranded(b, YearBills(b, year), p) <==>
      p.mode == Adjustment && ReadsForward(p.remark) && SettlesIntoOrNothing(b, year, p)
  {
    RemarkReads(p.remark);
    IntoYear(b, year, p);
  }

  lemma IntoYear(b: Books, year: Year, p: Payment)
    ensures p.id in CarryPayments(b, YearBills(b, year)) <==>
      exists c, i :: c in b.carries && i in b.invoices && c.payment == p.id && c.to == i.id && i.year == year
  {
    if c, i :| c in b.carries && i in b.invoices && c.payment == p.id && c.to == i.id && i.year == year {
      assert c.to in YearBills(b, year);
    }
  }

  /** The allocation stays: its bill is of another year, and its receipt is neither in the loader's series nor the
      adjustment of a carry into the year. */
  ghost predicate Untouched(b: Books, year: Year, a: Allocation)
  {
    && (forall i :: i in b.invoices && i.id == a.invoice ==> i.year != year)
    && (forall p :: p in b.payments && p.id == a.payment && p.receipt.Some? ==>
          !("RCT/2026-27/" <= p.receipt.value.series))
    && (forall c, i :: c in b.carries && i in b.invoices && c.payment == a.payment && c.to == i.id ==> i.year != year)
  }

  lemma UntouchedStays(b: Books, year: Year, a: Allocation)
    requires Valid(b) && a in b.allocations
    ensures Untouched(b, year, a) <==> !Withdrawn(b, YearBills(b, year))(a)
  {
    assert Joins(b, a);
    IntoYear(b, year, Receipt(b.payments, a.payment));
    forall p | p in b.payments ensures LoaderWrote(p) <==> p.receipt.Some? && "RCT/2026-27/" <= p.receipt.value.series {
      LoadersByNumber(p);
    }
  }

  /** What a withdrawal takes, read off the rows: the bills of the year, their lines and the carries onto them, and the
      allocations to them, of the loader's receipts and of the adjustments that settled those carries. */
  lemma WithdrawalMeans(b: Books, year: Year, today: int, w: Books)
    requires Valid(b) && Withdraw(b, year, today) == Some(w)
    ensures forall i :: i in b.invoices ==> (i.id in BillIds(w.invoices) <==> i.year != year)
    ensures BillIds(w.invoices) <= BillIds(b.invoices)
    ensures forall l, i :: l in b.lines && i in b.invoices && l.invoice == i.id ==> (l in w.lines <==> i.year != year)
    ensures forall c, i :: c in b.carries && i in b.invoices && c.to == i.id ==> (c in w.carries <==> i.year != year)
    ensures forall a :: a in w.allocations <==> a in b.allocations && Untouched(b, year, a)
  {
    WithdrawLeaves(b, year, today);
    BillsLeft(b, year, today, w);
    LinesLeft(b, year, today, w);
    CarriesLeft(b, year, today, w);
    AllocationsLeft(b, year, today, w);
  }

  lemma LinesLeft(b: Books, year: Year, today: int, w: Books)
    requires Keyed(b) && Leaves(b, year, today, w)
    ensures forall l, i :: l in b.lines && i in b.invoices && l.invoice == i.id ==> (l in w.lines <==> i.year != year)
  {
    WhereIn(b.lines, Not(LineGone(YearBills(b, year))));
    forall i | i in b.invoices ensures i.id in YearBills(b, year) <==> i.year == year {
      YearOf(b, year, i);
    }
  }

  lemma CarriesLeft(b: Books, year: Year, today: int, w: Books)
    requires Keyed(b) && Leaves(b, year, today, w)
    ensures forall c, i :: c in b.carries && i in b.invoices && c.to == i.id ==> (c in w.carries <==> i.year != year)
  {
    WhereIn(b.carries, Not(CarryGone(YearBills(b, year))));
    forall i | i in b.invoices ensures i.id in YearBills(b, year) <==> i.year == year {
      YearOf(b, year, i);
    }
  }

  lemma AllocationsLeft(b: Books, year: Year, today: int, w: Books)
    requires Valid(b) && Leaves(b, year, today, w)
    ensures forall a :: a in w.allocations <==> a in b.allocations && Untouched(b, year, a)
  {
    WhereIn(b.allocations, Not(Withdrawn(b, YearBills(b, year))));
    forall a | a in b.allocations ensures Untouched(b, year, a) <==> !Withdrawn(b, YearBills(b, year))(a) {
      UntouchedStays(b, year, a);
    }
  }

  lemma YearOf(b: Books, year: Year, i: Invoice)
    requires DistinctBills(b.invoices) && i in b.invoices
    ensures i.id in YearBills(b, year) <==> i.year == year
  {
    forall x | x in b.invoices && x.id == i.id ensures x == i { BillIs(b.invoices, x); BillIs(b.invoices, i); }
  }

  lemma BillsLeft(b: Books, year: Year, today: int, w: Books)
    requires Keyed(b) && Leaves(b, year, today, w)
    ensures forall i :: i in b.invoices ==> (i.id in BillIds(w.invoices) <==> i.year != year)
    ensures BillIds(w.invoices) <= BillIds(b.invoices)
  {
    var kept := Where(b.invoices, Not(BillGone(YearBills(b, year))));
    WhereIn(b.invoices, Not(BillGone(YearBills(b, year))));
    forall k | 0 <= k < |kept| ensures w.invoices[k].id == kept[k].id && kept[k] in b.invoices {
      assert kept[k] in kept && Progressed(kept[k], w.invoices[k], today);
    }
    forall i | i in b.invoices ensures i.id in BillIds(w.invoices) <==> i.year != year {
      YearOf(b, year, i);
      if i.year != year {
        var k :| 0 <= k < |kept| && kept[k] == i;
        assert w.invoices[k] in w.invoices;
      }
    }
  }

  lemma NothingDrawn(b: Books, year: Year, today: int, w: Books, receipt: nat)
    requires Valid(w) && Leaves(b, year, today, w)
    requires receipt in CarryPayments(b, YearBills(b, year)) && receipt in PaymentIds(w.payments)
    ensures Receipt(w.payments, receipt).drawn == 0
  {
    WhereIn(b.allocations, Not(Withdrawn(b, YearBills(b, year))));
    SumZero(w.allocations, DrawnFrom(receipt));
  }

  lemma LeftWhole(b: Books, year: Year, today: int, w: Books, c: Carry)
    requires Valid(b) && Valid(w) && Leaves(b, year, today, w) && c in b.carries && c.to in YearBills(b, year)
    requires c.payment in PaymentIds(w.payments) && c.payment in PaymentIds(b.payments)
    requires Receipt(b.payments, c.payment).amount == c.amount
    ensures Receipt(w.payments, c.payment).Left() == c.amount
  {
    NothingDrawn(b, year, today, w, c.payment);
    ReceiptRow(b, year, today, w, Receipt(b.payments, c.payment));
  }

  /** The adjustment that settled a carry into the year goes with it exactly when the new bill's number begins "INV/";
      otherwise it stays behind as credit for the whole amount. */
  lemma AdjustmentUndone(b: Books, year: Year, today: int, w: Books, c: Carry)
    requires Valid(b) && Withdraw(b, year, today) == Some(w) && c in b.carries && c.to in YearBills(b, year)
    ensures c.to in BillIds(b.invoices)
    ensures c.payment in PaymentIds(w.payments) <==> !IsPrefix(INV, Bill(b.invoices, c.to).no.series)
    ensures c.payment in PaymentIds(w.payments) ==> Receipt(w.payments, c.payment).Left() == c.amount
  {
    assert Carries(b, c);
    ReceiptsKept(b, year, today, w, Receipt(b.payments, c.payment));
    if c.payment in PaymentIds(w.payments) {
      WithdrawKeeps(b, year, today);
      WithdrawLeaves(b, year, today);
      LeftWhole(b, year, today, w, c);
    }
  }
}
