/**
Small valid ledgers in which the conditions of the exact results fail, so that
each gap they describe is seen to open.
*/
module Cases {
  import opened Tables
  import opened Books
  import opened Upkeep
  import opened Withdrawal
  import opened Arrears
  import opened AnnualDiscount
  import opened CarriedBills

  // --- a debt carried past a year -------------------------------------------

  const FIRST := Year(1, 2024)
  const MIDDLE := Year(2, 2025)
  const LAST := Year(3, 2026)

  const OLD_BILL := Invoice(0, 7, FIRST, DocNo(INV, 1), None, 0, None, 100, 0, 0, 100, Paid)
  function NewBillOf(series: string): Invoice
  {
    Invoice(1, 7, LAST, DocNo(series, 2), None, 0, None, 60, 0, 0, 0, Unpaid)
  }
  const LOADED := Payment(2, 7, Some(DocNo(LOADER_RECEIPTS, 1)), 40, 40, Adjustment, 0, Words(""))
  function CarriedTo(series: string): Payment
  {
    Payment(3, 7, None, 60, 60, Adjustment, 0, CarriedForwardTo(DocNo(series, 2)))
  }
  const BY_LOADED := Allocation(2, 0, 40)
  const BY_CARRY := Allocation(3, 0, 60)
  const ONWARD := Carry(0, 1, 3, 60)

  /** A bill of the first year, part paid by a receipt of the loader's, its rest carried to a bill of the last year that
      is numbered in the given series. */
  function Onward(series: string): Books
  {
    Books([OLD_BILL, NewBillOf(series)], [Line(0, Some(0), 100, 0), Line(1, Some(0), 60, 0)],
          [LOADED, CarriedTo(series)],
          [BY_LOADED, BY_CARRY], [ONWARD], 4, 2)
  }

  lemma OnwardKeyed(series: string)
    ensures Keyed(Onward(series))
    ensures BillIds(Onward(series).invoices) == {0, 1} && PaymentIds(Onward(series).payments) == {2, 3}
    ensures Bill(Onward(series).invoices, 0) == OLD_BILL && Bill(Onward(series).invoices, 1) == NewBillOf(series)
    ensures Receipt(Onward(series).payments, 2) == LOADED && Receipt(Onward(series).payments, 3) == CarriedTo(series)
  {
    var b := Onward(series);
    assert b.invoices[0] == OLD_BILL && b.invoices[1] == NewBillOf(series) && b.payments[0] == LOADED
      && b.payments[1] == CarriedTo(series);
    BillIs(b.invoices, OLD_BILL);
    BillIs(b.invoices, NewBillOf(series));
    ReceiptIs(b.payments, LOADED);
    ReceiptIs(b.payments, CarriedTo(series));
  }

  lemma OnwardSums(series: string)
    ensures Itemised(Onward(series), {}) && Tallied(Onward(series)) && Within(Onward(series), {})
  {
    var b := Onward(series);
    OnwardKeyed(series);
    forall k | k in {0, 1}
      ensures Headed(b.invoices[k], b.lines) && b.invoices[k].paid == Sum(b.allocations, PaidTo(k))
    {
      SumTwo(b.lines[0], b.lines[1], AmountOn(k));
      SumTwo(b.lines[0], b.lines[1], DiscountOn(k));
      SumTwo(BY_LOADED, BY_CARRY, PaidTo(k));
    }
    forall k | k in {2, 3} ensures b.payments[k - 2].drawn == Sum(b.allocations, DrawnFrom(k)) {
      SumTwo(BY_LOADED, BY_CARRY, DrawnFrom(k));
    }
  }

  lemma OnwardIsValid(series: string)
    ensures Valid(Onward(series)) && Settled(Onward(series))
  {
    OnwardKeyed(series);
    OnwardSums(series);
  }

  lemma OnwardYears(series: string)
    ensures YearBills(Onward(series), FIRST) == {0} && YearBills(Onward(series), MIDDLE) == {}
    ensures YearBills(Onward(series), LAST) == {1}
    ensures ONWARD in Onward(series).carries && LoaderPaid(Onward(series), 0)
  {
    var b := Onward(series);
    assert b.invoices[0] == OLD_BILL && b.invoices[1] == NewBillOf(series) && b.carries[0] == ONWARD;
    assert BY_LOADED in b.allocations && LOADED in b.payments;
  }

  lemma Unsettled(b: Books, year: Year, today: int, c: Carry) returns (w: Books)
    requires Valid(b) && Settled(b) && c in b.carries && c.to !in YearBills(b, year) && LoaderPaid(b, c.from)
    requires forall d :: d in b.carries ==> d.from !in YearBills(b, year)
    ensures Withdraw(b, year, today) == Some(w) && !Settled(w)
  {
    WithdrawRefused(b, year, today);
    w := Withdraw(b, year, today).value;
    SettledAfterWithdrawal(b, year, today, w);
  }

  /** The year carried past is withdrawn: the loader's receipt goes, and the bill of the first year owes its part again
      though its debt stands carried. */
  lemma CarriedOwesAgain(series: string, today: int) returns (w: Books)
    ensures Valid(Onward(series)) && Settled(Onward(series))
    ensures Withdraw(Onward(series), MIDDLE, today) == Some(w) && !Settled(w)
  {
    OnwardIsValid(series);
    OnwardYears(series);
    w := Unsettled(Onward(series), MIDDLE, today, ONWARD);
  }

  /** The year whose bill was carried onward cannot be withdrawn. */
  lemma FirstYearRefused(series: string, today: int)
    ensures Valid(Onward(series)) && Withdraw(Onward(series), FIRST, today) == None
  {
    OnwardIsValid(series);
    OnwardYears(series);
    WithdrawRefused(Onward(series), FIRST, today);
  }

  lemma LeftBehind(b: Books, year: Year, today: int, c: Carry) returns (w: Books)
    requires Valid(b) && c in b.carries && c.to in YearBills(b, year) && c.to in BillIds(b.invoices)
    requires !IsPrefix(INV, Bill(b.invoices, c.to).no.series)
    requires forall d :: d in b.carries ==> d.from !in YearBills(b, year)
    ensures Withdraw(b, year, today) == Some(w)
    ensures c.payment in PaymentIds(w.payments) && Receipt(w.payments, c.payment).Left() == c.amount
  {
    WithdrawRefused(b, year, today);
    w := Withdraw(b, year, today).value;
    AdjustmentUndone(b, year, today, w, c);
  }

  /** Under another prefix the adjustment stays behind when its carry is undone, and the family holds it as credit. */
  lemma AdjustmentLeftBehind(series: string, today: int) returns (w: Books)
    requires !IsPrefix(INV, series)
    ensures Valid(Onward(series)) && Withdraw(Onward(series), LAST, today) == Some(w)
    ensures 3 in PaymentIds(w.payments) && Receipt(w.payments, 3).Left() == 60
  {
    OnwardIsValid(series);
    OnwardKeyed(series);
    OnwardYears(series);
    w := LeftBehind(Onward(series), LAST, today, ONWARD);
  }

  // --- a discount on a part-paid bill ---------------------------------------

  /** A bill of one line, part paid at the counter. */
  function PartPaid(year: Year, head: nat): Books
  {
    Books([Invoice(0, 7, year, DocNo(INV, 1), None, 0, None, 100, 0, 0, 60, PartlyPaid)], [Line(0, Some(head), 100, 0)],
          [Payment(1, 7, None, 60, 60, Cash, 0, Words(""))], [Allocation(1, 0, 60)], [], 2, 1)
  }

  lemma PartPaidIsValid(year: Year, head: nat)
    ensures Valid(PartPaid(year, head))
    ensures 0 in BillIds(PartPaid(year, head).invoices)
    ensures Bill(PartPaid(year, head).invoices, 0) == PartPaid(year, head).invoices[0]
  {
    var b := PartPaid(year, head);
    SumOne(b.lines[0], AmountOn(0));
    SumOne(b.lines[0], DiscountOn(0));
    SumOne(b.allocations[0], PaidTo(0));
    SumOne(b.allocations[0], DrawnFrom(1));
    assert b.invoices[0] in b.invoices && b.payments[0] in b.payments;
    BillIs(b.invoices, b.invoices[0]);
    ReceiptIs(b.payments, b.payments[0]);
  }

  /** The whole charge is promised away after part of it was paid: the bill is left paid beyond its net. */
  lemma OverDiscounted(year: Year, head: nat) returns (q: Promised)
    ensures Valid(PartPaid(year, head))
    ensures RunDiscounts(Promised(PartPaid(year, head), []), [], [Grant(7, 100)], year, head) == Some(q)
    ensures !Valid(q.books)
    ensures |q.books.invoices| == 1 && q.books.invoices[0].Balance() == -60
  {
    var b, grants := PartPaid(year, head), [Grant(7, 100)];
    var p := Promised(b, []);
    PartPaidIsValid(year, head);
    assert TermsOf([], head) == 1;
    q := RunDiscounts(p, [], grants, year, head).value;
    var per := Per([], grants, year, head, 1);
    assert grants[..0] == [] && PerTerm([], grants[..0], year, head, 1, 7) == None;
    assert per(7) == Some(100);
    SumOne(b.lines[0], OffLine(b, 0, head, year, per));
    assert Off(b, 0, head, year, per) == 100;
    RunDiscountsKeeps(p, [], grants, year, head, q, 1);
    HeadersFollow(p, [], grants, year, head, q, 1, 0);
  }
}
