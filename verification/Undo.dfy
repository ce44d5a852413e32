/**
Withdrawing a year is an undo: whatever the year's own programs did to a
ledger that held nothing of the year, the withdrawal gives that ledger back.
*/
module Undo {
  import opened Tables
  import opened Books
  import opened Upkeep
  import opened Withdrawal

  function Since<T>(before: seq<T>, after: seq<T>): seq<T>
    requires |before| <= |after|
  {
    after[|before|..]
  }

  ghost function CarriedBy(carries: seq<Carry>): set<nat> { set c | c in carries :: c.payment }

  /** Nothing of the year, no receipt of the loader's, no adjustment of an undone carry. */
  ghost predicate Clean(b: Books, year: Year)
  {
    && YearBills(b, year) == {} && LoaderReceipts(b) == {} && LeftOvers(b) == {}
  }

  /** Bills already there only progress, and only when something new is allocated to them; the new ones are the
      year's. */
  ghost predicate GrownBills(b0: Books, b: Books, year: Year)
    requires |b0.allocations| <= |b.allocations|
  {
    && |b0.invoices| <= |b.invoices|
    && (forall k :: 0 <= k < |b0.invoices| ==>
          && b.invoices[k] == b0.invoices[k].(paid := b.invoices[k].paid, status := b.invoices[k].status)
          && (b.invoices[k].Live() <==> b0.invoices[k].Live())
          && (!Touches(Since(b0.allocations, b.allocations), b0.invoices[k].id) ==> b.invoices[k] == b0.invoices[k]))
    && (forall k :: |b0.invoices| <= k < |b.invoices| ==> b.invoices[k].year == year && b.invoices[k].id >= b0.next)
  }

  /** A receipt of the year's programs: the loader's own, or an adjustment settling a carry they recorded. */
  ghost predicate YearReceipt(p: Payment, carries: seq<Carry>)
  {
    if Forwards(p) then p.id in CarriedBy(carries) else LoaderWrote(p)
  }

  ghost predicate GrownPayments(b0: Books, b: Books)
    requires |b0.carries| <= |b.carries|
  {
    && |b0.payments| <= |b.payments|
    && (forall k :: 0 <= k < |b0.payments| ==> b.payments[k] == b0.payments[k].(drawn := b.payments[k].drawn))
    && (forall k :: |b0.payments| <= k < |b.payments| ==>
          b.payments[k].id >= b0.next && YearReceipt(b.payments[k], Since(b0.carries, b.carries)))
  }

  ghost predicate GrownLinks(b0: Books, b: Books)
  {
    && b0.next <= b.next && b0.lines <= b.lines && b0.carries <= b.carries && b0.allocations <= b.allocations
    && (forall l :: l in Since(b0.lines, b.lines) ==> l.invoice >= b0.next)
    && (forall c :: c in Since(b0.carries, b.carries) ==> c.to >= b0.next && c.payment >= b0.next)
    && (forall a :: a in Since(b0.allocations, b.allocations) ==>
          a.invoice >= b0.next || a.payment in CarriedBy(Since(b0.carries, b.carries)))
  }

  /** `b` is `b0` after work on the year alone. */
  ghost predicate Grown(b0: Books, b: Books, year: Year)
  {
    GrownLinks(b0, b) && GrownBills(b0, b, year) && GrownPayments(b0, b)
  }

  /** Every adjustment that says it was carried forward settles a recorded carry. */
  ghost predicate NoStrays(b: Books)
  {
    forall p :: p in b.payments && Forwards(p) ==> p.id in CarriedBy(b.carries)
  }

  lemma GrownWithoutStrays(b0: Books, b: Books)
    requires NoStrays(b0) && b0.carries <= b.carries && GrownPayments(b0, b)
    ensures NoStrays(b)
  {
    forall k | 0 <= k < |b.payments| && Forwards(b.payments[k]) ensures b.payments[k].id in CarriedBy(b.carries) {
      if k < |b0.payments| {
        assert b0.payments[k] in b0.payments;
      }
    }
  }

  // --- the undo -------------------------------------------------------------

  lemma BillsOfTheYear(b0: Books, b: Books, year: Year)
    requires Valid(b0) && Keyed(b) && Clean(b0, year) && Grown(b0, b, year)
    ensures forall id :: id in YearBills(b, year) ==> id >= b0.next
    ensures forall id :: id in BillIds(b.invoices) && id >= b0.next ==> id in YearBills(b, year)
  {
    forall k | 0 <= k < |b.invoices|
      ensures b.invoices[k].year == year <==> k >= |b0.invoices|
      ensures b.invoices[k].id >= b0.next <==> k >= |b0.invoices|
    {
      if k < |b0.invoices| {
        assert b0.invoices[k] in b0.invoices;
      }
    }
  }

  lemma CarriesUndoneAre(b0: Books, b: Books, year: Year)
    requires Valid(b0) && Valid(b) && Clean(b0, year) && Grown(b0, b, year)
    ensures Where(b.carries, Not(CarryGone(YearBills(b, year)))) == b0.carries
    ensures CarryPayments(b, YearBills(b, year)) == CarriedBy(Since(b0.carries, b.carries))
  {
    var bills := YearBills(b, year);
    BillsOfTheYear(b0, b, year);
    var news := Since(b0.carries, b.carries);
    assert b.carries == b0.carries + news;
    forall c | c in b0.carries ensures c.to !in bills {
      assert Carries(b0, c);
    }
    forall c | c in news ensures c.to in bills {
      assert c in b.carries && Carries(b, c);
    }
    WhereOldNew(b0.carries, news, Not(CarryGone(bills)));
  }

  lemma LoaderReceiptsAreNew(b0: Books, b: Books, year: Year)
    requires Clean(b0, year) && Grown(b0, b, year)
    ensures forall id :: id in LoaderReceipts(b) ==> id >= b0.next
  {
    forall p | p in b0.payments ensures !LoaderWrote(p) {
      assert p.id !in LoaderReceipts(b0);
    }
    forall k | 0 <= k < |b0.payments| ensures !LoaderWrote(b.payments[k]) {
      assert b0.payments[k] in b0.payments;
    }
  }

  lemma AllocationsUndone(b0: Books, b: Books, year: Year)
    requires Valid(b0) && Valid(b) && Clean(b0, year) && Grown(b0, b, year)
    ensures Where(b.allocations, Not(Withdrawn(b, YearBills(b, year)))) == b0.allocations
    ensures Where(b.allocations, Withdrawn(b, YearBills(b, year))) == Since(b0.allocations, b.allocations)
  {
    OldAllocationsStay(b0, b, year);
    NewAllocationsGo(b0, b, year);
    assert b.allocations == b0.allocations + Since(b0.allocations, b.allocations);
    WhereNewOld(b0.allocations, Since(b0.allocations, b.allocations), Withdrawn(b, YearBills(b, year)));
  }

  lemma OldAllocationsStay(b0: Books, b: Books, year: Year)
    requires Valid(b0) && Valid(b) && Clean(b0, year) && Grown(b0, b, year)
    ensures forall a :: a in b0.allocations ==> !Withdrawn(b, YearBills(b, year))(a)
  {
    BillsOfTheYear(b0, b, year);
    CarriesUndoneAre(b0, b, year);
    LoaderReceiptsAreNew(b0, b, year);
    forall a | a in b0.allocations ensures !Withdrawn(b, YearBills(b, year))(a) {
      assert Joins(b0, a);
    }
  }

  lemma NewAllocationsGo(b0: Books, b: Books, year: Year)
    requires Valid(b0) && Valid(b) && Clean(b0, year) && Grown(b0, b, year)
    ensures forall a :: a in Since(b0.allocations, b.allocations) ==> Withdrawn(b, YearBills(b, year))(a)
  {
    BillsOfTheYear(b0, b, year);
    CarriesUndoneAre(b0, b, year);
    forall a | a in Since(b0.allocations, b.allocations) ensures Withdrawn(b, YearBills(b, year))(a) {
      assert a in b.allocations && Joins(b, a);
    }
  }

  lemma LinesUndone(b0: Books, b: Books, year: Year)
    requires Valid(b0) && Valid(b) && Clean(b0, year) && Grown(b0, b, year)
    ensures Where(b.lines, Not(LineGone(YearBills(b, year)))) == b0.lines
  {
    BillsOfTheYear(b0, b, year);
    assert b.lines == b0.lines + Since(b0.lines, b.lines);
    forall l | l in b0.lines ensures l.invoice < b0.next {
      var i := Bill(b0.invoices, l.invoice);
    }
    forall l | l in Since(b0.lines, b.lines) ensures l.invoice in YearBills(b, year) {
      assert l in b.lines;
    }
    WhereOldNew(b0.lines, Since(b0.lines, b.lines), Not(LineGone(YearBills(b, year))));
  }

  lemma BillsUndone(b0: Books, b: Books, year: Year)
    requires Valid(b0) && Valid(b) && Clean(b0, year) && Grown(b0, b, year)
    ensures Where(b.invoices, Not(BillGone(YearBills(b, year)))) == b.invoices[..|b0.invoices|]
  {
    var n := |b0.invoices|;
    BillsOfTheYear(b0, b, year);
    assert b.invoices == b.invoices[..n] + b.invoices[n..];
    forall i | i in b.invoices[..n] ensures i.id < b0.next {
      var k :| 0 <= k < n && b.invoices[k] == i;
      assert b0.invoices[k] in b0.invoices;
    }
    forall i | i in b.invoices[n..] ensures i.id in YearBills(b, year) {
      assert i in b.invoices;
    }
    WhereOldNew(b.invoices[..n], b.invoices[n..], Not(BillGone(YearBills(b, year))));
  }

  lemma GoneReceipt(b: Books, bills: set<nat>, p: Payment)
    requires DistinctPayments(b.payments) && p in b.payments
    ensures p.id in StrandedIn(b, bills) + LoaderReceipts(b) <==> Stranded(b, bills, p) || LoaderWrote(p)
  {
    forall x | x in b.payments && x.id == p.id ensures x == p { ReceiptIs(b.payments, x); ReceiptIs(b.payments, p); }
  }

  lemma OldReceiptStays(b0: Books, b: Books, bills: set<nat>, p0: Payment, p: Payment)
    requires p0 in b0.payments && p == p0.(drawn := p.drawn) && b0.allocations <= b.allocations
    requires LeftOvers(b0) == {} && LoaderReceipts(b0) == {} && p.id !in CarryPayments(b, bills)
    ensures !Stranded(b, bills, p) && !LoaderWrote(p)
  {
    assert p0.id !in LoaderReceipts(b0) && p0.id !in LeftOvers(b0);
    if Forwards(p) {
      var a :| a in b0.allocations && a.payment == p0.id;
      assert a in b.allocations;
    }
  }

  lemma OldReceiptsStay(b0: Books, b: Books, year: Year)
    requires Valid(b0) && Valid(b) && Clean(b0, year) && Grown(b0, b, year)
    ensures forall p :: p in b.payments[..|b0.payments|] ==>
      p.id !in StrandedIn(b, YearBills(b, year)) + LoaderReceipts(b)
  {
    CarriesUndoneAre(b0, b, year);
    forall p | p in b.payments[..|b0.payments|] ensures p.id !in StrandedIn(b, YearBills(b, year)) + LoaderReceipts(b) {
      var k :| 0 <= k < |b0.payments| && b.payments[k] == p;
      assert b0.payments[k] in b0.payments;
      OldReceiptStays(b0, b, YearBills(b, year), b0.payments[k], p);
      GoneReceipt(b, YearBills(b, year), p);
    }
  }

  lemma NewReceiptsGo(b0: Books, b: Books, year: Year)
    requires Valid(b0) && Valid(b) && Clean(b0, year) && Grown(b0, b, year)
    ensures forall p :: p in b.payments[|b0.payments|..] ==>
      p.id in StrandedIn(b, YearBills(b, year)) + LoaderReceipts(b)
  {
    CarriesUndoneAre(b0, b, year);
    forall p | p in b.payments[|b0.payments|..] ensures p.id in StrandedIn(b, YearBills(b, year)) + LoaderReceipts(b) {
      var k :| |b0.payments| <= k < |b.payments| && b.payments[k] == p;
      assert YearReceipt(p, Since(b0.carries, b.carries));
      GoneReceipt(b, YearBills(b, year), p);
    }
  }

  lemma PaymentsUndone(b0: Books, b: Books, year: Year)
    requires Valid(b0) && Valid(b) && Clean(b0, year) && Grown(b0, b, year)
    ensures Where(b.payments, Not(PaymentGone(StrandedIn(b, YearBills(b, year)) + LoaderReceipts(b))))
      == b.payments[..|b0.payments|]
  {
    var n := |b0.payments|;
    assert b.payments == b.payments[..n] + b.payments[n..];
    OldReceiptsStay(b0, b, year);
    NewReceiptsGo(b0, b, year);
    WhereOldNew(b.payments[..n], b.payments[n..],
                Not(PaymentGone(StrandedIn(b, YearBills(b, year)) + LoaderReceipts(b))));
  }

  // --- the ledger given back ------------------------------------------------

  /** The bill as it was; its status is read off again if the year's work touched it. */
  function GivenBack(i: Invoice, touched: bool, today: int): Invoice
  {
    if touched then i.(status := StatusAfter(i, i.paid, today)) else i
  }

  lemma MorePaid(olds: seq<Allocation>, news: seq<Allocation>, bill: nat)
    requires Touches(news, bill) && forall a :: a in news ==> a.amount > 0
    ensures Sum(olds + news, PaidTo(bill)) > Sum(olds, PaidTo(bill))
  {
    SumConcat(olds, news, PaidTo(bill));
    SumNonNegative(news, PaidTo(bill));
  }

  lemma BillGivenBack(b0: Books, b: Books, year: Year, today: int, w: Books, k: nat)
    requires Tallied(b0) && Tallied(b) && Tallied(w) && GrownLinks(b0, b) && GrownBills(b0, b, year)
    requires forall a :: a in b.allocations ==> a.amount > 0
    requires w.allocations == b0.allocations && k < |b0.invoices| && |w.invoices| == |b0.invoices|
    requires Progressed(b.invoices[k], w.invoices[k], today)
    requires !Touches(Since(b0.allocations, b.allocations), b.invoices[k].id) ==> w.invoices[k] == b.invoices[k]
    ensures w.invoices[k]
      == GivenBack(b0.invoices[k], Touches(Since(b0.allocations, b.allocations), b0.invoices[k].id), today)
  {
    var news := Since(b0.allocations, b.allocations);
    assert b0.invoices[k] in b0.invoices && b.invoices[k] in b.invoices && w.invoices[k] in w.invoices;
    if Touches(news, b.invoices[k].id) {
      assert b.allocations == b0.allocations + news;
      MorePaid(b0.allocations, news, b.invoices[k].id);
    }
  }

  lemma RedrawnGivenBack(b0: Books, b: Books, w: Books)
    requires Tallied(b0) && Tallied(w) && w.allocations == b0.allocations
    requires |b0.carries| <= |b.carries| && GrownPayments(b0, b)
    requires PaymentsRedrawn(b.payments[..|b0.payments|], w.payments)
    ensures w.payments == b0.payments
  {
    forall k | 0 <= k < |b0.payments| ensures w.payments[k] == b0.payments[k] {
      assert w.payments[k] in w.payments && b0.payments[k] in b0.payments;
      assert b.payments[..|b0.payments|][k] == b.payments[k];
    }
  }

  lemma NoCarryOutOfYear(b0: Books, b: Books, year: Year)
    requires Valid(b0) && Valid(b) && Clean(b0, year) && Grown(b0, b, year)
    ensures forall c :: c in b.carries ==> c.from !in YearBills(b, year)
  {
    BillsOfTheYear(b0, b, year);
    forall c | c in b.carries ensures c.from !in YearBills(b, year) {
      if c in b0.carries {
        assert Carries(b0, c);
      } else {
        assert c in Since(b0.carries, b.carries) && Carries(b, c);
        CarryAcrossYears(b, year, c);
      }
    }
  }

  lemma PaymentsGivenBack(b0: Books, b: Books, year: Year, today: int, w: Books)
    requires Valid(b0) && Valid(b) && Clean(b0, year) && Grown(b0, b, year) && Tallied(w) && Leaves(b, year, today, w)
    ensures w.payments == b0.payments
  {
    AllocationsUndone(b0, b, year);
    PaymentsUndone(b0, b, year);
    RedrawnGivenBack(b0, b, w);
  }

  lemma BillsGivenBack(b0: Books, b: Books, year: Year, today: int, w: Books)
    requires Valid(b0) && Valid(b) && Clean(b0, year) && Grown(b0, b, year) && Tallied(w) && Leaves(b, year, today, w)
    ensures |w.invoices| == |b0.invoices| && forall k :: 0 <= k < |b0.invoices| ==>
      w.invoices[k]
        == GivenBack(b0.invoices[k], Touches(Since(b0.allocations, b.allocations), b0.invoices[k].id), today)
  {
    AllocationsUndone(b0, b, year);
    BillsUndone(b0, b, year);
    forall a | a in b.allocations ensures a.amount > 0 {
      assert Joins(b, a);
    }
    forall k | 0 <= k < |b0.invoices|
      ensures w.invoices[k]
        == GivenBack(b0.invoices[k], Touches(Since(b0.allocations, b.allocations), b0.invoices[k].id), today)
    {
      assert b.invoices[..|b0.invoices|][k] == b.invoices[k];
      BillGivenBack(b0, b, year, today, w, k);
    }
  }

  /** After any work on a year alone, the withdrawal of the year is accepted and gives the ledger back: its lines,
      receipts, allocations and carries exactly, and every bill exactly but for a status the trigger reads off again. */
  lemma WithdrawalUndoes(b0: Books, b: Books, year: Year, today: int) returns (w: Books)
    requires Valid(b0) && Valid(b) && Clean(b0, year) && Grown(b0, b, year)
    ensures Withdraw(b, year, today) == Some(w) && Valid(w)
    ensures w.lines == b0.lines && w.payments == b0.payments && w.allocations == b0.allocations
    ensures w.carries == b0.carries
    ensures |w.invoices| == |b0.invoices| && forall k :: 0 <= k < |b0.invoices| ==>
      w.invoices[k]
        == GivenBack(b0.invoices[k], Touches(Since(b0.allocations, b.allocations), b0.invoices[k].id), today)
    ensures w.next == b.next && w.serial == b.serial
  {
    NoCarryOutOfYear(b0, b, year);
    WithdrawRefused(b, year, today);
    w := Withdraw(b, year, today).value;
    WithdrawKeeps(b, year, today);
    WithdrawLeaves(b, year, today);
    AllocationsUndone(b0, b, year);
    LinesUndone(b0, b, year);
    CarriesUndoneAre(b0, b, year);
    PaymentsGivenBack(b0, b, year, today, w);
    BillsGivenBack(b0, b, year, today, w);
  }
}
