/**
What a billing run does to a family's account, and that it is work on the year
alone: carrying arrears moves debt from old bills to the new one without
changing what the family truly owes, and withdrawing the year undoes it.
*/
module BillingAccounts {
  import opened Tables
  import opened Books
  import opened Upkeep
  import opened Balances
  import opened Withdrawal
  import opened Undo
  import opened Growth
  import opened Arrears
  import opened TermRun
  import opened BillingChild
  import opened BillingRun

  // --- the account ----------------------------------------------------------

  lemma CarryOneAccounts(b: Books, student: nat, bill: nat, no: DocNo, head: nat, old': Invoice, today: int, r: Books,
                         s: nat)
    requires CarryOne(b, student, bill, no, head, old', today) == Some(r)
    ensures Charged(r, s) == Charged(b, s)
    ensures Received(r, s) == Received(b, s) + if s == student then old'.Balance() else 0
  {
    var b1 := InsertLine(b, ArrearsLine(bill, head, old'));
    var b2 := InsertPayment(b1, Adjusting(student, no, old', today)).value;
    var a := Allocation(b.next, old'.id, old'.Balance());
    InsertPaymentReceives(b1, Adjusting(student, no, old', today), s);
    AllocationsMoveNothing(b2, b2.allocations + [a], [a], today, s);
  }

  lemma {:induction false} CarryAllAccounts(b: Books, student: nat, bill: nat, no: DocNo, head: nat, olds: seq<Invoice>,
                                            today: int, r: Books, s: nat)
    requires CarryAll(b, student, bill, no, head, olds, today) == Some(r)
    ensures Charged(r, s) == Charged(b, s)
    ensures Received(r, s) == Received(b, s) + if s == student then Moved(olds) else 0
  {
    if olds != [] {
      var m := |olds| - 1;
      var b1 := CarryAll(b, student, bill, no, head, olds[..m], today).value;
      CarryAllAccounts(b, student, bill, no, head, olds[..m], today, b1, s);
      CarryOneAccounts(b1, student, bill, no, head, olds[m], today, r, s);
    }
  }

  /** Totalling a bill that stood at nothing charges its student its net. */
  lemma TotalCharges(b: Books, bill: nat, s: nat)
    requires DistinctBills(b.invoices) && bill in BillIds(b.invoices)
    requires Bill(b.invoices, bill).Live() && Bill(b.invoices, bill).Net() == 0 && Bill(b.invoices, bill).fine == 0
    ensures Received(RecomputeHeaders(b, {bill}), s) == Received(b, s)
    ensures Charged(RecomputeHeaders(b, {bill}), s) == Charged(b, s)
      + if Bill(b.invoices, bill).student == s then Sum(b.lines, AmountOn(bill)) - Sum(b.lines, DiscountOn(bill)) else 0
  {
    var delta := if Bill(b.invoices, bill).student == s
      then Sum(b.lines, AmountOn(bill)) - Sum(b.lines, DiscountOn(bill)) else 0;
    forall i | i in b.invoices
      ensures NetOf(s)(Rehead(b.lines, {bill})(i)) == NetOf(s)(i) + if BillKey(i) == bill then delta else 0
    {
      BillIs(b.invoices, i);
    }
    var i := Bill(b.invoices, bill);
    assert i in b.invoices && BillKey(i) == bill;
    SumEachOne(b.invoices, Rehead(b.lines, {bill}), NetOf(s), BillKey, bill, delta);
  }

  function OwnNet(own: seq<Line>, bill: nat): int { Sum(own, AmountOn(bill)) - Sum(own, DiscountOn(bill)) }

  /** Before it is totalled, the bill has charged nothing, and the adjustments of its arrears are received. */
  lemma ArrearsAccounts(f: FeeBook, b: Books, student: nat, year: Year, instalment: nat, items: seq<Item>, today: int,
                        b2: Books, b3: Books, s: nat)
    requires Valid(b) && WithOwnLines(f, b, student, year, instalment, items, today) == Some(b2)
    requires WithArrears(f, b, student, year, instalment, items, today) == Some(b3)
    ensures Charged(b3, s) == Charged(b, s)
    ensures Received(b3, s) == Received(b, s) + if s == student then Moved(ArrearsFor(b, student, year)) else 0
  {
    var row := NewBill(f, b, student, year, instalment, today);
    NoOldArrearsLost(b, b2, student, year, b2.invoices[|b.invoices|]);
    InsertInvoiceCharges(b.(serial := b.serial + 1), row, s);
    CarryAllAccounts(b2, student, b.next, row.no, f.arrearsHead, ArrearsFor(b, student, year), today, b3, s);
  }

  lemma StandsAccounts(f: FeeBook, b: Books, student: nat, year: Year, instalment: nat, items: seq<Item>, today: int,
                       b2: Books, b3: Books, s: nat)
    requires Valid(b) && WithOwnLines(f, b, student, year, instalment, items, today) == Some(b2)
    requires WithArrears(f, b, student, year, instalment, items, today) == Some(b3)
    ensures
      var r := RecomputeHeaders(b3, {b.next});
      var moved := if s == student then Moved(ArrearsFor(b, student, year)) else 0;
      var own := if s == student then OwnNet(OwnLines(f, student, year, b.next, items), b.next) else 0;
      && Received(r, s) == Received(b, s) + moved
      && Charged(r, s) == Charged(b, s) + own + moved
  {
    var olds := ArrearsFor(b, student, year);
    OwnLinesKeep(f, b, student, year, instalment, items, today, b2);
    ArrearsKeep(f, b, student, year, instalment, items, today, b2);
    ArrearsAccounts(f, b, student, year, instalment, items, today, b2, b3, s);
    ArrearsRows(b, student, year);
    assert b.next !in BillIds(olds);
    HeaderTotals(b, OwnLines(f, student, year, b.next, items), b.next, f.arrearsHead, olds);
    TotalCharges(b3, b.next, s);
  }

  /** Billing a child raises what the family truly owes by the child's own charges: the arrears carried onto the bill
      leave it unchanged, and no other family's account moves. */
  lemma BillChildAccounts(f: FeeBook, b: Books, student: nat, year: Year, instalment: nat, items: seq<Item>, today: int,
                          r: Books, s: nat)
    requires Valid(b) && BillChild(f, b, student, year, instalment, items, today) == Some(r)
    ensures Owed(r, s) - Credit(r, s) == Owed(b, s) - Credit(b, s)
      + if s == student then OwnNet(OwnLines(f, student, year, b.next, items), b.next) else 0
  {
    BalanceLaw(b, s);
    BillChildKeeps(f, b, student, year, instalment, items, today);
    BalanceLaw(r, s);
    if NothingToBill(f, b, student, year, items) {
      EmptyBillWithdrawn(f, b, student, year, instalment, items, today);
      NoOwnLines(f, student, year, b.next, items);
    } else {
      BillStands(f, b, student, year, instalment, items, today, r);
      var b2 := WithOwnLines(f, b, student, year, instalment, items, today).value;
      StandsAccounts(f, b, student, year, instalment, items, today, b2,
                     WithArrears(f, b, student, year, instalment, items, today).value, s);
    }
  }

  // --- work on the year alone -----------------------------------------------

  lemma SettledBillsGrow(b0: Books, b: Books, r: Books, year: Year, a: Allocation, today: int)
    requires b0.allocations <= b.allocations && GrownBills(b0, b, year)
    requires r.allocations == b.allocations + [a] && r.invoices == Allocate(b, a, today).invoices
    ensures GrownBills(b0, r, year)
  {
    MoreSince(b0.allocations, b.allocations, a);
    assert a in Since(b0.allocations, r.allocations);
    assert forall x :: x in Since(b0.allocations, b.allocations) ==> x in Since(b0.allocations, r.allocations);
  }

  lemma AdjustmentsGrow(b0: Books, b: Books, r: Books, row: Payment, c: Carry)
    requires b0.carries <= b.carries && b0.next <= b.next && GrownPayments(b0, b)
    requires row.id == b.next && Forwards(row) && c.payment == b.next
    requires r.carries == b.carries + [c] && |r.payments| == |b.payments| + 1
    requires forall k :: 0 <= k < |b.payments| ==> r.payments[k] == b.payments[k].(drawn := r.payments[k].drawn)
    requires r.payments[|b.payments|] == row.(drawn := r.payments[|b.payments|].drawn)
    ensures GrownPayments(b0, r)
  {
    MoreSince(b0.carries, b.carries, c);
    assert c in Since(b0.carries, r.carries);
    assert forall x :: x in Since(b0.carries, b.carries) ==> x in Since(b0.carries, r.carries);
  }

  lemma CarryLinksGrow(b0: Books, b: Books, r: Books, l: Line, a: Allocation, c: Carry)
    requires GrownLinks(b0, b) && l.invoice >= b0.next && c.to >= b0.next && c.payment >= b0.next
    requires a.payment == c.payment
    requires r.lines == b.lines + [l] && r.allocations == b.allocations + [a] && r.carries == b.carries + [c]
    requires r.next >= b.next
    ensures GrownLinks(b0, r)
  {
    MoreSince(b0.lines, b.lines, l);
    MoreSince(b0.carries, b.carries, c);
    MoreSince(b0.allocations, b.allocations, a);
    assert c in Since(b0.carries, r.carries);
    assert forall x :: x in Since(b0.carries, b.carries) ==> x in Since(b0.carries, r.carries);
  }

  lemma CarryOneGrows(b0: Books, b: Books, year: Year, student: nat, bill: nat, no: DocNo, head: nat, old': Invoice,
                      today: int, r: Books)
    requires Grown(b0, b, year) && bill >= b0.next && IsPrefix(INV, no.series)
    requires CarryOne(b, student, bill, no, head, old', today) == Some(r)
    ensures Grown(b0, r, year)
  {
    var l := ArrearsLine(bill, head, old');
    var c := Carry(old'.id, bill, b.next, old'.Balance());
    var a := Allocation(b.next, old'.id, old'.Balance());
    SettledBillsGrow(b0, b, r, year, a, today);
    AdjustmentsGrow(b0, b, r, Adjusting(student, no, old', today).(id := b.next), c);
    CarryLinksGrow(b0, b, r, l, a, c);
  }

  lemma {:induction false} CarryAllGrows(b0: Books, b: Books, year: Year, student: nat, bill: nat, no: DocNo, head: nat,
                                         olds: seq<Invoice>, today: int, r: Books)
    requires Grown(b0, b, year) && bill >= b0.next && IsPrefix(INV, no.series)
    requires CarryAll(b, student, bill, no, head, olds, today) == Some(r)
    ensures Grown(b0, r, year)
  {
    if olds != [] {
      var m := |olds| - 1;
      var b1 := CarryAll(b, student, bill, no, head, olds[..m], today).value;
      CarryAllGrows(b0, b, year, student, bill, no, head, olds[..m], today, b1);
      CarryOneGrows(b0, b1, year, student, bill, no, head, olds[m], today, r);
    }
  }

  lemma InsertLinesGrows(b0: Books, b: Books, year: Year, ls: seq<Line>)
    requires Grown(b0, b, year) && forall l :: l in ls ==> l.invoice >= b0.next
    ensures Grown(b0, InsertLines(b, ls), year)
  {
    assert Since(b0.lines, b.lines + ls) == Since(b0.lines, b.lines) + ls;
  }

  lemma NumbersGrow(b0: Books, b: Books, year: Year, next: nat, serial: nat)
    requires Grown(b0, b, year) && next >= b.next
    ensures Grown(b0, b.(next := next, serial := serial), year)
  {
  }

  lemma BillChildGrows(b0: Books, f: FeeBook, b: Books, student: nat, year: Year, instalment: nat, items: seq<Item>,
                       today: int, r: Books)
    requires Valid(b0) && Valid(b) && Grown(b0, b, year) && IsPrefix(INV, f.series)
    requires BillChild(f, b, student, year, instalment, items, today) == Some(r)
    ensures Grown(b0, r, year)
  {
    if NothingToBill(f, b, student, year, items) {
      EmptyBillWithdrawn(f, b, student, year, instalment, items, today);
      NumbersGrow(b0, b, year, b.next + 1, b.serial + 1);
    } else {
      BillStands(f, b, student, year, instalment, items, today, r);
      StandsGrow(b0, f, b, student, year, instalment, items, today,
                 WithArrears(f, b, student, year, instalment, items, today).value);
    }
  }

  lemma StandsGrow(b0: Books, f: FeeBook, b: Books, student: nat, year: Year, instalment: nat, items: seq<Item>,
                   today: int, b3: Books)
    requires Valid(b0) && Valid(b) && Grown(b0, b, year) && IsPrefix(INV, f.series)
    requires WithArrears(f, b, student, year, instalment, items, today) == Some(b3)
    ensures Grown(b0, RecomputeHeaders(b3, {b.next}), year)
  {
    var row := NewBill(f, b, student, year, instalment, today);
    NumbersGrow(b0, b, year, b.next, b.serial + 1);
    InsertInvoiceGrows(b0, b.(serial := b.serial + 1), year, row);
    var b1 := InsertInvoice(b.(serial := b.serial + 1), row).value;
    OwnLinesSound(f, student, year, b.next, items);
    InsertLinesGrows(b0, b1, year, OwnLines(f, student, year, b.next, items));
    var b2 := WithOwnLines(f, b, student, year, instalment, items, today).value;
    CarryAllGrows(b0, b2, year, student, b.next, row.no, f.arrearsHead, ArrearsFor(b2, student, year), today, b3);
    RecomputeHeadersGrows(b0, b3, year, {b.next});
  }

  lemma {:induction false} BillChildrenGrow(b0: Books, f: FeeBook, b: Books, children: seq<Enrolment>, year: Year,
                                            instalment: nat,
                                            items: seq<Item>, today: int, r: Books)
    requires Valid(b0) && Valid(b) && Grown(b0, b, year) && IsPrefix(INV, f.series)
    requires BillChildren(f, b, children, year, instalment, items, today) == Some(r)
    ensures Grown(b0, r, year)
  {
    if children != [] {
      var m := |children| - 1;
      var b1 := BillChildren(f, b, children[..m], year, instalment, items, today).value;
      BillChildrenGrow(b0, f, b, children[..m], year, instalment, items, today, b1);
      BillChildrenOnward(f, b, children[..m], year, instalment, items, today, b1);
      BillChildGrows(b0, f, b1, children[m].student, year, instalment, items, today, r);
    }
  }

  lemma {:induction false} RunStructuresGrow(b0: Books, f: FeeBook, b: Books, structures: seq<Structure>, year: Year,
                                             instalment: nat, today: int, r: Books)
    requires Valid(b0) && Valid(b) && Grown(b0, b, year) && IsPrefix(INV, f.series)
    requires RunStructures(f, b, structures, year, instalment, today) == Some(r)
    ensures Grown(b0, r, year)
  {
    if structures != [] {
      var m := |structures| - 1;
      var b1 := RunStructures(f, b, structures[..m], year, instalment, today).value;
      RunStructuresGrow(b0, f, b, structures[..m], year, instalment, today, b1);
      RunStructuresOnward(f, b, structures[..m], year, instalment, today, b1);
      if Priced(structures[m], instalment) != [] {
        BillChildrenGrow(b0, f, b1, Where(f.enrolments, Selects(b1, structures[m], year, instalment)), year, instalment,
                         Priced(structures[m], instalment), today, r);
      }
    }
  }

  /** A billing run is work on its year alone, when the school's invoice series begins "INV/". */
  lemma RunGrows(b0: Books, f: FeeBook, b: Books, year: Year, instalment: nat, today: int, r: Books)
    requires Valid(b0) && Valid(b) && Grown(b0, b, year) && IsPrefix(INV, f.series)
    requires Run(f, b, year, instalment, today) == Some(r)
    ensures Valid(r) && Grown(b0, r, year)
  {
    RunStructuresGrow(b0, f, b, f.structures, year, instalment, today, r);
    RunStructuresOnward(f, b, f.structures, year, instalment, today, r);
  }

  /** Withdrawing the year after a billing run undoes the run, arrears and all. */
  lemma RunThenWithdraw(f: FeeBook, b: Books, year: Year, instalment: nat, today: int, r: Books, later: int)
    returns (w: Books)
    requires Valid(b) && Clean(b, year) && IsPrefix(INV, f.series)
    requires Run(f, b, year, instalment, today) == Some(r)
    ensures Withdraw(r, year, later) == Some(w)
    ensures w.lines == b.lines && w.payments == b.payments && w.allocations == b.allocations && w.carries == b.carries
    ensures |w.invoices| == |b.invoices| && forall k :: 0 <= k < |b.invoices| ==>
      w.invoices[k] == b.invoices[k].(status := w.invoices[k].status)
  {
    GrownFromItself(b, year);
    RunGrows(b, f, b, year, instalment, today, r);
    w := WithdrawalUndoes(b, r, year, later);
  }
}
