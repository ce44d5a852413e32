/** What billing one child does to the ledger. */
module BillingChild {
  import opened Tables
  import opened Books
  import opened Upkeep
  import opened Withdrawal
  import opened Arrears
  import opened TermRun

  // --- the bill with its own lines ------------------------------------------

  lemma InsertLinesKeeps(b: Books, ls: seq<Line>, bill: nat)
    requires ValidWith(b, {bill}) && bill in BillIds(b.invoices)
    requires forall l :: l in ls ==> l.invoice == bill && 0 <= l.discount <= l.amount
    ensures ValidWith(InsertLines(b, ls), {bill})
  {
    var r := InsertLines(b, ls);
    forall i | i in r.invoices && i.id != bill ensures Headed(i, r.lines) {
      SumConcat(b.lines, ls, AmountOn(i.id));
      SumConcat(b.lines, ls, DiscountOn(i.id));
      SumZero(ls, AmountOn(i.id));
      SumZero(ls, DiscountOn(i.id));
    }
    forall a | a in r.allocations ensures Joins(r, a) {
      assert Joins(b, a);
    }
    forall c | c in r.carries ensures Carries(r, c) {
      assert Carries(b, c);
    }
  }

  /** The ledger once the new bill has its own lines. */
  function WithOwnLines(f: FeeBook, b: Books, student: nat, year: Year, instalment: nat, items: seq<Item>,
                        today: int): Option<Books>
  {
    var b1 :- InsertInvoice(b.(serial := b.serial + 1), NewBill(f, b, student, year, instalment, today));
    Some(InsertLines(b1, OwnLines(f, student, year, b.next, items)))
  }

  lemma OwnLinesKeep(f: FeeBook, b: Books, student: nat, year: Year, instalment: nat, items: seq<Item>, today: int,
                     b2: Books)
    requires Valid(b) && WithOwnLines(f, b, student, year, instalment, items, today) == Some(b2)
    ensures ValidWith(b2, {b.next}) && b.next !in BillIds(b.invoices)
    ensures BillIds(b2.invoices) == BillIds(b.invoices) + {b.next}
    ensures Bill(b2.invoices, b.next) == NewBill(f, b, student, year, instalment, today).(id := b.next)
    ensures forall id :: id in BillIds(b.invoices) ==> Bill(b2.invoices, id) == Bill(b.invoices, id)
  {
    var row := NewBill(f, b, student, year, instalment, today);
    var b0 := b.(serial := b.serial + 1);
    NumbersAreFree(b, b.next, b.serial + 1, {});
    InsertInvoiceKeeps(b0, row, {});
    var b1 := InsertInvoice(b0, row).value;
    assert b1.invoices == b.invoices + [row.(id := b.next)];
    assert {} + {b.next} == {b.next};
    assert row.(id := b.next) in b1.invoices;
    BillIs(b1.invoices, row.(id := b.next));
    OwnLinesSound(f, student, year, b.next, items);
    InsertLinesKeeps(b1, OwnLines(f, student, year, b.next, items), b.next);
    forall id | id in BillIds(b.invoices) ensures Bill(b1.invoices, id) == Bill(b.invoices, id) {
      BillOfMore(b.invoices, [row.(id := b.next)], id);
    }
  }

  // --- the bill with its arrears, totalled ----------------------------------

  function WithArrears(f: FeeBook, b: Books, student: nat, year: Year, instalment: nat, items: seq<Item>,
                       today: int): Option<Books>
  {
    var b2 :- WithOwnLines(f, b, student, year, instalment, items, today);
    CarryArrears(b2, student, year, b.next, DocNo(f.series, b.serial + 1), f.arrearsHead, today)
  }

  lemma NoOldArrearsLost(b: Books, b2: Books, student: nat, year: Year, new': Invoice)
    requires b2.invoices == b.invoices + [new'] && new'.year == year && b2.carries == b.carries
    ensures ArrearsFor(b2, student, year) == ArrearsFor(b, student, year)
  {
    WhereConcat(b.invoices, [new'], ArrearsOf(b.carries, student, year));
    WhereNone([new'], ArrearsOf(b.carries, student, year));
  }

  /** A billed child: the earlier bills in arrears settled, the new bill raised for its own lines and theirs. */
  ghost predicate BilledWith(b: Books, r: Books, bill: nat, row: Invoice, own: seq<Line>, head: nat, olds: seq<Invoice>)
  {
    && BillIds(r.invoices) == BillIds(b.invoices) + {bill} && bill !in BillIds(b.invoices)
    && Bill(r.invoices, bill) == row.(id := bill,
         gross := Sum(own, AmountOn(bill)) + Moved(olds), discount := Sum(own, DiscountOn(bill)))
    && (forall o :: o in olds ==>
        o.id in BillIds(b.invoices) && Bill(r.invoices, o.id) == o.(paid := o.Net(), status := Paid))
    && (forall id :: id in BillIds(b.invoices) && id !in BillIds(olds) ==> Bill(r.invoices, id) == Bill(b.invoices, id))
    && r.lines == b.lines + own + ArrearsLines(bill, head, olds)
    && b.carries <= r.carries && CarriedFrom(r.carries) == CarriedFrom(b.carries) + BillIds(olds)
  }

  lemma ArrearsKeep(f: FeeBook, b: Books, student: nat, year: Year, instalment: nat, items: seq<Item>, today: int,
                    b2: Books)
    requires Valid(b) && WithOwnLines(f, b, student, year, instalment, items, today) == Some(b2)
    ensures WithArrears(f, b, student, year, instalment, items, today).Some?
    ensures
      var b3 := WithArrears(f, b, student, year, instalment, items, today).value;
      && ValidWith(b3, {b.next}) && CarriedOver(b2, b3, b.next, f.arrearsHead, ArrearsFor(b, student, year))
      && ArrearsFor(b3, student, year) == []
  {
    OwnLinesKeep(f, b, student, year, instalment, items, today, b2);
    NoOldArrearsLost(b, b2, student, year, b2.invoices[|b.invoices|]);
    CarryConserves(b2, student, year, b.next, DocNo(f.series, b.serial + 1), f.arrearsHead, today);
  }

  lemma OldLines(b: Books, bill: nat)
    requires Keyed(b) && Itemised(b, {}) && bill >= b.next
    ensures forall l :: l in b.lines ==> l.invoice != bill
    ensures Sum(b.lines, AmountOn(bill)) == 0 && Sum(b.lines, DiscountOn(bill)) == 0
  {
    forall l | l in b.lines ensures l.invoice != bill {
      var i := Bill(b.invoices, l.invoice);
    }
    SumZero(b.lines, AmountOn(bill));
    SumZero(b.lines, DiscountOn(bill));
  }

  lemma HeaderTotals(b: Books, own: seq<Line>, bill: nat, head: nat, olds: seq<Invoice>)
    requires Keyed(b) && Itemised(b, {}) && bill >= b.next
    ensures Sum(b.lines + own + ArrearsLines(bill, head, olds), AmountOn(bill))
      == Sum(own, AmountOn(bill)) + Moved(olds)
    ensures Sum(b.lines + own + ArrearsLines(bill, head, olds), DiscountOn(bill)) == Sum(own, DiscountOn(bill))
  {
    OldLines(b, bill);
    SumConcat(b.lines, own, AmountOn(bill));
    SumConcat(b.lines, own, DiscountOn(bill));
    LinesGain(b.lines + own, bill, head, olds);
  }

  lemma Totalled(b2: Books, b3: Books, bill: nat, head: nat, olds: seq<Invoice>)
    requires ValidWith(b3, {bill}) && bill in BillIds(b2.invoices) && CarriedOver(b2, b3, bill, head, olds)
    requires forall o :: o in olds ==> o.id != bill
    ensures
      var r := RecomputeHeaders(b3, {bill});
      && Valid(r) && BillIds(r.invoices) == BillIds(b2.invoices)
      && Bill(r.invoices, bill)
        == Bill(b2.invoices, bill).(gross := Sum(b3.lines, AmountOn(bill)), discount := Sum(b3.lines, DiscountOn(bill)))
      && (forall id :: id in BillIds(b2.invoices) && id != bill ==> Bill(r.invoices, id) == Bill(b3.invoices, id))
  {
    RecomputeHeadersKeeps(b3, {bill});
    BillOfEach(b3.invoices, Rehead(b3.lines, {bill}));
  }

  /** The two halves of the work put together. */
  lemma JoinHalves(b: Books, b2: Books, b3: Books, bill: nat, row: Invoice, own: seq<Line>, head: nat,
                   olds: seq<Invoice>)
    requires BillIds(b2.invoices) == BillIds(b.invoices) + {bill} && bill !in BillIds(b.invoices)
    requires Bill(b2.invoices, bill) == row.(id := bill) && b2.lines == b.lines + own && b2.carries == b.carries
    requires forall id :: id in BillIds(b.invoices) ==> Bill(b2.invoices, id) == Bill(b.invoices, id)
    requires forall o :: o in olds ==> o.id in BillIds(b.invoices)
    requires ValidWith(b3, {bill}) && CarriedOver(b2, b3, bill, head, olds)
    requires Sum(b3.lines, AmountOn(bill)) == Sum(own, AmountOn(bill)) + Moved(olds)
    requires Sum(b3.lines, DiscountOn(bill)) == Sum(own, DiscountOn(bill))
    ensures Valid(RecomputeHeaders(b3, {bill}))
    ensures BilledWith(b, RecomputeHeaders(b3, {bill}), bill, row, own, head, olds)
  {
    Totalled(b2, b3, bill, head, olds);
  }

  lemma TotalledBill(f: FeeBook, b: Books, student: nat, year: Year, instalment: nat, items: seq<Item>, today: int,
                     b2: Books, b3: Books)
    requires Valid(b) && WithOwnLines(f, b, student, year, instalment, items, today) == Some(b2)
    requires WithArrears(f, b, student, year, instalment, items, today) == Some(b3)
    ensures Valid(RecomputeHeaders(b3, {b.next}))
    ensures BilledWith(b, RecomputeHeaders(b3, {b.next}), b.next, NewBill(f, b, student, year, instalment, today),
                       OwnLines(f, student, year, b.next, items), f.arrearsHead, ArrearsFor(b, student, year))
  {
    OwnLinesKeep(f, b, student, year, instalment, items, today, b2);
    ArrearsKeep(f, b, student, year, instalment, items, today, b2);
    ArrearsRows(b, student, year);
    HeaderTotals(b, OwnLines(f, student, year, b.next, items), b.next, f.arrearsHead, ArrearsFor(b, student, year));
    JoinHalves(b, b2, b3, b.next, NewBill(f, b, student, year, instalment, today),
               OwnLines(f, student, year, b.next, items), f.arrearsHead, ArrearsFor(b, student, year));
  }

  // --- the outcome ----------------------------------------------------------

  /** Nothing to charge: no item chosen, no arrears. */
  predicate NothingToBill(f: FeeBook, b: Books, student: nat, year: Year, items: seq<Item>)
  {
    (forall x :: x in items ==> !Chosen(f, student, year, x.head)) && ArrearsFor(b, student, year) == []
  }

  lemma {:induction false} NoOwnLines(f: FeeBook, student: nat, year: Year, bill: nat, items: seq<Item>)
    ensures OwnLines(f, student, year, bill, items) == []
      <==> forall x :: x in items ==> !Chosen(f, student, year, x.head)
  {
    if items != [] {
      var m := |items| - 1;
      NoOwnLines(f, student, year, bill, items[..m]);
      assert forall x :: x in items <==> x in items[..m] || x == items[m];
    }
  }

  lemma LinesOnBill(b: Books, r: Books, bill: nat, row: Invoice, own: seq<Line>, head: nat, olds: seq<Invoice>)
    requires Valid(b) && bill >= b.next && BilledWith(b, r, bill, row, own, head, olds)
    requires forall l :: l in own ==> l.invoice == bill
    ensures HasLines(r, bill) <==> own != [] || olds != []
  {
    OldLines(b, bill);
    if own != [] {
      assert own[0] in r.lines;
    } else if olds != [] {
      assert ArrearsLines(bill, head, olds)[0] == ArrearsLine(bill, head, olds[0]);
      assert ArrearsLines(bill, head, olds)[0] in r.lines;
    } else {
      assert r.lines == b.lines;
    }
  }

  lemma EmptyBillStaysEmpty(b: Books, b2: Books, row: Invoice)
    requires Valid(b) && row.id == b.next && row.gross == 0 && row.discount == 0
    requires b2.lines == b.lines && b2.invoices == b.invoices + [row]
    ensures RecomputeHeaders(b2, {b.next}) == b2 && !HasLines(b2, b.next)
  {
    OldLines(b, b.next);
    assert Each(b2.invoices, Rehead(b2.lines, {b.next})) == b2.invoices;
  }

  lemma NothingAdded(f: FeeBook, b: Books, student: nat, year: Year, instalment: nat, items: seq<Item>, today: int,
                     b2: Books)
    requires NothingToBill(f, b, student, year, items)
    requires WithOwnLines(f, b, student, year, instalment, items, today) == Some(b2)
    ensures
      var row := NewBill(f, b, student, year, instalment, today).(id := b.next);
      b2 == b.(invoices := b.invoices + [row], next := b.next + 1, serial := b.serial + 1)
    ensures WithArrears(f, b, student, year, instalment, items, today) == Some(b2)
  {
    NoOwnLines(f, student, year, b.next, items);
    NoOldArrearsLost(b, b2, student, year, NewBill(f, b, student, year, instalment, today).(id := b.next));
  }

  /** The empty bill is withdrawn and nothing is left of it but the numbers drawn. */
  lemma EmptyBillWithdrawn(f: FeeBook, b: Books, student: nat, year: Year, instalment: nat, items: seq<Item>,
                           today: int)
    requires Valid(b) && NothingToBill(f, b, student, year, items)
    requires BillChild(f, b, student, year, instalment, items, today).Some?
    ensures BillChild(f, b, student, year, instalment, items, today)
      == Some(b.(next := b.next + 1, serial := b.serial + 1))
  {
    var row := NewBill(f, b, student, year, instalment, today).(id := b.next);
    var b2 := WithOwnLines(f, b, student, year, instalment, items, today).value;
    NothingAdded(f, b, student, year, instalment, items, today, b2);
    EmptyBillStaysEmpty(b, b2, row);
    DeleteTheNewest(b, b2, row, today);
  }

  lemma DeleteTheNewest(b: Books, b2: Books, row: Invoice, today: int)
    requires Valid(b) && row.id == b.next
    requires b2 == b.(invoices := b.invoices + [row], next := b2.next, serial := b2.serial)
    requires DeleteInvoices(b2, {b.next}, today).Some?
    ensures DeleteInvoices(b2, {b.next}, today) == Some(b.(next := b2.next, serial := b2.serial))
  {
    forall a | a in b.allocations ensures a.invoice != b.next {
      assert Joins(b, a);
    }
    DeleteNothing(b2, OfBills({b.next}), today);
    WhereOldNew(b.invoices, [row], Not(BillGone({b.next})));
    OldLines(b, b.next);
    WhereAll(b.lines, Not(LineGone({b.next})));
    forall c | c in b.carries ensures c.to != b.next {
      assert Carries(b, c);
    }
    WhereAll(b.carries, Not(CarryGone({b.next})));
  }

  /** Otherwise the bill stands, for the child's own lines and their arrears. */
  lemma BillStands(f: FeeBook, b: Books, student: nat, year: Year, instalment: nat, items: seq<Item>, today: int,
                   r: Books)
    requires Valid(b) && !NothingToBill(f, b, student, year, items)
    requires BillChild(f, b, student, year, instalment, items, today) == Some(r)
    ensures Valid(r)
    ensures BilledWith(b, r, b.next, NewBill(f, b, student, year, instalment, today),
                       OwnLines(f, student, year, b.next, items), f.arrearsHead, ArrearsFor(b, student, year))
    ensures WithArrears(f, b, student, year, instalment, items, today).Some?
    ensures r == RecomputeHeaders(WithArrears(f, b, student, year, instalment, items, today).value, {b.next})
  {
    var b2 := WithOwnLines(f, b, student, year, instalment, items, today).value;
    ArrearsKeep(f, b, student, year, instalment, items, today, b2);
    var b3 := WithArrears(f, b, student, year, instalment, items, today).value;
    TotalledBill(f, b, student, year, instalment, items, today, b2, b3);
    NoOwnLines(f, student, year, b.next, items);
    OwnLinesSound(f, student, year, b.next, items);
    LinesOnBill(b, RecomputeHeaders(b3, {b.next}), b.next, NewBill(f, b, student, year, instalment, today),
                OwnLines(f, student, year, b.next, items), f.arrearsHead, ArrearsFor(b, student, year));
  }

  lemma BillChildKeeps(f: FeeBook, b: Books, student: nat, year: Year, instalment: nat, items: seq<Item>, today: int)
    requires Valid(b) && BillChild(f, b, student, year, instalment, items, today).Some?
    ensures Valid(BillChild(f, b, student, year, instalment, items, today).value)
  {
    if NothingToBill(f, b, student, year, items) {
      EmptyBillWithdrawn(f, b, student, year, instalment, items, today);
      NumbersAreFree(b, b.next + 1, b.serial + 1, {});
    } else {
      BillStands(f, b, student, year, instalment, items, today,
                 BillChild(f, b, student, year, instalment, items, today).value);
    }
  }
}
