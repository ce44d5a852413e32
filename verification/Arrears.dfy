/**
Arrears: a child's unpaid balances of earlier years become lines on the bill
just raised, and each old bill is settled by an adjustment for exactly its
balance.
*/
module Arrears {
  import opened Tables
  import opened Books
  import opened Upkeep

  function CarriedFrom(carries: seq<Carry>): set<nat> { set c | c in carries :: c.from }

  predicate InArrears(carries: seq<Carry>, student: nat, year: Year, i: Invoice)
  {
    && i.student == student && i.year != year && i.year.starts < year.starts
    && i.status in {Unpaid, PartlyPaid, Overdue} && i.Net() > i.paid
    && i.id !in CarriedFrom(carries)
  }

  function ArrearsOf(carries: seq<Carry>, student: nat, year: Year): Invoice -> bool
  {
    (i: Invoice) => InArrears(carries, student, year, i)
  }

  function DueDate(): Invoice -> int { (i: Invoice) => if i.due.Some? then i.due.value else i.issued }

  /** The earlier bills a child still owes on and that were never carried, in the order they fell due. */
  function ArrearsFor(b: Books, student: nat, year: Year): seq<Invoice>
  {
    SortBy(Where(b.invoices, ArrearsOf(b.carries, student, year)), DueDate())
  }

  function ArrearsLine(bill: nat, head: nat, old': Invoice): Line { Line(bill, Some(head), old'.Balance(), 0) }

  function Adjusting(student: nat, no: DocNo, old': Invoice, today: int): Payment
  {
    Payment(0, student, None, old'.Balance(), 0, Adjustment, today, CarriedForwardTo(no))
  }

  /** One old bill: a line on the new bill, an adjustment that settles the old one, and the record of both. */
  function CarryOne(b: Books, student: nat, bill: nat, no: DocNo, head: nat, old': Invoice, today: int): Option<Books>
  {
    var b1 := InsertLine(b, ArrearsLine(bill, head, old'));
    var b2 :- InsertPayment(b1, Adjusting(student, no, old', today));
    var b3 := Allocate(b2, Allocation(b.next, old'.id, old'.Balance()), today);
    Some(InsertCarry(b3, Carry(old'.id, bill, b.next, old'.Balance())))
  }

  function CarryAll(b: Books, student: nat, bill: nat, no: DocNo, head: nat, olds: seq<Invoice>,
                    today: int): Option<Books>
  {
    if olds == [] then Some(b)
    else
      var b1 :- CarryAll(b, student, bill, no, head, olds[..|olds| - 1], today);
      CarryOne(b1, student, bill, no, head, olds[|olds| - 1], today)
  }

  function Owing(): Invoice -> int { (i: Invoice) => i.Balance() }

  /** What carrying a list of old bills moves. */
  function Moved(olds: seq<Invoice>): int { Sum(olds, Owing()) }

  // --- one carry ------------------------------------------------------------

  ghost predicate MayCarry(b: Books, student: nat, bill: nat, no: DocNo, old': Invoice)
  {
    && bill in BillIds(b.invoices) && old'.id in BillIds(b.invoices) && Bill(b.invoices, old'.id) == old'
    && old'.id != bill && old'.Live() && old'.Balance() > 0
    && var new' := Bill(b.invoices, bill);
    && new'.student == old'.student == student && new'.no == no && old'.year.starts < new'.year.starts
    && old'.id !in CarriedFrom(b.carries)
  }

  lemma SettleOld(b: Books, student: nat, bill: nat, no: DocNo, head: nat, old': Invoice, today: int)
    requires ValidWith(b, {bill}) && MayCarry(b, student, bill, no, old')
    ensures
      var b2 := InsertPayment(InsertLine(b, ArrearsLine(bill, head, old')), Adjusting(student, no, old', today));
      && b2.Some? && ValidWith(b2.value, {bill})
      && MayAllocate(b2.value, Allocation(b.next, old'.id, old'.Balance()), {bill})
      && Receipt(b2.value.payments, b.next) == Adjusting(student, no, old', today).(id := b.next)
  {
    var b1 := InsertLine(b, ArrearsLine(bill, head, old'));
    var row := Adjusting(student, no, old', today);
    InsertLineKeeps(b, ArrearsLine(bill, head, old'), {bill});
    InsertPaymentKeeps(b1, row, {bill});
    var b2 := InsertPayment(b1, row).value;
    assert b2.payments[|b.payments|] == row.(id := b.next);
    ReceiptIs(b2.payments, row.(id := b.next));
    forall x | x in b.allocations ensures x.payment != b.next {
      assert Joins(b, x);
    }
  }

  lemma RecordCarry(b: Books, c: Carry, open: set<nat>)
    requires ValidWith(b, open) && Carries(b, c)
    requires forall d :: d in b.carries ==> d.from != c.from && d.payment != c.payment
    requires forall a :: a in b.allocations && a.payment == c.payment ==> a.invoice == c.from
    ensures ValidWith(InsertCarry(b, c), open)
  {
    RecordCarried(b, c);
    var r := InsertCarry(b, c);
    assert forall a :: a in b.allocations ==> Joins(b, a) ==> Joins(r, a);
  }

  lemma RecordCarried(b: Books, c: Carry)
    requires Carried(b) && Carries(b, c)
    requires forall d :: d in b.carries ==> d.from != c.from && d.payment != c.payment
    requires forall a :: a in b.allocations && a.payment == c.payment ==> a.invoice == c.from
    ensures Carried(InsertCarry(b, c))
  {
    var r := InsertCarry(b, c);
    forall d | d in r.carries ensures Carries(r, d) {
      assert Carries(b, d);
    }
  }

  lemma CarryFits(b: Books, student: nat, bill: nat, no: DocNo, head: nat, old': Invoice, today: int)
    requires ValidWith(b, {bill}) && MayCarry(b, student, bill, no, old')
    ensures
      var b2 := InsertPayment(InsertLine(b, ArrearsLine(bill, head, old')), Adjusting(student, no, old', today)).value;
      var b3 := Allocate(b2, Allocation(b.next, old'.id, old'.Balance()), today);
      && ValidWith(b3, {bill}) && Carries(b3, Carry(old'.id, bill, b.next, old'.Balance()))
  {
    SettleOld(b, student, bill, no, head, old', today);
    var b2 := InsertPayment(InsertLine(b, ArrearsLine(bill, head, old')), Adjusting(student, no, old', today)).value;
    var a := Allocation(b.next, old'.id, old'.Balance());
    AllocateKeeps(b2, a, today, {bill});
    AllocateBill(b2, a, today);
    AllocateReceipt(b2, a, today);
  }

  lemma NothingUsesNext(b: Books, open: set<nat>)
    requires ValidWith(b, open)
    ensures forall x :: x in b.allocations ==> x.payment != b.next
    ensures forall d :: d in b.carries ==> d.payment != b.next
  {
    forall x | x in b.allocations ensures x.payment != b.next {
      assert Joins(b, x);
    }
    forall d | d in b.carries ensures d.payment != b.next {
      assert Carries(b, d);
    }
  }

  lemma CarryOneKeeps(b: Books, student: nat, bill: nat, no: DocNo, head: nat, old': Invoice, today: int)
    requires ValidWith(b, {bill}) && MayCarry(b, student, bill, no, old')
    ensures CarryOne(b, student, bill, no, head, old', today).Some?
    ensures ValidWith(CarryOne(b, student, bill, no, head, old', today).value, {bill})
  {
    SettleOld(b, student, bill, no, head, old', today);
    CarryFits(b, student, bill, no, head, old', today);
    NothingUsesNext(b, {bill});
    var b2 := InsertPayment(InsertLine(b, ArrearsLine(bill, head, old')), Adjusting(student, no, old', today)).value;
    var b3 := Allocate(b2, Allocation(b.next, old'.id, old'.Balance()), today);
    RecordCarry(b3, Carry(old'.id, bill, b.next, old'.Balance()), {bill});
  }

  /** The old bill ends settled, and no other bill moves. */
  lemma CarryOneEffect(b: Books, student: nat, bill: nat, no: DocNo, head: nat, old': Invoice, today: int)
    requires ValidWith(b, {bill}) && MayCarry(b, student, bill, no, old')
    requires CarryOne(b, student, bill, no, head, old', today).Some?
    ensures
      var r := CarryOne(b, student, bill, no, head, old', today).value;
      && BillIds(r.invoices) == BillIds(b.invoices)
      && Bill(r.invoices, old'.id) == old'.(paid := old'.Net(), status := Paid)
      && (forall id :: id in BillIds(b.invoices) && id != old'.id ==> Bill(r.invoices, id) == Bill(b.invoices, id))
      && r.lines == b.lines + [ArrearsLine(bill, head, old')]
      && r.carries == b.carries + [Carry(old'.id, bill, b.next, old'.Balance())]
      && r.next == b.next + 1 && r.serial == b.serial
  {
    SettleOld(b, student, bill, no, head, old', today);
    var b2 := InsertPayment(InsertLine(b, ArrearsLine(bill, head, old')), Adjusting(student, no, old', today)).value;
    AllocateBill(b2, Allocation(b.next, old'.id, old'.Balance()), today);
    SettledIsPaid(b, old', today);
  }

  lemma SettledIsPaid(b: Books, old': Invoice, today: int)
    requires Tallied(b) && Joined(b) && old' in b.invoices && old'.Live() && old'.Balance() > 0
    ensures StatusAfter(old', old'.paid + old'.Balance(), today) == Paid
  {
    forall a | a in b.allocations ensures PaidTo(old'.id)(a) >= 0 {
      assert Joins(b, a);
    }
    SumNonNegative(b.allocations, PaidTo(old'.id));
  }

  // --- all of them ----------------------------------------------------------

  ghost predicate Distinct(olds: seq<Invoice>) { forall j, k :: 0 <= j < k < |olds| ==> olds[j].id != olds[k].id }

  ghost predicate MayCarryAll(b: Books, student: nat, bill: nat, no: DocNo, olds: seq<Invoice>)
  {
    Distinct(olds) && forall o :: o in olds ==> MayCarry(b, student, bill, no, o)
  }

  function ArrearsLines(bill: nat, head: nat, olds: seq<Invoice>): seq<Line>
  {
    seq(|olds|, k requires 0 <= k < |olds| => ArrearsLine(bill, head, olds[k]))
  }

  /** Where a carry of `olds` has got to: those bills are settled, nothing else has moved. */
  ghost predicate CarriedOver(b: Books, r: Books, bill: nat, head: nat, olds: seq<Invoice>)
  {
    && BillIds(r.invoices) == BillIds(b.invoices)
    && (forall o :: o in olds ==>
        o.id in BillIds(r.invoices) && Bill(r.invoices, o.id) == o.(paid := o.Net(), status := Paid))
    && (forall id :: id in BillIds(b.invoices) && id !in BillIds(olds) ==> Bill(r.invoices, id) == Bill(b.invoices, id))
    && r.lines == b.lines + ArrearsLines(bill, head, olds)
    && b.carries <= r.carries && CarriedFrom(r.carries) == CarriedFrom(b.carries) + BillIds(olds)
    && r.serial == b.serial && r.next == b.next + |olds|
  }

  lemma NextMayCarry(b: Books, b1: Books, student: nat, bill: nat, no: DocNo, head: nat, olds: seq<Invoice>)
    requires olds != [] && MayCarryAll(b, student, bill, no, olds)
    requires CarriedOver(b, b1, bill, head, olds[..|olds| - 1])
    ensures MayCarry(b1, student, bill, no, olds[|olds| - 1])
  {
    var m := |olds| - 1;
    assert MayCarry(b, student, bill, no, olds[m]);
    forall o | o in olds[..m] ensures o.id != olds[m].id && o.id != bill {
      assert o in olds && MayCarry(b, student, bill, no, o);
    }
  }

  lemma CarriedFurther(b: Books, b1: Books, r: Books, bill: nat, head: nat, olds: seq<Invoice>)
    requires olds != [] && Distinct(olds) && CarriedOver(b, b1, bill, head, olds[..|olds| - 1])
    requires
      var last := olds[|olds| - 1];
      && BillIds(r.invoices) == BillIds(b1.invoices) && last.id in BillIds(b1.invoices)
      && Bill(r.invoices, last.id) == last.(paid := last.Net(), status := Paid)
      && (forall id :: id in BillIds(b1.invoices) && id != last.id ==> Bill(r.invoices, id) == Bill(b1.invoices, id))
      && r.lines == b1.lines + [ArrearsLine(bill, head, last)]
      && |r.carries| == |b1.carries| + 1 && b1.carries <= r.carries && r.carries[|b1.carries|].from == last.id
      && r.serial == b1.serial && r.next == b1.next + 1
    ensures CarriedOver(b, r, bill, head, olds)
  {
    var m := |olds| - 1;
    assert ArrearsLines(bill, head, olds) == ArrearsLines(bill, head, olds[..m]) + [ArrearsLine(bill, head, olds[m])];
    OneMoreId(olds);
    CarriedFromMore(b1.carries, r.carries);
    forall o | o in olds[..m] ensures o.id != olds[m].id {
      var k :| 0 <= k < m && olds[k] == o;
    }
  }

  lemma OneMoreId(olds: seq<Invoice>)
    requires olds != []
    ensures BillIds(olds) == BillIds(olds[..|olds| - 1]) + {olds[|olds| - 1].id}
    ensures forall o :: o in olds <==> o in olds[..|olds| - 1] || o == olds[|olds| - 1]
  {
    assert olds == olds[..|olds| - 1] + [olds[|olds| - 1]];
  }

  lemma CarriedFromMore(carries: seq<Carry>, more: seq<Carry>)
    requires |more| == |carries| + 1 && carries <= more
    ensures CarriedFrom(more) == CarriedFrom(carries) + {more[|carries|].from}
  {
    assert more == carries + [more[|carries|]];
  }

  lemma CarryNext(b: Books, b1: Books, student: nat, bill: nat, no: DocNo, head: nat, olds: seq<Invoice>, today: int)
    requires olds != [] && MayCarryAll(b, student, bill, no, olds)
    requires ValidWith(b1, {bill}) && CarriedOver(b, b1, bill, head, olds[..|olds| - 1])
    ensures
      var r := CarryOne(b1, student, bill, no, head, olds[|olds| - 1], today);
      r.Some? && ValidWith(r.value, {bill}) && CarriedOver(b, r.value, bill, head, olds)
  {
    var last := olds[|olds| - 1];
    NextMayCarry(b, b1, student, bill, no, head, olds);
    CarryOneKeeps(b1, student, bill, no, head, last, today);
    CarryOneEffect(b1, student, bill, no, head, last, today);
    CarriedFurther(b, b1, CarryOne(b1, student, bill, no, head, last, today).value, bill, head, olds);
  }

  lemma CarriedNothing(b: Books, bill: nat, head: nat)
    ensures CarriedOver(b, b, bill, head, [])
  {
    assert ArrearsLines(bill, head, []) == [];
  }

  lemma AllButLast(b: Books, student: nat, bill: nat, no: DocNo, olds: seq<Invoice>)
    requires olds != [] && MayCarryAll(b, student, bill, no, olds)
    ensures MayCarryAll(b, student, bill, no, olds[..|olds| - 1])
  {
    assert forall o :: o in olds[..|olds| - 1] ==> o in olds;
  }

  lemma {:induction false} CarryAllKeeps(b: Books, student: nat, bill: nat, no: DocNo, head: nat, olds: seq<Invoice>,
                                         today: int)
    requires ValidWith(b, {bill}) && MayCarryAll(b, student, bill, no, olds)
    ensures
      var r := CarryAll(b, student, bill, no, head, olds, today);
      r.Some? && ValidWith(r.value, {bill}) && CarriedOver(b, r.value, bill, head, olds)
  {
    if olds == [] {
      CarriedNothing(b, bill, head);
    } else {
      var before := olds[..|olds| - 1];
      AllButLast(b, student, bill, no, olds);
      CarryAllKeeps(b, student, bill, no, head, before, today);
      CarryNext(b, CarryAll(b, student, bill, no, head, before, today).value, student, bill, no, head, olds, today);
    }
  }


  // --- what carrying the arrears does ---------------------------------------

  function CarryArrears(b: Books, student: nat, year: Year, bill: nat, no: DocNo, head: nat, today: int): Option<Books>
  {
    CarryAll(b, student, bill, no, head, ArrearsFor(b, student, year), today)
  }

  /** The bill being raised: this student's, this year's, still open. */
  ghost predicate Raising(b: Books, student: nat, year: Year, bill: nat, no: DocNo)
  {
    && bill in BillIds(b.invoices)
    && var i := Bill(b.invoices, bill); i.student == student && i.year == year && i.no == no
  }

  lemma ArrearsRows(b: Books, student: nat, year: Year)
    ensures forall i :: i in ArrearsFor(b, student, year) <==> i in b.invoices && InArrears(b.carries, student, year, i)
  {
    WhereIn(b.invoices, ArrearsOf(b.carries, student, year));
    SortByRows(Where(b.invoices, ArrearsOf(b.carries, student, year)), DueDate(), DueDate());
  }

  lemma ArrearsDistinct(b: Books, student: nat, year: Year)
    requires DistinctBills(b.invoices)
    ensures Distinct(ArrearsFor(b, student, year))
  {
    var rows := Where(b.invoices, ArrearsOf(b.carries, student, year));
    var apart := (x: Invoice, y: Invoice) => x.id != y.id;
    WherePairs(b.invoices, ArrearsOf(b.carries, student, year), apart);
    SortByPairs(rows, DueDate(), apart);
    assert Pairwise(SortBy(rows, DueDate()), apart);
  }

  lemma ArrearsMayCarry(b: Books, student: nat, year: Year, bill: nat, no: DocNo)
    requires ValidWith(b, {bill}) && Raising(b, student, year, bill, no)
    ensures MayCarryAll(b, student, bill, no, ArrearsFor(b, student, year))
  {
    ArrearsRows(b, student, year);
    ArrearsDistinct(b, student, year);
    forall o | o in ArrearsFor(b, student, year) ensures MayCarry(b, student, bill, no, o) {
      BillIs(b.invoices, o);
    }
  }

  /** Nothing is left in arrears, so a second call moves nothing. */
  lemma NoneLeft(b: Books, r: Books, student: nat, year: Year, bill: nat, head: nat)
    requires Keyed(b) && Keyed(r) && CarriedOver(b, r, bill, head, ArrearsFor(b, student, year))
    ensures ArrearsFor(r, student, year) == []
  {
    var olds := ArrearsFor(b, student, year);
    ArrearsRows(b, student, year);
    forall i | i in r.invoices ensures !InArrears(r.carries, student, year, i) {
      BillIs(r.invoices, i);
      if i.id !in BillIds(olds) {
        assert i == Bill(b.invoices, i.id) && i !in olds;
      }
    }
    WhereNone(r.invoices, ArrearsOf(r.carries, student, year));
  }

  lemma {:induction false} LinesGain(lines: seq<Line>, bill: nat, head: nat, olds: seq<Invoice>)
    ensures Sum(lines + ArrearsLines(bill, head, olds), AmountOn(bill)) == Sum(lines, AmountOn(bill)) + Moved(olds)
    ensures Sum(lines + ArrearsLines(bill, head, olds), DiscountOn(bill)) == Sum(lines, DiscountOn(bill))
  {
    if olds == [] {
      assert lines + ArrearsLines(bill, head, olds) == lines;
    } else {
      var m := |olds| - 1;
      LinesGain(lines, bill, head, olds[..m]);
      assert lines + ArrearsLines(bill, head, olds)
        == (lines + ArrearsLines(bill, head, olds[..m])) + [ArrearsLine(bill, head, olds[m])];
      SumSnoc(lines + ArrearsLines(bill, head, olds[..m]), ArrearsLine(bill, head, olds[m]), AmountOn(bill));
      SumSnoc(lines + ArrearsLines(bill, head, olds[..m]), ArrearsLine(bill, head, olds[m]), DiscountOn(bill));
    }
  }

  /** Any number of old bills: each ends with nothing owing, the new bill's lines gain exactly what was moved,
      and nothing is left to move. */
  lemma CarryConserves(b: Books, student: nat, year: Year, bill: nat, no: DocNo, head: nat, today: int)
    requires ValidWith(b, {bill}) && Raising(b, student, year, bill, no)
    ensures CarryArrears(b, student, year, bill, no, head, today).Some?
    ensures
      var r := CarryArrears(b, student, year, bill, no, head, today).value;
      var olds := ArrearsFor(b, student, year);
      && ValidWith(r, {bill}) && CarriedOver(b, r, bill, head, olds)
      && (forall o :: o in olds ==> Bill(r.invoices, o.id).Balance() == 0)
      && Sum(r.lines, AmountOn(bill)) == Sum(b.lines, AmountOn(bill)) + Moved(olds)
      && ArrearsFor(r, student, year) == []
  {
    var olds := ArrearsFor(b, student, year);
    ArrearsMayCarry(b, student, year, bill, no);
    CarryAllKeeps(b, student, bill, no, head, olds, today);
    var r := CarryArrears(b, student, year, bill, no, head, today).value;
    NoneLeft(b, r, student, year, bill, head);
    LinesGain(b.lines, bill, head, olds);
  }

  lemma CarryAgain(b: Books, student: nat, year: Year, bill: nat, no: DocNo, head: nat, today: int, r: Books)
    requires ValidWith(b, {bill}) && Raising(b, student, year, bill, no)
    requires CarryArrears(b, student, year, bill, no, head, today) == Some(r)
    ensures CarryArrears(r, student, year, bill, no, head, today) == Some(r)
  {
    CarryConserves(b, student, year, bill, no, head, today);
  }

  // --- the arrears, read off the rows ---------------------------------------

  /** A bill the child still owes from before the year, neither drafted, paid off nor cancelled, and never carried. */
  ghost predicate OwedBefore(b: Books, student: nat, year: Year, i: Invoice)
  {
    && i.student == student && i.year.starts < year.starts && i.Net() > i.paid
    && i.status != Draft && i.status != Paid && i.status != Cancelled
    && forall c :: c in b.carries ==> c.from != i.id
  }

  ghost function OwedBeforeOf(b: Books, student: nat, year: Year): Invoice -> int
  {
    (i: Invoice) => if OwedBefore(b, student, year, i) then i.Balance() else 0
  }

  lemma ArrearsAreOwed(b: Books, student: nat, year: Year)
    ensures forall i :: i in ArrearsFor(b, student, year) <==> i in b.invoices && OwedBefore(b, student, year, i)
    ensures Moved(ArrearsFor(b, student, year)) == Sum(b.invoices, OwedBeforeOf(b, student, year))
  {
    ArrearsRows(b, student, year);
    forall i ensures InArrears(b.carries, student, year, i) <==> OwedBefore(b, student, year, i) {
    }
    SortByRows(Where(b.invoices, ArrearsOf(b.carries, student, year)), DueDate(), Owing());
    SumWhere(b.invoices, ArrearsOf(b.carries, student, year), Owing(), OwedBeforeOf(b, student, year));
  }

  /** The carries of a list of old bills, each onto the bill and settled by the next receipt. */
  function CarriesOf(olds: seq<Invoice>, bill: nat, next: nat): seq<Carry>
  {
    seq(|olds|, k requires 0 <= k < |olds| => Carry(olds[k].id, bill, next + k, olds[k].Balance()))
  }

  function DueOn(i: Invoice): int { match i.due case Some(day) => day case None => i.issued }

  /** The bills are taken in the order they fell due, or were issued where no day is set. */
  lemma EarliestDueFirst(b: Books, student: nat, year: Year, j: nat, k: nat)
    requires j < k < |ArrearsFor(b, student, year)|
    ensures DueOn(ArrearsFor(b, student, year)[j]) <= DueOn(ArrearsFor(b, student, year)[k])
  {
    SortBySorted(Where(b.invoices, ArrearsOf(b.carries, student, year)), DueDate());
    assert NotAfter(DueDate())(ArrearsFor(b, student, year)[j], ArrearsFor(b, student, year)[k]);
  }

  lemma CarriesFurther(olds: seq<Invoice>, bill: nat, next: nat)
    requires olds != []
    ensures
      var m := |olds| - 1;
      CarriesOf(olds, bill, next)
      == CarriesOf(olds[..m], bill, next) + [Carry(olds[m].id, bill, next + m, olds[m].Balance())]
  {
  }

  lemma CarryOneWrites(b: Books, student: nat, bill: nat, no: DocNo, head: nat, old': Invoice, today: int, r: Books)
    requires CarryOne(b, student, bill, no, head, old', today) == Some(r)
    ensures r.carries == b.carries + [Carry(old'.id, bill, b.next, old'.Balance())] && r.next == b.next + 1
  {
  }

  lemma {:induction false} CarryAllWrites(b: Books, student: nat, bill: nat, no: DocNo, head: nat, olds: seq<Invoice>,
                                          today: int, r: Books)
    requires CarryAll(b, student, bill, no, head, olds, today) == Some(r)
    ensures r.carries == b.carries + CarriesOf(olds, bill, b.next) && r.next == b.next + |olds|
  {
    if olds != [] {
      var m := |olds| - 1;
      var b1 := CarryAll(b, student, bill, no, head, olds[..m], today).value;
      CarryAllWrites(b, student, bill, no, head, olds[..m], today, b1);
      CarryOneWrites(b1, student, bill, no, head, olds[m], today, r);
      CarriesFurther(olds, bill, b.next);
    }
  }

  /** The receipts a carry of old bills writes, one after another: each an adjustment of the day for the balance. */
  ghost predicate AdjustmentsOf(b: Books, r: Books, student: nat, no: DocNo, olds: seq<Invoice>, today: int)
  {
    && |r.payments| == |b.payments| + |olds|
    && forall k :: 0 <= k < |olds| ==>
         AdjustmentFor(r.payments[|b.payments| + k], student, no, olds[k], b.next + k, today)
  }

  predicate AdjustmentFor(p: Payment, student: nat, no: DocNo, old': Invoice, id: nat, today: int)
  {
    && p.id == id && p.student == student && p.mode == Adjustment && p.amount == old'.Balance() && p.paidOn == today
    && p.remark == CarriedForwardTo(no)
  }

  lemma CarryOneAdjusts(b: Books, student: nat, bill: nat, no: DocNo, head: nat, old': Invoice, today: int, r: Books)
    requires CarryOne(b, student, bill, no, head, old', today) == Some(r)
    ensures |r.payments| == |b.payments| + 1
    ensures forall k :: 0 <= k < |b.payments| ==> r.payments[k] == b.payments[k].(drawn := r.payments[k].drawn)
    ensures AdjustmentFor(r.payments[|b.payments|], student, no, old', b.next, today)
  {
  }

  lemma {:induction false} CarryAllAdjusts(b: Books, student: nat, bill: nat, no: DocNo, head: nat, olds: seq<Invoice>,
                                           today: int, r: Books)
    requires CarryAll(b, student, bill, no, head, olds, today) == Some(r)
    ensures AdjustmentsOf(b, r, student, no, olds, today)
  {
    if olds != [] {
      var m := |olds| - 1;
      var b1 := CarryAll(b, student, bill, no, head, olds[..m], today).value;
      CarryAllAdjusts(b, student, bill, no, head, olds[..m], today, b1);
      CarryAllWrites(b, student, bill, no, head, olds[..m], today, b1);
      CarryOneAdjusts(b1, student, bill, no, head, olds[m], today, r);
      AdjustsFurther(b, b1, r, student, no, olds, today);
    }
  }

  lemma AdjustsFurther(b: Books, b1: Books, r: Books, student: nat, no: DocNo, olds: seq<Invoice>, today: int)
    requires olds != [] && AdjustmentsOf(b, b1, student, no, olds[..|olds| - 1], today)
    requires b1.next == b.next + |olds| - 1
    requires |r.payments| == |b1.payments| + 1
    requires forall k :: 0 <= k < |b1.payments| ==> r.payments[k] == b1.payments[k].(drawn := r.payments[k].drawn)
    requires AdjustmentFor(r.payments[|b1.payments|], student, no, olds[|olds| - 1], b1.next, today)
    ensures AdjustmentsOf(b, r, student, no, olds, today)
  {
    forall k | 0 <= k < |olds|
      ensures AdjustmentFor(r.payments[|b.payments| + k], student, no, olds[k], b.next + k, today)
    {
      if k < |olds| - 1 {
        var j := |b.payments| + k;
        assert AdjustmentFor(b1.payments[j], student, no, olds[..|olds| - 1][k], b.next + k, today);
      }
    }
  }

  /** The record of a whole balance moved onto the bill, and the adjustment of the day that settles it. */
  ghost predicate CarriedTo(r: Books, old': Invoice, bill: nat, no: DocNo, today: int)
  {
    exists c, p :: c in r.carries && c.from == old'.id && c.to == bill && c.amount == old'.Balance()
      && p in r.payments && AdjustmentFor(p, old'.student, no, old', c.payment, today)
  }

  lemma RecordedAt(b: Books, r: Books, student: nat, bill: nat, no: DocNo, olds: seq<Invoice>, k: nat, today: int)
    requires k < |olds| && olds[k].student == student && r.carries == b.carries + CarriesOf(olds, bill, b.next)
    requires AdjustmentsOf(b, r, student, no, olds, today)
    ensures CarriedTo(r, olds[k], bill, no, today)
  {
    var c := CarriesOf(olds, bill, b.next)[k];
    var j := |b.payments| + k;
    assert c in r.carries && r.payments[j] in r.payments;
    assert AdjustmentFor(r.payments[j], student, no, olds[k], c.payment, today);
  }

  /** Carrying settles exactly the bills the child still owes from before the year, each recorded as carried onto the
      new bill for the whole of its old balance; every other bill is as it was, and what moves is the sum of those
      balances. */
  lemma CarryArrearsMeans(b: Books, student: nat, year: Year, bill: nat, no: DocNo, head: nat, today: int, r: Books)
    requires ValidWith(b, {bill}) && Raising(b, student, year, bill, no)
    requires CarryArrears(b, student, year, bill, no, head, today) == Some(r)
    ensures forall i :: i in b.invoices ==> i.id in BillIds(r.invoices)
    ensures forall i :: i in b.invoices && OwedBefore(b, student, year, i) ==>
      Bill(r.invoices, i.id).Balance() == 0 && CarriedTo(r, i, bill, no, today)
    ensures forall i :: i in b.invoices && !OwedBefore(b, student, year, i) ==> Bill(r.invoices, i.id) == i
    ensures Sum(r.lines, AmountOn(bill))
      == Sum(b.lines, AmountOn(bill)) + Sum(b.invoices, OwedBeforeOf(b, student, year))
  {
    var olds := ArrearsFor(b, student, year);
    CarryConserves(b, student, year, bill, no, head, today);
    ArrearsAreOwed(b, student, year);
    CarryAllWrites(b, student, bill, no, head, olds, today, r);
    CarryAllAdjusts(b, student, bill, no, head, olds, today, r);
    forall i | i in b.invoices && OwedBefore(b, student, year, i) ensures CarriedTo(r, i, bill, no, today) {
      var k :| 0 <= k < |olds| && olds[k] == i;
      RecordedAt(b, r, student, bill, no, olds, k, today);
    }
    forall i | i in b.invoices && !OwedBefore(b, student, year, i) ensures Bill(r.invoices, i.id) == i {
      BillIs(b.invoices, i);
      NotAmong(b, olds, i);
    }
  }

  lemma NotAmong(b: Books, olds: seq<Invoice>, i: Invoice)
    requires DistinctBills(b.invoices) && i in b.invoices && i !in olds && forall o :: o in olds ==> o in b.invoices
    ensures i.id !in BillIds(olds)
  {
    if o :| o in olds && o.id == i.id {
      BillIs(b.invoices, o);
      BillIs(b.invoices, i);
    }
  }

  // --- a carried bill stays settled -----------------------------------------

  ghost predicate Settled(b: Books)
  {
    forall id :: id in CarriedFrom(b.carries) && id in BillIds(b.invoices) ==> Bill(b.invoices, id).Balance() == 0
  }

  lemma AllocateKeepsSettled(b: Books, a: Allocation, today: int, open: set<nat>)
    requires ValidWith(b, open) && MayAllocate(b, a, open) && Settled(b)
    ensures Settled(Allocate(b, a, today))
  {
    AllocateBill(b, a, today);
  }
}
