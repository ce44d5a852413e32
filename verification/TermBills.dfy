/**
What a term's billing run puts on a bill, read off the rows of the structures,
the concessions and the opt-ins: one line for each item the child is to pay for,
in the order of the structure, and then one for each balance carried.
*/
module TermBills {
  import opened Tables
  import opened Books
  import opened Upkeep
  import opened Waterfall
  import opened Arrears
  import opened TermRun
  import opened BillingChild
  import opened BillingRun

  // --- one line -------------------------------------------------------------

  /** The child pays for the head: it is for everybody, or the child has opted for it and not ended that. */
  ghost predicate PaysFor(f: FeeBook, student: nat, year: Year, head: nat)
  {
    head in f.optional ==>
      exists o :: o in f.optIns && o.student == student && o.year == year && o.head == head && !o.ended
  }

  /** An approved concession of the child for the year, on the head or on every head. */
  ghost predicate Eases(f: FeeBook, student: nat, year: Year, head: nat, c: Concession)
  {
    c in f.concessions && c.approved && c.student == student && c.year == year
      && (c.head.Some? ==> c.head.value == head)
  }

  /** `share` is the percentage of the amount, in hundredths of one percent, to the nearest paisa, halves up. */
  predicate Rounds(amount: nat, percent: nat, share: int)
  {
    10000 * share <= amount * percent + 5000 < 10000 * share + 10000
  }

  ghost predicate LargestStated(f: FeeBook, student: nat, year: Year, head: nat, largest: int)
  {
    && (exists c :: Eases(f, student, year, head, c) && c.amount.Some? && c.amount.value == largest)
    && (forall c :: Eases(f, student, year, head, c) && c.amount.Some? ==> c.amount.value <= largest)
  }

  ghost predicate LargestShare(f: FeeBook, student: nat, year: Year, head: nat, amount: nat, largest: int)
  {
    && (exists c :: Eases(f, student, year, head, c) && c.percent.Some? && Rounds(amount, c.percent.value, largest))
    && (forall c, share :: Eases(f, student, year, head, c) && c.percent.Some? && Rounds(amount, c.percent.value, share)
          ==> share <= largest)
  }

  /** The line of an item: its charge, less the largest amount any concession states, or, when none states one, less the
      largest share any grants; never less than nothing. */
  ghost predicate LineOf(f: FeeBook, student: nat, year: Year, x: Item, l: Line)
  {
    && l.head == Some(x.head) && l.amount == x.amount
    && if exists c :: Eases(f, student, year, x.head, c) && c.amount.Some? then
         exists a :: LargestStated(f, student, year, x.head, a) && l.discount == Min(x.amount, a)
       else if exists c :: Eases(f, student, year, x.head, c) && c.percent.Some? then
         exists a :: LargestShare(f, student, year, x.head, x.amount, a) && l.discount == Min(x.amount, a)
       else l.discount == 0
  }

  lemma PercentRounds(amount: nat, percent: nat, share: int)
    ensures PercentOf(amount, percent) == share <==> Rounds(amount, percent, share)
  {
    var product := amount * percent;
    assert 2 * amount * percent == 2 * product;
  }

  lemma EasesIs(f: FeeBook, student: nat, year: Year, head: nat)
    ensures forall c :: c in Where(f.concessions, Applies(student, year, head)) <==> Eases(f, student, year, head, c)
  {
    WhereIn(f.concessions, Applies(student, year, head));
  }

  lemma StatedIs(f: FeeBook, student: nat, year: Year, head: nat, largest: nat)
    requires LargestAmount(Where(f.concessions, Applies(student, year, head))) == Some(largest)
    ensures LargestStated(f, student, year, head, largest)
  {
    EasesIs(f, student, year, head);
    LargestAmountIs(Where(f.concessions, Applies(student, year, head)));
  }

  lemma ShareIs(f: FeeBook, student: nat, year: Year, head: nat, amount: nat, largest: nat)
    requires LargestPercent(Where(f.concessions, Applies(student, year, head)), amount) == Some(largest)
    ensures LargestShare(f, student, year, head, amount, largest)
  {
    var cs := Where(f.concessions, Applies(student, year, head));
    EasesIs(f, student, year, head);
    LargestPercentIs(cs, amount);
    var c :| c in cs && c.percent.Some? && PercentOf(amount, c.percent.value) == largest;
    PercentRounds(amount, c.percent.value, largest);
    forall x, share | Eases(f, student, year, head, x) && x.percent.Some? && Rounds(amount, x.percent.value, share)
      ensures share <= largest
    {
      PercentRounds(amount, x.percent.value, share);
    }
  }

  lemma ItemLineOf(f: FeeBook, student: nat, year: Year, bill: nat, x: Item)
    ensures LineOf(f, student, year, x, ItemLine(f, student, year, bill, x))
  {
    var cs := Where(f.concessions, Applies(student, year, x.head));
    EasesIs(f, student, year, x.head);
    LargestAmountIs(cs);
    LargestPercentIs(cs, x.amount);
    if LargestAmount(cs).Some? {
      StatedIs(f, student, year, x.head, LargestAmount(cs).value);
    } else if LargestPercent(cs, x.amount).Some? {
      ShareIs(f, student, year, x.head, x.amount, LargestPercent(cs, x.amount).value);
    }
  }

  // --- the lines of a bill --------------------------------------------------

  /** The item is of the instalment and the child pays for its head. */
  ghost predicate IsDue(f: FeeBook, student: nat, year: Year, instalment: nat, x: Item)
  {
    x.instalment == instalment && PaysFor(f, student, year, x.head)
  }

  /** The lines are those of the items that are due, each once, in the order of the items; `at` says which is which. */
  ghost predicate InOrder(f: FeeBook, student: nat, year: Year, instalment: nat, items: seq<Item>, ls: seq<Line>,
                          at: seq<nat>)
  {
    && |at| == |ls|
    && (forall j, k :: 0 <= j < k < |at| ==> at[j] < at[k])
    && (forall j :: 0 <= j < |at| ==>
          at[j] < |items| && IsDue(f, student, year, instalment, items[at[j]])
            && LineOf(f, student, year, items[at[j]], ls[j]))
    && (forall n :: 0 <= n < |items| && IsDue(f, student, year, instalment, items[n]) ==> n in at)
  }

  lemma ChosenIs(f: FeeBook, student: nat, year: Year, head: nat)
    ensures Chosen(f, student, year, head) <==> PaysFor(f, student, year, head)
  {
    if o :| o in f.optIns && o.student == student && o.year == year && o.head == head && !o.ended {
      assert o == OptIn(student, year, head, false);
    }
  }

  lemma SkipItem(f: FeeBook, student: nat, year: Year, instalment: nat, items: seq<Item>, x: Item, ls: seq<Line>,
                 at: seq<nat>)
    requires InOrder(f, student, year, instalment, items, ls, at) && !IsDue(f, student, year, instalment, x)
    ensures InOrder(f, student, year, instalment, items + [x], ls, at)
  {
  }

  lemma TakeItem(f: FeeBook, student: nat, year: Year, instalment: nat, items: seq<Item>, x: Item, ls: seq<Line>,
                 at: seq<nat>, l: Line)
    requires InOrder(f, student, year, instalment, items, ls, at) && IsDue(f, student, year, instalment, x)
    requires LineOf(f, student, year, x, l)
    ensures InOrder(f, student, year, instalment, items + [x], ls + [l], at + [|items|])
  {
    var at' := at + [|items|];
    assert at'[|at|] == |items|;
    forall n | 0 <= n < |items + [x]| && IsDue(f, student, year, instalment, (items + [x])[n]) ensures n in at' {
      if n < |items| {
        assert n in at;
      }
    }
  }

  lemma PricedFurther(s: Structure, instalment: nat)
    requires s.items != []
    ensures
      var m := |s.items| - 1;
      Priced(s, instalment)
      == Priced(s.(items := s.items[..m]), instalment) + if s.items[m].instalment == instalment then [s.items[m]]
                                                         else []
  {
  }

  lemma OwnFurther(f: FeeBook, student: nat, year: Year, bill: nat, items: seq<Item>, x: Item)
    ensures OwnLines(f, student, year, bill, items + [x])
         == OwnLines(f, student, year, bill, items)
            + if Chosen(f, student, year, x.head) then [ItemLine(f, student, year, bill, x)] else []
  {
    assert (items + [x])[..|items|] == items;
  }

  lemma {:induction false} OwnLinesInOrder(f: FeeBook, student: nat, year: Year, bill: nat, s: Structure,
                                           instalment: nat) returns (at: seq<nat>)
    ensures InOrder(f, student, year, instalment, s.items, OwnLines(f, student, year, bill, Priced(s, instalment)), at)
    decreases |s.items|
  {
    if s.items == [] {
      at := [];
    } else {
      var m := |s.items| - 1;
      var x, before := s.items[m], s.(items := s.items[..m]);
      at := OwnLinesInOrder(f, student, year, bill, before, instalment);
      PricedFurther(s, instalment);
      ChosenIs(f, student, year, x.head);
      assert s.items == before.items + [x];
      if x.instalment == instalment {
        OwnFurther(f, student, year, bill, Priced(before, instalment), x);
      }
      var ls := OwnLines(f, student, year, bill, Priced(before, instalment));
      if IsDue(f, student, year, instalment, x) {
        ItemLineOf(f, student, year, bill, x);
        TakeItem(f, student, year, instalment, before.items, x, ls, at, ItemLine(f, student, year, bill, x));
        at := at + [m];
      } else {
        SkipItem(f, student, year, instalment, before.items, x, ls, at);
      }
    }
  }

  // --- a bill ---------------------------------------------------------------

  function OnBill(bill: nat): Line -> bool { (l: Line) => l.invoice == bill }
  function OntoBill(bill: nat): Carry -> bool { (c: Carry) => c.to == bill }

  /** A line for each balance carried onto the bill. */
  function BroughtLines(bill: nat, head: nat, carries: seq<Carry>): seq<Line>
  {
    seq(|carries|, k requires 0 <= k < |carries| => Line(bill, Some(head), carries[k].amount, 0))
  }

  /** The bill has the lines of what is due, in order, then a line for each balance carried onto it. */
  ghost predicate LinesRight(f: FeeBook, r: Books, s: Structure, student: nat, year: Year, instalment: nat, bill: nat)
  {
    exists own, at ::
      InOrder(f, student, year, instalment, s.items, own, at) &&
      Where(r.lines, OnBill(bill)) == own + BroughtLines(bill, f.arrearsHead, Where(r.carries, OntoBill(bill)))
  }

  /** The structure is for the child's class, or for every class. */
  predicate IsFor(s: Structure, e: Enrolment) { s.class'.Some? ==> s.class'.value == e.class' }

  ghost predicate HasLiveBill(b: Books, student: nat, year: Year, instalment: nat)
  {
    exists i :: i in b.invoices && i.student == student && i.year == year && i.instalment == Some(instalment)
      && i.status != Cancelled
  }

  /** A bill the run raised: for a child enrolled in the year that had none, from a structure for its class. */
  ghost predicate BillRight(f: FeeBook, b: Books, r: Books, year: Year, instalment: nat, today: int, i: Invoice)
  {
    && i.year == year && i.instalment == Some(instalment) && i.no.series == f.series
    && i.issued == today && i.due == Some(today + 14)
    && !HasLiveBill(b, i.student, year, instalment)
    && exists s, e ::
         s in f.structures && e in f.enrolments && e.student == i.student && e.year == year && e.active && IsFor(s, e)
         && LinesRight(f, r, s, i.student, year, instalment, i.id)
  }

  ghost predicate AllRight(f: FeeBook, b: Books, r: Books, year: Year, instalment: nat, today: int)
  {
    forall i :: i in r.invoices && i.id !in BillIds(b.invoices) ==> BillRight(f, b, r, year, instalment, today, i)
  }

  // --- billing one child ----------------------------------------------------

  lemma OtherLines(olds: seq<Line>, news: seq<Line>, bill: nat, other: nat)
    requires (forall l :: l in news ==> l.invoice == bill) && other != bill
    ensures Where(olds + news, OnBill(other)) == Where(olds, OnBill(other))
  {
    WhereConcat(olds, news, OnBill(other));
    WhereNone(news, OnBill(other));
  }

  lemma OwnLinesOnly(olds: seq<Line>, news: seq<Line>, bill: nat)
    requires (forall l :: l in news ==> l.invoice == bill) && forall l :: l in olds ==> l.invoice != bill
    ensures Where(olds + news, OnBill(bill)) == news
  {
    WhereConcat(olds, news, OnBill(bill));
    WhereNone(olds, OnBill(bill));
    WhereAll(news, OnBill(bill));
  }

  lemma LinesAdded(lines: seq<Line>, own: seq<Line>, bill: nat, head: nat, olds: seq<Invoice>)
    requires forall l :: l in own ==> l.invoice == bill
    ensures lines + own + ArrearsLines(bill, head, olds) == lines + (own + ArrearsLines(bill, head, olds))
    ensures forall l :: l in own + ArrearsLines(bill, head, olds) ==> l.invoice == bill
  {
  }

  function Added(b: Books, r: Books): seq<Carry>
    requires |b.carries| <= |r.carries|
  {
    r.carries[|b.carries|..]
  }

  /** The carries an arrears run adds, all onto the bill, one for each old bill in turn. */
  ghost predicate Adds(b: Books, r: Books, bill: nat, olds: seq<Invoice>)
  {
    && b.carries <= r.carries && |Added(b, r)| == |olds|
    && forall k :: 0 <= k < |olds| ==> Added(b, r)[k].to == bill && Added(b, r)[k].amount == olds[k].Balance()
  }

  lemma OtherCarries(b: Books, r: Books, bill: nat, olds: seq<Invoice>, other: nat)
    requires Adds(b, r, bill, olds) && other != bill
    ensures Where(r.carries, OntoBill(other)) == Where(b.carries, OntoBill(other))
  {
    assert r.carries == b.carries + Added(b, r);
    WhereConcat(b.carries, Added(b, r), OntoBill(other));
    WhereNone(Added(b, r), OntoBill(other));
  }

  lemma OwnCarriesOnly(b: Books, r: Books, bill: nat, head: nat, olds: seq<Invoice>)
    requires Adds(b, r, bill, olds) && forall c :: c in b.carries ==> c.to != bill
    ensures BroughtLines(bill, head, Where(r.carries, OntoBill(bill))) == ArrearsLines(bill, head, olds)
  {
    assert r.carries == b.carries + Added(b, r);
    WhereConcat(b.carries, Added(b, r), OntoBill(bill));
    WhereNone(b.carries, OntoBill(bill));
    WhereAll(Added(b, r), OntoBill(bill));
  }

  lemma WritesAdd(b: Books, r: Books, bill: nat, next: nat, olds: seq<Invoice>)
    requires r.carries == b.carries + CarriesOf(olds, bill, next)
    ensures Adds(b, r, bill, olds)
  {
    assert Added(b, r) == CarriesOf(olds, bill, next);
  }

  lemma StandsAdds(f: FeeBook, b: Books, student: nat, year: Year, instalment: nat, items: seq<Item>, today: int,
                   b2: Books, b3: Books, olds: seq<Invoice>)
    requires WithOwnLines(f, b, student, year, instalment, items, today) == Some(b2)
    requires WithArrears(f, b, student, year, instalment, items, today) == Some(b3)
    requires olds == ArrearsFor(b, student, year)
    ensures Adds(b, b3, b.next, olds)
  {
    NoOldArrearsLost(b, b2, student, year, b2.invoices[|b.invoices|]);
    CarryAllWrites(b2, student, b.next, DocNo(f.series, b.serial + 1), f.arrearsHead, olds, today, b3);
    WritesAdd(b, b3, b.next, b2.next, olds);
  }

  lemma NothingOnNext(b: Books)
    requires Valid(b)
    ensures forall l :: l in b.lines ==> l.invoice != b.next
    ensures forall c :: c in b.carries ==> c.to != b.next
  {
    OldLines(b, b.next);
    forall c | c in b.carries ensures c.to != b.next {
      assert Carries(b, c);
    }
  }

  /** The bill just raised. */
  lemma NewBillLines(f: FeeBook, b: Books, r: Books, s: Structure, student: nat, year: Year, instalment: nat,
                     olds: seq<Invoice>)
    requires Valid(b) && Adds(b, r, b.next, olds)
    requires r.lines == b.lines + OwnLines(f, student, year, b.next, Priced(s, instalment))
                        + ArrearsLines(b.next, f.arrearsHead, olds)
    ensures LinesRight(f, r, s, student, year, instalment, b.next)
  {
    var own := OwnLines(f, student, year, b.next, Priced(s, instalment));
    NothingOnNext(b);
    OwnLinesSound(f, student, year, b.next, Priced(s, instalment));
    LinesAdded(b.lines, own, b.next, f.arrearsHead, olds);
    OwnLinesOnly(b.lines, own + ArrearsLines(b.next, f.arrearsHead, olds), b.next);
    OwnCarriesOnly(b, r, b.next, f.arrearsHead, olds);
    var at := OwnLinesInOrder(f, student, year, b.next, s, instalment);
    assert Where(r.lines, OnBill(b.next))
      == own + BroughtLines(b.next, f.arrearsHead, Where(r.carries, OntoBill(b.next)));
  }

  lemma LinesStay(f: FeeBook, b: Books, r: Books, s: Structure, student: nat, year: Year, instalment: nat, bill: nat)
    requires LinesRight(f, b, s, student, year, instalment, bill)
    requires Where(r.lines, OnBill(bill)) == Where(b.lines, OnBill(bill))
    requires Where(r.carries, OntoBill(bill)) == Where(b.carries, OntoBill(bill))
    ensures LinesRight(f, r, s, student, year, instalment, bill)
  {
    var own, at :| InOrder(f, student, year, instalment, s.items, own, at) &&
      Where(b.lines, OnBill(bill)) == own + BroughtLines(bill, f.arrearsHead, Where(b.carries, OntoBill(bill)));
    assert Where(r.lines, OnBill(bill)) == own + BroughtLines(bill, f.arrearsHead, Where(r.carries, OntoBill(bill)));
  }

  lemma RightStays(f: FeeBook, b0: Books, b: Books, r: Books, year: Year, instalment: nat, today: int, i: Invoice)
    requires BillRight(f, b0, b, year, instalment, today, i)
    requires Where(r.lines, OnBill(i.id)) == Where(b.lines, OnBill(i.id))
    requires Where(r.carries, OntoBill(i.id)) == Where(b.carries, OntoBill(i.id))
    ensures BillRight(f, b0, r, year, instalment, today, i)
  {
    var s, e :| s in f.structures && e in f.enrolments && e.student == i.student && e.year == year && e.active
      && IsFor(s, e) && LinesRight(f, b, s, i.student, year, instalment, i.id);
    LinesStay(f, b, r, s, i.student, year, instalment, i.id);
  }

  /** An earlier bill of the run is as it was after the next child is billed. */
  lemma EarlierRight(f: FeeBook, b0: Books, b: Books, r: Books, own: seq<Line>, bill: nat, row: Invoice, year: Year,
                     instalment: nat, today: int, olds: seq<Invoice>, i: Invoice)
    requires Keyed(b) && Keyed(r) && BilledWith(b, r, bill, row, own, f.arrearsHead, olds) && Adds(b, r, bill, olds)
    requires (forall l :: l in own ==> l.invoice == bill)
    requires forall o :: o in olds ==> o in b.invoices && o.year != year
    requires AllRight(f, b0, b, year, instalment, today) && i in r.invoices && i.id !in BillIds(b0.invoices)
    requires i.id != bill
    ensures BillRight(f, b0, r, year, instalment, today, i)
  {
    BillIs(r.invoices, i);
    var j := Bill(b.invoices, i.id);
    assert BillRight(f, b0, b, year, instalment, today, j);
    if o :| o in olds && o.id == j.id {
      BillIs(b.invoices, o);
    }
    LinesAdded(b.lines, own, bill, f.arrearsHead, olds);
    OtherLines(b.lines, own + ArrearsLines(bill, f.arrearsHead, olds), bill, i.id);
    OtherCarries(b, r, bill, olds, i.id);
    RightStays(f, b0, b, r, year, instalment, today, i);
  }

  lemma BilledIsLive(b: Books, student: nat, year: Year, instalment: nat)
    ensures Billed(b, student, year, instalment) <==> HasLiveBill(b, student, year, instalment)
  {
  }

  /** What one child's turn asks for: a structure for its class, and that it had no bill when the run began. */
  ghost predicate Turn(f: FeeBook, b0: Books, s: Structure, e: Enrolment, year: Year, instalment: nat)
  {
    && s in f.structures && e in f.enrolments && e.year == year && e.active && IsFor(s, e)
    && !HasLiveBill(b0, e.student, year, instalment)
  }

  lemma StandsRight(f: FeeBook, b0: Books, b: Books, s: Structure, e: Enrolment, year: Year, instalment: nat,
                    today: int,
                    r: Books, row: Invoice, own: seq<Line>, olds: seq<Invoice>)
    requires Valid(b) && Valid(r) && Turn(f, b0, s, e, year, instalment) && AllRight(f, b0, b, year, instalment, today)
    requires row == NewBill(f, b, e.student, year, instalment, today)
    requires own == OwnLines(f, e.student, year, b.next, Priced(s, instalment))
    requires BilledWith(b, r, b.next, row, own, f.arrearsHead, olds) && Adds(b, r, b.next, olds)
    requires forall o :: o in olds ==> o in b.invoices && o.year != year
    ensures AllRight(f, b0, r, year, instalment, today)
  {
    OwnLinesSound(f, e.student, year, b.next, Priced(s, instalment));
    NewBillLines(f, b, r, s, e.student, year, instalment, olds);
    forall i | i in r.invoices && i.id !in BillIds(b0.invoices)
      ensures BillRight(f, b0, r, year, instalment, today, i)
    {
      if i.id == b.next {
        BillIs(r.invoices, i);
      } else {
        EarlierRight(f, b0, b, r, own, b.next, row, year, instalment, today, olds, i);
      }
    }
  }

  lemma NumbersStayRight(f: FeeBook, b0: Books, b: Books, r: Books, year: Year, instalment: nat, today: int)
    requires AllRight(f, b0, b, year, instalment, today)
    requires r.invoices == b.invoices && r.lines == b.lines && r.carries == b.carries
    ensures AllRight(f, b0, r, year, instalment, today)
  {
    forall i | i in r.invoices && i.id !in BillIds(b0.invoices)
      ensures BillRight(f, b0, r, year, instalment, today, i)
    {
      RightStays(f, b0, b, r, year, instalment, today, i);
    }
  }

  lemma ChildRight(f: FeeBook, b0: Books, b: Books, s: Structure, e: Enrolment, year: Year, instalment: nat, today: int,
                   r: Books)
    requires Valid(b) && Turn(f, b0, s, e, year, instalment) && AllRight(f, b0, b, year, instalment, today)
    requires BillChild(f, b, e.student, year, instalment, Priced(s, instalment), today) == Some(r)
    ensures AllRight(f, b0, r, year, instalment, today)
  {
    var items := Priced(s, instalment);
    if NothingToBill(f, b, e.student, year, items) {
      EmptyBillWithdrawn(f, b, e.student, year, instalment, items, today);
      NumbersStayRight(f, b0, b, r, year, instalment, today);
    } else {
      BillStands(f, b, e.student, year, instalment, items, today, r);
      StandsAdds(f, b, e.student, year, instalment, items, today,
                 WithOwnLines(f, b, e.student, year, instalment, items, today).value,
                 WithArrears(f, b, e.student, year, instalment, items, today).value, ArrearsFor(b, e.student, year));
      ArrearsRows(b, e.student, year);
      StandsRight(f, b0, b, s, e, year, instalment, today, r, NewBill(f, b, e.student, year, instalment, today),
                  OwnLines(f, e.student, year, b.next, items), ArrearsFor(b, e.student, year));
    }
  }

  // --- the run --------------------------------------------------------------

  lemma {:induction false} ChildrenRight(f: FeeBook, b0: Books, b: Books, s: Structure, children: seq<Enrolment>,
                                         year: Year,
                                         instalment: nat, today: int, r: Books)
    requires Valid(b) && AllRight(f, b0, b, year, instalment, today)
    requires forall e :: e in children ==> Turn(f, b0, s, e, year, instalment)
    requires BillChildren(f, b, children, year, instalment, Priced(s, instalment), today) == Some(r)
    ensures AllRight(f, b0, r, year, instalment, today)
  {
    if children != [] {
      var m := |children| - 1;
      var b1 := BillChildren(f, b, children[..m], year, instalment, Priced(s, instalment), today).value;
      BillChildrenOnward(f, b, children[..m], year, instalment, Priced(s, instalment), today, b1);
      ChildrenRight(f, b0, b, s, children[..m], year, instalment, today, b1);
      ChildRight(f, b0, b1, s, children[m], year, instalment, today, r);
    }
  }

  lemma StructureRight(f: FeeBook, b0: Books, b: Books, s: Structure, year: Year, instalment: nat, today: int, r: Books)
    requires Valid(b) && AllRight(f, b0, b, year, instalment, today) && Onward(f, b0, b, year, instalment)
    requires s in f.structures && RunStructure(f, b, s, year, instalment, today) == Some(r)
    ensures AllRight(f, b0, r, year, instalment, today)
  {
    if Priced(s, instalment) != [] {
      var children := Where(f.enrolments, Selects(b, s, year, instalment));
      WhereIn(f.enrolments, Selects(b, s, year, instalment));
      forall e | e in children ensures Turn(f, b0, s, e, year, instalment) {
        BilledIsLive(b0, e.student, year, instalment);
      }
      ChildrenRight(f, b0, b, s, children, year, instalment, today, r);
    }
  }

  lemma {:induction false} StructuresRight(f: FeeBook, b: Books, structures: seq<Structure>, year: Year,
                                           instalment: nat,
                                           today: int, r: Books)
    requires Valid(b) && (forall s :: s in structures ==> s in f.structures)
    requires RunStructures(f, b, structures, year, instalment, today) == Some(r)
    ensures AllRight(f, b, r, year, instalment, today)
  {
    if structures != [] {
      var m := |structures| - 1;
      var b1 := RunStructures(f, b, structures[..m], year, instalment, today).value;
      RunStructuresOnward(f, b, structures[..m], year, instalment, today, b1);
      StructuresRight(f, b, structures[..m], year, instalment, today, b1);
      StructureRight(f, b, b1, structures[m], year, instalment, today, r);
    }
  }

  /** Every bill a run raises is for a child enrolled in the year that had no live bill for the instalment, and has in
      order one line for each item of a structure for its class that is of the instalment and whose head the child pays
      for, each discounted by the largest concession; then a line for each balance carried onto it; and no other. */
  lemma RunRaises(f: FeeBook, b: Books, year: Year, instalment: nat, today: int, r: Books)
    requires Valid(b) && Run(f, b, year, instalment, today) == Some(r)
    ensures forall i :: i in r.invoices && i.id !in BillIds(b.invoices) ==>
      BillRight(f, b, r, year, instalment, today, i)
  {
    StructuresRight(f, b, f.structures, year, instalment, today, r);
  }

  // --- and nobody is missed -------------------------------------------------

  /** Nothing is due from the child, and it owes nothing from before that was never carried. */
  ghost predicate NothingDue(f: FeeBook, r: Books, s: Structure, student: nat, year: Year, instalment: nat)
  {
    && (forall x :: x in s.items ==> !IsDue(f, student, year, instalment, x))
    && (forall i :: i in r.invoices ==> !OwedBefore(r, student, year, i))
  }

  lemma PricedIs(s: Structure, instalment: nat)
    ensures forall x :: x in Priced(s, instalment) <==> x in s.items && x.instalment == instalment
  {
    WhereIn(s.items, (i: Item) => i.instalment == instalment);
  }

  lemma SettledMeans(f: FeeBook, r: Books, s: Structure, student: nat, year: Year, instalment: nat)
    requires SettledFor(f, r, student, year, instalment, Priced(s, instalment))
    ensures HasLiveBill(r, student, year, instalment) || NothingDue(f, r, s, student, year, instalment)
  {
    BilledIsLive(r, student, year, instalment);
    if !Billed(r, student, year, instalment) {
      PricedIs(s, instalment);
      forall x | x in s.items ensures !IsDue(f, student, year, instalment, x) {
        ChosenIs(f, student, year, x.head);
      }
      NoArrearsIs(r, student, year);
      ArrearsAreOwed(r, student, year);
    }
  }

  /** After a run every child enrolled for a class a structure is for, and that prices the instalment, has a live bill
      for the instalment, or nothing is due from it. */
  lemma RunMissesNobody(f: FeeBook, b: Books, year: Year, instalment: nat, today: int, r: Books, s: Structure,
                        e: Enrolment)
    requires Valid(b) && Run(f, b, year, instalment, today) == Some(r)
    requires s in f.structures && (exists x :: x in s.items && x.instalment == instalment)
    requires e in f.enrolments && e.year == year && e.active && IsFor(s, e)
    ensures HasLiveBill(r, e.student, year, instalment) || NothingDue(f, r, s, e.student, year, instalment)
  {
    RunBillsEveryone(f, b, year, instalment, today, r);
    PricedIs(s, instalment);
    assert Matches(s, year, e) && Priced(s, instalment) != [];
    SettledMeans(f, r, s, e.student, year, instalment);
  }

  // --- when a run is accepted -----------------------------------------------

  /** Every number of the series drawn so far is behind the counter. */
  ghost predicate NumbersBehind(b: Books, series: string)
  {
    forall i :: i in b.invoices && i.no.series == series ==> i.no.serial <= b.serial
  }

  lemma CarriedOnlyOld(b: Books, b3: Books, olds: seq<Invoice>)
    requires Carried(b) && CarriedFrom(b3.carries) == CarriedFrom(b.carries) + BillIds(olds)
    requires forall o :: o in olds ==> o in b.invoices
    ensures forall c :: c in b3.carries ==> c.from in BillIds(b.invoices)
  {
    forall c | c in b3.carries ensures c.from in BillIds(b.invoices) {
      assert c.from in CarriedFrom(b3.carries);
      if d :| d in b.carries && d.from == c.from {
        assert Carries(b, d);
      }
    }
  }

  lemma NoCarryOutOfNew(f: FeeBook, b: Books, student: nat, year: Year, instalment: nat, items: seq<Item>, today: int,
                        b2: Books, b3: Books)
    requires Valid(b) && WithOwnLines(f, b, student, year, instalment, items, today) == Some(b2)
    requires WithArrears(f, b, student, year, instalment, items, today) == Some(b3)
    ensures forall c :: c in b3.carries ==> c.from != b.next
  {
    ArrearsKeep(f, b, student, year, instalment, items, today, b2);
    ArrearsRows(b, student, year);
    CarriedOnlyOld(b, b3, ArrearsFor(b, student, year));
  }

  lemma BillChildAccepted(f: FeeBook, b: Books, student: nat, year: Year, instalment: nat, items: seq<Item>, today: int)
    requires Valid(b) && NumbersBehind(b, f.series)
    ensures BillChild(f, b, student, year, instalment, items, today).Some?
  {
    var b2 := WithOwnLines(f, b, student, year, instalment, items, today).value;
    ArrearsKeep(f, b, student, year, instalment, items, today, b2);
    NoCarryOutOfNew(f, b, student, year, instalment, items, today, b2,
                    WithArrears(f, b, student, year, instalment, items, today).value);
  }

  lemma StandsBehind(f: FeeBook, b: Books, r: Books, row: Invoice, own: seq<Line>, olds: seq<Invoice>)
    requires Keyed(b) && Keyed(r) && NumbersBehind(b, f.series) && r.serial == b.serial + 1
    requires row.no == DocNo(f.series, b.serial + 1) && BilledWith(b, r, b.next, row, own, f.arrearsHead, olds)
    requires forall o :: o in olds ==> o in b.invoices
    ensures NumbersBehind(r, f.series)
  {
    forall i | i in r.invoices && i.no.series == f.series ensures i.no.serial <= r.serial {
      BillIs(r.invoices, i);
      if o :| o in olds && o.id == i.id {
        assert i.no == o.no;
      }
    }
  }

  lemma SerialDrawn(f: FeeBook, b: Books, student: nat, year: Year, instalment: nat, items: seq<Item>, today: int,
                    b2: Books,
                    b3: Books)
    requires Valid(b) && WithOwnLines(f, b, student, year, instalment, items, today) == Some(b2)
    requires WithArrears(f, b, student, year, instalment, items, today) == Some(b3)
    ensures b3.serial == b.serial + 1
  {
    ArrearsKeep(f, b, student, year, instalment, items, today, b2);
  }

  lemma BillChildBehind(f: FeeBook, b: Books, student: nat, year: Year, instalment: nat, items: seq<Item>, today: int,
                        r: Books)
    requires Valid(b) && NumbersBehind(b, f.series)
    requires BillChild(f, b, student, year, instalment, items, today) == Some(r)
    ensures NumbersBehind(r, f.series)
  {
    if NothingToBill(f, b, student, year, items) {
      EmptyBillWithdrawn(f, b, student, year, instalment, items, today);
    } else {
      BillStands(f, b, student, year, instalment, items, today, r);
      ArrearsRows(b, student, year);
      SerialDrawn(f, b, student, year, instalment, items, today,
                  WithOwnLines(f, b, student, year, instalment, items, today).value,
                  WithArrears(f, b, student, year, instalment, items, today).value);
      StandsBehind(f, b, r, NewBill(f, b, student, year, instalment, today),
                   OwnLines(f, student, year, b.next, items), ArrearsFor(b, student, year));
    }
  }

  lemma {:induction false} ChildrenAccepted(f: FeeBook, b: Books, children: seq<Enrolment>, year: Year, instalment: nat,
                                            items: seq<Item>, today: int) returns (r: Books)
    requires Valid(b) && NumbersBehind(b, f.series)
    ensures BillChildren(f, b, children, year, instalment, items, today) == Some(r)
    ensures Valid(r) && NumbersBehind(r, f.series)
  {
    if children == [] {
      r := b;
    } else {
      var m := |children| - 1;
      var b1 := ChildrenAccepted(f, b, children[..m], year, instalment, items, today);
      BillChildAccepted(f, b1, children[m].student, year, instalment, items, today);
      r := BillChild(f, b1, children[m].student, year, instalment, items, today).value;
      BillChildBehind(f, b1, children[m].student, year, instalment, items, today, r);
      BillChildKeeps(f, b1, children[m].student, year, instalment, items, today);
    }
  }

  lemma {:induction false} StructuresAccepted(f: FeeBook, b: Books, structures: seq<Structure>, year: Year,
                                              instalment: nat, today: int) returns (r: Books)
    requires Valid(b) && NumbersBehind(b, f.series)
    ensures RunStructures(f, b, structures, year, instalment, today) == Some(r)
    ensures Valid(r) && NumbersBehind(r, f.series)
  {
    if structures == [] {
      r := b;
    } else {
      var m := |structures| - 1;
      var s := structures[m];
      var b1 := StructuresAccepted(f, b, structures[..m], year, instalment, today);
      if Priced(s, instalment) == [] {
        r := b1;
      } else {
        r := ChildrenAccepted(f, b1, Where(f.enrolments, Selects(b1, s, year, instalment)), year, instalment,
                              Priced(s, instalment), today);
      }
    }
  }

  /** While every number of the school's series is behind its counter, a run is accepted if and only if there are
      thirteen structures, and leaves the numbers behind the counter again. */
  lemma RunAccepted(f: FeeBook, b: Books, year: Year, instalment: nat, today: int)
    requires Valid(b) && NumbersBehind(b, f.series)
    ensures Run(f, b, year, instalment, today).Some? <==> |f.structures| == 13
    ensures |f.structures| == 13 ==> NumbersBehind(Run(f, b, year, instalment, today).value, f.series)
  {
    if |f.structures| == 13 {
      var r := StructuresAccepted(f, b, f.structures, year, instalment, today);
    }
  }
}
