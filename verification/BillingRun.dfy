/**
A billing run as a whole: who has a bill afterwards, that a second run changes
nothing, and what it does to a family's account.
*/
module BillingRun {
  import opened Tables
  import opened Books
  import opened Upkeep
  import opened Arrears
  import opened TermRun
  import opened BillingChild

  // --- what stays true once a child is billed -------------------------------

  ghost predicate AtMostOne(b: Books, student: nat, year: Year, instalment: nat)
  {
    forall i, j ::
      i in b.invoices && j in b.invoices && BillFor(i, student, year, instalment)
        && BillFor(j, student, year, instalment)
      ==> i.id == j.id
  }

  /** Every earlier bill is still there, and is the same bill for deciding who is billed. */
  lemma SameBillFor(b: Books, r: Books, bill: nat, row: Invoice, own: seq<Line>, head: nat, olds: seq<Invoice>,
                    i: Invoice)
    requires Keyed(b) && Keyed(r) && BilledWith(b, r, bill, row, own, head, olds) && i in b.invoices
    requires forall o :: o in olds ==> o in b.invoices && o.Live()
    ensures i.id in BillIds(r.invoices)
    ensures
      var j := Bill(r.invoices, i.id);
      j.student == i.student && j.year == i.year && j.instalment == i.instalment && (j.Live() <==> i.Live())
  {
    BillIs(b.invoices, i);
    if o :| o in olds && o.id == i.id {
      BillIs(b.invoices, o);
    }
  }

  lemma StillBilled(b: Books, r: Books, bill: nat, row: Invoice, own: seq<Line>, head: nat, olds: seq<Invoice>,
                    student: nat, year: Year, instalment: nat)
    requires Keyed(b) && Keyed(r) && BilledWith(b, r, bill, row, own, head, olds)
    requires forall o :: o in olds ==> o in b.invoices && o.Live()
    requires Billed(b, student, year, instalment)
    ensures Billed(r, student, year, instalment)
  {
    var i :| i in b.invoices && BillFor(i, student, year, instalment);
    SameBillFor(b, r, bill, row, own, head, olds, i);
  }

  lemma BilledOnce(b: Books, r: Books, bill: nat, row: Invoice, own: seq<Line>, head: nat, olds: seq<Invoice>,
                   student: nat, year: Year, instalment: nat)
    requires Keyed(b) && Keyed(r) && BilledWith(b, r, bill, row, own, head, olds)
    requires forall o :: o in olds ==> o in b.invoices && o.Live()
    requires AtMostOne(b, student, year, instalment)
    requires row.student == student ==> !Billed(b, student, year, instalment)
    ensures AtMostOne(r, student, year, instalment)
  {
    forall i | i in r.invoices && i.id != bill && BillFor(i, student, year, instalment)
      ensures i.id in BillIds(b.invoices) && BillFor(Bill(b.invoices, i.id), student, year, instalment)
    {
      BillIs(r.invoices, i);
      SameBillFor(b, r, bill, row, own, head, olds, Bill(b.invoices, i.id));
    }
    forall i | i in r.invoices && i.id == bill ensures i.student == row.student {
      BillIs(r.invoices, i);
    }
  }

  ghost predicate NoArrears(b: Books, student: nat, year: Year)
  {
    forall i :: i in b.invoices ==> !InArrears(b.carries, student, year, i)
  }

  lemma NoArrearsIs(b: Books, student: nat, year: Year)
    ensures NoArrears(b, student, year) <==> ArrearsFor(b, student, year) == []
  {
    ArrearsRows(b, student, year);
    if NoArrears(b, student, year) {
      WhereNone(b.invoices, ArrearsOf(b.carries, student, year));
    } else {
      var i :| i in b.invoices && InArrears(b.carries, student, year, i);
      assert i in ArrearsFor(b, student, year);
    }
  }

  /** Billing a child leaves it no arrears, and gives no other child any. */
  lemma ArrearsAfter(b: Books, r: Books, bill: nat, row: Invoice, own: seq<Line>, head: nat, olds: seq<Invoice>,
                     student: nat, year: Year)
    requires Keyed(b) && Keyed(r) && row.year == year && BilledWith(b, r, bill, row, own, head, olds)
    requires forall i :: i in olds <==> i in b.invoices && InArrears(b.carries, row.student, year, i)
    requires student == row.student || NoArrears(b, student, year)
    ensures NoArrears(r, student, year)
  {
    forall i | i in r.invoices ensures !InArrears(r.carries, student, year, i) {
      BillIs(r.invoices, i);
      if i.id != bill && i.id !in BillIds(olds) {
        assert i == Bill(b.invoices, i.id) && i in b.invoices && i !in olds;
      }
    }
  }

  lemma CarriedStaySettled(b: Books, r: Books, bill: nat, row: Invoice, own: seq<Line>, head: nat, olds: seq<Invoice>)
    requires Valid(b) && Settled(b) && BilledWith(b, r, bill, row, own, head, olds)
    ensures Settled(r)
  {
    forall c | c in b.carries ensures c.from in BillIds(b.invoices) {
      assert Carries(b, c);
    }
    forall id | id in CarriedFrom(r.carries) ensures id in BillIds(r.invoices) && Bill(r.invoices, id).Balance() == 0 {
      if id in BillIds(olds) {
        var o :| o in olds && o.id == id;
      }
    }
  }

  // --- one child ------------------------------------------------------------

  /** What a run has settled about a child: billed, or with nothing to bill. */
  ghost predicate SettledFor(f: FeeBook, b: Books, student: nat, year: Year, instalment: nat, items: seq<Item>)
  {
    Billed(b, student, year, instalment)
    || ((forall x :: x in items ==> !Chosen(f, student, year, x.head)) && NoArrears(b, student, year))
  }

  ghost predicate Onward(f: FeeBook, b: Books, r: Books, year: Year, instalment: nat)
  {
    && (forall s :: Billed(b, s, year, instalment) ==> Billed(r, s, year, instalment))
    && (forall s :: NoArrears(b, s, year) ==> NoArrears(r, s, year))
    && (Settled(b) ==> Settled(r))
  }

  lemma BillChildOnward(f: FeeBook, b: Books, student: nat, year: Year, instalment: nat, items: seq<Item>, today: int,
                        r: Books)
    requires Valid(b) && BillChild(f, b, student, year, instalment, items, today) == Some(r)
    ensures Valid(r) && Onward(f, b, r, year, instalment) && SettledFor(f, r, student, year, instalment, items)
  {
    BillChildKeeps(f, b, student, year, instalment, items, today);
    NoArrearsIs(b, student, year);
    if NothingToBill(f, b, student, year, items) {
      EmptyBillWithdrawn(f, b, student, year, instalment, items, today);
    } else {
      BillStands(f, b, student, year, instalment, items, today, r);
      StandsOnward(f, b, student, year, instalment, items, today, r);
    }
  }

  lemma StandsOnward(f: FeeBook, b: Books, student: nat, year: Year, instalment: nat, items: seq<Item>, today: int,
                     r: Books)
    requires Valid(b) && Valid(r)
    requires BilledWith(b, r, b.next, NewBill(f, b, student, year, instalment, today),
                        OwnLines(f, student, year, b.next, items), f.arrearsHead, ArrearsFor(b, student, year))
    ensures Onward(f, b, r, year, instalment) && Billed(r, student, year, instalment)
  {
    var row := NewBill(f, b, student, year, instalment, today);
    ArrearsRows(b, student, year);
    StandsFor(f, b, r, b.next, row, OwnLines(f, student, year, b.next, items), f.arrearsHead,
              ArrearsFor(b, student, year), year, instalment);
  }

  lemma StandsFor(f: FeeBook, b: Books, r: Books, bill: nat, row: Invoice, own: seq<Line>, head: nat,
                  olds: seq<Invoice>,
                  year: Year, instalment: nat)
    requires Valid(b) && Valid(r) && BilledWith(b, r, bill, row, own, head, olds)
    requires BillFor(row, row.student, year, instalment)
    requires forall i :: i in olds <==> i in b.invoices && InArrears(b.carries, row.student, year, i)
    ensures Onward(f, b, r, year, instalment) && Billed(r, row.student, year, instalment)
  {
    forall s | Billed(b, s, year, instalment) ensures Billed(r, s, year, instalment) {
      StillBilled(b, r, bill, row, own, head, olds, s, year, instalment);
    }
    forall s | NoArrears(b, s, year) ensures NoArrears(r, s, year) {
      ArrearsAfter(b, r, bill, row, own, head, olds, s, year);
    }
    if Settled(b) {
      CarriedStaySettled(b, r, bill, row, own, head, olds);
    }
    assert BillFor(Bill(r.invoices, bill), row.student, year, instalment);
  }

  // --- a structure's children -----------------------------------------------

  lemma OnwardTwice(f: FeeBook, a: Books, b: Books, c: Books, year: Year, instalment: nat)
    requires Onward(f, a, b, year, instalment) && Onward(f, b, c, year, instalment)
    ensures Onward(f, a, c, year, instalment)
  {
  }

  lemma {:induction false} BillChildrenOnward(f: FeeBook, b: Books, children: seq<Enrolment>, year: Year,
                                              instalment: nat,
                                              items: seq<Item>, today: int, r: Books)
    requires Valid(b) && BillChildren(f, b, children, year, instalment, items, today) == Some(r)
    ensures Valid(r) && Onward(f, b, r, year, instalment)
    ensures forall e :: e in children ==> SettledFor(f, r, e.student, year, instalment, items)
  {
    if children != [] {
      var m := |children| - 1;
      var b1 := BillChildren(f, b, children[..m], year, instalment, items, today).value;
      BillChildrenOnward(f, b, children[..m], year, instalment, items, today, b1);
      BillChildOnward(f, b1, children[m].student, year, instalment, items, today, r);
      OnwardTwice(f, b, b1, r, year, instalment);
      forall e | e in children ensures SettledFor(f, r, e.student, year, instalment, items) {
        if e != children[m] {
          assert e in children[..m];
          SettledStays(f, b1, r, e.student, year, instalment, items);
        }
      }
    }
  }

  lemma SettledStays(f: FeeBook, b: Books, r: Books, student: nat, year: Year, instalment: nat, items: seq<Item>)
    requires Onward(f, b, r, year, instalment) && SettledFor(f, b, student, year, instalment, items)
    ensures SettledFor(f, r, student, year, instalment, items)
  {
  }

  /** A child this structure is meant for, billed or not. */
  predicate Matches(s: Structure, year: Year, e: Enrolment)
  {
    e.year == year && e.active && (s.class' == None || s.class' == Some(e.class'))
  }

  ghost predicate DoneWith(f: FeeBook, b: Books, s: Structure, year: Year, instalment: nat)
  {
    Priced(s, instalment) != [] ==>
      forall e :: e in f.enrolments && Matches(s, year, e) ==>
        SettledFor(f, b, e.student, year, instalment, Priced(s, instalment))
  }

  lemma RunStructureOnward(f: FeeBook, b: Books, s: Structure, year: Year, instalment: nat, today: int, r: Books)
    requires Valid(b) && RunStructure(f, b, s, year, instalment, today) == Some(r)
    ensures Valid(r) && Onward(f, b, r, year, instalment) && DoneWith(f, r, s, year, instalment)
  {
    var items := Priced(s, instalment);
    if items != [] {
      var children := Where(f.enrolments, Selects(b, s, year, instalment));
      WhereIn(f.enrolments, Selects(b, s, year, instalment));
      BillChildrenOnward(f, b, children, year, instalment, items, today, r);
    }
  }

  lemma {:induction false} RunStructuresOnward(f: FeeBook, b: Books, structures: seq<Structure>, year: Year,
                                               instalment: nat, today: int, r: Books)
    requires Valid(b) && RunStructures(f, b, structures, year, instalment, today) == Some(r)
    ensures Valid(r) && Onward(f, b, r, year, instalment)
    ensures forall s :: s in structures ==> DoneWith(f, r, s, year, instalment)
  {
    if structures != [] {
      var m := |structures| - 1;
      var b1 := RunStructures(f, b, structures[..m], year, instalment, today).value;
      RunStructuresOnward(f, b, structures[..m], year, instalment, today, b1);
      RunStructureOnward(f, b1, structures[m], year, instalment, today, r);
      OnwardTwice(f, b, b1, r, year, instalment);
      forall s | s in structures ensures DoneWith(f, r, s, year, instalment) {
        if s != structures[m] {
          assert s in structures[..m];
          DoneStays(f, b1, r, s, year, instalment);
        }
      }
    }
  }

  lemma DoneStays(f: FeeBook, b: Books, r: Books, s: Structure, year: Year, instalment: nat)
    requires Onward(f, b, r, year, instalment) && DoneWith(f, b, s, year, instalment)
    ensures DoneWith(f, r, s, year, instalment)
  {
    forall e | e in f.enrolments && Matches(s, year, e) && Priced(s, instalment) != []
      ensures SettledFor(f, r, e.student, year, instalment, Priced(s, instalment))
    {
      assert SettledFor(f, b, e.student, year, instalment, Priced(s, instalment));
    }
  }

  /** A run keeps the ledger valid and carried bills settled; afterwards every child a structure prices is billed for
      the instalment, or has nothing to bill. */
  lemma RunBillsEveryone(f: FeeBook, b: Books, year: Year, instalment: nat, today: int, r: Books)
    requires Valid(b) && Run(f, b, year, instalment, today) == Some(r)
    ensures Valid(r) && (Settled(b) ==> Settled(r))
    ensures forall s,
      e :: s in f.structures && e in f.enrolments && Matches(s, year, e) && Priced(s, instalment) != [] ==>
      SettledFor(f, r, e.student, year, instalment, Priced(s, instalment))
  {
    RunStructuresOnward(f, b, f.structures, year, instalment, today, r);
    forall s, e | s in f.structures && e in f.enrolments && Matches(s, year, e) && Priced(s, instalment) != []
      ensures SettledFor(f, r, e.student, year, instalment, Priced(s, instalment))
    {
      assert DoneWith(f, r, s, year, instalment);
    }
  }

  // --- a second run ---------------------------------------------------------

  /** The same tables; only numbers have been drawn. */
  ghost predicate Alike(b: Books, r: Books) { r == b.(next := r.next, serial := r.serial) && b.next <= r.next }

  lemma {:induction false} NobodyToBill(f: FeeBook, b: Books, children: seq<Enrolment>, year: Year, instalment: nat,
                                        items: seq<Item>, today: int, r: Books)
    requires Valid(b) && BillChildren(f, b, children, year, instalment, items, today) == Some(r)
    requires forall e :: e in children ==>
      !Billed(b, e.student, year, instalment) && SettledFor(f, b, e.student, year, instalment, items)
    ensures Alike(b, r)
  {
    if children != [] {
      var m := |children| - 1;
      var b1 := BillChildren(f, b, children[..m], year, instalment, items, today).value;
      NobodyToBill(f, b, children[..m], year, instalment, items, today, b1);
      NumbersAreFree(b, b1.next, b1.serial, {});
      assert SettledFor(f, b, children[m].student, year, instalment, items);
      NoArrearsIs(b1, children[m].student, year);
      EmptyBillWithdrawn(f, b1, children[m].student, year, instalment, items, today);
    }
  }

  lemma StructureAgain(f: FeeBook, b: Books, s: Structure, year: Year, instalment: nat, today: int, r: Books)
    requires Valid(b) && RunStructure(f, b, s, year, instalment, today) == Some(r)
    requires DoneWith(f, b, s, year, instalment)
    ensures Alike(b, r)
  {
    if Priced(s, instalment) != [] {
      WhereIn(f.enrolments, Selects(b, s, year, instalment));
      NobodyToBill(f, b, Where(f.enrolments, Selects(b, s, year, instalment)), year, instalment, Priced(s, instalment),
                   today, r);
    }
  }

  lemma {:induction false} StructuresAgain(f: FeeBook, b: Books, structures: seq<Structure>, year: Year,
                                           instalment: nat, today: int, r: Books)
    requires Valid(b) && RunStructures(f, b, structures, year, instalment, today) == Some(r)
    requires forall s :: s in structures ==> DoneWith(f, b, s, year, instalment)
    ensures Alike(b, r)
  {
    if structures != [] {
      var m := |structures| - 1;
      var b1 := RunStructures(f, b, structures[..m], year, instalment, today).value;
      StructuresAgain(f, b, structures[..m], year, instalment, today, b1);
      NumbersAreFree(b, b1.next, b1.serial, {});
      assert DoneWith(f, b, structures[m], year, instalment);
      DoneStays(f, b, b1, structures[m], year, instalment);
      StructureAgain(f, b1, structures[m], year, instalment, today, r);
    }
  }

  /** A second run changes no invoice, line, receipt, allocation or carry: it only draws numbers, or is refused. */
  lemma RunAgain(f: FeeBook, b: Books, year: Year, instalment: nat, today: int, r: Books, later: int)
    requires Valid(b) && Run(f, b, year, instalment, today) == Some(r)
    ensures Run(f, r, year, instalment, later).None? || Alike(r, Run(f, r, year, instalment, later).value)
  {
    RunStructuresOnward(f, b, f.structures, year, instalment, today, r);
    if r2 :| Run(f, r, year, instalment, later) == Some(r2) {
      StructuresAgain(f, r, f.structures, year, instalment, later, r2);
    }
  }

  // --- one bill each --------------------------------------------------------

  /** Only the billed child's bills for the instalment change, and it had none. */
  lemma BillChildOnce(f: FeeBook, b: Books, student: nat, year: Year, instalment: nat, items: seq<Item>, today: int,
                      r: Books, s: nat)
    requires Valid(b) && BillChild(f, b, student, year, instalment, items, today) == Some(r)
    ensures AtMostOne(b, s, year, instalment) && (s == student ==> !Billed(b, s, year, instalment)) ==>
      AtMostOne(r, s, year, instalment)
    ensures s != student && Billed(r, s, year, instalment) ==> Billed(b, s, year, instalment)
  {
    BillChildKeeps(f, b, student, year, instalment, items, today);
    if NothingToBill(f, b, student, year, items) {
      EmptyBillWithdrawn(f, b, student, year, instalment, items, today);
    } else {
      BillStands(f, b, student, year, instalment, items, today, r);
      StandsOnce(f, b, student, year, instalment, items, today, r, s);
    }
  }

  lemma StandsOnce(f: FeeBook, b: Books, student: nat, year: Year, instalment: nat, items: seq<Item>, today: int,
                   r: Books, s: nat)
    requires Valid(b) && Valid(r)
    requires BilledWith(b, r, b.next, NewBill(f, b, student, year, instalment, today),
                        OwnLines(f, student, year, b.next, items), f.arrearsHead, ArrearsFor(b, student, year))
    ensures AtMostOne(b, s, year, instalment) && (s == student ==> !Billed(b, s, year, instalment)) ==>
      AtMostOne(r, s, year, instalment)
    ensures s != student && Billed(r, s, year, instalment) ==> Billed(b, s, year, instalment)
  {
    ArrearsRows(b, student, year);
    OnceFor(b, r, b.next, NewBill(f, b, student, year, instalment, today), OwnLines(f, student, year, b.next, items),
            f.arrearsHead, ArrearsFor(b, student, year), s, year, instalment);
  }

  lemma OnceFor(b: Books, r: Books, bill: nat, row: Invoice, own: seq<Line>, head: nat, olds: seq<Invoice>,
                s: nat, year: Year, instalment: nat)
    requires Keyed(b) && Keyed(r) && BilledWith(b, r, bill, row, own, head, olds)
    requires forall i :: i in olds <==> i in b.invoices && InArrears(b.carries, row.student, year, i)
    ensures AtMostOne(b, s, year, instalment) && (s == row.student ==> !Billed(b, s, year, instalment)) ==>
      AtMostOne(r, s, year, instalment)
    ensures s != row.student && Billed(r, s, year, instalment) ==> Billed(b, s, year, instalment)
  {
    if AtMostOne(b, s, year, instalment) && (s == row.student ==> !Billed(b, s, year, instalment)) {
      BilledOnce(b, r, bill, row, own, head, olds, s, year, instalment);
    }
    if s != row.student && Billed(r, s, year, instalment) {
      BilledBefore(b, r, bill, row, own, head, olds, s, year, instalment);
    }
  }

  lemma BilledBefore(b: Books, r: Books, bill: nat, row: Invoice, own: seq<Line>, head: nat, olds: seq<Invoice>,
                     student: nat, year: Year, instalment: nat)
    requires Keyed(b) && Keyed(r) && BilledWith(b, r, bill, row, own, head, olds)
    requires forall o :: o in olds ==> o in b.invoices && o.Live()
    requires row.student != student && Billed(r, student, year, instalment)
    ensures Billed(b, student, year, instalment)
  {
    var i :| i in r.invoices && BillFor(i, student, year, instalment);
    BillIs(r.invoices, i);
    SameBillFor(b, r, bill, row, own, head, olds, Bill(b.invoices, i.id));
  }

  ghost predicate DistinctStudents(es: seq<Enrolment>)
  {
    forall j, k :: 0 <= j < k < |es| ==> es[j].student != es[k].student
  }

  lemma {:induction false} BilledByRun(f: FeeBook, b: Books, children: seq<Enrolment>, year: Year, instalment: nat,
                                       items: seq<Item>, today: int, r: Books, s: nat)
    requires Valid(b) && BillChildren(f, b, children, year, instalment, items, today) == Some(r)
    requires (forall e :: e in children ==> e.student != s) && Billed(r, s, year, instalment)
    ensures Billed(b, s, year, instalment)
  {
    if children != [] {
      var m := |children| - 1;
      var b1 := BillChildren(f, b, children[..m], year, instalment, items, today).value;
      BillChildrenOnward(f, b, children[..m], year, instalment, items, today, b1);
      assert children[m] in children && forall e :: e in children[..m] ==> e in children;
      BillChildOnce(f, b1, children[m].student, year, instalment, items, today, r, s);
      BilledByRun(f, b, children[..m], year, instalment, items, today, b1, s);
    }
  }

  lemma LastIsNew(f: FeeBook, b: Books, children: seq<Enrolment>, year: Year, instalment: nat, items: seq<Item>,
                  today: int, b1: Books)
    requires Valid(b) && children != [] && DistinctStudents(children)
    requires BillChildren(f, b, children[..|children| - 1], year, instalment, items, today) == Some(b1)
    requires forall e :: e in children ==> !Billed(b, e.student, year, instalment)
    ensures !Billed(b1, children[|children| - 1].student, year, instalment)
  {
    var m := |children| - 1;
    forall e | e in children[..m] ensures e.student != children[m].student {
      var k :| 0 <= k < m && children[k] == e;
    }
    assert children[m] in children;
    if Billed(b1, children[m].student, year, instalment) {
      BilledByRun(f, b, children[..m], year, instalment, items, today, b1, children[m].student);
    }
  }

  lemma AllButTheLast(b: Books, children: seq<Enrolment>, year: Year, instalment: nat)
    requires children != [] && DistinctStudents(children)
    requires forall e :: e in children ==> !Billed(b, e.student, year, instalment)
    ensures DistinctStudents(children[..|children| - 1])
    ensures forall e :: e in children[..|children| - 1] ==> !Billed(b, e.student, year, instalment)
  {
    assert forall e :: e in children[..|children| - 1] ==> e in children;
  }

  lemma NextOnce(f: FeeBook, b: Books, children: seq<Enrolment>, year: Year, instalment: nat, items: seq<Item>,
                 today: int,
                 b1: Books, r: Books, s: nat)
    requires Valid(b) && children != [] && DistinctStudents(children) && AtMostOne(b1, s, year, instalment)
    requires BillChildren(f, b, children[..|children| - 1], year, instalment, items, today) == Some(b1)
    requires BillChild(f, b1, children[|children| - 1].student, year, instalment, items, today) == Some(r)
    requires forall e :: e in children ==> !Billed(b, e.student, year, instalment)
    ensures AtMostOne(r, s, year, instalment)
  {
    var m := |children| - 1;
    BillChildrenOnward(f, b, children[..m], year, instalment, items, today, b1);
    LastIsNew(f, b, children, year, instalment, items, today, b1);
    BillChildOnce(f, b1, children[m].student, year, instalment, items, today, r, s);
  }

  lemma {:induction false} BillChildrenOnce(f: FeeBook, b: Books, children: seq<Enrolment>, year: Year, instalment: nat,
                                            items: seq<Item>, today: int, r: Books, s: nat)
    requires Valid(b) && BillChildren(f, b, children, year, instalment, items, today) == Some(r)
    requires DistinctStudents(children) && AtMostOne(b, s, year, instalment)
    requires forall e :: e in children ==> !Billed(b, e.student, year, instalment)
    ensures AtMostOne(r, s, year, instalment)
  {
    if children != [] {
      var m := |children| - 1;
      var b1 := BillChildren(f, b, children[..m], year, instalment, items, today).value;
      AllButTheLast(b, children, year, instalment);
      BillChildrenOnce(f, b, children[..m], year, instalment, items, today, b1, s);
      NextOnce(f, b, children, year, instalment, items, today, b1, r, s);
    }
  }

  /** A student has at most one active enrolment in a year. */
  ghost predicate OneEnrolment(f: FeeBook, year: Year)
  {
    forall j, k :: 0 <= j < k < |f.enrolments| ==>
      f.enrolments[j].active && f.enrolments[k].active && f.enrolments[j].year == year
        && f.enrolments[k].year == year ==>
      f.enrolments[j].student != f.enrolments[k].student
  }

  lemma SelectedDistinct(f: FeeBook, b: Books, s: Structure, year: Year, instalment: nat)
    requires OneEnrolment(f, year)
    ensures DistinctStudents(Where(f.enrolments, Selects(b, s, year, instalment)))
  {
    var chosen := Where(f.enrolments, Selects(b, s, year, instalment));
    WhereIn(f.enrolments, Selects(b, s, year, instalment));
    WherePairs(f.enrolments, Selects(b, s, year, instalment), (x: Enrolment, y: Enrolment) =>
      x.active && y.active && x.year == year && y.year == year ==> x.student != y.student);
    forall j, k | 0 <= j < k < |chosen| ensures chosen[j].student != chosen[k].student {
      assert chosen[j] in chosen && chosen[k] in chosen;
    }
  }

  lemma {:induction false} RunStructuresOnce(f: FeeBook, b: Books, structures: seq<Structure>, year: Year,
                                             instalment: nat,
                                             today: int, r: Books, s: nat)
    requires Valid(b) && RunStructures(f, b, structures, year, instalment, today) == Some(r)
    requires OneEnrolment(f, year) && AtMostOne(b, s, year, instalment)
    ensures AtMostOne(r, s, year, instalment)
  {
    if structures != [] {
      var m := |structures| - 1;
      var b1 := RunStructures(f, b, structures[..m], year, instalment, today).value;
      RunStructuresOnward(f, b, structures[..m], year, instalment, today, b1);
      RunStructuresOnce(f, b, structures[..m], year, instalment, today, b1, s);
      var items := Priced(structures[m], instalment);
      if items != [] {
        SelectedDistinct(f, b1, structures[m], year, instalment);
        WhereIn(f.enrolments, Selects(b1, structures[m], year, instalment));
        BillChildrenOnce(f, b1, Where(f.enrolments, Selects(b1, structures[m], year, instalment)), year, instalment,
                         items, today, r, s);
      }
    }
  }

  /** Nobody ends a run with two live bills for the instalment who did not begin with two. */
  lemma OneBillEach(f: FeeBook, b: Books, year: Year, instalment: nat, today: int, r: Books, s: nat)
    requires Valid(b) && Run(f, b, year, instalment, today) == Some(r)
    requires OneEnrolment(f, year) && AtMostOne(b, s, year, instalment)
    ensures AtMostOne(r, s, year, instalment)
  {
    RunStructuresOnce(f, b, f.structures, year, instalment, today, r, s);
  }
}
