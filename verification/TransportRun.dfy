/** A whole run of the bus fare: whom it bills, for how much, and what a second run does. */
module TransportRun {
  import opened Tables
  import opened Books
  import opened Upkeep
  import opened Balances
  import opened Undo
  import opened Waterfall
  import opened Posting
  import opened Register
  import opened AppFee
  import opened AppFeeRun
  import opened Transport

  /** Work for one student: bills already there keep everything but their payment, and the new ones are the
      student's. */
  ghost predicate WorkFor(b: Books, r: Books, student: nat)
  {
    && BillIds(b.invoices) <= BillIds(r.invoices) && b.lines <= r.lines
    && (forall id :: id in BillIds(b.invoices) ==>
          && Bill(r.invoices, id)
            == Bill(b.invoices, id).(paid := Bill(r.invoices, id).paid, status := Bill(r.invoices, id).status)
          && (Bill(r.invoices, id).Live() <==> Bill(b.invoices, id).Live()))
    && (forall id :: id in BillIds(r.invoices) && id !in BillIds(b.invoices) ==>
        Bill(r.invoices, id).student == student)
    && (forall l :: l in r.lines[|b.lines|..] ==> l.invoice !in BillIds(b.invoices))
  }

  lemma RaisedAndPosted(b: Books, b2: Books, r: Books, student: nat, year: Year, head: nat, slab: Slab)
    requires Keyed(b) && TwoRaised(b, b2, student, year, head, slab) && SameBills(b2, r)
    ensures WorkFor(b, r, student) && BilledUnder(r, student, year, head)
  {
    RaisedFor(b, b2, student, year, head, slab);
    PostedFor(b, b2, r, student);
    var l := Line(b.next, Some(head), slab.first, 0);
    assert b2.lines[|b.lines|] == l;
    NewlyBilled(r, student, year, head, b.next);
  }

  lemma RaisedFor(b: Books, b2: Books, student: nat, year: Year, head: nat, slab: Slab)
    requires Keyed(b) && TwoRaised(b, b2, student, year, head, slab)
    ensures WorkFor(b, b2, student)
  {
    assert forall id :: id in BillIds(b.invoices) ==> id < b.next;
  }

  lemma PostedFor(b: Books, b2: Books, r: Books, student: nat)
    requires WorkFor(b, b2, student) && SameBills(b2, r)
    ensures WorkFor(b, r, student)
  {
  }

  lemma WorkStands(b: Books, r: Books, student: nat)
    requires WorkFor(b, r, student)
    ensures StillStands(b, r)
  {
  }

  lemma OldLine(b: Books, r: Books, student: nat, l: Line)
    requires WorkFor(b, r, student) && Itemised(b, {}) && l in r.lines
    ensures l in b.lines <==> l.invoice in BillIds(b.invoices)
  {
    assert r.lines == b.lines + r.lines[|b.lines|..];
  }

  lemma OthersBill(b: Books, r: Books, student: nat, i: Invoice)
    requires Keyed(r) && WorkFor(b, r, student) && i in r.invoices && i.student != student
    ensures i.id in BillIds(b.invoices)
    ensures Bill(b.invoices, i.id).student == i.student && Bill(b.invoices, i.id).year == i.year
    ensures i.Live() <==> Bill(b.invoices, i.id).Live()
  {
    BillIs(r.invoices, i);
  }

  /** Work for one student bills nobody else. */
  lemma OthersNotBilled(b: Books, r: Books, student: nat, s: nat, year: Year, head: nat)
    requires Keyed(r) && Itemised(b, {}) && WorkFor(b, r, student) && s != student && BilledUnder(r, s, year, head)
    ensures BilledUnder(b, s, year, head)
  {
    var l, i :| l in r.lines && i in r.invoices && l.invoice == i.id && l.head == Some(head)
      && i.student == s && i.year == year && i.Live();
    OthersBill(b, r, student, i);
    OldLine(b, r, student, l);
    NewlyBilledAt(b, s, year, head, i.id, l);
  }

  lemma NewlyBilledAt(b: Books, s: nat, year: Year, head: nat, bill: nat, l: Line)
    requires HasBill(b, bill, s, year) && l in b.lines && l.invoice == bill && l.head == Some(head)
    ensures BilledUnder(b, s, year, head)
  {
  }

  ghost predicate Rides(r: Rider, d: Desk, year: Year, head: nat)
  {
    r.notes != [] && !BilledUnder(d.books, r.student, year, head)
  }

  function SlabTotal(notes: seq<Note>): nat { SlabOf(notes).first + SlabOf(notes).second }

  lemma RiderIs(d: Desk, r: Rider, year: Year, head: nat, today: int, d2: Desk) returns (raised: Desk)
    requires Rides(r, d, year, head) && BillRider(d, r, year, head, today) == Some(d2)
    ensures RaiseBoth(d, r.student, year, head, SlabOf(r.notes), today) == Some(raised.books)
    ensures PostNotes(raised, r.student, d.books.next, r.notes, today) == Some(d2)
  {
    raised := Desk(RaiseBoth(d, r.student, year, head, SlabOf(r.notes), today).value, d.bills + 2, d.receipts);
  }

  lemma BothBilledAtFirst(b: Books, b2: Books, student: nat, year: Year, head: nat, slab: Slab)
    requires TwoRaised(b, b2, student, year, head, slab)
    ensures BothBilled(b2, student, year, b.next)
  {
  }

  ghost predicate BothDown(r: Books, first: nat, toFirst: int, toSecond: int)
  {
    && {first, first + 1} <= BillIds(r.invoices)
    && Bill(r.invoices, first).Balance() == Max(0, toFirst) && Bill(r.invoices, first + 1).Balance() == Max(0, toSecond)
  }

  lemma DownBy(b: Books, b2: Books, r: Books, student: nat, year: Year, head: nat, slab: Slab, x: int, y: int)
    requires TwoRaised(b, b2, student, year, head, slab) && NotesPosted(b2, r, student, year, b.next, x, y)
    ensures BothDown(r, b.next, slab.first - x, slab.second - y)
  {
  }

  lemma RiderPosted(d: Desk, r: Rider, year: Year, head: nat, today: int, d2: Desk, slab: Slab, x: int, y: int)
    returns (b2: Books)
    requires Valid(d.books) && BillRider(d, r, year, head, today) == Some(d2) && Rides(r, d, year, head)
    requires slab == SlabOf(r.notes) && x == Sum(r.notes, ToFirst()) && y == Sum(r.notes, ToSecond())
    ensures TwoRaised(d.books, b2, r.student, year, head, slab)
    ensures NotesPosted(b2, d2.books, r.student, year, d.books.next, x, y)
  {
    var raised := RiderIs(d, r, year, head, today, d2);
    b2 := raised.books;
    RaiseBothDoes(d, r.student, year, head, slab, today, b2);
    BothBilledAtFirst(d.books, b2, r.student, year, head, slab);
    PostNotesDo(raised, r.student, year, d.books.next, r.notes, today, d2, x, y);
  }

  lemma RiderDone(b: Books, b2: Books, r: Books, student: nat, year: Year, head: nat, slab: Slab, x: int, y: int)
    requires Keyed(b) && TwoRaised(b, b2, student, year, head, slab) && NotesPosted(b2, r, student, year, b.next, x, y)
    ensures Valid(r) && WorkFor(b, r, student) && BilledUnder(r, student, year, head)
    ensures BothDown(r, b.next, slab.first - x, slab.second - y)
  {
    RaisedAndPosted(b, b2, r, student, year, head, slab);
    DownBy(b, b2, r, student, year, head, slab, x, y);
  }

  /** A child on the bus has both instalments of its slab raised, each down by its own notes' money and never below
      nothing; what the notes leave over is the family's credit. */
  lemma RiderBilled(d: Desk, r: Rider, year: Year, head: nat, today: int, d2: Desk, slab: Slab, x: int, y: int)
    requires Valid(d.books) && BillRider(d, r, year, head, today) == Some(d2) && Rides(r, d, year, head)
    requires slab == SlabOf(r.notes) && x == Sum(r.notes, ToFirst()) && y == Sum(r.notes, ToSecond())
    ensures Valid(d2.books) && WorkFor(d.books, d2.books, r.student) && BilledUnder(d2.books, r.student, year, head)
    ensures BothDown(d2.books, d.books.next, slab.first - x, slab.second - y)
  {
    var b2 := RiderPosted(d, r, year, head, today, d2, slab, x, y);
    RiderDone(d.books, b2, d2.books, r.student, year, head, slab, x, y);
  }

  /** What the child paid before its second term. */
  function PaidAtFirst(notes: seq<Note>): int { Sum(notes, (n: Note) => if n.term < 2 then n.amount else 0) }
  function PaidLater(notes: seq<Note>): int { Sum(notes, (n: Note) => if n.term >= 2 then n.amount else 0) }

  lemma PaidIs(notes: seq<Note>)
    ensures PaidAtFirst(notes) == Sum(notes, ToFirst()) && PaidLater(notes) == Sum(notes, ToSecond())
  {
    SumSame(notes, ToFirst(), (n: Note) => if n.term < 2 then n.amount else 0);
    SumSame(notes, ToSecond(), (n: Note) => if n.term >= 2 then n.amount else 0);
  }

  lemma SlabIs(notes: seq<Note>, slab: Slab)
    requires slab == SlabOf(notes)
    ensures
      var far := exists n :: n in notes && n.term == 1 && n.amount > 800000;
      slab.first == (if far then 1500000 else 800000) && slab.second == if far then 1000000 else 700000
  {
  }

  lemma OwesOnBus(d: Desk, r: Rider, year: Year, head: nat, today: int, d2: Desk, slab: Slab, x: int, y: int)
    requires Valid(d.books) && BillRider(d, r, year, head, today) == Some(d2) && Rides(r, d, year, head)
    requires slab == SlabOf(r.notes) && x == Sum(r.notes, ToFirst()) && y == Sum(r.notes, ToSecond())
    ensures BothDown(d2.books, d.books.next, slab.first - x, slab.second - y)
  {
    RiderBilled(d, r, year, head, today, d2, slab, x, y);
  }

  /** A child without a note, or billed for the bus already, is left alone. */
  lemma OthersLeftAlone(d: Desk, r: Rider, year: Year, head: nat, today: int)
    ensures r.notes == [] || !NoBillUnder(d.books, r.student, year, head) ==>
      BillRider(d, r, year, head, today) == Some(d)
  {
    NoBillUnderIs(d.books, r.student, year, head);
  }

  /** A child the register shows on the bus, and that is not billed for it yet, is billed 8,000 and 7,000 rupees, or
      15,000 and 10,000 when a first-term note is above 8,000, each down by the notes of its own term. */
  lemma RiderOwes(d: Desk, r: Rider, year: Year, head: nat, today: int, d2: Desk, slab: Slab)
    requires Valid(d.books) && BillRider(d, r, year, head, today) == Some(d2)
    requires r.notes != [] && NoBillUnder(d.books, r.student, year, head)
    requires slab == if exists n :: n in r.notes && n.term == 1 && n.amount > 800000 then Slab(1500000, 1000000)
                     else Slab(800000, 700000)
    ensures BothDown(d2.books, d.books.next, slab.first - PaidAtFirst(r.notes), slab.second - PaidLater(r.notes))
  {
    NoBillUnderIs(d.books, r.student, year, head);
    PaidIs(r.notes);
    SlabIs(r.notes, SlabOf(r.notes));
    OwesOnBus(d, r, year, head, today, d2, slab, PaidAtFirst(r.notes), PaidLater(r.notes));
  }

  ghost predicate BusBillIs(i: Invoice, student: nat, year: Year, serial: nat, instalment: nat, amount: int, today: int)
  {
    && i.student == student && i.year == year && i.no == DocNo("INV/2026-27/TRN", serial)
    && i.instalment == Some(instalment) && i.issued == today && i.due == Some(today + 14)
    && i.gross == amount && i.discount == 0 && i.fine == 0 && i.status != Cancelled
  }

  /** Instalments 30 and 31, under the next two numbers of the bus series, with one line each under the head. */
  ghost predicate OnBus(b: Books, r: Books, student: nat, year: Year, head: nat, serial: nat, slab: Slab, today: int)
  {
    && {b.next, b.next + 1} <= BillIds(r.invoices)
    && BusBillIs(Bill(r.invoices, b.next), student, year, serial + 1, 30, slab.first, today)
    && BusBillIs(Bill(r.invoices, b.next + 1), student, year, serial + 2, 31, slab.second, today)
    && r.lines == b.lines + [Line(b.next, Some(head), slab.first, 0), Line(b.next + 1, Some(head), slab.second, 0)]
  }

  lemma RaisedOnBus(b: Books, b1: Books, b2: Books, row1: Invoice, row2: Invoice, student: nat, year: Year, head: nat,
                    serial: nat, slab: Slab, today: int)
    requires RaisedOne(b, row1, Some(head), b1) && RaisedOne(b1, row2, Some(head), b2)
    requires BusBillIs(row1, student, year, serial + 1, 30, slab.first, today)
    requires BusBillIs(row2, student, year, serial + 2, 31, slab.second, today)
    ensures OnBus(b, b2, student, year, head, serial, slab, today)
  {
  }

  lemma BothAsRaised(d: Desk, student: nat, year: Year, head: nat, slab: Slab, today: int, b2: Books)
    requires Valid(d.books) && RaiseBoth(d, student, year, head, slab, today) == Some(b2)
    ensures OnBus(d.books, b2, student, year, head, d.bills, slab, today)
  {
    var row1, row2 :=
      BusBill(student, year, d.bills + 1, 0, slab.first, today),
        BusBill(student, year, d.bills + 2, 1, slab.second, today);
    var b1 := RaiseBill(d.books, row1, Some(head)).value;
    RaisedInTurn(d.books, b1, b2, row1, row2, Some(head));
    RaisedOnBus(d.books, b1, b2, row1, row2, student, year, head, d.bills, slab, today);
  }

  lemma StillOnBus(b: Books, b2: Books, r: Books, student: nat, year: Year, head: nat, serial: nat, slab: Slab,
                   today: int)
    requires OnBus(b, b2, student, year, head, serial, slab, today) && SameBills(b2, r)
    ensures OnBus(b, r, student, year, head, serial, slab, today)
  {
  }

  lemma BilledOnBus(d: Desk, r: Rider, year: Year, head: nat, today: int, d2: Desk, slab: Slab)
    requires Valid(d.books) && BillRider(d, r, year, head, today) == Some(d2) && Rides(r, d, year, head)
    requires slab == SlabOf(r.notes)
    ensures OnBus(d.books, d2.books, r.student, year, head, d.bills, slab, today)
  {
    var raised := RiderIs(d, r, year, head, today, d2);
    RaiseBothDoes(d, r.student, year, head, slab, today, raised.books);
    BothAsRaised(d, r.student, year, head, slab, today, raised.books);
    BothBilledAtFirst(d.books, raised.books, r.student, year, head, slab);
    PostNotesDo(raised, r.student, year, d.books.next, r.notes, today, d2, Sum(r.notes, ToFirst()),
                Sum(r.notes, ToSecond()));
    StillOnBus(d.books, raised.books, d2.books, r.student, year, head, d.bills, slab, today);
  }

  /** A child on the bus has its two bills, each due in a fortnight for the whole instalment of its slab. */
  lemma RiderBills(d: Desk, r: Rider, year: Year, head: nat, today: int, d2: Desk, slab: Slab)
    requires Valid(d.books) && BillRider(d, r, year, head, today) == Some(d2)
    requires r.notes != [] && NoBillUnder(d.books, r.student, year, head)
    requires slab == if exists n :: n in r.notes && n.term == 1 && n.amount > 800000 then Slab(1500000, 1000000)
                     else Slab(800000, 700000)
    ensures OnBus(d.books, d2.books, r.student, year, head, d.bills, slab, today)
  {
    NoBillUnderIs(d.books, r.student, year, head);
    SlabIs(r.notes, SlabOf(r.notes));
    BilledOnBus(d, r, year, head, today, d2, slab);
  }

  lemma RiderWorks(d: Desk, r: Rider, year: Year, head: nat, today: int, d2: Desk)
    requires Valid(d.books) && BillRider(d, r, year, head, today) == Some(d2) && Rides(r, d, year, head)
    ensures Valid(d2.books) && WorkFor(d.books, d2.books, r.student) && BilledUnder(d2.books, r.student, year, head)
  {
    var b2 := RiderPosted(d, r, year, head, today, d2, SlabOf(r.notes), Sum(r.notes, ToFirst()),
                          Sum(r.notes, ToSecond()));
    RaisedAndPosted(d.books, b2, d2.books, r.student, year, head, SlabOf(r.notes));
  }

  lemma RaiseBothAccounts(d: Desk, student: nat, year: Year, head: nat, slab: Slab, today: int, b2: Books, s: nat)
    requires RaiseBoth(d, student, year, head, slab, today) == Some(b2)
    ensures Charged(b2, s) == Charged(d.books, s) + (if s == student then slab.first + slab.second else 0)
    ensures Received(b2, s) == Received(d.books, s)
  {
    var row1, row2 :=
      BusBill(student, year, d.bills + 1, 0, slab.first, today),
        BusBill(student, year, d.bills + 2, 1, slab.second, today);
    var b1 := RaiseBill(d.books, row1, Some(head)).value;
    RaiseBillCharges(d.books, row1, Some(head), s);
    RaiseBillCharges(b1, row2, Some(head), s);
  }

  lemma RiderAccounts(d: Desk, r: Rider, year: Year, head: nat, today: int, d2: Desk, s: nat)
    requires Valid(d.books) && BillRider(d, r, year, head, today) == Some(d2) && Rides(r, d, year, head)
    ensures Charged(d2.books, s) == Charged(d.books, s) + if s == r.student then SlabTotal(r.notes) else 0
    ensures Received(d2.books, s) == Received(d.books, s) + if s == r.student then Sum(r.notes, Amount()) else 0
  {
    var raised := RiderIs(d, r, year, head, today, d2);
    RaiseBothDoes(d, r.student, year, head, SlabOf(r.notes), today, raised.books);
    BothBilledAtFirst(d.books, raised.books, r.student, year, head, SlabOf(r.notes));
    RaiseBothAccounts(d, r.student, year, head, SlabOf(r.notes), today, raised.books, s);
    PostNotesAccount(raised, r.student, year, d.books.next, r.notes, today, d2, s);
  }

  lemma RaiseBothGrows(b0: Books, d: Desk, student: nat, year: Year, head: nat, slab: Slab, today: int, b2: Books)
    requires Grown(b0, d.books, year) && RaiseBoth(d, student, year, head, slab, today) == Some(b2)
    ensures Grown(b0, b2, year)
  {
    var row1, row2 :=
      BusBill(student, year, d.bills + 1, 0, slab.first, today),
        BusBill(student, year, d.bills + 2, 1, slab.second, today);
    var b1 := RaiseBill(d.books, row1, Some(head)).value;
    RaiseBillGrows(b0, d.books, year, row1, Some(head));
    RaiseBillGrows(b0, b1, year, row2, Some(head));
  }

  lemma RiderGrows(b0: Books, d: Desk, r: Rider, year: Year, head: nat, today: int, d2: Desk)
    requires Keyed(b0) && Valid(d.books) && Grown(b0, d.books, year) && BillRider(d, r, year, head, today) == Some(d2)
    ensures Grown(b0, d2.books, year)
  {
    if Rides(r, d, year, head) {
      var raised := RiderIs(d, r, year, head, today, d2);
      RaiseBothDoes(d, r.student, year, head, SlabOf(r.notes), today, raised.books);
      BothBilledAtFirst(d.books, raised.books, r.student, year, head, SlabOf(r.notes));
      RaiseBothGrows(b0, d, r.student, year, head, SlabOf(r.notes), today, raised.books);
      PostNotesGrow(b0, raised, r.student, year, d.books.next, r.notes, today, d2);
    }
  }

  // --- the run --------------------------------------------------------------

  /** The first row of the register that puts the child on the bus. */
  function RowOf(riders: seq<Rider>, s: nat): Option<Rider>
  {
    if riders == [] then None
    else
      var earlier := RowOf(riders[..|riders| - 1], s);
      var r := riders[|riders| - 1];
      if earlier.Some? then earlier else if r.student == s && r.notes != [] then Some(r) else None
  }

  /** That row is the first that names the child and has a note. */
  lemma {:induction false} RowOfIs(riders: seq<Rider>, s: nat)
    ensures RowOf(riders, s).None?
      <==> forall k :: 0 <= k < |riders| && riders[k].student == s ==> riders[k].notes == []
    ensures RowOf(riders, s).Some? ==>
      exists k :: 0 <= k < |riders| && riders[k] == RowOf(riders, s).value && riders[k].student == s
        && riders[k].notes != [] && forall j :: 0 <= j < k && riders[j].student == s ==> riders[j].notes == []
  {
    if riders != [] {
      var m := |riders| - 1;
      RowOfIs(riders[..m], s);
    }
  }

  ghost predicate Ran(b: Books, r: Books, riders: seq<Rider>, year: Year, head: nat)
  {
    && Valid(r) && StillStands(b, r)
    && (forall s: nat :: BilledUnder(r, s, year, head) <==> BilledUnder(b, s, year, head) || RowOf(riders, s).Some?)
  }

  lemma RiderRan(b: Books, d1: Desk, riders: seq<Rider>, r: Rider, year: Year, head: nat, today: int, d2: Desk)
    requires Ran(b, d1.books, riders, year, head) && BillRider(d1, r, year, head, today) == Some(d2)
    ensures Ran(b, d2.books, riders + [r], year, head)
  {
    assert (riders + [r])[..|riders|] == riders;
    if Rides(r, d1, year, head) {
      RiderWorks(d1, r, year, head, today, d2);
      WorkStands(d1.books, d2.books, r.student);
      StandsStill(b, d1.books, d2.books);
      forall s: nat
        ensures BilledUnder(d2.books, s, year, head) <==> BilledUnder(b, s, year, head) || RowOf(riders + [r], s).Some?
      {
        if BilledUnder(d1.books, s, year, head) {
          StaysBilled(d1.books, d2.books, s, year, head);
        } else if s != r.student && BilledUnder(d2.books, s, year, head) {
          OthersNotBilled(d1.books, d2.books, r.student, s, year, head);
        }
      }
    }
  }

  lemma RanNothing(b: Books, year: Year, head: nat)
    requires Valid(b)
    ensures Ran(b, b, [], year, head)
  {
  }

  lemma {:induction false} RidersRan(d: Desk, riders: seq<Rider>, year: Year, head: nat, today: int, d2: Desk)
    requires Valid(d.books) && BillRiders(d, riders, year, head, today) == Some(d2)
    ensures Ran(d.books, d2.books, riders, year, head)
  {
    if riders == [] {
      RanNothing(d.books, year, head);
    } else {
      var m := |riders| - 1;
      var d1 := BillRiders(d, riders[..m], year, head, today).value;
      RidersRan(d, riders[..m], year, head, today, d1);
      RiderRan(d.books, d1, riders[..m], riders[m], year, head, today, d2);
      assert riders == riders[..m] + [riders[m]];
    }
  }

  function FareOf(b: Books, riders: seq<Rider>, year: Year, head: nat, s: nat): int
  {
    var row := RowOf(riders, s);
    if row.None? || BilledUnder(b, s, year, head) then 0 else SlabTotal(row.value.notes)
  }

  function FarePaid(b: Books, riders: seq<Rider>, year: Year, head: nat, s: nat): int
  {
    var row := RowOf(riders, s);
    if row.None? || BilledUnder(b, s, year, head) then 0 else Sum(row.value.notes, Amount())
  }

  lemma FareStep(b: Books, d1: Desk, riders: seq<Rider>, r: Rider, year: Year, head: nat, today: int, d2: Desk, s: nat)
    requires Ran(b, d1.books, riders, year, head) && BillRider(d1, r, year, head, today) == Some(d2)
    ensures Charged(d2.books, s)
      == Charged(d1.books, s) + FareOf(b, riders + [r], year, head, s) - FareOf(b, riders, year, head, s)
    ensures Received(d2.books, s)
      == Received(d1.books, s) + FarePaid(b, riders + [r], year, head, s) - FarePaid(b, riders, year, head, s)
  {
    assert (riders + [r])[..|riders|] == riders;
    if Rides(r, d1, year, head) {
      RiderAccounts(d1, r, year, head, today, d2, s);
    }
  }

  /** However many rows name a child, it is charged one slab, the first row's, and credited with what that row says it
      paid; a child already billed for the bus is charged and credited nothing. */
  lemma {:induction false} RidersAccount(d: Desk, riders: seq<Rider>, year: Year, head: nat, today: int, d2: Desk,
                                         s: nat)
    requires Valid(d.books) && BillRiders(d, riders, year, head, today) == Some(d2)
    ensures Charged(d2.books, s) == Charged(d.books, s) + FareOf(d.books, riders, year, head, s)
    ensures Received(d2.books, s) == Received(d.books, s) + FarePaid(d.books, riders, year, head, s)
  {
    if riders != [] {
      var m := |riders| - 1;
      var d1 := BillRiders(d, riders[..m], year, head, today).value;
      RidersRan(d, riders[..m], year, head, today, d1);
      RidersAccount(d, riders[..m], year, head, today, d1, s);
      FareStep(d.books, d1, riders[..m], riders[m], year, head, today, d2, s);
      assert riders == riders[..m] + [riders[m]];
    }
  }

  lemma {:induction false} RidersGrow(b0: Books, d: Desk, riders: seq<Rider>, year: Year, head: nat, today: int,
                                      d2: Desk)
    requires Keyed(b0) && Valid(d.books) && Grown(b0, d.books, year)
    requires BillRiders(d, riders, year, head, today) == Some(d2)
    ensures Grown(b0, d2.books, year)
  {
    if riders != [] {
      var m := |riders| - 1;
      var d1 := BillRiders(d, riders[..m], year, head, today).value;
      RidersRan(d, riders[..m], year, head, today, d1);
      RidersGrow(b0, d, riders[..m], year, head, today, d1);
      RiderGrows(b0, d1, riders[m], year, head, today, d2);
    }
  }

  /** A run charges each family the slab of its child's first row and takes in what that row says was paid. */
  lemma RunTransportDoes(b: Books, riders: seq<Rider>, year: Year, head: nat, today: int, r: Books, s: nat)
    requires Valid(b) && RunTransport(b, riders, year, head, today) == Some(r)
    ensures Ran(b, r, riders, year, head)
    ensures Owed(r, s) - Credit(r, s)
      == Owed(b, s) - Credit(b, s) + FareOf(b, riders, year, head, s) - FarePaid(b, riders, year, head, s)
  {
    var d := BillRiders(Desk(b, 0, 0), riders, year, head, today).value;
    RidersRan(Desk(b, 0, 0), riders, year, head, today, d);
    RidersAccount(Desk(b, 0, 0), riders, year, head, today, d, s);
    BalanceLaw(b, s);
    BalanceLaw(r, s);
  }

  // --- a second run ---------------------------------------------------------

  ghost predicate Onboard(b: Books, riders: seq<Rider>, year: Year, head: nat)
  {
    forall k :: 0 <= k < |riders| && riders[k].notes != [] ==> BilledUnder(b, riders[k].student, year, head)
  }

  lemma {:induction false} RowFound(riders: seq<Rider>, k: nat)
    requires k < |riders| && riders[k].notes != []
    ensures RowOf(riders, riders[k].student).Some?
  {
    if k < |riders| - 1 {
      RowFound(riders[..|riders| - 1], k);
    }
  }

  lemma {:induction false} NobodyNewRides(d: Desk, riders: seq<Rider>, year: Year, head: nat, today: int)
    requires Onboard(d.books, riders, year, head)
    ensures BillRiders(d, riders, year, head, today) == Some(d)
  {
    if riders != [] {
      NobodyNewRides(d, riders[..|riders| - 1], year, head, today);
    }
  }

  /** Running the same register again changes nothing at all. */
  lemma RunTransportAgain(b: Books, riders: seq<Rider>, year: Year, head: nat, today: int, r: Books, later: int)
    requires Valid(b) && RunTransport(b, riders, year, head, today) == Some(r)
    ensures RunTransport(r, riders, year, head, later) == Some(r)
  {
    RunTransportDoes(b, riders, year, head, today, r, 0);
    forall k | 0 <= k < |riders| && riders[k].notes != [] ensures BilledUnder(r, riders[k].student, year, head) {
      RowFound(riders, k);
    }
    NobodyNewRides(Desk(r, 0, 0), riders, year, head, later);
  }

  /** Once bill number 1 of the series exists, a run that finds a child to put on the bus is refused whole. */
  lemma {:induction false} LaterRiderRefused(b: Books, riders: seq<Rider>, year: Year, head: nat, today: int)
    requires NumberTaken(b, DocNo(BUS_BILLS, 1))
    ensures BillRiders(Desk(b, 0, 0), riders, year, head, today) == if Onboard(b, riders, year, head)
      then Some(Desk(b, 0, 0)) else None
  {
    if riders != [] {
      var m := |riders| - 1;
      LaterRiderRefused(b, riders[..m], year, head, today);
      assert Onboard(b, riders, year, head) <==>
        Onboard(b, riders[..m], year, head)
          && (riders[m].notes != [] ==> BilledUnder(b, riders[m].student, year, head)) by {
        assert riders == riders[..m] + [riders[m]];
        assert forall k :: 0 <= k < m ==> riders[..m][k] == riders[k];
      }
    }
  }
}
