/**
The bus fare: a child the register shows paying it is billed a slab in two
instalments, and each payment is posted against the instalment it was for.
*/
module Transport {
  import opened Tables
  import opened Books
  import opened Upkeep
  import opened Balances
  import opened Withdrawal
  import opened Undo
  import opened Waterfall
  import opened Posting
  import opened Register
  import opened AppFee

  const BUS_BILLS := "INV/2026-27/TRN"
  const BUS_RECEIPTS := "RCT/2026-27/TRN"
  const FIRST_INSTALMENT := 30
  const NEAR_FIRST := 800000

  /** A margin note of the register; `amount` is zero when it names no figure. */
  datatype Note = Note(term: nat, amount: nat, on: int)

  datatype Rider = Rider(student: nat, notes: seq<Note>)

  datatype Slab = Slab(first: nat, second: nat)
  const NEAR := Slab(800000, 700000)
  const FAR := Slab(1500000, 1000000)

  /** What a family paid in term one tells which slab it is on. */
  function SlabOf(notes: seq<Note>): Slab
  {
    if exists n :: n in notes && n.term == 1 && n.amount > NEAR_FIRST then FAR else NEAR
  }

  function BusBill(student: nat, year: Year, serial: nat, k: nat, amount: nat, today: int): Invoice
  {
    Invoice(0, student, year, DocNo(BUS_BILLS, serial), Some(FIRST_INSTALMENT + k), today, Some(today + Register.GRACE),
            amount, 0, 0, 0, Unpaid)
  }

  function BusReceipt(student: nat, serial: nat, n: Note): Payment
  {
    Payment(0, student, Some(DocNo(BUS_RECEIPTS, serial)), n.amount, 0, Adjustment, n.on,
            Words("Transport fee, " + FROM_REGISTER))
  }

  function RaiseBoth(d: Desk, student: nat, year: Year, head: nat, slab: Slab, today: int): Option<Books>
  {
    var b1 :- RaiseBill(d.books, BusBill(student, year, d.bills + 1, 0, slab.first, today), Some(head));
    RaiseBill(b1, BusBill(student, year, d.bills + 2, 1, slab.second, today), Some(head))
  }

  function Target(n: Note, first: nat): nat { if n.term >= 2 then first + 1 else first }

  function PostNote(d: Desk, student: nat, first: nat, n: Note, today: int): Option<Desk>
  {
    if n.amount == 0 then Some(d)
    else
      var posted :- PostReceipt(d.books, BusReceipt(student, d.receipts + 1, n), Target(n, first), today);
      Some(Desk(posted, d.bills, d.receipts + 1))
  }

  /** The notes in turn, against the bills `first` and `first + 1`. */
  function PostNotes(d: Desk, student: nat, first: nat, notes: seq<Note>, today: int): Option<Desk>
  {
    if notes == [] then Some(d)
    else
      var d1 :- PostNotes(d, student, first, notes[..|notes| - 1], today);
      PostNote(d1, student, first, notes[|notes| - 1], today)
  }

  function BillRider(d: Desk, r: Rider, year: Year, head: nat, today: int): Option<Desk>
  {
    if r.notes == [] || BilledUnder(d.books, r.student, year, head) then Some(d)
    else
      var b2 :- RaiseBoth(d, r.student, year, head, SlabOf(r.notes), today);
      PostNotes(Desk(b2, d.bills + 2, d.receipts), r.student, d.books.next, r.notes, today)
  }

  function BillRiders(d: Desk, riders: seq<Rider>, year: Year, head: nat, today: int): Option<Desk>
  {
    if riders == [] then Some(d)
    else
      var d1 :- BillRiders(d, riders[..|riders| - 1], year, head, today);
      BillRider(d1, riders[|riders| - 1], year, head, today)
  }

  /** None when a number is taken: the run rolls back. */
  function RunTransport(b: Books, riders: seq<Rider>, year: Year, head: nat, today: int): Option<Books>
  {
    var d :- BillRiders(Desk(b, 0, 0), riders, year, head, today);
    Some(d.books)
  }

  // --- the two bills --------------------------------------------------------

  ghost predicate HasBill(b: Books, id: nat, student: nat, year: Year)
  {
    id in BillIds(b.invoices) && Bill(b.invoices, id).student == student && Bill(b.invoices, id).year == year
      && Bill(b.invoices, id).Live()
  }

  /** The new bills are the ids `first` and `first + 1`, both the child's; every other is as it was. */
  ghost predicate TwoRaised(b: Books, b2: Books, student: nat, year: Year, head: nat, slab: Slab)
  {
    && b2.next == b.next + 2 && BillIds(b2.invoices) == BillIds(b.invoices) + {b.next, b.next + 1}
    && HasBill(b2, b.next, student, year) && HasBill(b2, b.next + 1, student, year)
    && Bill(b2.invoices, b.next).Balance() == slab.first && Bill(b2.invoices, b.next + 1).Balance() == slab.second
    && (forall id :: id in BillIds(b.invoices) ==> Bill(b2.invoices, id) == Bill(b.invoices, id))
    && b2.lines == b.lines + [Line(b.next, Some(head), slab.first, 0), Line(b.next + 1, Some(head), slab.second, 0)]
  }

  ghost predicate RaisedOne(b: Books, row: Invoice, head: Option<nat>, b1: Books)
  {
    && b1.next == b.next + 1 && BillIds(b1.invoices) == BillIds(b.invoices) + {b.next}
    && Bill(b1.invoices, b.next) == row.(id := b.next)
    && (forall id :: id in BillIds(b.invoices) ==> Bill(b1.invoices, id) == Bill(b.invoices, id))
    && b1.lines == b.lines + [Line(b.next, head, row.gross, row.discount)]
  }

  lemma RaiseBillDoes(b: Books, row: Invoice, head: Option<nat>, b1: Books)
    requires Keyed(b) && Keyed(b1) && RaiseBill(b, row, head) == Some(b1)
    ensures RaisedOne(b, row, head, b1)
  {
    forall id | id in BillIds(b.invoices)
      ensures id in BillIds(b1.invoices) && Bill(b1.invoices, id) == Bill(b.invoices, id)
    {
      BillOfMore(b.invoices, [row.(id := b.next)], id);
    }
    assert b1.invoices[|b.invoices|] == row.(id := b.next);
    BillIs(b1.invoices, row.(id := b.next));
  }

  lemma RaisedTwo(b: Books, b1: Books, b2: Books, row1: Invoice, row2: Invoice, student: nat, year: Year, head: nat,
                  slab: Slab)
    requires RaisedOne(b, row1, Some(head), b1) && RaisedOne(b1, row2, Some(head), b2) && Keyed(b)
    requires row1 == BusBill(student, year, row1.no.serial, 0, slab.first, row1.issued)
    requires row2 == BusBill(student, year, row2.no.serial, 1, slab.second, row2.issued)
    ensures TwoRaised(b, b2, student, year, head, slab)
  {
    assert forall id :: id in BillIds(b.invoices) ==> id < b.next;
  }

  lemma RaisedInTurn(b: Books, b1: Books, b2: Books, row1: Invoice, row2: Invoice, head: Option<nat>)
    requires Valid(b) && Fresh(row1) && Fresh(row2) && RaiseBill(b, row1, head) == Some(b1)
    requires RaiseBill(b1, row2, head) == Some(b2)
    ensures Valid(b2) && RaisedOne(b, row1, head, b1) && RaisedOne(b1, row2, head, b2)
  {
    RaiseBillKeeps(b, row1, head);
    RaiseBillKeeps(b1, row2, head);
    RaiseBillDoes(b, row1, head, b1);
    RaiseBillDoes(b1, row2, head, b2);
  }

  lemma RaiseBothDoes(d: Desk, student: nat, year: Year, head: nat, slab: Slab, today: int, b2: Books)
    requires Valid(d.books) && RaiseBoth(d, student, year, head, slab, today) == Some(b2)
    ensures Valid(b2) && TwoRaised(d.books, b2, student, year, head, slab)
  {
    var b, row1, row2 :=
      d.books, BusBill(student, year, d.bills + 1, 0, slab.first, today),
        BusBill(student, year, d.bills + 2, 1, slab.second, today);
    var b1 := RaiseBill(b, row1, Some(head)).value;
    RaisedInTurn(b, b1, b2, row1, row2, Some(head));
    RaisedTwo(b, b1, b2, row1, row2, student, year, head, slab);
  }

  // --- posting the notes ----------------------------------------------------

  /** The same bills and lines, paid further or not. */
  ghost predicate SameBills(b: Books, r: Books)
  {
    && BillIds(r.invoices) == BillIds(b.invoices) && r.lines == b.lines && r.next >= b.next
    && (forall id :: id in BillIds(b.invoices) ==>
          && Bill(r.invoices, id)
            == Bill(b.invoices, id).(paid := Bill(r.invoices, id).paid, status := Bill(r.invoices, id).status)
          && (Bill(r.invoices, id).Live() <==> Bill(b.invoices, id).Live()))
  }

  lemma SameBillsTwice(a: Books, b: Books, c: Books)
    requires SameBills(a, b) && SameBills(b, c)
    ensures SameBills(a, c)
  {
  }

  lemma AllocatingSame(b: Books, a: Allocation, today: int, r: Books)
    requires Keyed(b) && Tallied(b) && a.invoice in BillIds(b.invoices) && r == Allocate(b, a, today)
    ensures SameBills(b, r)
    ensures forall id :: id in BillIds(b.invoices) && id != a.invoice ==> Bill(r.invoices, id) == Bill(b.invoices, id)
  {
    AllocateBill(b, a, today);
  }

  /** A receipt pays one bill: the bills and lines stay the same, and no other is paid. */
  lemma PostReceiptBills(b: Books, row: Payment, bill: nat, today: int, r: Books)
    requires Valid(b) && Payable(b, row, bill) && PostReceipt(b, row, bill, today) == Some(r)
    ensures SameBills(b, r)
    ensures forall id :: id in BillIds(b.invoices) && id != bill ==> Bill(r.invoices, id) == Bill(b.invoices, id)
  {
    HandWrittenAgrees(b, row, bill, today);
    var b1 := InsertPayment(b, row).value;
    InsertPaymentKeeps(b, row, {});
    var alloc := Min(row.amount, Bill(b.invoices, bill).Balance());
    if alloc > 0 {
      AllocatingSame(b1, Allocation(b.next, bill, alloc), today, r);
    }
  }

  function ToFirst(): Note -> int { (n: Note) => if n.term < 2 then n.amount else 0 }
  function ToSecond(): Note -> int { (n: Note) => if n.term >= 2 then n.amount else 0 }
  function Amount(): Note -> int { (n: Note) => n.amount }

  ghost predicate BothBilled(b: Books, student: nat, year: Year, first: nat)
  {
    HasBill(b, first, student, year) && HasBill(b, first + 1, student, year)
  }

  /** Each instalment is down by its own notes' money, and never below nothing. */
  ghost predicate Settling(b: Books, r: Books, first: nat, toFirst: int, toSecond: int)
    requires {first, first + 1} <= BillIds(b.invoices) && {first, first + 1} <= BillIds(r.invoices)
  {
    && Bill(r.invoices, first).Balance() == Max(0, Bill(b.invoices, first).Balance() - toFirst)
    && Bill(r.invoices, first + 1).Balance() == Max(0, Bill(b.invoices, first + 1).Balance() - toSecond)
  }

  lemma NotNegative(b: Books, id: nat)
    requires Valid(b) && id in BillIds(b.invoices)
    ensures Bill(b.invoices, id).Balance() >= 0
  {
  }

  lemma SettlingNothing(b: Books, first: nat)
    requires Valid(b) && {first, first + 1} <= BillIds(b.invoices)
    ensures SameBills(b, b) && Settling(b, b, first, 0, 0)
  {
    NotNegative(b, first);
    NotNegative(b, first + 1);
  }

  lemma SettlingFurther(b: Books, b1: Books, r: Books, first: nat, x1: int, y1: int, x2: int, y2: int)
    requires {first, first + 1} <= BillIds(b.invoices) && {first, first + 1} <= BillIds(b1.invoices)
    requires {first, first + 1} <= BillIds(r.invoices)
    requires Settling(b, b1, first, x1, y1) && Settling(b1, r, first, x2, y2) && x2 >= 0 && y2 >= 0
    ensures Settling(b, r, first, x1 + x2, y1 + y2)
  {
  }

  lemma StillBothBilled(b: Books, r: Books, student: nat, year: Year, first: nat)
    requires BothBilled(b, student, year, first) && SameBills(b, r)
    ensures BothBilled(r, student, year, first)
  {
  }

  /** What the note's receipt has done to the two bills, read off what it did to each. */
  lemma NoteSettles(b: Books, r: Books, first: nat, target: nat, amount: int)
    requires Valid(b) && {first, first + 1} <= BillIds(b.invoices) && SameBills(b, r) && target in {first, first + 1}
    requires Bill(r.invoices, target).Balance() == Max(0, Bill(b.invoices, target).Balance() - amount)
    requires forall id :: id in BillIds(b.invoices) && id != target ==> Bill(r.invoices, id) == Bill(b.invoices, id)
    ensures Settling(b, r, first, if target == first then amount else 0, if target == first then 0 else amount)
  {
    NotNegative(b, first);
    NotNegative(b, first + 1);
  }

  lemma NotePays(b: Books, row: Payment, year: Year, first: nat, target: nat, today: int, r: Books)
    requires Valid(b) && BothBilled(b, row.student, year, first) && row.amount > 0 && row.drawn == 0
    requires target in {first, first + 1} && PostReceipt(b, row, target, today) == Some(r)
    ensures Valid(r) && SameBills(b, r)
    ensures Settling(b, r, first, if target == first then row.amount else 0, if target == first then 0 else row.amount)
  {
    PostReceiptKeeps(b, row, target, today);
    PostReceiptBills(b, row, target, today, r);
    SurplusIsCredit(b, row, target, today);
    NoteSettles(b, r, first, target, row.amount);
  }

  lemma NoteIs(d: Desk, student: nat, first: nat, n: Note, today: int, r: Desk)
    requires n.amount > 0 && PostNote(d, student, first, n, today) == Some(r)
    ensures PostReceipt(d.books, BusReceipt(student, d.receipts + 1, n), Target(n, first), today) == Some(r.books)
  {
  }

  lemma PostNoteDoes(d: Desk, student: nat, year: Year, first: nat, n: Note, today: int, r: Desk)
    requires Valid(d.books) && BothBilled(d.books, student, year, first)
    requires PostNote(d, student, first, n, today) == Some(r)
    ensures Valid(r.books) && SameBills(d.books, r.books) && BothBilled(r.books, student, year, first)
    ensures Settling(d.books, r.books, first, ToFirst()(n), ToSecond()(n))
  {
    if n.amount > 0 {
      NoteIs(d, student, first, n, today, r);
      NotePays(d.books, BusReceipt(student, d.receipts + 1, n), year, first, Target(n, first), today, r.books);
    } else {
      SettlingNothing(d.books, first);
    }
    StillBothBilled(d.books, r.books, student, year, first);
  }

  ghost predicate NotesPosted(b: Books, r: Books, student: nat, year: Year, first: nat, toFirst: int, toSecond: int)
  {
    && Valid(r) && SameBills(b, r) && BothBilled(b, student, year, first) && BothBilled(r, student, year, first)
    && Settling(b, r, first, toFirst, toSecond)
  }

  lemma NotesFurther(d1: Desk, b: Books, student: nat, year: Year, first: nat, x: int, y: int, n: Note, today: int,
                     r: Desk, toFirst: int, toSecond: int)
    requires NotesPosted(b, d1.books, student, year, first, x, y) && PostNote(d1, student, first, n, today) == Some(r)
    requires toFirst == x + ToFirst()(n) && toSecond == y + ToSecond()(n)
    ensures NotesPosted(b, r.books, student, year, first, toFirst, toSecond)
  {
    PostNoteDoes(d1, student, year, first, n, today, r);
    NotesJoin(b, d1.books, r.books, student, year, first, x, y, ToFirst()(n), ToSecond()(n), toFirst, toSecond);
  }

  lemma NotesJoin(b: Books, b1: Books, r: Books, student: nat, year: Year, first: nat, x: int, y: int, x2: int, y2: int,
                  toFirst: int, toSecond: int)
    requires NotesPosted(b, b1, student, year, first, x, y) && Valid(r) && SameBills(b1, r)
    requires BothBilled(r, student, year, first)
    requires Settling(b1, r, first, x2, y2) && x2 >= 0 && y2 >= 0 && toFirst == x + x2 && toSecond == y + y2
    ensures NotesPosted(b, r, student, year, first, toFirst, toSecond)
  {
    SameBillsTwice(b, b1, r);
    SettlingFurther(b, b1, r, first, x, y, x2, y2);
  }

  lemma NothingPosted(b: Books, student: nat, year: Year, first: nat)
    requires Valid(b) && BothBilled(b, student, year, first)
    ensures NotesPosted(b, b, student, year, first, 0, 0)
  {
    SettlingNothing(b, first);
  }

  /** After the notes, each instalment is down by its own notes' money, and never below nothing. */
  lemma {:induction false} PostNotesDo(d: Desk, student: nat, year: Year, first: nat, notes: seq<Note>, today: int,
                                       r: Desk, toFirst: int, toSecond: int)
    requires Valid(d.books) && BothBilled(d.books, student, year, first)
    requires PostNotes(d, student, first, notes, today) == Some(r)
    requires toFirst == Sum(notes, ToFirst()) && toSecond == Sum(notes, ToSecond())
    ensures NotesPosted(d.books, r.books, student, year, first, toFirst, toSecond)
  {
    if notes == [] {
      NothingPosted(d.books, student, year, first);
    } else {
      var m := |notes| - 1;
      var d1 := PostNotes(d, student, first, notes[..m], today).value;
      var x, y := Sum(notes[..m], ToFirst()), Sum(notes[..m], ToSecond());
      PostNotesDo(d, student, year, first, notes[..m], today, d1, x, y);
      NotesFurther(d1, d.books, student, year, first, x, y, notes[m], today, r, toFirst, toSecond);
    }
  }

  lemma ReceiptAccounts(b: Books, row: Payment, bill: nat, today: int, r: Books, s: nat)
    requires Valid(b) && bill in BillIds(b.invoices) && PostReceipt(b, row, bill, today) == Some(r)
    ensures Charged(r, s) == Charged(b, s) && Received(r, s) == Received(b, s) + AmountOf(s)(row)
  {
    PostReceiptReceives(b, row, bill, today, s);
  }

  lemma PostNoteAccounts(d: Desk, student: nat, year: Year, first: nat, n: Note, today: int, r: Desk, s: nat)
    requires Valid(d.books) && BothBilled(d.books, student, year, first)
    requires PostNote(d, student, first, n, today) == Some(r)
    ensures Charged(r.books, s) == Charged(d.books, s)
    ensures Received(r.books, s) == Received(d.books, s) + if s == student then n.amount else 0
  {
    if n.amount > 0 {
      NoteIs(d, student, first, n, today, r);
      ReceiptAccounts(d.books, BusReceipt(student, d.receipts + 1, n), Target(n, first), today, r.books, s);
    }
  }

  lemma {:induction false} PostNotesAccount(d: Desk, student: nat, year: Year, first: nat, notes: seq<Note>, today: int,
                                            r: Desk, s: nat)
    requires Valid(d.books) && BothBilled(d.books, student, year, first)
    requires PostNotes(d, student, first, notes, today) == Some(r)
    ensures Charged(r.books, s) == Charged(d.books, s)
    ensures Received(r.books, s) == Received(d.books, s) + if s == student then Sum(notes, Amount()) else 0
  {
    if notes != [] {
      var m := |notes| - 1;
      var d1 := PostNotes(d, student, first, notes[..m], today).value;
      PostNotesAccount(d, student, year, first, notes[..m], today, d1, s);
      PostNotesDo(d, student, year, first, notes[..m], today, d1, Sum(notes[..m], ToFirst()),
                  Sum(notes[..m], ToSecond()));
      PostNoteAccounts(d1, student, year, first, notes[m], today, r, s);
    }
  }

  lemma BusReceiptIsLoaders(student: nat, serial: nat, n: Note)
    ensures LoaderWrote(BusReceipt(student, serial, n)) && !Forwards(BusReceipt(student, serial, n))
  {
    assert CARRIED_TO_INV[0] != ("Transport fee, " + FROM_REGISTER)[0];
  }

  lemma ReceiptGrows(b0: Books, b: Books, year: Year, row: Payment, bill: nat, today: int, r: Books)
    requires Keyed(b0) && Valid(b) && Grown(b0, b, year) && LoaderWrote(row) && !Forwards(row) && bill >= b0.next
    requires bill in BillIds(b.invoices)
    requires PostReceipt(b, row, bill, today) == Some(r)
    ensures Grown(b0, r, year)
  {
    PostReceiptGrows(b0, b, year, row, bill, today);
  }

  lemma PostNoteGrows(b0: Books, d: Desk, student: nat, year: Year, first: nat, n: Note, today: int, r: Desk)
    requires Keyed(b0) && Valid(d.books) && BothBilled(d.books, student, year, first)
    requires PostNote(d, student, first, n, today) == Some(r)
    requires Grown(b0, d.books, year) && first >= b0.next
    ensures Grown(b0, r.books, year)
  {
    if n.amount > 0 {
      NoteIs(d, student, first, n, today, r);
      BusReceiptIsLoaders(student, d.receipts + 1, n);
      ReceiptGrows(b0, d.books, year, BusReceipt(student, d.receipts + 1, n), Target(n, first), today, r.books);
    }
  }

  lemma {:induction false} PostNotesGrow(b0: Books, d: Desk, student: nat, year: Year, first: nat, notes: seq<Note>,
                                         today: int, r: Desk)
    requires Keyed(b0) && Valid(d.books) && BothBilled(d.books, student, year, first)
    requires PostNotes(d, student, first, notes, today) == Some(r)
    requires Grown(b0, d.books, year) && first >= b0.next
    ensures Grown(b0, r.books, year)
  {
    if notes != [] {
      var m := |notes| - 1;
      var d1 := PostNotes(d, student, first, notes[..m], today).value;
      PostNotesGrow(b0, d, student, year, first, notes[..m], today, d1);
      PostNotesDo(d, student, year, first, notes[..m], today, d1, Sum(notes[..m], ToFirst()),
                  Sum(notes[..m], ToSecond()));
      PostNoteGrows(b0, d1, student, year, first, notes[m], today, r);
    }
  }

  // --- the receipts, note by note -------------------------------------------

  /** The note's receipt: its amount, on its day, paying nothing but the instalment it was for. */
  ghost predicate NotePosted(r: Books, since: nat, student: nat, first: nat, n: Note)
  {
    exists p :: p in r.payments && ReceiptOf(r, since, student, first, n, p)
  }

  ghost predicate ReceiptOf(r: Books, since: nat, student: nat, first: nat, n: Note, p: Payment)
  {
    && p.id >= since && p.student == student && p.amount == n.amount && p.paidOn == n.on && p.mode == Adjustment
    && p.receipt.Some? && p.receipt.value.series == "RCT/2026-27/TRN"
    && forall a :: a in r.allocations && a.payment == p.id ==> a.invoice == if n.term >= 2 then first + 1 else first
  }

  /** Posting a receipt adds it, allocates only from it, and leaves every other receipt but for what is drawn. */
  ghost predicate ReceiptAdded(b: Books, r: Books, row: Payment, bill: nat)
  {
    && r.next == b.next + 1 && |r.payments| == |b.payments| + 1
    && (forall k :: 0 <= k < |b.payments| ==> r.payments[k] == b.payments[k].(drawn := r.payments[k].drawn))
    && r.payments[|b.payments|] == row.(id := b.next, drawn := r.payments[|b.payments|].drawn)
    && (forall a :: a in r.allocations ==> a in b.allocations || (a.payment == b.next && a.invoice == bill))
  }

  lemma PostReceiptAdds(b: Books, row: Payment, bill: nat, today: int, r: Books)
    requires Valid(b) && bill in BillIds(b.invoices) && PostReceipt(b, row, bill, today) == Some(r)
    ensures ReceiptAdded(b, r, row, bill)
  {
    HandWrittenAgrees(b, row, bill, today);
  }

  lemma NoteStays(b: Books, r: Books, row: Payment, bill: nat, since: nat, student: nat, first: nat, n: Note)
    requires Keyed(b) && ReceiptAdded(b, r, row, bill) && NotePosted(b, since, student, first, n)
    ensures NotePosted(r, since, student, first, n)
  {
    var p :| p in b.payments && ReceiptOf(b, since, student, first, n, p);
    var k :| 0 <= k < |b.payments| && b.payments[k] == p;
    assert r.payments[k] in r.payments && ReceiptOf(r, since, student, first, n, r.payments[k]);
  }

  lemma NoteAdded(b: Books, r: Books, student: nat, serial: nat, first: nat, n: Note)
    requires Valid(b) && ReceiptAdded(b, r, BusReceipt(student, serial, n), Target(n, first))
    ensures NotePosted(r, b.next, student, first, n)
  {
    forall a | a in b.allocations ensures a.payment != b.next {
      assert Joins(b, a);
    }
    var p := r.payments[|b.payments|];
    assert p in r.payments && ReceiptOf(r, b.next, student, first, n, p);
  }

  lemma PostedEarlier(r: Books, since: nat, later: nat, student: nat, first: nat, n: Note)
    requires NotePosted(r, later, student, first, n) && since <= later
    ensures NotePosted(r, since, student, first, n)
  {
    var p :| p in r.payments && ReceiptOf(r, later, student, first, n, p);
    assert ReceiptOf(r, since, student, first, n, p);
  }

  /** Every note that names an amount has its receipt. */
  ghost predicate AllNoted(r: Books, since: nat, student: nat, first: nat, notes: seq<Note>)
  {
    forall k :: 0 <= k < |notes| && notes[k].amount > 0 ==> NotePosted(r, since, student, first, notes[k])
  }

  lemma AllStay(b: Books, r: Books, row: Payment, bill: nat, since: nat, student: nat, first: nat, notes: seq<Note>)
    requires Keyed(b) && ReceiptAdded(b, r, row, bill) && AllNoted(b, since, student, first, notes)
    ensures AllNoted(r, since, student, first, notes)
  {
    forall k | 0 <= k < |notes| && notes[k].amount > 0 ensures NotePosted(r, since, student, first, notes[k]) {
      NoteStays(b, r, row, bill, since, student, first, notes[k]);
    }
  }

  lemma NextNotePosted(d1: Desk, since: nat, student: nat, first: nat, before: seq<Note>, n: Note, today: int, r: Desk)
    requires n.amount > 0 && Valid(d1.books) && since <= d1.books.next
    requires {first, first + 1} <= BillIds(d1.books.invoices) && PostNote(d1, student, first, n, today) == Some(r)
    requires AllNoted(d1.books, since, student, first, before)
    ensures r.books.next >= since && AllNoted(r.books, since, student, first, before)
    ensures NotePosted(r.books, since, student, first, n)
  {
    var row := BusReceipt(student, d1.receipts + 1, n);
    NoteIs(d1, student, first, n, today, r);
    PostReceiptAdds(d1.books, row, Target(n, first), today, r.books);
    NoteAdded(d1.books, r.books, student, d1.receipts + 1, first, n);
    PostedEarlier(r.books, since, d1.books.next, student, first, n);
    AllStay(d1.books, r.books, row, Target(n, first), since, student, first, before);
  }

  lemma OneMoreNoted(r: Books, since: nat, student: nat, first: nat, before: seq<Note>, n: Note, all: seq<Note>)
    requires AllNoted(r, since, student, first, before) && all == before + [n]
    requires n.amount > 0 ==> NotePosted(r, since, student, first, n)
    ensures AllNoted(r, since, student, first, all)
  {
  }

  /** After a child's notes every one that names an amount has a receipt of its own, on its day. */
  lemma {:induction false} NotesHaveReceipts(d: Desk, student: nat, year: Year, first: nat, notes: seq<Note>,
                                             today: int,
                                             r: Desk)
    requires Valid(d.books) && BothBilled(d.books, student, year, first)
    requires PostNotes(d, student, first, notes, today) == Some(r)
    ensures r.books.next >= d.books.next && AllNoted(r.books, d.books.next, student, first, notes)
  {
    if notes != [] {
      var m := |notes| - 1;
      var d1 := PostNotes(d, student, first, notes[..m], today).value;
      NotesHaveReceipts(d, student, year, first, notes[..m], today, d1);
      NotesValid(d, student, year, first, notes[..m], today, d1);
      if notes[m].amount > 0 {
        NextNotePosted(d1, d.books.next, student, first, notes[..m], notes[m], today, r);
      }
      OneMoreNoted(r.books, d.books.next, student, first, notes[..m], notes[m], notes);
    }
  }

  lemma NotesValid(d: Desk, student: nat, year: Year, first: nat, notes: seq<Note>, today: int, r: Desk)
    requires Valid(d.books) && BothBilled(d.books, student, year, first)
    requires PostNotes(d, student, first, notes, today) == Some(r)
    ensures Valid(r.books) && {first, first + 1} <= BillIds(r.books.invoices)
  {
    PostNotesDo(d, student, year, first, notes, today, r, Sum(notes, ToFirst()), Sum(notes, ToSecond()));
  }
}
