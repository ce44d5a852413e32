/**
Loading a register again: the second load withdraws all the first one wrote,
so the ledger is the one a single load of the second register gives.
*/
module Reload {
  import opened Tables
  import opened Books
  import opened Upkeep
  import opened Withdrawal
  import opened Undo
  import opened Growth
  import opened Waterfall
  import opened Posting
  import opened Register

  // --- the loader pays only its own bills out of its own receipts ------------

  ghost predicate OwnAllocations(b0: Books, b: Books)
  {
    && b0.allocations <= b.allocations && b.serial == b0.serial
    && forall a :: a in Since(b0.allocations, b.allocations) ==> a.invoice >= b0.next && a.payment >= b0.next
  }

  lemma PostEntryOwn(b0: Books, d: Desk, student: nat, year: Year, e: Entry, today: int)
    requires Valid(d.books) && Sound(e) && OwnAllocations(b0, d.books) && b0.next <= d.books.next
    requires PostEntry(d, student, year, e, today).Some?
    ensures
      var r := PostEntry(d, student, year, e, today).value.books;
      OwnAllocations(b0, r) && b0.next <= r.next
  {
    if e.amount > 0 {
      var row := EntryBill(d, student, year, e, today);
      RaiseBillKeeps(d.books, row, Some(e.head));
      var raised := RaiseBill(d.books, row, Some(e.head)).value;
      if e.paid > 0 {
        HandWrittenAgrees(raised, EntryReceipt(d, student, e), d.books.next, today);
        var alloc := Min(e.paid, Bill(raised.invoices, d.books.next).Balance());
        MoreSince(b0.allocations, raised.allocations, Allocation(raised.next, d.books.next, alloc));
      }
    }
  }

  lemma {:induction false} PostEntriesOwn(b0: Books, d: Desk, student: nat, year: Year, es: seq<Entry>, today: int)
    requires Valid(b0) && Valid(d.books) && Grown(b0, d.books, year) && OwnAllocations(b0, d.books)
    requires (forall e :: e in es ==> Sound(e)) && PostEntries(d, student, year, es, today).Some?
    ensures OwnAllocations(b0, PostEntries(d, student, year, es, today).value.books)
  {
    if es != [] {
      var m := |es| - 1;
      PostEntriesOwn(b0, d, student, year, es[..m], today);
      PostEntriesKeeps(b0, d, student, year, es[..m], today);
      PostEntryOwn(b0, PostEntries(d, student, year, es[..m], today).value, student, year, es[m], today);
    }
  }

  lemma {:induction false} PostChildrenOwn(b0: Books, d: Desk, year: Year, head: nat, children: seq<Child>, today: int)
    requires Valid(b0) && Valid(d.books) && Grown(b0, d.books, year) && OwnAllocations(b0, d.books)
    requires PostChildren(d, year, head, children, today).Some?
    ensures OwnAllocations(b0, PostChildren(d, year, head, children, today).value.books)
  {
    if children != [] {
      var m := |children| - 1;
      PostChildrenOwn(b0, d, year, head, children[..m], today);
      PostChildrenKeeps(b0, d, year, head, children[..m], today);
      EntriesSound(children[m], head);
      PostEntriesOwn(b0, PostChildren(d, year, head, children[..m], today).value, children[m].student, year,
                     Entries(children[m], head), today);
    }
  }

  // --- withdrawing a load ---------------------------------------------------

  /** Withdrawing what a load posted gives back the withdrawn ledger itself, statuses and all; only the row ids drawn
      since stay drawn. */
  lemma PostedIsWithdrawn(w: Books, year: Year, head: nat, children: seq<Child>, today: int, later: int)
    requires Valid(w) && Clean(w, year) && PostChildren(Desk(w, 0, 0), year, head, children, today).Some?
    ensures
      var b1 := PostChildren(Desk(w, 0, 0), year, head, children, today).value.books;
      Withdraw(b1, year, later) == Some(w.(next := b1.next))
  {
    var b1 := PostChildren(Desk(w, 0, 0), year, head, children, today).value.books;
    GrownFromItself(w, year);
    PostChildrenKeeps(w, Desk(w, 0, 0), year, head, children, today);
    PostChildrenOwn(w, Desk(w, 0, 0), year, head, children, today);
    var w2 := WithdrawalUndoes(w, b1, year, later);
    forall k | 0 <= k < |w.invoices| ensures w2.invoices[k] == w.invoices[k] {
      assert w.invoices[k] in w.invoices;
      assert !Touches(Since(w.allocations, b1.allocations), w.invoices[k].id);
    }
    assert w2.invoices == w.invoices;
  }

  function Renumbered(r: Option<Books>, n: nat): Option<Books>
  {
    match r case None => None case Some(w) => Some(w.(next := n))
  }

  lemma DeletionsWhateverNext(b: Books, ids: set<nat>, today: int, n: nat)
    ensures DeletePayments(b.(next := n), ids, today) == Renumbered(DeletePayments(b, ids, today), n)
    ensures DeleteInvoices(b.(next := n), ids, today) == Renumbered(DeleteInvoices(b, ids, today), n)
  {
  }

  lemma SelectionsWhateverNext(b: Books, n: nat)
    ensures LeftOvers(b.(next := n)) == LeftOvers(b) && LoaderReceipts(b.(next := n)) == LoaderReceipts(b)
  {
    forall p ensures LeftOver(b.(next := n), p) == LeftOver(b, p) {
    }
  }

  lemma WithdrawWhateverNext(b: Books, year: Year, today: int, n: nat)
    ensures Withdraw(b.(next := n), year, today)
         == Renumbered(Withdraw(b, year, today), n)
  {
    var b1 := UndoCarries(b, year, today);
    var bills := YearBills(b, year);
    assert UndoCarries(b.(next := n), year, today) == b1.(next := n);
    SelectionsWhateverNext(b1, n);
    DeletionsWhateverNext(b1, LeftOvers(b1), today, n);
    if b2 :| DeletePayments(b1, LeftOvers(b1), today) == Some(b2) {
      DeletionsWhateverNext(b2, bills, today, n);
      if b3 :| DeleteInvoices(b2, bills, today) == Some(b3) {
        SelectionsWhateverNext(b3, n);
        DeletionsWhateverNext(b3, LoaderReceipts(b3), today, n);
      }
    }
  }

  /** The second load gives what loading the second register once gives, with fresh row ids. The condition is read off
      the first withdrawal: it left no adjustment that says it was carried forward and pays nothing. */
  lemma LoadAgain(b: Books, year: Year, head: nat, first: seq<Child>, second: seq<Child>, today: int)
    requires Valid(b) && Load(b, year, head, first, today).Some?
    requires LeftOvers(Withdraw(b, year, today).value) == {}
    ensures
      var b1 := Load(b, year, head, first, today).value;
      Load(b1, year, head, second, today) == Load(b.(next := b1.next), year, head, second, today)
  {
    var w := Withdraw(b, year, today).value;
    WithdrawKeeps(b, year, today);
    YearIsGone(b, year, today, w);
    PostedIsWithdrawn(w, year, head, first, today, today);
    WithdrawWhateverNext(b, year, today, Load(b, year, head, first, today).value.next);
  }

  lemma WithdrawalLeavesNoStray(b: Books, year: Year, today: int, w: Books)
    requires Valid(b) && NoStrays(b) && Withdraw(b, year, today) == Some(w)
    ensures NoStrays(w) && LeftOvers(w) == {}
  {
    WithdrawKeeps(b, year, today);
    YearIsGone(b, year, today, w);
    WithdrawLeaves(b, year, today);
    forall q | q in w.payments && Forwards(q) ensures !LeftOver(w, q) && q.id in CarriedBy(w.carries) {
      var p := SameReceiptBefore(b, year, today, w, q);
      ReceiptsKept(b, year, today, w, p);
      var c :| c in b.carries && c.payment == p.id;
      CarryPaysSomething(w, c);
    }
  }

  lemma SameReceiptBefore(b: Books, year: Year, today: int, w: Books, q: Payment) returns (p: Payment)
    requires Leaves(b, year, today, w) && q in w.payments
    ensures p in b.payments && q == p.(drawn := q.drawn)
  {
    var gone := StrandedIn(b, YearBills(b, year)) + LoaderReceipts(b);
    WhereIn(b.payments, Not(PaymentGone(gone)));
    var k :| 0 <= k < |w.payments| && w.payments[k] == q;
    p := Where(b.payments, Not(PaymentGone(gone)))[k];
    assert p in Where(b.payments, Not(PaymentGone(gone)));
  }

  /** A ledger whose adjustments all come from recorded carries: loading a register twice is loading it once,
      and loading a corrected register is loading it alone. */
  lemma LoadTwice(b: Books, year: Year, head: nat, first: seq<Child>, second: seq<Child>, today: int)
    requires Valid(b) && NoStrays(b) && Load(b, year, head, first, today).Some?
    ensures
      var b1 := Load(b, year, head, first, today).value;
      Load(b1, year, head, second, today) == Load(b.(next := b1.next), year, head, second, today)
  {
    WithdrawalLeavesNoStray(b, year, today, Withdraw(b, year, today).value);
    LoadAgain(b, year, head, first, second, today);
  }

  lemma GrownReceipts(b0: Books, b: Books, year: Year, id: nat)
    requires Valid(b0) && Grown(b0, b, year) && id < b0.next
    ensures id in PaymentIds(b0.payments) <==> id in PaymentIds(b.payments)
  {
    if p :| p in b0.payments && p.id == id {
      var k :| 0 <= k < |b0.payments| && b0.payments[k] == p;
      assert b.payments[k] in b.payments;
    }
    if p :| p in b.payments && p.id == id {
      var k :| 0 <= k < |b.payments| && b.payments[k] == p;
      assert k < |b0.payments| && b0.payments[k] in b0.payments;
    }
  }

  lemma StrandedAfterLoad(w: Books, b1: Books, year: Year, p: Payment) returns (p1: Payment)
    requires Keyed(w) && |w.carries| <= |b1.carries| && GrownPayments(w, b1) && OwnAllocations(w, b1) && p in w.payments
    requires LeftOver(w, p)
    ensures p1 in b1.payments && p1.id == p.id && Stranded(b1, YearBills(b1, year), p1)
  {
    var k :| 0 <= k < |w.payments| && w.payments[k] == p;
    p1 := b1.payments[k];
    StillUnpaid(w, b1, p);
  }

  lemma StillUnpaid(w: Books, b1: Books, p: Payment)
    requires OwnAllocations(w, b1) && LeftOver(w, p) && p.id < w.next
    ensures forall a :: a in b1.allocations ==> a.payment != p.id
  {
    assert b1.allocations == w.allocations + Since(w.allocations, b1.allocations);
  }

  /** A receipt that says it was carried forward and is neither the loader's nor settles a carry into the year, and that
      pays bills of the year and nothing else. Its allocations go with the year's bills, and it does not. */
  predicate Stray(b: Books, year: Year, p: Payment)
  {
    && Forwards(p) && !LoaderWrote(p)
    && p.id !in CarryPayments(b, YearBills(b, year))
    && (exists a :: a in b.allocations && a.payment == p.id)
    && (forall a :: a in b.allocations && a.payment == p.id ==> a.invoice in YearBills(b, year))
  }

  lemma LoadersOwn(b: Books, p: Payment)
    requires DistinctPayments(b.payments) && p in b.payments
    ensures p.id in LoaderReceipts(b) <==> LoaderWrote(p)
  {
    forall x | x in b.payments && x.id == p.id ensures x == p { ReceiptIs(b.payments, x); ReceiptIs(b.payments, p); }
  }

  lemma PaysNothingAfter(b: Books, year: Year, today: int, w: Books, p: Payment)
    requires Keyed(b) && Leaves(b, year, today, w) && p in b.payments && !LoaderWrote(p)
    requires p.id !in CarryPayments(b, YearBills(b, year))
    ensures (forall a :: a in w.allocations ==> a.payment != p.id)
      <==> forall a :: a in b.allocations && a.payment == p.id ==> a.invoice in YearBills(b, year)
  {
    LoadersOwn(b, p);
    WhereIn(b.allocations, Not(Withdrawn(b, YearBills(b, year))));
    assert forall a :: a in b.allocations && a.payment == p.id ==>
      (Withdrawn(b, YearBills(b, year))(a) <==> a.invoice in YearBills(b, year));
  }

  lemma OneLeftOver(w: Books, q: Payment)
    requires DistinctPayments(w.payments) && q in w.payments
    ensures q.id in LeftOvers(w) <==> LeftOver(w, q)
  {
    forall x | x in w.payments && x.id == q.id ensures x == q { ReceiptIs(w.payments, x); ReceiptIs(w.payments, q); }
  }

  lemma KeptLeftOver(b: Books, year: Year, today: int, w: Books, p: Payment, q: Payment)
    requires Keyed(b) && Leaves(b, year, today, w) && p in b.payments && q == p.(drawn := q.drawn)
    requires !LoaderWrote(p) && !Stranded(b, YearBills(b, year), p)
    ensures LeftOver(w, q) <==> Stray(b, year, p)
  {
    if p.id !in CarryPayments(b, YearBills(b, year)) {
      PaysNothingAfter(b, year, today, w, p);
    }
  }

  lemma LeftOverAfter(b: Books, year: Year, today: int, w: Books, p: Payment)
    requires Valid(b) && Valid(w) && Withdraw(b, year, today) == Some(w) && Leaves(b, year, today, w) && p in b.payments
    ensures p.id in LeftOvers(w) <==> Stray(b, year, p)
  {
    ReceiptsKept(b, year, today, w, p);
    if p.id in PaymentIds(w.payments) {
      OneLeftOver(w, Receipt(w.payments, p.id));
      KeptLeftOver(b, year, today, w, p, Receipt(w.payments, p.id));
    }
  }

  /** What a withdrawal leaves stranded, read off the ledger before it. */
  lemma StraysAre(b: Books, year: Year, today: int, w: Books)
    requires Valid(b) && Withdraw(b, year, today) == Some(w)
    ensures LeftOvers(w) == {} <==> forall p :: p in b.payments ==> !Stray(b, year, p)
  {
    WithdrawKeeps(b, year, today);
    WithdrawLeaves(b, year, today);
    forall p | p in b.payments ensures p.id in LeftOvers(w) <==> Stray(b, year, p) {
      LeftOverAfter(b, year, today, w, p);
    }
    forall q | q in w.payments ensures exists p :: p in b.payments && p.id == q.id {
      var p := SameReceiptBefore(b, year, today, w, q);
    }
  }

  /** Where the first withdrawal does leave such an adjustment, the second load deletes it: the two ledgers differ. */
  lemma LoadAgainDiffers(b: Books, year: Year, head: nat, first: seq<Child>, second: seq<Child>, today: int, p: Payment)
    requires Valid(b) && Load(b, year, head, first, today).Some?
    requires p in Withdraw(b, year, today).value.payments && LeftOver(Withdraw(b, year, today).value, p)
    requires Load(Load(b, year, head, first, today).value, year, head, second, today).Some?
    ensures
      var b1 := Load(b, year, head, first, today).value;
      p.id in PaymentIds(b1.payments) && p.id !in PaymentIds(Load(b1, year, head, second, today).value.payments)
  {
    var w := Withdraw(b, year, today).value;
    WithdrawKeeps(b, year, today);
    GrownFromItself(w, year);
    PostChildrenKeeps(w, Desk(w, 0, 0), year, head, first, today);
    PostChildrenOwn(w, Desk(w, 0, 0), year, head, first, today);
    var b1 := Load(b, year, head, first, today).value;
    GrownReceipts(w, b1, year, p.id);
    var p1 := StrandedAfterLoad(w, b1, year, p);
    SecondLoadLoses(b1, year, head, second, today, p1);
  }

  lemma SecondLoadLoses(b1: Books, year: Year, head: nat, second: seq<Child>, today: int, p: Payment)
    requires Valid(b1) && p in b1.payments && Stranded(b1, YearBills(b1, year), p)
    requires Load(b1, year, head, second, today).Some?
    ensures p.id !in PaymentIds(Load(b1, year, head, second, today).value.payments)
  {
    var w2 := Withdraw(b1, year, today).value;
    WithdrawKeeps(b1, year, today);
    WithdrawLeaves(b1, year, today);
    ReceiptsKept(b1, year, today, w2, p);
    GrownFromItself(w2, year);
    PostChildrenKeeps(w2, Desk(w2, 0, 0), year, head, second, today);
    GrownReceipts(w2, Load(b1, year, head, second, today).value, year, p.id);
  }

  // --- exactly when a second load is the second register alone ---------------

  lemma StrayInSingleLoad(b: Books, year: Year, head: nat, second: seq<Child>, today: int, w: Books, r: Books,
                          p: Payment)
    requires Valid(b) && Withdraw(b, year, today) == Some(w) && p in w.payments
    requires Load(b, year, head, second, today) == Some(r)
    ensures p.id in PaymentIds(r.payments)
  {
    WithdrawKeeps(b, year, today);
    GrownFromItself(w, year);
    PostChildrenKeeps(w, Desk(w, 0, 0), year, head, second, today);
    GrownReceipts(w, r, year, p.id);
  }

  lemma DiffersWithStray(b: Books, year: Year, head: nat, first: seq<Child>, second: seq<Child>, today: int, w: Books,
                         b1: Books, b2: Books, p: Payment)
    requires Valid(b) && Withdraw(b, year, today) == Some(w) && Load(b, year, head, first, today) == Some(b1)
    requires p in w.payments && LeftOver(w, p) && Load(b1, year, head, second, today) == Some(b2)
    ensures Load(b.(next := b1.next), year, head, second, today) != Some(b2)
  {
    LoadAgainDiffers(b, year, head, first, second, today, p);
    WithdrawWhateverNext(b, year, today, b1.next);
    PostedNext(b, year, head, first, today, b1);
    NumbersAreFree(b, b1.next, b.serial, {});
    if Load(b.(next := b1.next), year, head, second, today) == Some(b2) {
      StrayInSingleLoad(b.(next := b1.next), year, head, second, today, w.(next := b1.next), b2, p);
    }
  }

  lemma PostedNext(b: Books, year: Year, head: nat, first: seq<Child>, today: int, b1: Books)
    requires Valid(b) && Load(b, year, head, first, today) == Some(b1)
    ensures b1.next >= b.next
  {
    var w := Withdraw(b, year, today).value;
    WithdrawKeeps(b, year, today);
    WithdrawLeaves(b, year, today);
    GrownFromItself(w, year);
    PostChildrenKeeps(w, Desk(w, 0, 0), year, head, first, today);
  }

  /** For any two registers that are accepted in turn: the second load is the second register loaded alone if and only
      if no receipt of the ledger is stray. */
  lemma LoadAgainExactly(b: Books, year: Year, head: nat, first: seq<Child>, second: seq<Child>, today: int, b1: Books,
                         b2: Books)
    requires Valid(b) && Load(b, year, head, first, today) == Some(b1)
    requires Load(b1, year, head, second, today) == Some(b2)
    ensures Load(b.(next := b1.next), year, head, second, today) == Some(b2)
      <==> forall p :: p in b.payments ==> !Stray(b, year, p)
  {
    var w := Withdraw(b, year, today).value;
    StraysAre(b, year, today, w);
    if LeftOvers(w) == {} {
      LoadAgain(b, year, head, first, second, today);
    } else {
      var p :| p in w.payments && LeftOver(w, p);
      DiffersWithStray(b, year, head, first, second, today, w, b1, b2, p);
    }
  }

  // --- a ledger where they differ -------------------------------------------

  /** A bill of the year paid by an adjustment somebody wrote by hand, with the remark a carry would have written. */
  function HandWrittenLedger(student: nat, year: Year): Books
  {
    Books([Invoice(0, student, year, DocNo("INV/", 1), None, 0, None, 100, 0, 0, 100, Paid)],
          [Line(0, Some(0), 100, 0)],
          [Payment(1, student, None, 100, 100, Adjustment, 0, Words(CARRIED_TO_INV))], [Allocation(1, 0, 100)], [], 2,
            0)
  }

  lemma HandWrittenIsValid(student: nat, year: Year)
    ensures Valid(HandWrittenLedger(student, year))
  {
    var b := HandWrittenLedger(student, year);
    SumOne(b.lines[0], AmountOn(0));
    SumOne(b.lines[0], DiscountOn(0));
    SumOne(b.allocations[0], PaidTo(0));
    SumOne(b.allocations[0], DrawnFrom(1));
    assert b.invoices[0] in b.invoices && b.payments[0] in b.payments;
    BillIs(b.invoices, b.invoices[0]);
    ReceiptIs(b.payments, b.payments[0]);
  }

  /** There the receipt is stray: whatever registers are loaded in turn, the second load is not the second register
      alone. */
  lemma HandWrittenDiffers(student: nat, year: Year, head: nat, first: seq<Child>, second: seq<Child>, today: int,
                           b1: Books, b2: Books)
    requires Load(HandWrittenLedger(student, year), year, head, first, today) == Some(b1)
    requires Load(b1, year, head, second, today) == Some(b2)
    ensures Load(HandWrittenLedger(student, year).(next := b1.next), year, head, second, today) != Some(b2)
  {
    var b := HandWrittenLedger(student, year);
    HandWrittenStrays(student, year);
    LoadAgainExactly(b, year, head, first, second, today, b1, b2);
  }

  lemma HandWrittenStrays(student: nat, year: Year)
    ensures Valid(HandWrittenLedger(student, year)) && HandWrittenLedger(student, year).carries == []
    ensures HandWrittenLedger(student, year).payments[0] in HandWrittenLedger(student, year).payments
    ensures Stray(HandWrittenLedger(student, year), year, HandWrittenLedger(student, year).payments[0])
  {
    var b := HandWrittenLedger(student, year);
    HandWrittenIsValid(student, year);
    assert b.payments[0] in b.payments && b.invoices[0] in b.invoices && b.allocations[0] in b.allocations;
  }

  /** An empty register over a ledger that carries nothing: the withdrawal alone, and it keeps a stray receipt. */
  lemma EmptyLoadKeepsStray(b: Books, year: Year, head: nat, today: int, p: Payment) returns (b1: Books, q: Payment)
    requires Valid(b) && b.carries == [] && p in b.payments && Stray(b, year, p)
    ensures Load(b, year, head, [], today) == Some(b1) && Withdraw(b, year, today) == Some(b1)
    ensures Valid(b1) && b1.carries == [] && q.id == p.id && q in b1.payments && LeftOver(b1, q)
  {
    WithdrawRefused(b, year, today);
    b1 := Withdraw(b, year, today).value;
    WithdrawKeeps(b, year, today);
    WithdrawLeaves(b, year, today);
    LeftOverAfter(b, year, today, b1, p);
    q :| q in b1.payments && q.id == p.id && LeftOver(b1, q);
  }

  /** With empty registers both loads are accepted, and the second deletes the receipt the first has kept. */
  lemma HandWrittenLost(student: nat, year: Year, head: nat, today: int) returns (b1: Books, b2: Books)
    ensures Load(HandWrittenLedger(student, year), year, head, [], today) == Some(b1)
    ensures Load(b1, year, head, [], today) == Some(b2)
    ensures 1 in PaymentIds(b1.payments) && 1 !in PaymentIds(b2.payments)
  {
    var b := HandWrittenLedger(student, year);
    HandWrittenStrays(student, year);
    var q;
    b1, q := EmptyLoadKeepsStray(b, year, head, today, b.payments[0]);
    WithdrawRefused(b1, year, today);
    b2 := Withdraw(b1, year, today).value;
    LoadAgainDiffers(b, year, head, [], [], today, q);
  }
}
