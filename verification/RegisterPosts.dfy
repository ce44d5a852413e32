/**
What a register posts, read off its cells: a bill for every charge, and against
that bill a receipt for what the cell says was paid, on the day it says.
*/
module RegisterPosts {
  import opened Tables
  import opened Books
  import opened Upkeep
  import opened Withdrawal
  import opened Undo
  import opened Growth
  import opened Waterfall
  import opened Posting
  import opened Register
  import opened Reload

  // --- what a child's cells come to -----------------------------------------

  /** The cell of a term that is charged holds an amount, not a date. */
  predicate TermPays(c: Child, k: nat)
  {
    k < |c.fees| && k < |c.terms| && c.fees[k] > 0 && !c.terms[k].isDate && c.terms[k].paid > 0
  }

  function TermsPaid(c: Child, n: nat): int
  {
    if n == 0 then 0 else TermsPaid(c, n - 1) + if TermPays(c, n - 1) then c.terms[n - 1].paid else 0
  }

  function ExtrasPaid(extras: seq<Extra>, n: nat): int
    requires n <= |extras|
  {
    if n == 0 then 0
    else
      var e := extras[n - 1];
      ExtrasPaid(extras, n - 1) + if e.amount > 0 && e.cell.paid > 0 then e.cell.paid else 0
  }

  lemma {:induction false} TermsReceive(c: Child, head: nat, n: nat)
    requires n <= |c.fees|
    ensures EntriesReceive(TermsTo(c, head, n)) == TermsPaid(c, n)
  {
    if n > 0 {
      TermsReceive(c, head, n - 1);
      assert TermsTo(c, head, n)[..n - 1] == TermsTo(c, head, n - 1);
    }
  }

  lemma {:induction false} ExtrasReceive(c: Child, n: nat)
    requires n <= |c.extras|
    ensures EntriesReceive(ExtrasTo(c, n)) == ExtrasPaid(c.extras, n)
  {
    if n > 0 {
      ExtrasReceive(c, n - 1);
      assert ExtrasTo(c, n)[..n - 1] == ExtrasTo(c, n - 1);
    }
  }

  /** What is received for a child: every amount in the cell of a term that is charged, and every amount against an
      extra that is charged. A date typed where the amount goes counts for nothing. */
  lemma ChildReceived(c: Child, head: nat)
    ensures EntriesReceive(Entries(c, head)) == TermsPaid(c, |c.fees|) + ExtrasPaid(c.extras, |c.extras|)
  {
    TermsReceive(c, head, |c.fees|);
    ExtrasReceive(c, |c.extras|);
    assert Entries(c, head) == TermsTo(c, head, |c.fees|) + ExtrasTo(c, |c.extras|);
    SumConcat(TermsTo(c, head, |c.fees|), ExtrasTo(c, |c.extras|), Receiving());
  }

  // --- a charge and its receipt ---------------------------------------------

  /** What one charge asks for: the bill, and the receipt against it when `paid` is positive. */
  datatype Due = Due(student: nat, year: Year, instalment: nat, head: nat, amount: int, discount: int,
                     paid: int, on: int, mode: Mode, today: int)

  ghost predicate Raised(r: Books, since: nat, q: Due, i: Invoice)
  {
    && i in r.invoices && i.id >= since && i.student == q.student && i.year == q.year
    && i.instalment == Some(q.instalment) && i.gross == q.amount && i.discount == q.discount && i.fine == 0
    && i.no.series == "INV/2026-27/" && i.issued == q.today && i.due == Some(q.today + 14)
    && Line(i.id, Some(q.head), q.amount, q.discount) in r.lines
  }

  predicate Written(q: Due, p: Payment)
  {
    && p.student == q.student && p.amount == q.paid && p.paidOn == q.on && p.mode == q.mode
    && p.receipt.Some? && p.receipt.value.series == "RCT/2026-27/"
  }

  ghost predicate Received(r: Books, since: nat, q: Due, p: Payment)
  {
    p in r.payments && p.id >= since && Written(q, p)
  }

  /** The receipt pays this bill and nothing else, as far as it goes; the bill is paid by nothing else. */
  ghost predicate PaysOnly(r: Books, i: Invoice, p: Payment)
  {
    var share := Allocation(p.id, i.id, Min(p.amount, i.Net()));
    && (forall a :: a in r.allocations && (a.payment == p.id || a.invoice == i.id) ==> a == share)
    && (share.amount > 0 ==> share in r.allocations)
  }

  ghost predicate Unpaid(r: Books, i: Invoice) { forall a :: a in r.allocations ==> a.invoice != i.id }

  ghost predicate Done(r: Books, since: nat, q: Due)
  {
    exists i :: Raised(r, since, q, i) &&
      if q.paid <= 0 then Unpaid(r, i) else exists p :: Received(r, since, q, p) && PaysOnly(r, i, p)
  }

  function Asked(student: nat, year: Year, e: Entry, today: int): Due
  {
    Due(student, year, e.instalment, e.head, e.amount, e.discount, e.paid, e.on, e.mode, today)
  }

  // --- later work leaves it -------------------------------------------------

  ghost predicate Onward(b: Books, r: Books, year: Year) { Grown(b, r, year) && OwnAllocations(b, r) }

  lemma SameBill(b: Books, r: Books, year: Year, i: Invoice)
    requires Keyed(b) && Onward(b, r, year) && i in b.invoices
    ensures i in r.invoices && i.id < b.next
  {
    var k :| 0 <= k < |b.invoices| && b.invoices[k] == i;
    assert !Touches(Since(b.allocations, r.allocations), i.id);
    assert r.invoices[k] in r.invoices;
  }

  lemma SameReceipt(b: Books, r: Books, year: Year, p: Payment) returns (q: Payment)
    requires Keyed(b) && Onward(b, r, year) && p in b.payments
    ensures q in r.payments && q == p.(drawn := q.drawn) && p.id < b.next
  {
    var k :| 0 <= k < |b.payments| && b.payments[k] == p;
    q := r.payments[k];
  }

  lemma OldAndNew(b: Books, r: Books, year: Year)
    requires Onward(b, r, year)
    ensures forall a :: a in r.allocations ==> a in b.allocations || (a.invoice >= b.next && a.payment >= b.next)
    ensures forall a :: a in b.allocations ==> a in r.allocations
  {
    assert r.allocations == b.allocations + Since(b.allocations, r.allocations);
  }

  lemma DoneStays(b: Books, r: Books, since: nat, year: Year, q: Due)
    requires Keyed(b) && Onward(b, r, year) && Done(b, since, q)
    ensures Done(r, since, q)
  {
    var i :| Raised(b, since, q, i) &&
      if q.paid <= 0 then Unpaid(b, i) else exists p :: Received(b, since, q, p) && PaysOnly(b, i, p);
    SameBill(b, r, year, i);
    OldAndNew(b, r, year);
    assert Raised(r, since, q, i);
    if q.paid > 0 {
      var p :| Received(b, since, q, p) && PaysOnly(b, i, p);
      var p' := SameReceipt(b, r, year, p);
      assert Received(r, since, q, p') && PaysOnly(r, i, p');
    }
  }

  // --- one entry ------------------------------------------------------------

  lemma NothingPaysNext(b: Books)
    requires Valid(b)
    ensures forall a :: a in b.allocations ==> a.invoice < b.next && a.payment < b.next
  {
    forall a | a in b.allocations ensures a.invoice < b.next && a.payment < b.next {
      assert Joins(b, a);
    }
  }

  lemma RaisedDone(d: Desk, student: nat, year: Year, e: Entry, today: int, raised: Books)
    requires Valid(d.books) && e.amount > 0
    requires RaiseBill(d.books, EntryBill(d, student, year, e, today), Some(e.head)) == Some(raised)
    ensures
      var i := EntryBill(d, student, year, e, today).(id := d.books.next);
      Raised(raised, d.books.next, Asked(student, year, e, today), i) && Unpaid(raised, i)
  {
    NothingPaysNext(d.books);
    var i := EntryBill(d, student, year, e, today).(id := d.books.next);
    assert raised.invoices[|d.books.invoices|] == i;
    assert raised.lines[|d.books.lines|] == Line(d.books.next, Some(e.head), e.amount, e.discount);
  }

  lemma ReceiptDone(b: Books, since: nat, q: Due, i: Invoice, row: Payment, today: int, r: Books)
    requires Valid(b) && Raised(b, since, q, i) && Unpaid(b, i) && i.paid == 0 && i.Live() && since <= b.next
    requires q.paid > 0 && Written(q, row)
    requires PostReceipt(b, row, i.id, today) == Some(r)
    ensures Done(r, since, q)
  {
    BillIs(b.invoices, i);
    HandWrittenAgrees(b, row, i.id, today);
    NothingPaysNext(b);
    var b1 := InsertPayment(b, row).value;
    var p := row.(id := b.next);
    var alloc := Min(row.amount, i.Net());
    assert b1.payments[|b.payments|] == p;
    if alloc <= 0 {
      assert Received(r, since, q, p) && PaysOnly(r, i, p) && Raised(r, since, q, i);
    } else {
      PaidOff(b, b1, since, q, i, p, Allocation(b.next, i.id, alloc), today, r);
    }
  }

  lemma PaidOff(b: Books, b1: Books, since: nat, q: Due, i: Invoice, p: Payment, a: Allocation, today: int, r: Books)
    requires Valid(b) && Raised(b, since, q, i) && Unpaid(b, i) && i.id < b.next && p.id == b.next
    requires b1.invoices == b.invoices && b1.payments == b.payments + [p] && b1.allocations == b.allocations
    requires b1.lines == b.lines && r == Allocate(b1, a, today) && since <= b.next
    requires Written(q, p) && q.paid > 0
    requires a == Allocation(p.id, i.id, Min(p.amount, i.Net())) && a.amount > 0
    ensures Done(r, since, q)
  {
    NothingPaysNext(b);
    var k :| 0 <= k < |b.invoices| && b.invoices[k] == i;
    var j, p' := r.invoices[k], r.payments[|b.payments|];
    assert j in r.invoices && j == i.(paid := j.paid, status := j.status);
    assert p' in r.payments && p' == p.(drawn := p'.drawn);
    assert r.allocations == b.allocations + [a];
    assert Raised(r, since, q, j) && Received(r, since, q, p') && PaysOnly(r, j, p');
  }

  lemma EntryDone(d: Desk, student: nat, year: Year, e: Entry, today: int, r: Desk)
    requires Valid(d.books) && Sound(e) && e.amount > 0 && PostEntry(d, student, year, e, today) == Some(r)
    ensures Done(r.books, d.books.next, Asked(student, year, e, today))
  {
    var row := EntryBill(d, student, year, e, today);
    var raised := RaiseBill(d.books, row, Some(e.head)).value;
    RaisedDone(d, student, year, e, today, raised);
    if e.paid > 0 {
      RaiseBillKeeps(d.books, row, Some(e.head));
      ReceiptDone(raised, d.books.next, Asked(student, year, e, today), row.(id := d.books.next),
                  EntryReceipt(d, student, e), today, r.books);
    }
  }

  // --- a child, and the register --------------------------------------------

  ghost predicate AllDone(r: Books, since: nat, student: nat, year: Year, es: seq<Entry>, today: int)
  {
    forall k :: 0 <= k < |es| && es[k].amount > 0 ==> Done(r, since, Asked(student, year, es[k], today))
  }

  lemma EntryOnward(d: Desk, student: nat, year: Year, e: Entry, today: int, r: Desk)
    requires Valid(d.books) && Sound(e) && PostEntry(d, student, year, e, today) == Some(r)
    ensures Valid(r.books) && Onward(d.books, r.books, year)
  {
    GrownFromItself(d.books, year);
    PostEntryKeeps(d, student, year, e, today);
    PostEntryGrows(d.books, d, student, year, e, today);
    PostEntryOwn(d.books, d, student, year, e, today);
  }

  lemma DoneSince(r: Books, since: nat, later: nat, q: Due)
    requires Done(r, later, q) && since <= later
    ensures Done(r, since, q)
  {
    var i :| Raised(r, later, q, i) &&
      if q.paid <= 0 then Unpaid(r, i) else exists p :: Received(r, later, q, p) && PaysOnly(r, i, p);
    assert Raised(r, since, q, i);
    if q.paid > 0 {
      var p :| Received(r, later, q, p) && PaysOnly(r, i, p);
      assert Received(r, since, q, p);
    }
  }

  lemma NextDone(d1: Desk, since: nat, student: nat, year: Year, es: seq<Entry>, today: int, r: Desk)
    requires es != [] && Valid(d1.books) && Sound(es[|es| - 1]) && since <= d1.books.next
    requires AllDone(d1.books, since, student, year, es[..|es| - 1], today)
    requires PostEntry(d1, student, year, es[|es| - 1], today) == Some(r)
    ensures AllDone(r.books, since, student, year, es, today)
  {
    var m := |es| - 1;
    EntryOnward(d1, student, year, es[m], today, r);
    forall k | 0 <= k < |es| && es[k].amount > 0 ensures Done(r.books, since, Asked(student, year, es[k], today)) {
      if k < m {
        assert es[..m][k] == es[k];
        DoneStays(d1.books, r.books, since, year, Asked(student, year, es[k], today));
      } else {
        EntryDone(d1, student, year, es[m], today, r);
        DoneSince(r.books, since, d1.books.next, Asked(student, year, es[m], today));
      }
    }
  }

  lemma {:induction false} EntriesDone(d: Desk, student: nat, year: Year, es: seq<Entry>, today: int, r: Desk)
    requires Valid(d.books) && (forall e :: e in es ==> Sound(e)) && PostEntries(d, student, year, es, today) == Some(r)
    ensures AllDone(r.books, d.books.next, student, year, es, today)
  {
    if es != [] {
      var m := |es| - 1;
      var d1 := PostEntries(d, student, year, es[..m], today).value;
      GrownFromItself(d.books, year);
      PostEntriesKeeps(d.books, d, student, year, es[..m], today);
      EntriesDone(d, student, year, es[..m], today, d1);
      NextDone(d1, d.books.next, student, year, es, today, r);
    }
  }

  /** Term `k` of a child: its fee, less what the waterfall leaves of it, and the receipt its cell calls for. */
  function TermDue(c: Child, year: Year, head: nat, k: nat, today: int): Due
    requires k < |c.fees|
  {
    var paid := if TermPays(c, k) then c.terms[k].paid else 0;
    var on := if TermPays(c, k) then c.terms[k].on else 0;
    Due(c.student, year, k + 1, head, c.fees[k], c.fees[k] - Charge(c.fees, NetFee(c.fees, c.concession), k),
            paid, on, Adjustment, today)
  }

  function ExtraDue(c: Child, year: Year, k: nat, today: int): Due
    requires k < |c.extras|
  {
    var e := c.extras[k];
    Due(c.student, year, 10 + k, e.head, e.amount, 0, e.cell.paid, e.cell.on, e.cell.mode, today)
  }

  /** Every charge of the child has its bill, and every payment in its cells a receipt against that bill, on its day. */
  ghost predicate ChildDone(r: Books, since: nat, c: Child, year: Year, head: nat, today: int)
  {
    && (forall k :: 0 <= k < |c.fees| && c.fees[k] > 0 ==> Done(r, since, TermDue(c, year, head, k, today)))
    && (forall k :: 0 <= k < |c.extras| && c.extras[k].amount > 0 ==> Done(r, since, ExtraDue(c, year, k, today)))
  }

  lemma NothingPaid(r: Books, since: nat, q: Due, q': Due)
    requires Done(r, since, q) && q.paid <= 0 && q'.paid <= 0 && q' == q.(paid := q'.paid, on := q'.on, mode := q'.mode)
    ensures Done(r, since, q')
  {
    var i :| Raised(r, since, q, i) && Unpaid(r, i);
    assert Raised(r, since, q', i);
  }

  lemma AsChild(r: Books, since: nat, c: Child, year: Year, head: nat, today: int)
    requires AllDone(r, since, c.student, year, Entries(c, head), today)
    ensures ChildDone(r, since, c, year, head, today)
  {
    forall k | 0 <= k < |c.fees| && c.fees[k] > 0 ensures Done(r, since, TermDue(c, year, head, k, today)) {
      assert Entries(c, head)[k] == TermEntry(c, head, k);
      if !TermPays(c, k) {
        NothingPaid(r, since, Asked(c.student, year, TermEntry(c, head, k), today), TermDue(c, year, head, k, today));
      }
    }
    forall k | 0 <= k < |c.extras| && c.extras[k].amount > 0 ensures Done(r, since, ExtraDue(c, year, k, today)) {
      assert Entries(c, head)[|c.fees| + k] == ExtraEntry(c, k);
      assert Asked(c.student, year, ExtraEntry(c, k), today) == ExtraDue(c, year, k, today);
    }
  }

  lemma ChildOnward(d: Desk, c: Child, year: Year, head: nat, today: int, r: Desk)
    requires Valid(d.books) && PostEntries(d, c.student, year, Entries(c, head), today) == Some(r)
    ensures Valid(r.books) && Onward(d.books, r.books, year) && ChildDone(r.books, d.books.next, c, year, head, today)
  {
    EntriesSound(c, head);
    GrownFromItself(d.books, year);
    PostEntriesKeeps(d.books, d, c.student, year, Entries(c, head), today);
    PostEntriesOwn(d.books, d, c.student, year, Entries(c, head), today);
    EntriesDone(d, c.student, year, Entries(c, head), today, r);
    AsChild(r.books, d.books.next, c, year, head, today);
  }

  lemma ChildStays(b: Books, r: Books, since: nat, c: Child, year: Year, head: nat, today: int)
    requires Keyed(b) && Onward(b, r, year) && ChildDone(b, since, c, year, head, today)
    ensures ChildDone(r, since, c, year, head, today)
  {
    forall k | 0 <= k < |c.fees| && c.fees[k] > 0 ensures Done(r, since, TermDue(c, year, head, k, today)) {
      DoneStays(b, r, since, year, TermDue(c, year, head, k, today));
    }
    forall k | 0 <= k < |c.extras| && c.extras[k].amount > 0 ensures Done(r, since, ExtraDue(c, year, k, today)) {
      DoneStays(b, r, since, year, ExtraDue(c, year, k, today));
    }
  }

  lemma ChildSince(r: Books, since: nat, later: nat, c: Child, year: Year, head: nat, today: int)
    requires ChildDone(r, later, c, year, head, today) && since <= later
    ensures ChildDone(r, since, c, year, head, today)
  {
    forall k | 0 <= k < |c.fees| && c.fees[k] > 0 ensures Done(r, since, TermDue(c, year, head, k, today)) {
      DoneSince(r, since, later, TermDue(c, year, head, k, today));
    }
    forall k | 0 <= k < |c.extras| && c.extras[k].amount > 0 ensures Done(r, since, ExtraDue(c, year, k, today)) {
      DoneSince(r, since, later, ExtraDue(c, year, k, today));
    }
  }

  ghost predicate ChildrenDone(r: Books, since: nat, children: seq<Child>, year: Year, head: nat, today: int)
  {
    forall k :: 0 <= k < |children| ==> ChildDone(r, since, children[k], year, head, today)
  }

  lemma ChildrenStay(b: Books, r: Books, since: nat, children: seq<Child>, year: Year, head: nat, today: int)
    requires Keyed(b) && Onward(b, r, year) && ChildrenDone(b, since, children, year, head, today)
    ensures ChildrenDone(r, since, children, year, head, today)
  {
    forall k | 0 <= k < |children| ensures ChildDone(r, since, children[k], year, head, today) {
      ChildStays(b, r, since, children[k], year, head, today);
    }
  }

  lemma OneMoreChildDone(r: Books, since: nat, before: seq<Child>, c: Child, all: seq<Child>, year: Year, head: nat,
                         today: int)
    requires ChildrenDone(r, since, before, year, head, today) && ChildDone(r, since, c, year, head, today)
    requires all == before + [c]
    ensures ChildrenDone(r, since, all, year, head, today)
  {
    forall k | 0 <= k < |all| ensures ChildDone(r, since, all[k], year, head, today) {
      if k < |before| {
        assert all[k] == before[k];
      }
    }
  }

  lemma NextChildDone(d1: Desk, since: nat, before: seq<Child>, c: Child, all: seq<Child>, year: Year, head: nat,
                      today: int, r: Desk)
    requires Valid(d1.books) && since <= d1.books.next && ChildrenDone(d1.books, since, before, year, head, today)
    requires PostEntries(d1, c.student, year, Entries(c, head), today) == Some(r) && all == before + [c]
    ensures ChildrenDone(r.books, since, all, year, head, today)
  {
    ChildOnward(d1, c, year, head, today, r);
    ChildSince(r.books, since, d1.books.next, c, year, head, today);
    ChildrenStay(d1.books, r.books, since, before, year, head, today);
    OneMoreChildDone(r.books, since, before, c, all, year, head, today);
  }

  lemma {:induction false} PostChildrenDone(d: Desk, year: Year, head: nat, children: seq<Child>, today: int, r: Desk)
    requires Valid(d.books) && PostChildren(d, year, head, children, today) == Some(r)
    ensures ChildrenDone(r.books, d.books.next, children, year, head, today)
  {
    if children != [] {
      var m := |children| - 1;
      var d1 := PostChildren(d, year, head, children[..m], today).value;
      GrownFromItself(d.books, year);
      PostChildrenKeeps(d.books, d, year, head, children[..m], today);
      PostChildrenDone(d, year, head, children[..m], today, d1);
      assert children == children[..m] + [children[m]];
      NextChildDone(d1, d.books.next, children[..m], children[m], children, year, head, today, r);
    }
  }

  /** A load leaves, for every charge of every child, a bill for it, and against that bill, and no other, a receipt for
      the amount in its cell on the cell's day; a cell with a date in it, or with nothing, leaves its bill unpaid. */
  lemma LoadPosts(b: Books, year: Year, head: nat, children: seq<Child>, today: int, r: Books)
    requires Valid(b) && Load(b, year, head, children, today) == Some(r)
    ensures ChildrenDone(r, b.next, children, year, head, today)
  {
    var w := Withdraw(b, year, today).value;
    WithdrawKeeps(b, year, today);
    WithdrawLeaves(b, year, today);
    var d := PostChildren(Desk(w, 0, 0), year, head, children, today).value;
    PostChildrenDone(Desk(w, 0, 0), year, head, children, today, d);
  }

  // --- the numbers ----------------------------------------------------------

  /** The bills and receipts written since `d0` carry the numbers that follow, one after another. */
  ghost predicate Numbered(d0: Desk, d: Desk)
  {
    && d.bills >= d0.bills && |d.books.invoices| == |d0.books.invoices| + (d.bills - d0.bills)
    && d.receipts >= d0.receipts && |d.books.payments| == |d0.books.payments| + (d.receipts - d0.receipts)
    && (forall k :: |d0.books.invoices| <= k < |d.books.invoices| ==>
          d.books.invoices[k].no == DocNo("INV/2026-27/", d0.bills + 1 + k - |d0.books.invoices|))
    && (forall k :: |d0.books.payments| <= k < |d.books.payments| ==>
          d.books.payments[k].receipt == Some(DocNo("RCT/2026-27/", d0.receipts + 1 + k - |d0.books.payments|)))
  }

  /** Rows already there keep their numbers. */
  ghost predicate NumbersKept(b: Books, r: Books)
  {
    && |b.invoices| <= |r.invoices| && |b.payments| <= |r.payments|
    && (forall k :: 0 <= k < |b.invoices| ==> r.invoices[k].no == b.invoices[k].no)
    && (forall k :: 0 <= k < |b.payments| ==> r.payments[k].receipt == b.payments[k].receipt)
  }

  lemma ReceiptNumbered(b: Books, row: Payment, bill: nat, today: int, r: Books)
    requires PostReceipt(b, row, bill, today) == Some(r)
    ensures NumbersKept(b, r) && |r.invoices| == |b.invoices| && |r.payments| == |b.payments| + 1
    ensures r.payments[|b.payments|].receipt == row.receipt
  {
  }

  lemma EntryNumbered(d: Desk, student: nat, year: Year, e: Entry, today: int, r: Desk)
    requires PostEntry(d, student, year, e, today) == Some(r)
    ensures Numbered(d, r) && NumbersKept(d.books, r.books)
  {
    if e.amount > 0 {
      var raised := RaiseBill(d.books, EntryBill(d, student, year, e, today), Some(e.head)).value;
      if e.paid > 0 {
        ReceiptNumbered(raised, EntryReceipt(d, student, e), d.books.next, today, r.books);
      }
    }
  }

  lemma NumberedTwice(d0: Desk, d1: Desk, d2: Desk)
    requires Numbered(d0, d1) && Numbered(d1, d2) && NumbersKept(d1.books, d2.books)
    ensures Numbered(d0, d2)
  {
  }

  lemma {:induction false} EntriesNumbered(d: Desk, student: nat, year: Year, es: seq<Entry>, today: int, r: Desk)
    requires PostEntries(d, student, year, es, today) == Some(r)
    ensures Numbered(d, r) && NumbersKept(d.books, r.books)
  {
    if es != [] {
      var m := |es| - 1;
      var d1 := PostEntries(d, student, year, es[..m], today).value;
      EntriesNumbered(d, student, year, es[..m], today, d1);
      EntryNumbered(d1, student, year, es[m], today, r);
      NumberedTwice(d, d1, r);
    }
  }

  lemma {:induction false} ChildrenNumbered(d: Desk, year: Year, head: nat, children: seq<Child>, today: int, r: Desk)
    requires PostChildren(d, year, head, children, today) == Some(r)
    ensures Numbered(d, r) && NumbersKept(d.books, r.books)
  {
    if children != [] {
      var m := |children| - 1;
      var c := children[m];
      var d1 := PostChildren(d, year, head, children[..m], today).value;
      ChildrenNumbered(d, year, head, children[..m], today, d1);
      EntriesNumbered(d1, c.student, year, Entries(c, head), today, r);
      NumberedTwice(d, d1, r);
    }
  }

  /** Every load numbers its bills, and its receipts, from 1 on in the order it writes them, after the rows the
      withdrawal has left. */
  lemma LoadNumbersFromOne(b: Books, year: Year, head: nat, children: seq<Child>, today: int, w: Books, r: Books)
    requires Withdraw(b, year, today) == Some(w) && Load(b, year, head, children, today) == Some(r)
    ensures |w.invoices| <= |r.invoices| && |w.payments| <= |r.payments|
    ensures forall k :: |w.invoices| <= k < |r.invoices| ==>
      r.invoices[k].no == DocNo("INV/2026-27/", k - |w.invoices| + 1)
    ensures forall k :: |w.payments| <= k < |r.payments| ==>
      r.payments[k].receipt == Some(DocNo("RCT/2026-27/", k - |w.payments| + 1))
  {
    ChildrenNumbered(Desk(w, 0, 0), year, head, children, today,
                     PostChildren(Desk(w, 0, 0), year, head, children, today).value);
  }
}
