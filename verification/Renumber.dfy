/**
Row ids mean nothing: a load that starts from a later id comes to the same
ledger, row for row, with only the new ids moved up. So loading a register
twice is loading it once, every bill and receipt under its own number.
*/
module Renumber {
  import opened Tables
  import opened Books
  import opened Withdrawal
  import opened Undo
  import opened Waterfall
  import opened Posting
  import opened Register
  import opened Reload

  /** Ids from `base` on move up by `step`. */
  function Up(base: nat, step: nat, id: nat): nat { if id >= base then id + step else id }

  function UpBill(base: nat, step: nat): Invoice -> Invoice { (i: Invoice) => i.(id := Up(base, step, i.id)) }
  function UpLine(base: nat, step: nat): Line -> Line { (l: Line) => l.(invoice := Up(base, step, l.invoice)) }
  function UpReceipt(base: nat, step: nat): Payment -> Payment { (p: Payment) => p.(id := Up(base, step, p.id)) }
  function UpAllocation(base: nat, step: nat): Allocation -> Allocation
  {
    (a: Allocation) => Allocation(Up(base, step, a.payment), Up(base, step, a.invoice), a.amount)
  }

  function MovedUp(b: Books, base: nat, step: nat): Books
  {
    Books(Each(b.invoices, UpBill(base, step)), Each(b.lines, UpLine(base, step)),
          Each(b.payments, UpReceipt(base, step)),
          Each(b.allocations, UpAllocation(base, step)), b.carries, Up(base, step, b.next), b.serial)
  }

  function MovedUpToo(r: Option<Books>, base: nat, step: nat): Option<Books>
  {
    match r case None => None case Some(b) => Some(MovedUp(b, base, step))
  }

  lemma EachSnoc<T>(rows: seq<T>, x: T, u: T -> T)
    ensures Each(rows + [x], u) == Each(rows, u) + [u(x)]
  {
  }

  // --- statements -----------------------------------------------------------

  lemma SameNumbers(b: Books, base: nat, step: nat, no: DocNo)
    ensures NumberTaken(MovedUp(b, base, step), no) == NumberTaken(b, no)
    ensures ReceiptTaken(MovedUp(b, base, step), no) == ReceiptTaken(b, no)
  {
    var r := MovedUp(b, base, step);
    if NumberTaken(b, no) {
      var k :| 0 <= k < |b.invoices| && b.invoices[k].no == no;
      assert r.invoices[k] in r.invoices;
    }
    if NumberTaken(r, no) {
      var k :| 0 <= k < |r.invoices| && r.invoices[k].no == no;
      assert b.invoices[k] in b.invoices;
    }
    if ReceiptTaken(b, no) {
      var k :| 0 <= k < |b.payments| && b.payments[k].receipt == Some(no);
      assert r.payments[k] in r.payments;
    }
    if ReceiptTaken(r, no) {
      var k :| 0 <= k < |r.payments| && r.payments[k].receipt == Some(no);
      assert b.payments[k] in b.payments;
    }
  }

  lemma RaiseBillUp(b: Books, base: nat, step: nat, row: Invoice, head: Option<nat>)
    requires b.next >= base
    ensures RaiseBill(MovedUp(b, base, step), row, head) == MovedUpToo(RaiseBill(b, row, head), base, step)
  {
    SameNumbers(b, base, step, row.no);
    EachSnoc(b.invoices, row.(id := b.next), UpBill(base, step));
    EachSnoc(b.lines, Line(b.next, head, row.gross, row.discount), UpLine(base, step));
  }

  lemma {:induction false} FindBillUp(rows: seq<Invoice>, base: nat, step: nat, id: nat)
    ensures FindBill(Each(rows, UpBill(base, step)), Up(base, step, id))
         == match FindBill(rows, id) case None => None case Some(i) => Some(UpBill(base, step)(i))
  {
    if rows != [] {
      var m := |rows| - 1;
      assert rows == rows[..m] + [rows[m]];
      EachSnoc(rows[..m], rows[m], UpBill(base, step));
      assert Each(rows, UpBill(base, step))[..m] == Each(rows[..m], UpBill(base, step));
      FindBillUp(rows[..m], base, step, id);
    }
  }

  lemma InsertPaymentUp(b: Books, base: nat, step: nat, row: Payment)
    requires b.next >= base
    ensures InsertPayment(MovedUp(b, base, step), row) == MovedUpToo(InsertPayment(b, row), base, step)
  {
    if row.receipt.Some? {
      SameNumbers(b, base, step, row.receipt.value);
    }
    EachSnoc(b.payments, row.(id := b.next), UpReceipt(base, step));
  }

  lemma SumsUp(allocations: seq<Allocation>, base: nat, step: nat, id: nat)
    ensures Sum(Each(allocations, UpAllocation(base, step)), PaidTo(Up(base, step, id))) == Sum(allocations, PaidTo(id))
    ensures Sum(Each(allocations, UpAllocation(base, step)), DrawnFrom(Up(base, step, id)))
      == Sum(allocations, DrawnFrom(id))
  {
    SumEach(allocations, UpAllocation(base, step), PaidTo(Up(base, step, id)), PaidTo(id));
    SumEach(allocations, UpAllocation(base, step), DrawnFrom(Up(base, step, id)), DrawnFrom(id));
  }

  lemma Touched(a: Allocation)
    ensures (set x | x in [a] :: x.invoice) == {a.invoice} && (set x | x in [a] :: x.payment) == {a.payment}
  {
    assert a in [a];
  }

  lemma SyncBillUp(allocations: seq<Allocation>, base: nat, step: nat, bill: nat, today: int, i: Invoice)
    ensures SyncBill(Each(allocations, UpAllocation(base, step)), {Up(base, step, bill)}, today)(UpBill(base, step)(i))
         == UpBill(base, step)(SyncBill(allocations, {bill}, today)(i))
  {
    SumsUp(allocations, base, step, i.id);
  }

  lemma SyncReceiptUp(allocations: seq<Allocation>, base: nat, step: nat, receipt: nat, p: Payment)
    ensures SyncPayment(Each(allocations, UpAllocation(base, step)),
                        {Up(base, step, receipt)})(UpReceipt(base, step)(p))
         == UpReceipt(base, step)(SyncPayment(allocations, {receipt})(p))
  {
    SumsUp(allocations, base, step, p.id);
  }

  lemma AllocateUp(b: Books, base: nat, step: nat, a: Allocation, today: int)
    ensures Allocate(MovedUp(b, base, step), UpAllocation(base, step)(a), today)
      == MovedUp(Allocate(b, a, today), base, step)
  {
    var more := b.allocations + [a];
    var up := UpAllocation(base, step)(a);
    var left, right := Allocate(MovedUp(b, base, step), up, today), MovedUp(Allocate(b, a, today), base, step);
    EachSnoc(b.allocations, a, UpAllocation(base, step));
    Touched(a);
    Touched(up);
    forall k | 0 <= k < |b.invoices| ensures left.invoices[k] == right.invoices[k] {
      SyncBillUp(more, base, step, a.invoice, today, b.invoices[k]);
    }
    forall k | 0 <= k < |b.payments| ensures left.payments[k] == right.payments[k] {
      SyncReceiptUp(more, base, step, a.payment, b.payments[k]);
    }
    assert left.invoices == right.invoices && left.payments == right.payments;
  }

  lemma SetDrawnUp(rows: seq<Payment>, base: nat, step: nat, receipt: nat, amount: int)
    ensures Each(Each(rows, UpReceipt(base, step)), SetDrawn(Up(base, step, receipt), amount))
         == Each(Each(rows, SetDrawn(receipt, amount)), UpReceipt(base, step))
  {
  }

  lemma PostReceiptUp(b: Books, base: nat, step: nat, row: Payment, bill: nat, today: int)
    requires b.next >= base
    ensures PostReceipt(MovedUp(b, base, step), row, Up(base, step, bill), today)
      == MovedUpToo(PostReceipt(b, row, bill, today), base, step)
  {
    InsertPaymentUp(b, base, step, row);
    if b1 :| InsertPayment(b, row) == Some(b1) {
      FindBillUp(b1.invoices, base, step, bill);
      if target :| FindBill(b1.invoices, bill) == Some(target) {
        var alloc := Min(row.amount, target.Balance());
        var a := Allocation(b.next, bill, alloc);
        AllocateUp(b1, base, step, a, today);
        SetDrawnUp(Allocate(b1, a, today).payments, base, step, b.next, alloc);
      }
    }
  }

  // --- a load ---------------------------------------------------------------

  function DeskUp(d: Desk, base: nat, step: nat): Desk { Desk(MovedUp(d.books, base, step), d.bills, d.receipts) }

  function DeskUpToo(r: Option<Desk>, base: nat, step: nat): Option<Desk>
  {
    match r case None => None case Some(d) => Some(DeskUp(d, base, step))
  }

  lemma NextRises(b: Books, row: Payment, bill: nat, today: int, r: Books)
    requires PostReceipt(b, row, bill, today) == Some(r)
    ensures r.next == b.next + 1
  {
  }

  lemma PaidUp(d: Desk, raised: Books, base: nat, step: nat, student: nat, e: Entry, today: int)
    requires d.books.next >= base && raised.next == d.books.next + 1
    ensures PostReceipt(MovedUp(raised, base, step), EntryReceipt(DeskUp(d, base, step), student, e),
                        d.books.next + step, today)
         == MovedUpToo(PostReceipt(raised, EntryReceipt(d, student, e), d.books.next, today), base, step)
    ensures PostReceipt(raised, EntryReceipt(d, student, e), d.books.next, today).Some? ==>
      PostReceipt(raised, EntryReceipt(d, student, e), d.books.next, today).value.next >= base
  {
    PostReceiptUp(raised, base, step, EntryReceipt(d, student, e), d.books.next, today);
    if r :| PostReceipt(raised, EntryReceipt(d, student, e), d.books.next, today) == Some(r) {
      NextRises(raised, EntryReceipt(d, student, e), d.books.next, today, r);
    }
  }

  /** What is left of an entry once its bill is raised. */
  function Paying(d: Desk, raised: Books, student: nat, e: Entry, today: int): Option<Desk>
  {
    if e.paid <= 0 then Some(Desk(raised, d.bills + 1, d.receipts))
    else
      var posted :- PostReceipt(raised, EntryReceipt(d, student, e), d.books.next, today);
      Some(Desk(posted, d.bills + 1, d.receipts + 1))
  }

  lemma PayingUp(d: Desk, raised: Books, base: nat, step: nat, student: nat, e: Entry, today: int)
    requires d.books.next >= base && raised.next == d.books.next + 1
    ensures Paying(DeskUp(d, base, step), MovedUp(raised, base, step), student, e, today)
      == DeskUpToo(Paying(d, raised, student, e, today), base, step)
    ensures Paying(d, raised, student, e, today).Some? ==> Paying(d, raised, student, e, today).value.books.next >= base
  {
    PaidUp(d, raised, base, step, student, e, today);
  }

  lemma PostEntryUp(d: Desk, base: nat, step: nat, student: nat, year: Year, e: Entry, today: int)
    requires d.books.next >= base
    ensures PostEntry(DeskUp(d, base, step), student, year, e, today)
      == DeskUpToo(PostEntry(d, student, year, e, today), base, step)
    ensures PostEntry(d, student, year, e, today).Some? ==>
      PostEntry(d, student, year, e, today).value.books.next >= base
  {
    if e.amount > 0 {
      var row := EntryBill(d, student, year, e, today);
      RaiseBillUp(d.books, base, step, row, Some(e.head));
      PostEntryIs(d, student, year, e, today);
      PostEntryIs(DeskUp(d, base, step), student, year, e, today);
      if raised :| RaiseBill(d.books, row, Some(e.head)) == Some(raised) {
        PayingUp(d, raised, base, step, student, e, today);
      }
    }
  }

  lemma PostEntryIs(d: Desk, student: nat, year: Year, e: Entry, today: int)
    requires e.amount > 0
    ensures
      var raised := RaiseBill(d.books, EntryBill(d, student, year, e, today), Some(e.head));
      PostEntry(d, student, year, e, today) == if raised.None? then None else Paying(d, raised.value, student, e, today)
  {
  }

  lemma {:induction false} PostEntriesUp(d: Desk, base: nat, step: nat, student: nat, year: Year, es: seq<Entry>,
                                         today: int)
    requires d.books.next >= base
    ensures PostEntries(DeskUp(d, base, step), student, year, es, today)
      == DeskUpToo(PostEntries(d, student, year, es, today), base, step)
    ensures PostEntries(d, student, year, es, today).Some? ==>
      PostEntries(d, student, year, es, today).value.books.next >= base
  {
    if es != [] {
      var m := |es| - 1;
      PostEntriesUp(d, base, step, student, year, es[..m], today);
      if d1 :| PostEntries(d, student, year, es[..m], today) == Some(d1) {
        PostEntryUp(d1, base, step, student, year, es[m], today);
      }
    }
  }

  lemma {:induction false} PostChildrenUp(d: Desk, base: nat, step: nat, year: Year, head: nat, children: seq<Child>,
                                          today: int)
    requires d.books.next >= base
    ensures PostChildren(DeskUp(d, base, step), year, head, children, today)
      == DeskUpToo(PostChildren(d, year, head, children, today), base, step)
    ensures PostChildren(d, year, head, children, today).Some? ==>
      PostChildren(d, year, head, children, today).value.books.next >= base
  {
    if children != [] {
      var m := |children| - 1;
      PostChildrenUp(d, base, step, year, head, children[..m], today);
      if d1 :| PostChildren(d, year, head, children[..m], today) == Some(d1) {
        PostEntriesUp(d1, base, step, children[m].student, year, Entries(children[m], head), today);
      }
    }
  }

  /** A valid ledger has no id to move up from the next one on. */
  lemma NothingToMove(b: Books, step: nat)
    requires Valid(b)
    ensures MovedUp(b, b.next, step) == b.(next := b.next + step)
  {
    var r := MovedUp(b, b.next, step);
    forall k | 0 <= k < |b.lines| ensures r.lines[k] == b.lines[k] {
      assert b.lines[k] in b.lines && Bill(b.invoices, b.lines[k].invoice) in b.invoices;
    }
    forall k | 0 <= k < |b.allocations| ensures r.allocations[k] == b.allocations[k] {
      assert b.allocations[k] in b.allocations && Joins(b, b.allocations[k]);
      assert Bill(b.invoices, b.allocations[k].invoice) in b.invoices
        && Receipt(b.payments, b.allocations[k].payment) in b.payments;
    }
    assert r.invoices == b.invoices && r.payments == b.payments && r.lines == b.lines && r.allocations == b.allocations;
  }

  lemma WithdrawalDrawsNothing(b: Books, year: Year, today: int, w: Books)
    requires Valid(b) && Withdraw(b, year, today) == Some(w)
    ensures Valid(w) && w.next == b.next
  {
    WithdrawKeeps(b, year, today);
    WithdrawLeaves(b, year, today);
  }

  lemma PostedUp(w: Books, year: Year, head: nat, children: seq<Child>, today: int, step: nat)
    requires Valid(w)
    ensures PostChildren(Desk(w.(next := w.next + step), 0, 0), year, head, children, today)
         == DeskUpToo(PostChildren(Desk(w, 0, 0), year, head, children, today), w.next, step)
  {
    NothingToMove(w, step);
    PostChildrenUp(Desk(w, 0, 0), w.next, step, year, head, children, today);
  }

  lemma LoadIs(b: Books, year: Year, head: nat, children: seq<Child>, today: int, w: Books, d: Option<Desk>)
    requires Withdraw(b, year, today) == Some(w) && d == PostChildren(Desk(w, 0, 0), year, head, children, today)
    ensures Load(b, year, head, children, today) == if d.None? then None else Some(d.value.books)
  {
  }

  lemma WithdrawnLater(b: Books, year: Year, today: int, n: nat, later: Books, w: Books, w': Books)
    requires Withdraw(b, year, today) == Some(w) && later == b.(next := n) && w' == w.(next := n)
    ensures Withdraw(later, year, today) == Some(w')
  {
    WithdrawWhateverNext(b, year, today, n);
  }

  lemma LoadedBy(b: Books, year: Year, head: nat, children: seq<Child>, today: int, once: Books)
    returns (w: Books, d: Desk)
    requires Load(b, year, head, children, today) == Some(once)
    ensures Withdraw(b, year, today) == Some(w) && PostChildren(Desk(w, 0, 0), year, head, children, today) == Some(d)
    ensures d.books == once
  {
    w := Withdraw(b, year, today).value;
    d := PostChildren(Desk(w, 0, 0), year, head, children, today).value;
  }

  lemma LoadUp(b: Books, year: Year, head: nat, children: seq<Child>, today: int, step: nat, once: Books, later: Books)
    requires Valid(b) && Load(b, year, head, children, today) == Some(once) && later == b.(next := b.next + step)
    ensures Load(later, year, head, children, today) == Some(MovedUp(once, b.next, step))
  {
    var w, d := LoadedBy(b, year, head, children, today, once);
    var w' := w.(next := w.next + step);
    WithdrawalDrawsNothing(b, year, today, w);
    WithdrawnLater(b, year, today, b.next + step, later, w, w');
    PostedUp(w, year, head, children, today, step);
    LoadIs(later, year, head, children, today, w', Some(DeskUp(d, b.next, step)));
  }

  lemma LoadDrawsOn(b: Books, year: Year, head: nat, register: seq<Child>, today: int, once: Books)
    requires Valid(b) && Load(b, year, head, register, today) == Some(once)
    ensures once.next >= b.next
  {
    var w := Withdraw(b, year, today).value;
    WithdrawalDrawsNothing(b, year, today, w);
    PostChildrenUp(Desk(w, 0, 0), w.next, 0, year, head, register, today);
  }

  /** Loading the same register twice gives exactly the ledger that loading it once gives: the same rows in the same
      order, every bill and receipt with the same number, student, amounts, payments and status, under row ids moved
      up. */
  lemma LoadedTwiceIsOnce(b: Books, year: Year, head: nat, register: seq<Child>, today: int, once: Books)
    returns (step: nat)
    requires Valid(b) && NoStrays(b) && Load(b, year, head, register, today) == Some(once)
    ensures once.next == b.next + step && Load(once, year, head, register, today) == Some(MovedUp(once, b.next, step))
  {
    LoadDrawsOn(b, year, head, register, today, once);
    step := once.next - b.next;
    LoadTwice(b, year, head, register, register, today);
    LoadUp(b, year, head, register, today, step, once, b.(next := once.next));
  }
}
