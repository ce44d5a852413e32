/**
Loading the fee register: withdraw the year, then raise every child's bills
and post every receipt the register records.
*/
module Register {
  import opened Tables
  import opened Books
  import opened Balances
  import opened Withdrawal
  import opened Undo
  import opened Growth
  import opened Waterfall
  import opened Posting

  const BILL_SERIES := "INV/2026-27/"
  const RECEIPT_SERIES := "RCT/2026-27/"
  const FROM_REGISTER := "from the school's fee register"
  const GRACE := 14
  const FIRST_EXTRA := 10

  /** What the register says was paid against one charge. A date typed where the amount goes posts nothing. */
  datatype Cell = Cell(paid: int, isDate: bool, on: int, mode: Mode)

  datatype Extra = Extra(head: nat, amount: int, cell: Cell)

  /** One row of the register, matched to a child. */
  datatype Child = Child(student: nat, fees: seq<int>, concession: int, terms: seq<Cell>, extras: seq<Extra>)

  /** One bill to raise, with the receipt to post against it (nothing when `paid` is not positive). */
  datatype Entry = Entry(instalment: nat, head: nat, amount: int, discount: int, paid: int, on: int, mode: Mode)

  function Posted(c: Cell): int { if c.isDate then 0 else c.paid }

  function TermEntry(c: Child, head: nat, k: nat): Entry
    requires k < |c.fees|
  {
    var cell := if k < |c.terms| then c.terms[k] else Cell(0, false, 0, Adjustment);
    Entry(k + 1, head, c.fees[k], c.fees[k] - Charge(c.fees, NetFee(c.fees, c.concession), k), Posted(cell), cell.on,
          Adjustment)
  }

  function ExtraEntry(c: Child, k: nat): Entry
    requires k < |c.extras|
  {
    var e := c.extras[k];
    Entry(FIRST_EXTRA + k, e.head, e.amount, 0, e.cell.paid, e.cell.on, e.cell.mode)
  }

  function Entries(c: Child, head: nat): seq<Entry>
  {
    seq(|c.fees|, k requires 0 <= k < |c.fees| => TermEntry(c, head, k))
    + seq(|c.extras|, k requires 0 <= k < |c.extras| => ExtraEntry(c, k))
  }

  /** The ledger with the loader's two counters, which start at nothing on every load. */
  datatype Desk = Desk(books: Books, bills: nat, receipts: nat)

  function EntryBill(d: Desk, student: nat, year: Year, e: Entry, today: int): Invoice
  {
    Invoice(0, student, year, DocNo(BILL_SERIES, d.bills + 1), Some(e.instalment), today, Some(today + GRACE),
            e.amount, e.discount, 0, 0, Unpaid)
  }

  function EntryReceipt(d: Desk, student: nat, e: Entry): Payment
  {
    Payment(0, student, Some(DocNo(RECEIPT_SERIES, d.receipts + 1)), e.paid, 0, e.mode, e.on,
            Words(FROM_REGISTER))
  }

  /** Raise the bill, then post the receipt against it. None when a number is taken: the load rolls back. */
  function PostEntry(d: Desk, student: nat, year: Year, e: Entry, today: int): Option<Desk>
  {
    if e.amount <= 0 then Some(d)
    else
      var raised :- RaiseBill(d.books, EntryBill(d, student, year, e, today), Some(e.head));
      if e.paid <= 0 then Some(Desk(raised, d.bills + 1, d.receipts))
      else
        var posted :- PostReceipt(raised, EntryReceipt(d, student, e), d.books.next, today);
        Some(Desk(posted, d.bills + 1, d.receipts + 1))
  }

  function PostEntries(d: Desk, student: nat, year: Year, es: seq<Entry>, today: int): Option<Desk>
  {
    if es == [] then Some(d)
    else
      var d1 :- PostEntries(d, student, year, es[..|es| - 1], today);
      PostEntry(d1, student, year, es[|es| - 1], today)
  }

  function PostChildren(d: Desk, year: Year, head: nat, children: seq<Child>, today: int): Option<Desk>
  {
    if children == [] then Some(d)
    else
      var d1 :- PostChildren(d, year, head, children[..|children| - 1], today);
      var c := children[|children| - 1];
      PostEntries(d1, c.student, year, Entries(c, head), today)
  }

  function Load(b: Books, year: Year, head: nat, children: seq<Child>, today: int): Option<Books>
  {
    var w :- Withdraw(b, year, today);
    var d :- PostChildren(Desk(w, 0, 0), year, head, children, today);
    Some(d.books)
  }

  // --- one entry ------------------------------------------------------------

  /** Every charge the waterfall leaves is discounted within its amount. */
  ghost predicate Sound(e: Entry) { e.amount > 0 ==> 0 <= e.discount <= e.amount }

  lemma EntriesSound(c: Child, head: nat)
    ensures forall e :: e in Entries(c, head) ==> Sound(e)
  {
    forall k | 0 <= k < |c.fees| ensures Sound(TermEntry(c, head, k)) {
      ChargeWithinFee(c.fees, NetFee(c.fees, c.concession), k);
    }
  }

  /** What an entry charges a family, and what it receives from it. */
  function EntryCharges(e: Entry): int { if e.amount > 0 then e.amount - e.discount else 0 }
  function EntryReceives(e: Entry): int { if e.amount > 0 && e.paid > 0 then e.paid else 0 }

  lemma PostEntryKeeps(d: Desk, student: nat, year: Year, e: Entry, today: int)
    requires Valid(d.books) && Sound(e) && PostEntry(d, student, year, e, today).Some?
    ensures Valid(PostEntry(d, student, year, e, today).value.books)
  {
    if e.amount > 0 {
      var row := EntryBill(d, student, year, e, today);
      RaiseBillKeeps(d.books, row, Some(e.head));
      if e.paid > 0 {
        PostReceiptKeeps(RaiseBill(d.books, row, Some(e.head)).value, EntryReceipt(d, student, e), d.books.next, today);
      }
    }
  }

  lemma EntryReceiptIsLoaders(d: Desk, student: nat, e: Entry)
    ensures LoaderWrote(EntryReceipt(d, student, e)) && !Forwards(EntryReceipt(d, student, e))
  {
    assert CARRIED_TO_INV[0] != FROM_REGISTER[0];
  }

  lemma PostEntryGrows(b0: Books, d: Desk, student: nat, year: Year, e: Entry, today: int)
    requires Valid(b0) && Valid(d.books) && Grown(b0, d.books, year) && Sound(e)
    requires PostEntry(d, student, year, e, today).Some?
    ensures Grown(b0, PostEntry(d, student, year, e, today).value.books, year)
  {
    if e.amount > 0 {
      var row := EntryBill(d, student, year, e, today);
      RaiseBillKeeps(d.books, row, Some(e.head));
      RaiseBillGrows(b0, d.books, year, row, Some(e.head));
      if e.paid > 0 {
        EntryReceiptIsLoaders(d, student, e);
        PostReceiptGrows(b0, RaiseBill(d.books, row, Some(e.head)).value, year, EntryReceipt(d, student, e),
                         d.books.next, today);
      }
    }
  }

  lemma PostEntryAccounts(d: Desk, student: nat, year: Year, e: Entry, today: int, family: nat)
    requires Valid(d.books) && Sound(e) && PostEntry(d, student, year, e, today).Some?
    ensures
      var r := PostEntry(d, student, year, e, today).value.books;
      && Charged(r, family) == Charged(d.books, family) + (if family == student then EntryCharges(e) else 0)
      && Received(r, family) == Received(d.books, family) + (if family == student then EntryReceives(e) else 0)
  {
    if e.amount > 0 {
      var row := EntryBill(d, student, year, e, today);
      RaiseBillKeeps(d.books, row, Some(e.head));
      RaiseBillCharges(d.books, row, Some(e.head), family);
      if e.paid > 0 {
        PostReceiptReceives(RaiseBill(d.books, row, Some(e.head)).value, EntryReceipt(d, student, e), d.books.next,
                            today, family);
      }
    }
  }

  // --- a whole register -----------------------------------------------------

  lemma {:induction false} PostEntriesKeeps(b0: Books, d: Desk, student: nat, year: Year, es: seq<Entry>, today: int)
    requires Valid(b0) && Valid(d.books) && Grown(b0, d.books, year)
    requires (forall e :: e in es ==> Sound(e)) && PostEntries(d, student, year, es, today).Some?
    ensures
      var r := PostEntries(d, student, year, es, today).value.books;
      Valid(r) && Grown(b0, r, year)
  {
    if es != [] {
      var m := |es| - 1;
      PostEntriesKeeps(b0, d, student, year, es[..m], today);
      var d1 := PostEntries(d, student, year, es[..m], today).value;
      PostEntryKeeps(d1, student, year, es[m], today);
      PostEntryGrows(b0, d1, student, year, es[m], today);
    }
  }

  lemma {:induction false} PostChildrenKeeps(b0: Books, d: Desk, year: Year, head: nat, children: seq<Child>,
                                             today: int)
    requires Valid(b0) && Valid(d.books) && Grown(b0, d.books, year)
    requires PostChildren(d, year, head, children, today).Some?
    ensures
      var r := PostChildren(d, year, head, children, today).value.books;
      Valid(r) && Grown(b0, r, year)
  {
    if children != [] {
      var m := |children| - 1;
      PostChildrenKeeps(b0, d, year, head, children[..m], today);
      EntriesSound(children[m], head);
      PostEntriesKeeps(b0, PostChildren(d, year, head, children[..m], today).value, children[m].student, year,
                       Entries(children[m], head), today);
    }
  }

  lemma LoadKeeps(b: Books, year: Year, head: nat, children: seq<Child>, today: int)
    requires Valid(b) && Load(b, year, head, children, today).Some?
    ensures Valid(Load(b, year, head, children, today).value)
  {
    WithdrawKeeps(b, year, today);
    var w := Withdraw(b, year, today).value;
    GrownFromItself(w, year);
    PostChildrenKeeps(w, Desk(w, 0, 0), year, head, children, today);
  }

  // --- what a register charges and receives ---------------------------------

  function Charging(): Entry -> int { (e: Entry) => EntryCharges(e) }
  function Receiving(): Entry -> int { (e: Entry) => EntryReceives(e) }
  function ExtraFee(): Extra -> int { (x: Extra) => Max(0, x.amount) }

  function EntriesCharge(es: seq<Entry>): int { Sum(es, Charging()) }
  function EntriesReceive(es: seq<Entry>): int { Sum(es, Receiving()) }

  function ChildCharges(family: nat, head: nat): Child -> int
  {
    (c: Child) => if c.student == family then EntriesCharge(Entries(c, head)) else 0
  }

  function ChildReceives(family: nat, head: nat): Child -> int
  {
    (c: Child) => if c.student == family then EntriesReceive(Entries(c, head)) else 0
  }

  lemma {:induction false} PostEntriesAccounts(b0: Books, d: Desk, student: nat, year: Year, es: seq<Entry>, today: int,
                                               family: nat)
    requires Valid(b0) && Valid(d.books) && Grown(b0, d.books, year)
    requires (forall e :: e in es ==> Sound(e)) && PostEntries(d, student, year, es, today).Some?
    ensures
      var r := PostEntries(d, student, year, es, today).value.books;
      && Charged(r, family) == Charged(d.books, family) + (if family == student then EntriesCharge(es) else 0)
      && Received(r, family) == Received(d.books, family) + (if family == student then EntriesReceive(es) else 0)
  {
    if es != [] {
      var m := |es| - 1;
      PostEntriesAccounts(b0, d, student, year, es[..m], today, family);
      PostEntriesKeeps(b0, d, student, year, es[..m], today);
      PostEntryAccounts(PostEntries(d, student, year, es[..m], today).value, student, year, es[m], today, family);
    }
  }

  /** A load changes each family's account by its own bills and its own receipts. */
  lemma {:induction false} PostChildrenAccounts(b0: Books, d: Desk, year: Year, head: nat, children: seq<Child>,
                                                today: int, family: nat)
    requires Valid(b0) && Valid(d.books) && Grown(b0, d.books, year)
    requires PostChildren(d, year, head, children, today).Some?
    ensures
      var r := PostChildren(d, year, head, children, today).value.books;
      && Charged(r, family) == Charged(d.books, family) + Sum(children, ChildCharges(family, head))
      && Received(r, family) == Received(d.books, family) + Sum(children, ChildReceives(family, head))
  {
    if children != [] {
      var m := |children| - 1;
      var c := children[m];
      PostChildrenAccounts(b0, d, year, head, children[..m], today, family);
      PostChildrenKeeps(b0, d, year, head, children[..m], today);
      EntriesSound(c, head);
      PostEntriesAccounts(b0, PostChildren(d, year, head, children[..m], today).value, c.student, year,
                          Entries(c, head), today, family);
    }
  }

  function TermsTo(c: Child, head: nat, n: nat): seq<Entry>
    requires n <= |c.fees|
  {
    seq(n, k requires 0 <= k < n => TermEntry(c, head, k))
  }

  lemma {:induction false} TermsCharge(c: Child, head: nat, n: nat)
    requires NonNegative(c.fees) && n <= |c.fees|
    ensures EntriesCharge(TermsTo(c, head, n)) == ChargedTo(c.fees, NetFee(c.fees, c.concession), n)
  {
    if n > 0 {
      TermsCharge(c, head, n - 1);
      assert TermsTo(c, head, n)[..n - 1] == TermsTo(c, head, n - 1);
      ChargeWithinFee(c.fees, NetFee(c.fees, c.concession), n - 1);
    }
  }

  function ExtrasTo(c: Child, n: nat): seq<Entry>
    requires n <= |c.extras|
  {
    seq(n, k requires 0 <= k < n => ExtraEntry(c, k))
  }

  lemma {:induction false} ExtrasCharge(c: Child, n: nat)
    requires n <= |c.extras|
    ensures EntriesCharge(ExtrasTo(c, n)) == Sum(c.extras[..n], ExtraFee())
  {
    if n > 0 {
      ExtrasCharge(c, n - 1);
      assert ExtrasTo(c, n)[..n - 1] == ExtrasTo(c, n - 1);
      assert c.extras[..n][..n - 1] == c.extras[..n - 1];
    }
  }

  /** A child's year comes to the fee less the concession, never less than nothing, and the extras in full. */
  lemma ChildYear(c: Child, head: nat)
    requires NonNegative(c.fees) && c.concession >= 0
    ensures EntriesCharge(Entries(c, head)) == Max(0, Total(c.fees) - c.concession) + Sum(c.extras, ExtraFee())
  {
    WholeYear(c.fees, c.concession);
    TermsCharge(c, head, |c.fees|);
    ExtrasCharge(c, |c.extras|);
    assert c.extras[..|c.extras|] == c.extras;
    var terms := TermsTo(c, head, |c.fees|);
    var extras := ExtrasTo(c, |c.extras|);
    assert Entries(c, head) == terms + extras;
    SumConcat(terms, extras, Charging());
  }
}
