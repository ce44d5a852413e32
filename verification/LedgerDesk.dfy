/**
The ledger as the programs work on it: tables that statements rewrite, and the
programs' own loops and running counters over them. Each program leaves the
tables as its specification says, or, when it stops, as they were: every run is
one transaction.
*/
module LedgerDesk {
  import opened Tables
  import opened Books
  import opened Balances
  import opened Withdrawal
  import opened Waterfall
  import opened Posting
  import opened Register
  import opened Arrears
  import opened TermRun
  import opened BillingChild
  import opened BillingRun
  import AppFee
  import AppFeeRun
  import Transport
  import TransportRun
  import AnnualDiscount

  /** Once an entry is refused the rest of the load is. */
  lemma {:induction false} FailedStays(d: Desk, student: nat, year: Year, es: seq<Entry>, n: nat, today: int)
    requires n <= |es| && PostEntries(d, student, year, es[..n], today) == None
    ensures PostEntries(d, student, year, es, today) == None
  {
    if n < |es| {
      assert es[..|es| - 1][..n] == es[..n];
      FailedStays(d, student, year, es[..|es| - 1], n, today);
    } else {
      assert es[..n] == es;
    }
  }

  lemma OneMoreEntry(d: Desk, student: nat, year: Year, es: seq<Entry>, e: Entry, today: int, so: Option<Desk>,
                     more: seq<Entry>)
    requires PostEntries(d, student, year, es, today) == so && more == es + [e]
    ensures PostEntries(d, student, year, more, today) == if so.None? then None
                                                          else PostEntry(so.value, student, year, e, today)
  {
    assert more[..|es|] == es;
  }

  lemma TermsOneMore(c: Child, head: nat, k: nat, e: Entry)
    requires k < |c.fees| && e == TermEntry(c, head, k)
    ensures TermsTo(c, head, k + 1) == TermsTo(c, head, k) + [e]
  {
  }

  lemma ThroughOneMore(c: Child, head: nat, k: nat, e: Entry)
    requires k < |c.extras| && e == ExtraEntry(c, k)
    ensures TermsTo(c, head, |c.fees|) + ExtrasTo(c, k + 1) == TermsTo(c, head, |c.fees|) + ExtrasTo(c, k) + [e]
  {
  }

  /** One term: it charges its fee or what is left of the net fee, and the rest of the fee is its discount. */
  method ChargeTerm(c: Child, head: nat, k: nat, left: int) returns (e: Entry, left': int)
    requires k < |c.fees| && left == Left(c.fees, NetFee(c.fees, c.concession), k)
    ensures e == TermEntry(c, head, k) && left' == Left(c.fees, NetFee(c.fees, c.concession), k + 1)
  {
    var charge := c.fees[k];
    if charge > left {
      charge := left;
    }
    left' := left - charge;
    var cell := if k < |c.terms| then c.terms[k] else Cell(0, false, 0, Adjustment);
    e := Entry(k + 1, head, c.fees[k], c.fees[k] - charge, if cell.isDate then 0 else cell.paid, cell.on, Adjustment);
  }

  /** Once nothing is owed, the rest of the credits give nothing. */
  lemma {:induction false} SettledEarly(b: Books, bill: nat, credits: seq<Payment>, asked: int, today: int, k: nat,
                                        n: nat)
    requires k <= n <= |credits| && NonNegative(AppFee.LeftOn(credits))
    requires k < n ==> Left(AppFee.LeftOn(credits), asked, k) == 0
    ensures AppFee.SettleTo(b, bill, credits, asked, today, n) == AppFee.SettleTo(b, bill, credits, asked, today, k)
    ensures Left(AppFee.LeftOn(credits), asked, n) == Left(AppFee.LeftOn(credits), asked, k)
  {
    if k < n {
      SettledEarly(b, bill, credits, asked, today, k, n - 1);
    }
  }

  /** What closing a bill leaves: the bill totalled, or gone when it came to no line. */
  function ClosedBill(b: Books, bill: nat, today: int): Option<Books>
  {
    var r := RecomputeHeaders(b, {bill});
    if HasLines(r, bill) then Some(r) else DeleteInvoices(r, {bill}, today)
  }

  lemma BillChildIs(f: FeeBook, b: Books, student: nat, year: Year, instalment: nat, items: seq<Item>, today: int)
    ensures WithOwnLines(f, b, student, year, instalment, items, today) == None ==>
      BillChild(f, b, student, year, instalment, items, today) == None
    ensures WithOwnLines(f, b, student, year, instalment, items, today).Some? ==>
      var b2 := WithOwnLines(f, b, student, year, instalment, items, today).value;
      var b3 := CarryArrears(b2, student, year, b.next, NewBill(f, b, student, year, instalment, today).no,
                             f.arrearsHead, today);
      BillChild(f, b, student, year, instalment, items, today) == if b3.None? then None
      else ClosedBill(b3.value, b.next, today)
  {
  }

  lemma OneMoreChild(f: FeeBook, b: Books, children: seq<Enrolment>, k: nat, year: Year, instalment: nat,
                     items: seq<Item>, today: int, so: Option<Books>)
    requires k < |children| && BillChildren(f, b, children[..k], year, instalment, items, today) == so
    ensures BillChildren(f, b, children[..k + 1], year, instalment, items, today)
         == if so.None? then None else BillChild(f, so.value, children[k].student, year, instalment, items, today)
  {
    assert children[..k + 1][..k] == children[..k];
  }

  lemma OneMoreCarried(b: Books, student: nat, bill: nat, no: DocNo, head: nat, olds: seq<Invoice>, k: nat, today: int,
                       b1: Books)
    requires k < |olds| && CarryAll(b, student, bill, no, head, olds[..k], today) == Some(b1)
    ensures CarryAll(b, student, bill, no, head, olds[..k + 1], today)
      == CarryOne(b1, student, bill, no, head, olds[k], today)
    ensures Moved(olds[..k + 1]) == Moved(olds[..k]) + olds[k].Balance()
  {
    assert olds[..k + 1][..k] == olds[..k];
  }

  method ChooseSlab(notes: seq<Transport.Note>) returns (slab: Transport.Slab)
    ensures slab == Transport.SlabOf(notes)
  {
    slab := Transport.NEAR;
    for k := 0 to |notes|
      invariant slab == if exists j :: 0 <= j < k && notes[j].term == 1 && notes[j].amount > Transport.NEAR_FIRST
        then Transport.FAR else Transport.NEAR
    {
      if notes[k].term == 1 && notes[k].amount > Transport.NEAR_FIRST {
        slab := Transport.FAR;
      }
    }
  }

  class Ledger {
    var invoices: seq<Invoice>
    var lines: seq<Line>
    var payments: seq<Payment>
    var allocations: seq<Allocation>
    var carries: seq<Carry>
    var next: nat
    var serial: nat
    var concessions: seq<Concession>

    function Contents(): Books
      reads this
    {
      Books(invoices, lines, payments, allocations, carries, next, serial)
    }

    ghost predicate Sound()
      reads this
    {
      Valid(Contents())
    }

    constructor ()
      ensures Sound() && Contents() == Books([], [], [], [], [], 0, 0) && concessions == []
    {
      invoices, lines, payments, allocations, carries, next, serial, concessions := [], [], [], [], [], 0, 0, [];
    }

    /** The tables as a statement, or a rollback, leaves them. */
    method Put(b: Books)
      modifies this
      ensures Contents() == b && concessions == old(concessions)
    {
      invoices, lines, payments, allocations, carries, next, serial :=
        b.invoices, b.lines, b.payments, b.allocations, b.carries, b.next, b.serial;
    }

    // --- raising and paying -------------------------------------------------

    method Raise(row: Invoice, head: Option<nat>) returns (ok: bool)
      modifies this
      ensures concessions == old(concessions)
      ensures RaiseBill(old(Contents()), row, head) == if ok then Some(Contents()) else None
      ensures !ok ==> Contents() == old(Contents())
    {
      if NumberTaken(Contents(), row.no) {
        return false;
      }
      invoices := invoices + [row.(id := next)];
      lines := lines + [Line(next, head, row.gross, row.discount)];
      next := next + 1;
      return true;
    }

    method Pay(row: Payment, bill: nat, today: int) returns (ok: bool)
      modifies this
      ensures concessions == old(concessions)
      ensures PostReceipt(old(Contents()), row, bill, today) == if ok then Some(Contents()) else None
      ensures !ok ==> Contents() == old(Contents())
    {
      if row.receipt.Some? && ReceiptTaken(Contents(), row.receipt.value) {
        return false;
      }
      var target := FindBill(invoices, bill);
      if target == None {
        return false;
      }
      var receipt := next;
      payments := payments + [row.(id := receipt)];
      next := next + 1;
      var alloc := row.amount;
      if alloc > target.value.Balance() {
        alloc := target.value.Balance();
      }
      if alloc > 0 {
        Put(Allocate(Contents(), Allocation(receipt, bill, alloc), today));
        payments := Each(payments, SetDrawn(receipt, alloc));
      }
      return true;
    }

    // --- the register -------------------------------------------------------

    method WithdrawYear(year: Year, today: int) returns (ok: bool)
      requires Sound()
      modifies this
      ensures Sound() && concessions == old(concessions)
      ensures Withdraw(old(Contents()), year, today) == if ok then Some(Contents()) else None
      ensures !ok ==> Contents() == old(Contents())
    {
      var before := Contents();
      var bills := YearBills(before, year);
      var settled := CarryPayments(before, bills);
      carries := Where(carries, Not(CarryGone(bills)));
      Put(DeleteAllocations(Contents(), OfPayments(settled), today));
      var swept := DeletePayments(Contents(), LeftOvers(Contents()), today);
      if swept == None {
        Put(before);
        return false;
      }
      var billed := DeleteInvoices(swept.value, bills, today);
      if billed == None {
        Put(before);
        return false;
      }
      var receipted := DeletePayments(billed.value, LoaderReceipts(billed.value), today);
      if receipted == None {
        Put(before);
        return false;
      }
      Put(receipted.value);
      WithdrawKeeps(before, year, today);
      return true;
    }

    method Enter(student: nat, year: Year, e: Entry, bills: nat, receipts: nat, today: int)
      returns (ok: bool, bills': nat, receipts': nat)
      modifies this
      ensures concessions == old(concessions)
      ensures PostEntry(Desk(old(Contents()), bills, receipts), student, year, e, today) == if ok
        then Some(Desk(Contents(), bills', receipts')) else None
    {
      ok, bills', receipts' := true, bills, receipts;
      if e.amount <= 0 {
        return;
      }
      var bill := next;
      bills' := bills + 1;
      ok := Raise(EntryBill(Desk(Contents(), bills, receipts), student, year, e, today), Some(e.head));
      if ok && e.paid > 0 {
        receipts' := receipts + 1;
        ok := Pay(EntryReceipt(Desk(Contents(), bills, receipts), student, e), bill, today);
      }
    }

    /** One child's terms, the concession eating them from the back. */
    method EnterTerms(c: Child, year: Year, head: nat, bills: nat, receipts: nat, today: int)
      returns (ok: bool, bills': nat, receipts': nat)
      modifies this
      ensures concessions == old(concessions)
      ensures PostEntries(Desk(old(Contents()), bills, receipts), c.student, year, TermsTo(c, head, |c.fees|), today)
              == if ok then Some(Desk(Contents(), bills', receipts')) else None
    {
      ghost var start := Desk(Contents(), bills, receipts);
      ok, bills', receipts' := true, bills, receipts;
      var net := Total(c.fees) - c.concession;
      if net < 0 {
        net := 0;
      }
      assert net == NetFee(c.fees, c.concession);
      var left := net;
      for k := 0 to |c.fees|
        invariant concessions == old(concessions) && left == Left(c.fees, net, k)
        invariant PostEntries(start, c.student, year, TermsTo(c, head, k), today) == if ok
          then Some(Desk(Contents(), bills', receipts')) else None
      {
        var e: Entry;
        e, left := ChargeTerm(c, head, k, left);
        TermsOneMore(c, head, k, e);
        OneMoreEntry(start, c.student, year, TermsTo(c, head, k), e, today,
                     if ok then Some(Desk(Contents(), bills', receipts')) else None, TermsTo(c, head, k + 1));
        if ok {
          ok, bills', receipts' := Enter(c.student, year, e, bills', receipts', today);
        }
      }
    }

    method EnterExtras(c: Child, year: Year, head: nat, ghost start: Desk, bills: nat, receipts: nat, today: int)
      returns (ok: bool, bills': nat, receipts': nat)
      requires PostEntries(start, c.student, year, TermsTo(c, head, |c.fees|), today)
        == Some(Desk(Contents(), bills, receipts))
      modifies this
      ensures concessions == old(concessions)
      ensures PostEntries(start, c.student, year, Entries(c, head), today) == if ok
        then Some(Desk(Contents(), bills', receipts')) else None
    {
      ok, bills', receipts' := true, bills, receipts;
      assert TermsTo(c, head, |c.fees|) + ExtrasTo(c, 0) == TermsTo(c, head, |c.fees|);
      for k := 0 to |c.extras|
        invariant concessions == old(concessions)
        invariant PostEntries(start, c.student, year, TermsTo(c, head, |c.fees|) + ExtrasTo(c, k), today)
                  == if ok then Some(Desk(Contents(), bills', receipts')) else None
      {
        var x := c.extras[k];
        var e := Entry(FIRST_EXTRA + k, x.head, x.amount, 0, x.cell.paid, x.cell.on, x.cell.mode);
        ThroughOneMore(c, head, k, e);
        OneMoreEntry(start, c.student, year, TermsTo(c, head, |c.fees|) + ExtrasTo(c, k), e, today,
                     if ok then Some(Desk(Contents(), bills', receipts'))
                     else None, TermsTo(c, head, |c.fees|) + ExtrasTo(c, k + 1));
        if ok {
          ok, bills', receipts' := Enter(c.student, year, e, bills', receipts', today);
        }
      }
      assert TermsTo(c, head, |c.fees|) + ExtrasTo(c, |c.extras|) == Entries(c, head);
    }

    method EnterChild(c: Child, year: Year, head: nat, bills: nat, receipts: nat, today: int)
      returns (ok: bool, bills': nat, receipts': nat)
      modifies this
      ensures concessions == old(concessions)
      ensures PostEntries(Desk(old(Contents()), bills, receipts), c.student, year, Entries(c, head), today)
              == if ok then Some(Desk(Contents(), bills', receipts')) else None
    {
      ghost var start := Desk(Contents(), bills, receipts);
      assert Entries(c, head)[..|c.fees|] == TermsTo(c, head, |c.fees|);
      ok, bills', receipts' := EnterTerms(c, year, head, bills, receipts, today);
      if ok {
        ok, bills', receipts' := EnterExtras(c, year, head, start, bills', receipts', today);
      } else {
        FailedStays(start, c.student, year, Entries(c, head), |c.fees|, today);
      }
    }

    method LoadRegister(year: Year, head: nat, children: seq<Child>, today: int) returns (ok: bool)
      requires Sound()
      modifies this
      ensures Sound() && concessions == old(concessions)
      ensures Load(old(Contents()), year, head, children, today) == if ok then Some(Contents()) else None
      ensures !ok ==> Contents() == old(Contents())
    {
      var before := Contents();
      ok := WithdrawYear(year, today);
      if !ok {
        return;
      }
      ghost var start := Desk(Contents(), 0, 0);
      var bills, receipts := 0, 0;
      for k := 0 to |children|
        invariant concessions == old(concessions)
        invariant PostChildren(start, year, head, children[..k], today) == if ok
          then Some(Desk(Contents(), bills, receipts)) else None
      {
        assert children[..k + 1][..k] == children[..k];
        if ok {
          ok, bills, receipts := EnterChild(children[k], year, head, bills, receipts, today);
        }
      }
      assert children[..|children|] == children;
      if ok {
        LoadKeeps(before, year, head, children, today);
      } else {
        Put(before);
      }
    }

    // --- a term's billing ---------------------------------------------------

    /** One old bill: the line, the adjustment, its allocation and the record. */
    method CarryBill(student: nat, bill: nat, no: DocNo, head: nat, old': Invoice, today: int)
      modifies this
      ensures concessions == old(concessions)
      ensures CarryOne(old(Contents()), student, bill, no, head, old', today) == Some(Contents())
    {
      var balance := old'.Net() - old'.paid;
      lines := lines + [Line(bill, Some(head), balance, 0)];
      var adjustment := next;
      payments := payments + [Payment(adjustment, student, None, balance, 0, Adjustment, today, CarriedForwardTo(no))];
      next := next + 1;
      Put(Allocate(Contents(), Allocation(adjustment, old'.id, balance), today));
      carries := carries + [Carry(old'.id, bill, adjustment, balance)];
    }

    /** Every unpaid balance of an earlier year, in the order it fell due; what was moved in all. */
    method BringArrears(student: nat, year: Year, bill: nat, no: DocNo, head: nat, today: int) returns (moved: int)
      modifies this
      ensures concessions == old(concessions) && moved == Moved(ArrearsFor(old(Contents()), student, year))
      ensures CarryArrears(old(Contents()), student, year, bill, no, head, today) == Some(Contents())
    {
      ghost var before := Contents();
      var olds := ArrearsFor(Contents(), student, year);
      moved := 0;
      for k := 0 to |olds|
        invariant concessions == old(concessions) && moved == Moved(olds[..k])
        invariant CarryAll(before, student, bill, no, head, olds[..k], today) == Some(Contents())
      {
        OneMoreCarried(before, student, bill, no, head, olds, k, today, Contents());
        CarryBill(student, bill, no, head, olds[k], today);
        moved := moved + olds[k].Balance();
      }
      assert olds[..|olds|] == olds;
    }

    /** A number is drawn and an empty bill raised under it, with the child's own lines. */
    method OpenBill(f: FeeBook, student: nat, year: Year, instalment: nat, items: seq<Item>, today: int)
      returns (ok: bool, no: DocNo)
      modifies this
      ensures concessions == old(concessions) && no == NewBill(f, old(Contents()), student, year, instalment, today).no
      ensures WithOwnLines(f, old(Contents()), student, year, instalment, items, today) == if ok then Some(Contents())
      else None
    {
      serial := serial + 1;
      no := DocNo(f.series, serial);
      if NumberTaken(Contents(), no) {
        return false, no;
      }
      var bill := next;
      invoices :=
        invoices + [Invoice(bill, student, year, no, Some(instalment), today, Some(today + TermRun.GRACE), 0, 0, 0, 0,
                            Unpaid)];
      next := next + 1;
      lines := lines + OwnLines(f, student, year, bill, items);
      return true, no;
    }

    /** The bill's header is totalled; a bill that came to no line is withdrawn. */
    method CloseBill(bill: nat, today: int) returns (ok: bool)
      modifies this
      ensures concessions == old(concessions)
      ensures ClosedBill(old(Contents()), bill, today) == if ok then Some(Contents()) else None
    {
      Put(RecomputeHeaders(Contents(), {bill}));
      if HasLines(Contents(), bill) {
        return true;
      }
      var withdrawn := DeleteInvoices(Contents(), {bill}, today);
      if withdrawn == None {
        return false;
      }
      Put(withdrawn.value);
      return true;
    }

    method BillForTerm(f: FeeBook, student: nat, year: Year, instalment: nat, items: seq<Item>, today: int)
      returns (ok: bool, moved: int)
      modifies this
      ensures concessions == old(concessions)
      ensures BillChild(f, old(Contents()), student, year, instalment, items, today) == if ok then Some(Contents())
      else None
    {
      var no;
      var bill := next;
      moved := 0;
      BillChildIs(f, Contents(), student, year, instalment, items, today);
      ok, no := OpenBill(f, student, year, instalment, items, today);
      if ok {
        moved := BringArrears(student, year, bill, no, f.arrearsHead, today);
        ok := CloseBill(bill, today);
      }
    }

    method BillStructure(f: FeeBook, s: Structure, year: Year, instalment: nat, today: int)
      returns (ok: bool, arrears: int)
      modifies this
      ensures concessions == old(concessions)
      ensures RunStructure(f, old(Contents()), s, year, instalment, today) == if ok then Some(Contents()) else None
    {
      var items := Priced(s, instalment);
      ok, arrears := true, 0;
      if items == [] {
        return;
      }
      ghost var before := Contents();
      var children := Where(f.enrolments, Selects(Contents(), s, year, instalment));
      for k := 0 to |children|
        invariant concessions == old(concessions)
        invariant BillChildren(f, before, children[..k], year, instalment, items, today) == if ok then Some(Contents())
        else None
      {
        OneMoreChild(f, before, children, k, year, instalment, items, today, if ok then Some(Contents()) else None);
        if ok {
          var moved;
          ok, moved := BillForTerm(f, children[k].student, year, instalment, items, today);
          arrears := arrears + moved;
        }
      }
      assert children[..|children|] == children;
    }

    method RaiseTerm(f: FeeBook, year: Year, instalment: nat, today: int) returns (ok: bool)
      requires Sound()
      modifies this
      ensures Sound() && concessions == old(concessions)
      ensures Run(f, old(Contents()), year, instalment, today) == if ok then Some(Contents()) else None
      ensures !ok ==> Contents() == old(Contents())
    {
      if |f.structures| != EXPECTED_STRUCTURES {
        return false;
      }
      var before := Contents();
      ok := true;
      for k := 0 to |f.structures|
        invariant concessions == old(concessions)
        invariant RunStructures(f, before, f.structures[..k], year, instalment, today) == if ok then Some(Contents())
        else None
      {
        assert f.structures[..k + 1][..k] == f.structures[..k];
        if ok {
          var arrears;
          ok, arrears := BillStructure(f, f.structures[k], year, instalment, today);
        }
      }
      assert f.structures[..|f.structures|] == f.structures;
      if ok {
        RunBillsEveryone(f, before, year, instalment, today, Contents());
      } else {
        Put(before);
      }
    }

    // --- the application fee ------------------------------------------------

    /** Each credit in turn gives what it has, up to what is still owed. */
    method TakeCredits(bill: nat, credits: seq<Payment>, asked: int, today: int) returns (owed: int)
      requires NonNegative(AppFee.LeftOn(credits)) && asked >= 0
      modifies this
      ensures concessions == old(concessions) && owed == Left(AppFee.LeftOn(credits), asked, |credits|)
      ensures Contents() == AppFee.SettleTo(old(Contents()), bill, credits, asked, today, |credits|)
    {
      ghost var before := Contents();
      owed := asked;
      var k := 0;
      while k < |credits| && owed > 0
        invariant 0 <= k <= |credits| && concessions == old(concessions)
        invariant owed == Left(AppFee.LeftOn(credits), asked, k) && owed >= 0
        invariant Contents() == AppFee.SettleTo(before, bill, credits, asked, today, k)
      {
        var take := credits[k].Left();
        if take > owed {
          take := owed;
        }
        assert take == Charge(AppFee.LeftOn(credits), asked, k);
        Put(Allocate(Contents(), Allocation(credits[k].id, bill, take), today));
        owed := owed - take;
        k := k + 1;
      }
      SettledEarly(before, bill, credits, asked, today, k, |credits|);
    }

    /** What a bill asks for, taken from the family's receipts, oldest first. */
    method SettleFromCredit(student: nat, bill: nat, asked: int, today: int) returns (owed: int)
      requires Sound() && AppFee.Awaiting(Contents(), student, bill, asked)
      modifies this
      ensures concessions == old(concessions)
      ensures Contents() == AppFee.Settle(old(Contents()), student, bill, asked, today)
      ensures owed == Max(0, asked - Credit(old(Contents()), student))
    {
      var credits := AppFee.Credits(Contents(), student);
      AppFee.CreditsAre(Contents(), student);
      AppFee.LeftsNonNegative(Contents(), credits, student);
      AppFee.CreditIsTotal(Contents(), student);
      LeftClosed(AppFee.LeftOn(credits), asked, |credits|);
      owed := TakeCredits(bill, credits, asked, today);
    }

    /** One child: the bill, and what its family has in credit; what is still owing on it. */
    method ChargeApplicant(student: nat, year: Year, head: nat, seq': nat, today: int) returns (ok: bool, owed: int)
      requires Sound()
      modifies this
      ensures concessions == old(concessions)
      ensures AppFee.ChargeFee(old(Contents()), student, year, head, seq', today) == if ok then Some(Contents())
      else None
      ensures ok ==> owed == Max(0, AppFee.FEE - Credit(old(Contents()), student))
    {
      ghost var before := Contents();
      var bill := next;
      owed := 0;
      ok := Raise(AppFee.FeeBill(student, year, seq', today), Some(head));
      if ok {
        AppFeeRun.NewBillAwaits(before, student, year, head, seq', today, Contents());
        owed := SettleFromCredit(student, bill, AppFee.FEE, today);
      }
    }

    /** Every child admitted this year who has no bill under the head. */
    method ChargeApplicationFees(admitted: seq<nat>, year: Year, head: nat, today: int)
      returns (ok: bool, settled: nat, owing: nat)
      requires Sound()
      modifies this
      ensures Sound() && concessions == old(concessions)
      ensures AppFee.RunFees(old(Contents()), admitted, year, head, today) == if ok then Some(Contents()) else None
      ensures !ok ==> Contents() == old(Contents())
    {
      var before := Contents();
      var kids := Where(admitted, AppFee.Unbilled(Contents(), year, head));
      ok, settled, owing := true, 0, 0;
      for k := 0 to |kids|
        invariant concessions == old(concessions) && (ok ==> Sound())
        invariant AppFee.ChargeFees(before, kids[..k], year, head, today) == if ok then Some(Contents()) else None
      {
        assert kids[..k + 1][..k] == kids[..k];
        if ok {
          var owed;
          ok, owed := ChargeApplicant(kids[k], year, head, k + 1, today);
          if ok {
            AppFeeRun.ChargeFeesDo(before, kids[..k + 1], year, head, today, Contents());
            if owed == 0 {
              settled := settled + 1;
            } else {
              owing := owing + 1;
            }
          }
        }
      }
      assert kids[..|kids|] == kids;
      if !ok {
        Put(before);
      }
    }

    // --- the bus fare -------------------------------------------------------

    method RaiseInstalments(student: nat, year: Year, head: nat, slab: Transport.Slab, bills: nat, receipts: nat,
                            today: int) returns (ok: bool)
      modifies this
      ensures concessions == old(concessions)
      ensures Transport.RaiseBoth(Desk(old(Contents()), bills, receipts), student, year, head, slab, today) == if ok
        then Some(Contents()) else None
    {
      ok := Raise(Transport.BusBill(student, year, bills + 1, 0, slab.first, today), Some(head));
      if ok {
        ok := Raise(Transport.BusBill(student, year, bills + 2, 1, slab.second, today), Some(head));
      }
    }

    method PostNotes(student: nat, first: nat, notes: seq<Transport.Note>, bills: nat, receipts: nat, today: int)
      returns (ok: bool, receipts': nat)
      modifies this
      ensures concessions == old(concessions)
      ensures Transport.PostNotes(Desk(old(Contents()), bills, receipts), student, first, notes, today)
              == if ok then Some(Desk(Contents(), bills, receipts')) else None
    {
      ghost var start := Desk(Contents(), bills, receipts);
      ok, receipts' := true, receipts;
      for k := 0 to |notes|
        invariant concessions == old(concessions)
        invariant Transport.PostNotes(start, student, first, notes[..k], today) == if ok
          then Some(Desk(Contents(), bills, receipts')) else None
      {
        assert notes[..k + 1][..k] == notes[..k];
        if ok && notes[k].amount != 0 {
          receipts' := receipts' + 1;
          ok := Pay(Transport.BusReceipt(student, receipts', notes[k]), if notes[k].term >= 2 then first + 1
                    else first, today);
        }
      }
      assert notes[..|notes|] == notes;
    }

    method PutOnBus(r: Transport.Rider, year: Year, head: nat, bills: nat, receipts: nat, today: int)
      returns (ok: bool, bills': nat, receipts': nat)
      modifies this
      ensures concessions == old(concessions)
      ensures Transport.BillRider(Desk(old(Contents()), bills, receipts), r, year, head, today)
              == if ok then Some(Desk(Contents(), bills', receipts')) else None
    {
      ok, bills', receipts' := true, bills, receipts;
      if r.notes == [] || AppFee.BilledUnder(Contents(), r.student, year, head) {
        return;
      }
      var slab := ChooseSlab(r.notes);
      var first := next;
      bills' := bills + 2;
      ok := RaiseInstalments(r.student, year, head, slab, bills, receipts, today);
      if ok {
        ok, receipts' := PostNotes(r.student, first, r.notes, bills', receipts, today);
      }
    }

    method LoadTransport(riders: seq<Transport.Rider>, year: Year, head: nat, today: int) returns (ok: bool)
      requires Sound()
      modifies this
      ensures Sound() && concessions == old(concessions)
      ensures Transport.RunTransport(old(Contents()), riders, year, head, today) == if ok then Some(Contents())
      else None
      ensures !ok ==> Contents() == old(Contents())
    {
      var before := Contents();
      ghost var start := Desk(before, 0, 0);
      var bills, receipts := 0, 0;
      ok := true;
      for k := 0 to |riders|
        invariant concessions == old(concessions)
        invariant Transport.BillRiders(start, riders[..k], year, head, today) == if ok
          then Some(Desk(Contents(), bills, receipts)) else None
      {
        assert riders[..k + 1][..k] == riders[..k];
        if ok {
          ok, bills, receipts := PutOnBus(riders[k], year, head, bills, receipts, today);
        }
      }
      assert riders[..|riders|] == riders;
      if ok {
        TransportRun.RunTransportDoes(before, riders, year, head, today, Contents(), 0);
      } else {
        Put(before);
      }
    }

    // --- the annual discount ------------------------------------------------

    ghost function Given(): AnnualDiscount.Promised
      reads this
    {
      AnnualDiscount.Promised(Contents(), concessions)
    }

    /** Sound afterwards exactly when no part-paid bill was discounted by more than it still owed. */
    method LoadConcessions(structures: seq<Structure>, grants: seq<AnnualDiscount.Grant>, year: Year, head: nat)
      returns (ok: bool, made: nat)
      requires Sound()
      modifies this
      ensures AnnualDiscount.RunDiscounts(old(Given()), structures, grants, year, head) == if ok then Some(Given())
      else None
      ensures !ok ==> Given() == old(Given())
      ensures ok && grants != [] ==>
        (Sound() <==> AnnualDiscount.RoomFor(old(Contents()), year, head,
                        AnnualDiscount.Per(old(concessions), grants, year, head,
                                           AnnualDiscount.TermsOf(structures, head))))
    {
      ghost var before := Given();
      var terms := AnnualDiscount.TermsOf(structures, head);
      made := 0;
      if terms == 0 && grants != [] {
        return false, 0;
      }
      for k := 0 to |grants|
        invariant Given() == if k == 0 then before else AnnualDiscount.GiveAll(before, grants[..k], year, head, terms)
      {
        assert grants[..k + 1][..k] == grants[..k];
        var student := grants[k].student;
        var perTerm := grants[k].annual / terms;
        if !AnnualDiscount.Has(concessions, student, year, head) {
          lines := Each(lines,
                        AnnualDiscount.Discounted(AnnualDiscount.OpenBills(Contents(), student, year), head, perTerm));
          concessions := concessions + [Concession(student, year, Some(head), Some(perTerm), None, true)];
          made := made + 1;
        }
      }
      assert grants[..|grants|] == grants;
      var b := Contents();
      invoices := Each(invoices, Rehead(lines, YearBills(b, year)));
      if grants != [] {
        AnnualDiscount.RunDiscountsKeeps(before, structures, grants, year, head, Given(), terms);
      }
      return true, made;
    }
  }
}
