/**
A bill whose debt was carried onward owes nothing: through every run that bills
and settles, and through a withdrawal exactly as long as no receipt of the
loader's own had paid part of it.
*/
module CarriedBills {
  import opened Tables
  import opened Books
  import opened Upkeep
  import opened Withdrawal
  import opened Undo
  import opened Growth
  import opened Posting
  import opened Register
  import opened Arrears
  import opened TermRun
  import opened BillingRun
  import opened AnnualDiscount
  import opened History
  import Activities
  import ActivityRuns
  import AppFee
  import AppFeeRun
  import Transport
  import TransportRun

  // --- withdrawal -----------------------------------------------------------

  /** A receipt of the loader's series has paid something on the bill. */
  predicate LoaderPaid(b: Books, bill: nat)
  {
    exists a :: a in b.allocations && a.invoice == bill && a.payment in LoaderReceipts(b)
  }

  function ByLoader(b: Books, bill: nat): Allocation -> int
  {
    (a: Allocation) => if a.invoice == bill && a.payment in LoaderReceipts(b) then a.amount else 0
  }

  lemma LoaderShare(b: Books, bill: nat)
    requires Joined(b)
    ensures Sum(b.allocations, ByLoader(b, bill)) == 0 <==> !LoaderPaid(b, bill)
  {
    forall a | a in b.allocations ensures a.amount > 0 {
      assert Joins(b, a);
    }
    SumNonNegative(b.allocations, ByLoader(b, bill));
    if !LoaderPaid(b, bill) {
      SumZero(b.allocations, ByLoader(b, bill));
    }
  }

  lemma CarriedOnce(b: Books, c: Carry, d: Carry)
    requires Carried(b) && c in b.carries && d in b.carries && c.from == d.from
    ensures c == d
  {
  }

  /** Of what was paid on a bill that stays carried, a withdrawal takes only what the loader's receipts paid. */
  lemma TakenFromCarried(b: Books, year: Year, c: Carry)
    requires Valid(b) && c in b.carries && c.to !in YearBills(b, year)
    ensures Sum(b.allocations, PaidTo(c.from))
      == Sum(b.allocations, PaidOtherwise(b, year, c.from)) + Sum(b.allocations, ByLoader(b, c.from))
  {
    forall a | a in b.allocations && a.invoice == c.from ensures a.payment !in CarryPayments(b, YearBills(b, year)) {
      if d :| d in b.carries && d.to in YearBills(b, year) && d.payment == a.payment {
        CarriedOnce(b, c, d);
      }
    }
    SumPlus(b.allocations, PaidOtherwise(b, year, c.from), ByLoader(b, c.from), PaidTo(c.from));
  }

  lemma NotOfYear(b: Books, year: Year, today: int, c: Carry)
    requires Valid(b) && Withdraw(b, year, today).Some? && c in b.carries
    ensures c.from in BillIds(b.invoices) && Bill(b.invoices, c.from).year != year
  {
    WithdrawRefused(b, year, today);
    assert Carries(b, c);
    assert c.from !in YearBills(b, year);
  }

  lemma RestoredBalance(b: Books, year: Year, today: int, w: Books, i: Invoice, paid: int, byLoader: int)
    requires Valid(b) && Withdraw(b, year, today) == Some(w) && i in b.invoices && i.year != year && i.Balance() == 0
    requires paid == Sum(b.allocations, PaidTo(i.id))
    requires byLoader == paid - Sum(b.allocations, PaidOtherwise(b, year, i.id))
    ensures i.id in BillIds(w.invoices) && Bill(w.invoices, i.id).Balance() == byLoader
  {
    EarlierBillsRestored(b, year, today, w, i);
  }

  lemma CarriedAfterWithdrawal(b: Books, year: Year, today: int, w: Books, c: Carry)
    requires Valid(b) && Settled(b) && Withdraw(b, year, today) == Some(w) && c in b.carries
    requires c.to !in YearBills(b, year)
    ensures c.from in BillIds(w.invoices) && (Bill(w.invoices, c.from).Balance() == 0 <==> !LoaderPaid(b, c.from))
  {
    NotOfYear(b, year, today, c);
    TakenFromCarried(b, year, c);
    LoaderShare(b, c.from);
    assert c.from in CarriedFrom(b.carries);
    RestoredBalance(b, year, today, w, Bill(b.invoices, c.from), Sum(b.allocations, PaidTo(c.from)),
                    Sum(b.allocations, ByLoader(b, c.from)));
  }

  /** After a withdrawal every bill still carried owes nothing if and only if no receipt of the loader's series had paid
      on one: such a receipt goes with the year, and the carried bill owes its part again. */
  lemma SettledAfterWithdrawal(b: Books, year: Year, today: int, w: Books)
    requires Valid(b) && Settled(b) && Withdraw(b, year, today) == Some(w)
    ensures Settled(w) <==> forall c :: c in b.carries && c.to !in YearBills(b, year) ==> !LoaderPaid(b, c.from)
  {
    YearIsGone(b, year, today, w);
    forall c | c in b.carries && c.to !in YearBills(b, year)
      ensures c.from in CarriedFrom(w.carries) && c.from in BillIds(w.invoices)
      ensures Bill(w.invoices, c.from).Balance() == 0 <==> !LoaderPaid(b, c.from)
    {
      assert c in w.carries;
      CarriedAfterWithdrawal(b, year, today, w, c);
    }
  }

  // --- the other programs ---------------------------------------------------

  lemma MoreAllocatedPaysMore(b: Books, r: Books, bill: nat)
    requires Joined(r) && b.allocations <= r.allocations
    ensures Sum(r.allocations, PaidTo(bill)) >= Sum(b.allocations, PaidTo(bill))
  {
    var news := Since(b.allocations, r.allocations);
    assert r.allocations == b.allocations + news;
    SumConcat(b.allocations, news, PaidTo(bill));
    forall a | a in news ensures PaidTo(bill)(a) >= 0 {
      assert a in r.allocations && Joins(r, a);
    }
    SumNonNegative(news, PaidTo(bill));
  }

  lemma OldBillStaysPaid(b: Books, r: Books, year: Year, i: Invoice)
    requires Valid(b) && Valid(r) && Grown(b, r, year) && i in b.invoices && i.Balance() == 0
    requires i.id in BillIds(r.invoices)
    ensures Bill(r.invoices, i.id).Balance() == 0
  {
    var k :| 0 <= k < |b.invoices| && b.invoices[k] == i;
    assert r.invoices[k] in r.invoices;
    BillIs(r.invoices, r.invoices[k]);
    MoreAllocatedPaysMore(b, r, i.id);
  }

  /** Work on a year that carries nothing leaves carried bills owing nothing. */
  lemma SettledWhenGrown(b: Books, r: Books, year: Year)
    requires Valid(b) && Valid(r) && Grown(b, r, year) && r.carries == b.carries && Settled(b)
    ensures Settled(r)
  {
    forall id | id in CarriedFrom(r.carries) && id in BillIds(r.invoices) ensures Bill(r.invoices, id).Balance() == 0 {
      var c :| c in b.carries && c.from == id;
      assert Carries(b, c);
      OldBillStaysPaid(b, r, year, Bill(b.invoices, id));
    }
  }

  lemma {:induction false} SettlingCarriesNothing(b: Books, bill: nat, credits: seq<Payment>, owed: int, today: int,
                                                  k: nat)
    requires k <= |credits|
    ensures AppFee.SettleTo(b, bill, credits, owed, today, k).carries == b.carries
  {
    if k > 0 {
      SettlingCarriesNothing(b, bill, credits, owed, today, k - 1);
    }
  }

  lemma {:induction false} FeesCarryNothing(b: Books, kids: seq<nat>, year: Year, head: nat, today: int, r: Books)
    requires AppFee.ChargeFees(b, kids, year, head, today) == Some(r)
    ensures r.carries == b.carries
  {
    if kids != [] {
      var m := |kids| - 1;
      var b1 := AppFee.ChargeFees(b, kids[..m], year, head, today).value;
      FeesCarryNothing(b, kids[..m], year, head, today, b1);
      var raised := RaiseBill(b1, AppFee.FeeBill(kids[m], year, |kids|, today), Some(head)).value;
      SettlingCarriesNothing(raised, b1.next, AppFee.Credits(raised, kids[m]), AppFee.FEE, today,
                             |AppFee.Credits(raised, kids[m])|);
    }
  }

  lemma PayingCarriesNothing(b: Books, row: Payment, bill: nat, today: int, r: Books)
    requires PostReceipt(b, row, bill, today) == Some(r)
    ensures r.carries == b.carries
  {
  }

  lemma {:induction false} NotesCarryNothing(d: Desk, student: nat, first: nat, notes: seq<Transport.Note>, today: int,
                                             r: Desk)
    requires Transport.PostNotes(d, student, first, notes, today) == Some(r)
    ensures r.books.carries == d.books.carries
  {
    if notes != [] {
      var m := |notes| - 1;
      var d1 := Transport.PostNotes(d, student, first, notes[..m], today).value;
      NotesCarryNothing(d, student, first, notes[..m], today, d1);
      if notes[m].amount > 0 {
        PayingCarriesNothing(d1.books, Transport.BusReceipt(student, d1.receipts + 1, notes[m]),
                             Transport.Target(notes[m], first), today, r.books);
      }
    }
  }

  lemma RiderCarriesNothing(d: Desk, r: Transport.Rider, year: Year, head: nat, today: int, d2: Desk)
    requires Transport.BillRider(d, r, year, head, today) == Some(d2)
    ensures d2.books.carries == d.books.carries
  {
    if TransportRun.Rides(r, d, year, head) {
      var raised := TransportRun.RiderIs(d, r, year, head, today, d2);
      NotesCarryNothing(raised, r.student, d.books.next, r.notes, today, d2);
    }
  }

  lemma {:induction false} RidersCarryNothing(d: Desk, riders: seq<Transport.Rider>, year: Year, head: nat, today: int,
                                              d2: Desk)
    requires Transport.BillRiders(d, riders, year, head, today) == Some(d2)
    ensures d2.books.carries == d.books.carries
  {
    if riders != [] {
      var m := |riders| - 1;
      var d1 := Transport.BillRiders(d, riders[..m], year, head, today).value;
      RidersCarryNothing(d, riders[..m], year, head, today, d1);
      RiderCarriesNothing(d1, riders[m], year, head, today, d2);
    }
  }

  // --- every run ------------------------------------------------------------

  lemma FeesStaySettled(b: Books, admitted: seq<nat>, year: Year, head: nat, today: int, r: Books)
    requires Valid(b) && Settled(b) && AppFee.RunFees(b, admitted, year, head, today) == Some(r)
    ensures Settled(r)
  {
    var kids := Where(admitted, AppFee.Unbilled(b, year, head));
    GrownFromItself(b, year);
    AppFeeRun.ChargeFeesGrow(b, b, kids, year, head, today, r);
    AppFeeRun.ChargeFeesDo(b, kids, year, head, today, r);
    FeesCarryNothing(b, kids, year, head, today, r);
    SettledWhenGrown(b, r, year);
  }

  lemma RidersStaySettled(b: Books, riders: seq<Transport.Rider>, year: Year, head: nat, today: int, r: Books)
    requires Valid(b) && Settled(b) && Transport.RunTransport(b, riders, year, head, today) == Some(r)
    ensures Settled(r)
  {
    var d := Transport.BillRiders(Desk(b, 0, 0), riders, year, head, today).value;
    GrownFromItself(b, year);
    TransportRun.RidersGrow(b, Desk(b, 0, 0), riders, year, head, today, d);
    TransportRun.RunTransportDoes(b, riders, year, head, today, r, 0);
    RidersCarryNothing(Desk(b, 0, 0), riders, year, head, today, d);
    SettledWhenGrown(b, r, year);
  }

  /** A discount run with room takes nothing off a bill that owes nothing. */
  lemma NothingOffSettled(b: Books, year: Year, head: nat, per: nat -> Option<nat>, id: nat)
    requires Valid(b) && id in BillIds(b.invoices) && Bill(b.invoices, id).Balance() == 0 && RoomFor(b, year, head, per)
    ensures Off(b, id, head, year, per) == 0
  {
    OffWithinNet(b, year, head, per, id);
  }

  lemma DiscountedBill(p: Promised, structures: seq<Structure>, grants: seq<Grant>, year: Year, head: nat, q: Promised,
                       terms: nat, id: nat)
    requires Valid(p.books) && DistinctBills(q.books.invoices)
    requires RunDiscounts(p, structures, grants, year, head) == Some(q)
    requires grants != [] && terms == TermsOf(structures, head) && terms > 0
    requires id in BillIds(p.books.invoices)
    requires Off(p.books, id, head, year, Per(p.concessions, grants, year, head, terms)) == 0
    ensures id in BillIds(q.books.invoices) && Bill(q.books.invoices, id) == Bill(p.books.invoices, id)
  {
    var k :| 0 <= k < |p.books.invoices| && p.books.invoices[k] == Bill(p.books.invoices, id);
    HeadersFollow(p, structures, grants, year, head, q, terms, k);
    assert q.books.invoices[k] in q.books.invoices;
    BillIs(q.books.invoices, q.books.invoices[k]);
  }

  lemma DiscountStaysSettled(p: Promised, structures: seq<Structure>, grants: seq<Grant>, year: Year, head: nat,
                             q: Promised, terms: nat)
    requires Valid(p.books) && Settled(p.books) && RunDiscounts(p, structures, grants, year, head) == Some(q)
    requires grants != [] && terms == TermsOf(structures, head) && terms > 0
    requires RoomFor(p.books, year, head, Per(p.concessions, grants, year, head, terms))
    ensures Settled(q.books)
  {
    RunDiscountsReckoned(p, structures, grants, year, head, q);
    forall id | id in CarriedFrom(q.books.carries)
      ensures id in BillIds(q.books.invoices) && Bill(q.books.invoices, id).Balance() == 0
    {
      var c :| c in p.books.carries && c.from == id;
      assert Carries(p.books, c);
      NothingOffSettled(p.books, year, head, Per(p.concessions, grants, year, head, terms), id);
      DiscountedBill(p, structures, grants, year, head, q, terms, id);
    }
  }

  /** Where every earlier bill is there and owes what it did, and no carry is recorded, carried bills stay settled. */
  lemma SettledIfSame(b: Books, r: Books)
    requires Valid(b) && Settled(b) && r.carries == b.carries && BillIds(b.invoices) <= BillIds(r.invoices)
    requires forall id :: id in BillIds(b.invoices) && Bill(b.invoices, id).Balance() == 0 ==>
      Bill(r.invoices, id).Balance() == 0
    ensures Settled(r)
  {
    forall id | id in CarriedFrom(r.carries) ensures id in BillIds(b.invoices) {
      var c :| c in b.carries && c.from == id;
      assert Carries(b, c);
    }
  }

  lemma PaidStaysSettled(b: Books, row: Payment, bill: nat, today: int, r: Books)
    requires Valid(b) && Settled(b) && Payable(b, row, bill) && PostReceipt(b, row, bill, today) == Some(r)
    ensures Settled(r)
  {
    ActivityRuns.ReceiptMoneyStays(b, row, bill, today, r);
    SurplusIsCredit(b, row, bill, today);
    PayingCarriesNothing(b, row, bill, today, r);
    SettledIfSame(b, r);
  }

  lemma JoiningStaysSettled(b: Books, row: Invoice, head: Option<nat>, serial: nat, r: Books)
    requires Valid(b) && Settled(b) && Fresh(row) && RaiseBill(b.(serial := serial), row, head) == Some(r)
    ensures Settled(r)
  {
    ActivityRuns.RaisedFor(b, row, head, serial, r);
    SettledIfSame(b, r);
  }

  lemma DeskStaysSettled(c: Activities.Club, s: Activities.Step, today: int, d: Activities.Club)
    requires Valid(c.books) && Settled(c.books) && Activities.Act(c, s, today) == Activities.Done(d)
    ensures Settled(d.books)
  {
    match s
    case Saving(_, _, _, _) =>
    case Enrolling(_, student, activity, waive, year, series, head) =>
      var fee := if waive then 0 else Activities.Find(c.activities, activity).value.fee;
      if fee > 0 {
        var serial := c.books.serial + 1;
        JoiningStaysSettled(c.books, Activities.ActivityBill(student, year, DocNo(series, serial), fee, today), head,
                            serial, d.books);
      }
    case Leaving(_, _, place) =>
      var p := Activities.FindPlace(c.places, place).value;
      if p.bill.Some? {
        ActivityRuns.CancelKeeps(c.books, p.bill.value, d.books);
        SettledIfSame(c.books, d.books);
      }
    case Paying(row, bill) =>
      ActivityRuns.FoundBill(c.books.invoices, bill);
      PaidStaysSettled(c.books, row, bill, today, d.books);
  }

  lemma OutcomeStaysSettled(b: Books, concessions: seq<Concession>, p: Program, today: int, r: Books)
    requires Valid(b) && Settled(b) && (p.RaisingTerm? || p.ChargingFee? || p.LoadingTransport?)
    requires Outcome(b, concessions, p, today) == Some(r)
    ensures Settled(r)
  {
    match p
    case RaisingTerm(f, year, instalment) =>
      RunBillsEveryone(f.(concessions := concessions), b, year, instalment, today, r);
    case ChargingFee(admitted, year, head) => FeesStaySettled(b, admitted, year, head, today, r);
    case LoadingTransport(riders, year, head) => RidersStaySettled(b, riders, year, head, today, r);
  }

  /** A program that withdraws no year. */
  predicate Bills(p: Program) { !p.Withdrawing? && !p.Loading? }

  lemma BillingStaysSettled(s: School, p: Program, today: int)
    requires Valid(s.Ledger()) && Settled(s.Ledger()) && Bills(p) && HasRoom(s, p)
    ensures Settled(After(s, p, today).Ledger())
  {
    if r :| Result(s, p, today) == Some(r) {
      if p.Discounting? {
        var before := Promised(s.Ledger(), s.concessions);
        var q := RunDiscounts(before, p.structures, p.grants, p.year, p.head).value;
        if p.grants == [] {
          NoGrantNoChange(before, p.structures, p.year, p.head);
        } else {
          DiscountStaysSettled(before, p.structures, p.grants, p.year, p.head, q, TermsOf(p.structures, p.head));
        }
      } else if p.AtTheDesk? {
        DeskStaysSettled(s.club, p.step, today, r.club);
      } else {
        OutcomeStaysSettled(s.Ledger(), s.concessions, p, today, r.Ledger());
      }
    }
  }

  /** Over any number of years, in any order, billing, settling, discounting, joining, leaving and paying leave every
      bill ever carried owing nothing: a debt carried from year to year is open in one place only. */
  lemma {:induction false} CarriedOweNothing(s: School, programs: seq<Program>, days: nat -> int)
    requires Valid(s.Ledger()) && Settled(s.Ledger()) && Roomy(s, programs, days)
    requires forall k :: 0 <= k < |programs| ==> Bills(programs[k])
    ensures Settled(AfterAll(s, programs, days).Ledger())
  {
    if programs != [] {
      var m := |programs| - 1;
      AlwaysValid(s, programs[..m], days);
      CarriedOweNothing(s, programs[..m], days);
      BillingStaysSettled(AfterAll(s, programs[..m], days), programs[m], days(m));
    }
  }
}
