/**
No program ever leaves an adjustment that says it was carried forward without
the carry it says so of, so in every ledger they reach a register loaded twice
is a register loaded once.
*/
module Strays {
  import opened Tables
  import opened Books
  import opened Withdrawal
  import opened Undo
  import opened Growth
  import opened Posting
  import opened Register
  import opened Arrears
  import opened TermRun
  import opened BillingChild
  import opened BillingRun
  import opened AnnualDiscount
  import opened History
  import Activities
  import ActivityRuns
  import AppFee
  import AppFeeRun
  import Transport
  import TransportRun
  import Reload
  import Renumber

  // --- carrying arrears records every adjustment it writes ------------------

  lemma CarryOneRecords(b: Books, student: nat, bill: nat, no: DocNo, head: nat, old': Invoice, today: int, r: Books)
    requires NoStrays(b) && CarryOne(b, student, bill, no, head, old', today) == Some(r)
    ensures NoStrays(r)
  {
    var c := Carry(old'.id, bill, b.next, old'.Balance());
    assert c in r.carries && forall d :: d in b.carries ==> d in r.carries;
    forall k | 0 <= k < |r.payments| && Forwards(r.payments[k]) ensures r.payments[k].id in CarriedBy(r.carries) {
      if k < |b.payments| {
        assert b.payments[k] in b.payments && Forwards(b.payments[k]);
      }
    }
  }

  lemma {:induction false} CarryAllRecords(b: Books, student: nat, bill: nat, no: DocNo, head: nat, olds: seq<Invoice>,
                                           today: int, r: Books)
    requires NoStrays(b) && CarryAll(b, student, bill, no, head, olds, today) == Some(r)
    ensures NoStrays(r)
  {
    if olds != [] {
      var m := |olds| - 1;
      var b1 := CarryAll(b, student, bill, no, head, olds[..m], today).value;
      CarryAllRecords(b, student, bill, no, head, olds[..m], today, b1);
      CarryOneRecords(b1, student, bill, no, head, olds[m], today, r);
    }
  }

  lemma WithArrearsRecords(f: FeeBook, b: Books, student: nat, year: Year, instalment: nat, items: seq<Item>,
                           today: int, b2: Books, b3: Books)
    requires NoStrays(b) && WithOwnLines(f, b, student, year, instalment, items, today) == Some(b2)
    requires WithArrears(f, b, student, year, instalment, items, today) == Some(b3)
    ensures NoStrays(b3)
  {
    CarryAllRecords(b2, student, b.next, DocNo(f.series, b.serial + 1), f.arrearsHead, ArrearsFor(b2, student, year),
                    today, b3);
  }

  lemma BillChildRecords(f: FeeBook, b: Books, student: nat, year: Year, instalment: nat, items: seq<Item>, today: int,
                         r: Books)
    requires Valid(b) && NoStrays(b) && BillChild(f, b, student, year, instalment, items, today) == Some(r)
    ensures NoStrays(r)
  {
    if NothingToBill(f, b, student, year, items) {
      EmptyBillWithdrawn(f, b, student, year, instalment, items, today);
    } else {
      BillStands(f, b, student, year, instalment, items, today, r);
      WithArrearsRecords(f, b, student, year, instalment, items, today,
                         WithOwnLines(f, b, student, year, instalment, items, today).value,
                         WithArrears(f, b, student, year, instalment, items, today).value);
    }
  }

  lemma {:induction false} BillChildrenRecord(f: FeeBook, b: Books, children: seq<Enrolment>, year: Year,
                                              instalment: nat,
                                              items: seq<Item>, today: int, r: Books)
    requires Valid(b) && NoStrays(b) && BillChildren(f, b, children, year, instalment, items, today) == Some(r)
    ensures NoStrays(r)
  {
    if children != [] {
      var m := |children| - 1;
      var b1 := BillChildren(f, b, children[..m], year, instalment, items, today).value;
      BillChildrenOnward(f, b, children[..m], year, instalment, items, today, b1);
      BillChildrenRecord(f, b, children[..m], year, instalment, items, today, b1);
      BillChildRecords(f, b1, children[m].student, year, instalment, items, today, r);
    }
  }

  lemma {:induction false} RunRecords(f: FeeBook, b: Books, structures: seq<Structure>, year: Year, instalment: nat,
                                      today: int, r: Books)
    requires Valid(b) && NoStrays(b) && RunStructures(f, b, structures, year, instalment, today) == Some(r)
    ensures NoStrays(r)
  {
    if structures != [] {
      var m := |structures| - 1;
      var b1 := RunStructures(f, b, structures[..m], year, instalment, today).value;
      RunStructuresOnward(f, b, structures[..m], year, instalment, today, b1);
      RunRecords(f, b, structures[..m], year, instalment, today, b1);
      if Priced(structures[m], instalment) != [] {
        BillChildrenRecord(f, b1, Where(f.enrolments, Selects(b1, structures[m], year, instalment)), year, instalment,
                           Priced(structures[m], instalment), today, r);
      }
    }
  }

  // --- the other programs ---------------------------------------------------

  lemma LoadLeavesNoStray(b: Books, year: Year, head: nat, children: seq<Child>, today: int, r: Books)
    requires Valid(b) && NoStrays(b) && Load(b, year, head, children, today) == Some(r)
    ensures NoStrays(r)
  {
    var w := Withdraw(b, year, today).value;
    WithdrawKeeps(b, year, today);
    Reload.WithdrawalLeavesNoStray(b, year, today, w);
    GrownFromItself(w, year);
    PostChildrenKeeps(w, Desk(w, 0, 0), year, head, children, today);
    GrownWithoutStrays(w, r);
  }

  lemma FeesLeaveNoStray(b: Books, admitted: seq<nat>, year: Year, head: nat, today: int, r: Books)
    requires Valid(b) && NoStrays(b) && AppFee.RunFees(b, admitted, year, head, today) == Some(r)
    ensures NoStrays(r)
  {
    GrownFromItself(b, year);
    AppFeeRun.ChargeFeesGrow(b, b, Where(admitted, AppFee.Unbilled(b, year, head)), year, head, today, r);
    GrownWithoutStrays(b, r);
  }

  lemma FaresLeaveNoStray(b: Books, riders: seq<Transport.Rider>, year: Year, head: nat, today: int, r: Books)
    requires Valid(b) && NoStrays(b) && Transport.RunTransport(b, riders, year, head, today) == Some(r)
    ensures NoStrays(r)
  {
    GrownFromItself(b, year);
    TransportRun.RidersGrow(b, Desk(b, 0, 0), riders, year, head, today,
                            Transport.BillRiders(Desk(b, 0, 0), riders, year, head, today).value);
    GrownWithoutStrays(b, r);
  }

  lemma ReceiptLeavesNoStray(b: Books, row: Payment, bill: nat, today: int, r: Books)
    requires Valid(b) && NoStrays(b) && !Forwards(row) && bill in BillIds(b.invoices)
    requires PostReceipt(b, row, bill, today) == Some(r)
    ensures NoStrays(r)
  {
    HandWrittenAgrees(b, row, bill, today);
    forall k | 0 <= k < |r.payments| && Forwards(r.payments[k]) ensures r.payments[k].id in CarriedBy(r.carries) {
      if k < |b.payments| {
        assert b.payments[k] in b.payments && Forwards(b.payments[k]);
      }
    }
  }

  /** Nobody types, at the counter, an adjustment with the remark a carry would have written. */
  predicate NotTyped(p: Program) { p.AtTheDesk? && p.step.Paying? ==> !Forwards(p.step.row) }

  lemma OutcomeLeavesNoStray(b: Books, concessions: seq<Concession>, p: Program, today: int, r: Books)
    requires Valid(b) && NoStrays(b) && !p.Discounting? && !p.AtTheDesk? && Outcome(b, concessions, p, today) == Some(r)
    ensures NoStrays(r)
  {
    match p
    case Withdrawing(year) => Reload.WithdrawalLeavesNoStray(b, year, today, r);
    case Loading(year, head, children) => LoadLeavesNoStray(b, year, head, children, today, r);
    case RaisingTerm(f, year, instalment) =>
      RunRecords(f.(concessions := concessions), b, f.structures, year, instalment, today, r);
    case ChargingFee(admitted, year, head) => FeesLeaveNoStray(b, admitted, year, head, today, r);
    case LoadingTransport(riders, year, head) => FaresLeaveNoStray(b, riders, year, head, today, r);
  }

  lemma DeskLeavesNoStray(c: Activities.Club, s: Activities.Step, today: int, d: Activities.Club)
    requires Valid(c.books) && NoStrays(c.books) && NotTyped(AtTheDesk(s))
    requires Activities.Act(c, s, today) == Activities.Done(d)
    ensures NoStrays(d.books)
  {
    if s.Paying? {
      ActivityRuns.FoundBill(c.books.invoices, s.bill);
      ReceiptLeavesNoStray(c.books, s.row, s.bill, today, d.books);
    }
  }

  lemma AfterLeavesNoStray(s: School, p: Program, today: int)
    requires Valid(s.Ledger()) && NoStrays(s.Ledger()) && NotTyped(p)
    ensures NoStrays(After(s, p, today).Ledger())
  {
    if r :| Result(s, p, today) == Some(r) {
      if p.Discounting? {
        var before := Promised(s.Ledger(), s.concessions);
        RunDiscountsReckoned(before, p.structures, p.grants, p.year, p.head,
                             RunDiscounts(before, p.structures, p.grants, p.year, p.head).value);
      } else if p.AtTheDesk? {
        DeskLeavesNoStray(s.club, p.step, today, r.club);
      } else {
        OutcomeLeavesNoStray(s.Ledger(), s.concessions, p, today, r.Ledger());
      }
    }
  }

  /** However the programs follow one another, no adjustment is left that says it was carried forward and was not: only
      a remark typed at the counter could make one. */
  lemma {:induction false} NeverStray(s: School, programs: seq<Program>, days: nat -> int)
    requires Valid(s.Ledger()) && NoStrays(s.Ledger()) && Roomy(s, programs, days)
    requires forall k :: 0 <= k < |programs| ==> NotTyped(programs[k])
    ensures NoStrays(AfterAll(s, programs, days).Ledger())
  {
    if programs != [] {
      var m := |programs| - 1;
      AlwaysValid(s, programs[..m], days);
      NeverStray(s, programs[..m], days);
      AfterLeavesNoStray(AfterAll(s, programs[..m], days), programs[m], days(m));
    }
  }

  /** In every ledger the programs reach, loading the same register twice gives exactly the ledger of loading it once,
      under row ids moved up. */
  lemma LoadedTwiceIsOnceAlways(s: School, programs: seq<Program>, days: nat -> int, year: Year, head: nat,
                                register: seq<Child>,
                                today: int, once: Books) returns (step: nat)
    requires Valid(s.Ledger()) && NoStrays(s.Ledger()) && Roomy(s, programs, days)
    requires forall k :: 0 <= k < |programs| ==> NotTyped(programs[k])
    requires Load(AfterAll(s, programs, days).Ledger(), year, head, register, today) == Some(once)
    ensures Load(once, year, head, register, today)
      == Some(Renumber.MovedUp(once, AfterAll(s, programs, days).Ledger().next, step))
    ensures once.next == AfterAll(s, programs, days).Ledger().next + step
  {
    AlwaysValid(s, programs, days);
    NeverStray(s, programs, days);
    step := Renumber.LoadedTwiceIsOnce(AfterAll(s, programs, days).Ledger(), year, head, register, today, once);
  }
}
