/**
A year's work undone: whatever the programs of one year have done to a ledger
that held nothing of it, withdrawing the year gives that ledger back.
*/
module YearWork {
  import opened Tables
  import opened Books
  import opened Withdrawal
  import opened Undo
  import opened Growth
  import opened Posting
  import opened Register
  import opened TermRun
  import opened AnnualDiscount
  import opened History
  import Activities
  import BillingAccounts
  import AppFee
  import AppFeeRun
  import Transport
  import TransportRun

  /** A program that works on the year alone; its term bills are numbered in a series the withdrawal recognises. */
  predicate OfYear(p: Program, year: Year)
  {
    match p
    case Withdrawing(y) => y == year
    case Loading(y, _, _) => y == year
    case RaisingTerm(f, y, _) => y == year && IsPrefix(INV, f.series)
    case ChargingFee(_, y, _) => y == year
    case LoadingTransport(_, y, _) => y == year
    case Discounting(_, _, y, _) => y == year
    case AtTheDesk(step) => step.Saving? || (step.Enrolling? && step.year == year)
  }

  /** The same receipts, lines, allocations and carries, and the same bills but for a status read off again. */
  ghost predicate GivenAgain(b: Books, w: Books)
  {
    && w.lines == b.lines && w.payments == b.payments && w.allocations == b.allocations && w.carries == b.carries
    && |w.invoices| == |b.invoices|
    && forall k :: 0 <= k < |b.invoices| ==> w.invoices[k] == b.invoices[k].(status := w.invoices[k].status)
  }

  lemma GivenTwice(a: Books, b: Books, c: Books)
    requires GivenAgain(a, b) && GivenAgain(b, c)
    ensures GivenAgain(a, c)
  {
  }

  // --- a discount is work on the year alone ---------------------------------

  lemma OldLineStays(b0: Books, b: Books, year: Year, head: nat, per: nat -> Option<nat>, k: nat, l: Line)
    requires Valid(b0) && Valid(b) && Clean(b0, year) && Grown(b0, b, year) && k < |b0.lines|
    requires b.lines[k].invoice in BillIds(b.invoices) && Relined(b, b.lines[k], l, head, year, per)
    ensures l == b0.lines[k]
  {
    assert b.lines[k] == b0.lines[k] && b0.lines[k] in b0.lines;
    var old' := Bill(b0.invoices, b0.lines[k].invoice);
    BillsOfTheYear(b0, b, year);
    assert Bill(b.invoices, old'.id).year != year;
  }

  lemma RelinedGrows(b0: Books, b: Books, year: Year, head: nat, per: nat -> Option<nat>, lines: seq<Line>)
    requires Valid(b0) && Valid(b) && Clean(b0, year) && Grown(b0, b, year) && |lines| == |b.lines|
    requires forall k :: 0 <= k < |lines| ==> Relined(b, b.lines[k], lines[k], head, year, per)
    ensures Grown(b0, b.(lines := lines), year)
  {
    forall k | 0 <= k < |b0.lines| ensures lines[k] == b0.lines[k] {
      assert b.lines[k] in b.lines;
      OldLineStays(b0, b, year, head, per, k, lines[k]);
    }
    forall k | |b0.lines| <= k < |lines| ensures lines[k].invoice >= b0.next {
      assert b.lines[k] in Since(b0.lines, b.lines);
      assert Relined(b, b.lines[k], lines[k], head, year, per);
    }
  }

  lemma DiscountGrows(b0: Books, p: Promised, structures: seq<Structure>, grants: seq<Grant>, year: Year, head: nat,
                      q: Promised)
    requires Valid(b0) && Valid(p.books) && Clean(b0, year) && Grown(b0, p.books, year)
    requires RunDiscounts(p, structures, grants, year, head) == Some(q)
    ensures Grown(b0, q.books, year)
  {
    if grants == [] {
      NoGrantNoChange(p, structures, year, head);
    } else {
      var terms := TermsOf(structures, head);
      var given := GiveAll(p, grants, year, head, terms);
      GiveAllCame(p, grants, year, head, terms, given);
      RelinedGrows(b0, p.books, year, head, Per(p.concessions, grants, year, head, terms), given.books.lines);
      BillsOfTheYear(b0, p.books, year);
      RecomputeHeadersGrows(b0, given.books, year, YearBills(given.books, year));
    }
  }

  // --- so is everything else ------------------------------------------------

  lemma JoiningGrows(b0: Books, c: Activities.Club, s: Activities.Step, year: Year, today: int, d: Activities.Club)
    requires Grown(b0, c.books, year) && Activities.Act(c, s, today) == Activities.Done(d) && OfYear(AtTheDesk(s), year)
    ensures Grown(b0, d.books, year)
  {
    if s.Enrolling? && d.books != c.books {
      var fee := Activities.Find(c.activities, s.activity).value.fee;
      var numbered := c.books.(serial := c.books.serial + 1);
      BillingAccounts.NumbersGrow(b0, c.books, year, c.books.next, c.books.serial + 1);
      RaiseBillGrows(b0, numbered, year,
                     Activities.ActivityBill(s.student, year, DocNo(s.series, numbered.serial), fee, today), s.head);
    }
  }

  lemma OutcomeGrows(b0: Books, b: Books, concessions: seq<Concession>, p: Program, year: Year, today: int, r: Books)
    requires Valid(b0) && Valid(b) && Grown(b0, b, year) && OfYear(p, year)
    requires (p.RaisingTerm? || p.ChargingFee? || p.LoadingTransport?) && Outcome(b, concessions, p, today) == Some(r)
    ensures Grown(b0, r, year)
  {
    match p
    case RaisingTerm(f, y, instalment) =>
      BillingAccounts.RunGrows(b0, f.(concessions := concessions), b, year, instalment, today, r);
    case ChargingFee(admitted, y, head) =>
      AppFeeRun.ChargeFeesGrow(b0, b, Where(admitted, AppFee.Unbilled(b, year, head)), year, head, today, r);
    case LoadingTransport(riders, y, head) =>
      TransportRun.RidersGrow(b0, Desk(b, 0, 0), riders, year, head, today,
                              Transport.BillRiders(Desk(b, 0, 0), riders, year, head, today).value);
  }

  /** A program of the year that does not withdraw it. */
  lemma AfterGrows(b0: Books, s: School, p: Program, year: Year, today: int)
    requires Valid(b0) && Valid(s.Ledger()) && Clean(b0, year) && Grown(b0, s.Ledger(), year)
    requires OfYear(p, year) && !p.Withdrawing? && !p.Loading?
    ensures Grown(b0, After(s, p, today).Ledger(), year)
  {
    if r :| Result(s, p, today) == Some(r) {
      if p.Discounting? {
        var before := Promised(s.Ledger(), s.concessions);
        DiscountGrows(b0, before, p.structures, p.grants, year, p.head,
                      RunDiscounts(before, p.structures, p.grants, year, p.head).value);
      } else if p.AtTheDesk? {
        JoiningGrows(b0, s.club, p.step, year, today, r.club);
      } else {
        OutcomeGrows(b0, s.Ledger(), s.concessions, p, year, today, r.Ledger());
      }
    }
  }

  // --- and a withdrawal starts the year afresh ------------------------------

  /** Withdrawing the year gives back the ledger the work started from, with nothing of the year in it again. */
  lemma WithdrawnAfresh(b0: Books, b: Books, year: Year, today: int) returns (w: Books)
    requires Valid(b0) && Valid(b) && Clean(b0, year) && Grown(b0, b, year)
    ensures Withdraw(b, year, today) == Some(w) && Valid(w) && Clean(w, year) && GivenAgain(b0, w)
  {
    w := WithdrawalUndoes(b0, b, year, today);
    YearIsGone(b, year, today, w);
    forall p | p in w.payments ensures !LeftOver(w, p) {
      assert p.id !in LeftOvers(b0);
    }
  }

  /** From what base the year's ledger has grown. */
  ghost predicate Grew(b: Books, b0: Books, s: School, year: Year)
  {
    Valid(b0) && Clean(b0, year) && GivenAgain(b, b0) && Grown(b0, s.Ledger(), year)
  }

  lemma WithdrawnGrew(b: Books, b0: Books, s: School, p: Program, year: Year, today: int) returns (b1: Books)
    requires Grew(b, b0, s, year) && Valid(s.Ledger()) && OfYear(p, year) && (p.Withdrawing? || p.Loading?)
    ensures Grew(b, b1, After(s, p, today), year)
  {
    var w := WithdrawnAfresh(b0, s.Ledger(), year, today);
    GivenTwice(b, b0, w);
    GrownFromItself(w, year);
    if p.Withdrawing? {
      b1 := w;
    } else if Result(s, p, today).Some? {
      b1 := w;
      PostChildrenKeeps(w, Desk(w, 0, 0), year, p.head, p.children, today);
    } else {
      b1 := b0;
    }
  }

  lemma {:induction false} WorkGrows(s: School, programs: seq<Program>, year: Year, days: nat -> int)
    returns (b0: Books)
    requires Valid(s.Ledger()) && Clean(s.Ledger(), year) && Roomy(s, programs, days)
    requires forall k :: 0 <= k < |programs| ==> OfYear(programs[k], year)
    ensures Grew(s.Ledger(), b0, AfterAll(s, programs, days), year)
  {
    if programs == [] {
      b0 := s.Ledger();
      GrownFromItself(b0, year);
    } else {
      var m := |programs| - 1;
      AlwaysValid(s, programs[..m], days);
      b0 := WorkGrows(s, programs[..m], year, days);
      if programs[m].Withdrawing? || programs[m].Loading? {
        b0 := WithdrawnGrew(s.Ledger(), b0, AfterAll(s, programs[..m], days), programs[m], year, days(m));
      } else {
        AfterGrows(b0, AfterAll(s, programs[..m], days), programs[m], year, days(m));
      }
    }
  }

  /** Whatever register loads, withdrawals, term runs, application fees, bus fares, discounts and club bills a year has
      seen, in any order and number, withdrawing the year is accepted and gives back the ledger as it stood before the
      year: its receipts, lines, allocations and carries exactly, and its bills but for a status read off again. */
  lemma WithdrawalUndoesTheYear(s: School, programs: seq<Program>, year: Year, days: nat -> int, today: int)
    returns (w: Books)
    requires Valid(s.Ledger()) && Clean(s.Ledger(), year) && Roomy(s, programs, days)
    requires forall k :: 0 <= k < |programs| ==> OfYear(programs[k], year)
    ensures Withdraw(AfterAll(s, programs, days).Ledger(), year, today) == Some(w) && GivenAgain(s.Ledger(), w)
  {
    AlwaysValid(s, programs, days);
    var b0 := WorkGrows(s, programs, year, days);
    w := WithdrawnAfresh(b0, AfterAll(s, programs, days).Ledger(), year, today);
    GivenTwice(s.Ledger(), b0, w);
  }
}
