/**
Any sequence of the school's fee programs and desk work, refused ones included:
what holds of the ledger after all of them.
*/
module History {
  import opened Tables
  import opened Books
  import opened Balances
  import opened Withdrawal
  import opened Register
  import opened TermRun
  import opened BillingRun
  import opened AnnualDiscount
  import Activities
  import ActivityRuns
  import AppFee
  import AppFeeRun
  import Transport
  import TransportRun

  /** The ledger, the places in clubs that name its bills, and the concessions the billing runs read. */
  datatype School = School(club: Activities.Club, concessions: seq<Concession>) {
    function Ledger(): Books { club.books }
  }

  datatype Program =
    | Withdrawing(year: Year)
    | Loading(year: Year, head: nat, children: seq<Child>)
    | RaisingTerm(fees: FeeBook, year: Year, instalment: nat)
    | ChargingFee(admitted: seq<nat>, year: Year, head: nat)
    | LoadingTransport(riders: seq<Transport.Rider>, year: Year, head: nat)
    | Discounting(structures: seq<Structure>, grants: seq<Grant>, year: Year, head: nat)
    | AtTheDesk(step: Activities.Step)

  /** A place whose bill has been deleted no longer names one. */
  function Detached(b: Books): Activities.Place -> Activities.Place
  {
    (p: Activities.Place) =>
      if p.bill.Some? && forall i :: i in b.invoices ==> i.id != p.bill.value then p.(bill := None) else p
  }

  function WithLedger(s: School, b: Books): School
  {
    s.(club := s.club.(books := b, places := Each(s.club.places, Detached(b))))
  }

  /** When bills go, the places that named them name none; every other place is as it was. */
  lemma PlacesFollow(s: School, b: Books, k: nat)
    requires k < |s.club.places|
    ensures |WithLedger(s, b).club.places| == |s.club.places|
    ensures
      var p, q := s.club.places[k], WithLedger(s, b).club.places[k];
      if p.bill.Some? && p.bill.value !in BillIds(b.invoices) then q == p.(bill := None) else q == p
  {
  }

  /** What a program that touches the ledger alone makes of it. */
  function Outcome(b: Books, concessions: seq<Concession>, p: Program, today: int): Option<Books>
    requires !p.Discounting? && !p.AtTheDesk?
  {
    match p
    case Withdrawing(year) => Withdraw(b, year, today)
    case Loading(year, head, children) => Load(b, year, head, children, today)
    case RaisingTerm(f, year, instalment) => Run(f.(concessions := concessions), b, year, instalment, today)
    case ChargingFee(admitted, year, head) => AppFee.RunFees(b, admitted, year, head, today)
    case LoadingTransport(riders, year, head) => Transport.RunTransport(b, riders, year, head, today)
  }

  function Result(s: School, p: Program, today: int): Option<School>
  {
    match p
    case Discounting(structures, grants, year, head) =>
      var q :- RunDiscounts(Promised(s.Ledger(), s.concessions), structures, grants, year, head);
      Some(WithLedger(s, q.books).(concessions := q.concessions))
    case AtTheDesk(step) =>
      (match Activities.Act(s.club, step, today) case Done(club) => Some(s.(club := club)) case Refused(_) => None)
    case _ =>
      var b :- Outcome(s.Ledger(), s.concessions, p, today);
      Some(WithLedger(s, b))
  }

  /** A run that is refused, or only tried, leaves the school as it was. */
  function After(s: School, p: Program, today: int): School
  {
    var r := Result(s, p, today);
    if r.Some? then r.value else s
  }

  function AfterAll(s: School, programs: seq<Program>, days: nat -> int): School
  {
    if programs == [] then s
    else After(AfterAll(s, programs[..|programs| - 1], days), programs[|programs| - 1], days(|programs| - 1))
  }

  // --- validity -------------------------------------------------------------

  /** A discount run finds no part-paid bill that it would discount by more than is still owed; any other program is
      free. */
  ghost predicate HasRoom(s: School, p: Program)
  {
    match p
    case Discounting(structures, grants, year, head) =>
      var terms := TermsOf(structures, head);
      grants != [] && terms > 0 ==> RoomFor(s.Ledger(), year, head, Per(s.concessions, grants, year, head, terms))
    case _ => true
  }

  lemma OutcomeKeeps(b: Books, concessions: seq<Concession>, p: Program, today: int, r: Books)
    requires Valid(b) && !p.Discounting? && !p.AtTheDesk? && Outcome(b, concessions, p, today) == Some(r)
    ensures Valid(r)
  {
    match p
    case Withdrawing(year) => WithdrawKeeps(b, year, today);
    case Loading(year, head, children) => LoadKeeps(b, year, head, children, today);
    case RaisingTerm(f, year, instalment) =>
      RunBillsEveryone(f.(concessions := concessions), b, year, instalment, today, r);
    case ChargingFee(admitted, year, head) => AppFeeRun.RunFeesDoes(b, admitted, year, head, today, r, 0);
    case LoadingTransport(riders, year, head) => TransportRun.RunTransportDoes(b, riders, year, head, today, r, 0);
  }

  lemma DiscountKeeps(s: School, p: Program, today: int)
    requires Valid(s.Ledger()) && p.Discounting?
    ensures Valid(After(s, p, today).Ledger()) <==> HasRoom(s, p)
  {
    var before := Promised(s.Ledger(), s.concessions);
    var q := RunDiscounts(before, p.structures, p.grants, p.year, p.head);
    if p.grants == [] {
      NoGrantNoChange(before, p.structures, p.year, p.head);
    } else if q.Some? {
      RunDiscountsKeeps(before, p.structures, p.grants, p.year, p.head, q.value, TermsOf(p.structures, p.head));
    }
  }

  /** One run leaves a valid ledger valid, but for a discount run without room. */
  lemma AfterKeeps(s: School, p: Program, today: int)
    requires Valid(s.Ledger())
    ensures Valid(After(s, p, today).Ledger()) <==> HasRoom(s, p)
  {
    if p.Discounting? {
      DiscountKeeps(s, p, today);
    } else if r :| Result(s, p, today) == Some(r) {
      if p.AtTheDesk? {
        ActivityRuns.BooksKept(s.club, p.step, today, r.club);
      } else {
        OutcomeKeeps(s.Ledger(), s.concessions, p, today, r.Ledger());
      }
    }
  }

  /** Every discount run among the programs finds room when its turn comes. */
  ghost predicate Roomy(s: School, programs: seq<Program>, days: nat -> int)
  {
    programs == [] ||
    (Roomy(s, programs[..|programs| - 1], days)
     && HasRoom(AfterAll(s, programs[..|programs| - 1], days), programs[|programs| - 1]))
  }

  ghost predicate ValidThroughout(s: School, programs: seq<Program>, days: nat -> int)
  {
    Valid(AfterAll(s, programs, days).Ledger())
      && (programs == [] || ValidThroughout(s, programs[..|programs| - 1], days))
  }

  /** The ledger is valid after each of the programs if and only if every discount run among them finds room. */
  lemma {:induction false} AlwaysValid(s: School, programs: seq<Program>, days: nat -> int)
    requires Valid(s.Ledger())
    ensures ValidThroughout(s, programs, days) <==> Roomy(s, programs, days)
  {
    if programs != [] {
      var m := |programs| - 1;
      AlwaysValid(s, programs[..m], days);
      if Roomy(s, programs[..m], days) {
        AfterKeeps(AfterAll(s, programs[..m], days), programs[m], days(m));
      }
    }
  }

  // --- money ----------------------------------------------------------------

  lemma AfterReckoned(s: School, p: Program, today: int)
    requires Valid(s.Ledger())
    ensures Reckoned(After(s, p, today).Ledger())
  {
    if p.Discounting? {
      var q := RunDiscounts(Promised(s.Ledger(), s.concessions), p.structures, p.grants, p.year, p.head);
      if q.Some? {
        RunDiscountsReckoned(Promised(s.Ledger(), s.concessions), p.structures, p.grants, p.year, p.head, q.value);
      }
    } else {
      AfterKeeps(s, p, today);
    }
  }

  /** Conservation: after any sequence of programs from any valid ledger, what a family owes on live bills less what it
      has in credit is what it was charged less what was received from it. The last program may even be a discount run
      that finds no room. */
  lemma MoneyIsConserved(s: School, programs: seq<Program>, days: nat -> int, student: nat)
    requires Valid(s.Ledger()) && (programs != [] ==> Roomy(s, programs[..|programs| - 1], days))
    ensures
      var r := AfterAll(s, programs, days).Ledger();
      Owed(r, student) - Credit(r, student) == Charged(r, student) - Received(r, student)
  {
    if programs != [] {
      var m := |programs| - 1;
      AlwaysValid(s, programs[..m], days);
      AfterReckoned(AfterAll(s, programs[..m], days), programs[m], days(m));
    }
    BalanceLaw(AfterAll(s, programs, days).Ledger(), student);
  }
}
