/**
The concessions promised for a year: each is written as an amount per term, put
on the lines already billed, and the headers of the year's bills follow.
*/
module AnnualDiscount {
  import opened Tables
  import opened Books
  import opened Upkeep
  import opened Balances
  import opened Withdrawal
  import opened Waterfall
  import opened TermRun

  /** One row of the sheet, matched to a student on the roll. */
  datatype Grant = Grant(student: nat, annual: nat)

  datatype Promised = Promised(books: Books, concessions: seq<Concession>)

  /** In how many terms the structures bill the head; once when they do not name it. */
  function TermsOf(structures: seq<Structure>, head: nat): nat
  {
    var items := set s, i | s in structures && i in s.items && i.head == head :: i.instalment;
    if items == {} then 1 else Largest(items)
  }

  function Largest(terms: set<nat>): (m: nat)
    requires terms != {}
    ensures m in terms && forall t :: t in terms ==> t <= m
  {
    LargestExists(terms);
    var m :| m in terms && forall t :: t in terms ==> t <= m;
    m
  }

  lemma {:induction false} LargestExists(terms: set<nat>)
    requires terms != {}
    ensures exists m :: m in terms && forall t :: t in terms ==> t <= m
  {
    var x :| x in terms;
    if terms != {x} {
      LargestExists(terms - {x});
      var m :| m in terms - {x} && forall t :: t in terms - {x} ==> t <= m;
      var top := if x <= m then m else x;
      assert top in terms && forall t :: t in terms ==> t == x || t in terms - {x};
    }
  }

  predicate Has(concessions: seq<Concession>, student: nat, year: Year, head: nat)
  {
    exists c :: c in concessions && c.student == student && c.year == year && c.head == Some(head)
  }

  /** Bills of the year that are neither cancelled nor paid off. */
  function OpenBills(b: Books, student: nat, year: Year): set<nat>
  {
    set i | i in b.invoices && i.student == student && i.year == year && i.Live() && i.status != Paid :: i.id
  }

  function Discounted(bills: set<nat>, head: nat, perTerm: nat): Line -> Line
  {
    (l: Line) =>
      if l.invoice in bills && l.head == Some(head) && l.discount == 0 then l.(discount := Min(l.amount, perTerm))
      else l
  }

  function Give(p: Promised, g: Grant, year: Year, head: nat, terms: nat): Promised
    requires terms > 0
  {
    if Has(p.concessions, g.student, year, head) then p
    else
      Promised(
        p.books.(lines := Each(p.books.lines, Discounted(OpenBills(p.books, g.student, year), head, g.annual / terms))),
        p.concessions + [Concession(g.student, year, Some(head), Some(g.annual / terms), None, true)])
  }

  function GiveAll(p: Promised, grants: seq<Grant>, year: Year, head: nat, terms: nat): Promised
    requires terms > 0
  {
    if grants == [] then p
    else Give(GiveAll(p, grants[..|grants| - 1], year, head, terms), grants[|grants| - 1], year, head, terms)
  }

  /** None when a head is billed in no term at all: the division stops the program. */
  function RunDiscounts(p: Promised, structures: seq<Structure>, grants: seq<Grant>, year: Year,
                        head: nat): Option<Promised>
  {
    var terms := TermsOf(structures, head);
    if terms == 0 && grants != [] then None
    else
      var given := if grants == [] then p else GiveAll(p, grants, year, head, terms);
      Some(given.(books := RecomputeHeaders(given.books, YearBills(given.books, year))))
  }

  // --- what the run comes to ------------------------------------------------

  /** The amount per term a student's first grant writes; nothing when it has a concession already. */
  function PerTerm(concessions: seq<Concession>, grants: seq<Grant>, year: Year, head: nat, terms: nat,
                   student: nat): Option<nat>
    requires terms > 0
  {
    if grants == [] || Has(concessions, student, year, head) then None
    else
      var earlier := PerTerm(concessions, grants[..|grants| - 1], year, head, terms, student);
      var g := grants[|grants| - 1];
      if earlier.Some? then earlier else if g.student == student then Some(g.annual / terms) else None
  }

  ghost predicate Relined(b: Books, old': Line, new': Line, head: nat, year: Year, per: nat -> Option<nat>)
    requires old'.invoice in BillIds(b.invoices)
  {
    var i := Bill(b.invoices, old'.invoice);
    if i.year == year && i.Live() && i.status != Paid && old'.head == Some(head) && old'.discount == 0
      && per(i.student).Some?
    then new' == old'.(discount := Min(old'.amount, per(i.student).value))
    else new' == old'
  }

  function Per(concessions: seq<Concession>, grants: seq<Grant>, year: Year, head: nat, terms: nat): nat -> Option<nat>
    requires terms > 0
  {
    (s: nat) => PerTerm(concessions, grants, year, head, terms, s)
  }

  /** Every line of an open bill of a granted student is discounted by the amount per term, never beyond its charge, and
      every other line is as it was; nothing but lines and concessions changes. */
  ghost predicate Came(p: Promised, q: Promised, grants: seq<Grant>, year: Year, head: nat, terms: nat)
    requires terms > 0
    requires forall l :: l in p.books.lines ==> l.invoice in BillIds(p.books.invoices)
  {
    && q.books == p.books.(lines := q.books.lines) && |q.books.lines| == |p.books.lines|
    && (forall k :: 0 <= k < |p.books.lines| ==>
          Relined(p.books, p.books.lines[k], q.books.lines[k], head, year,
                  Per(p.concessions, grants, year, head, terms)))
    && (forall s: nat :: Has(q.concessions, s, year, head)
          <==> Has(p.concessions, s, year, head) || PerTerm(p.concessions, grants, year, head, terms, s).Some?)
  }

  lemma HasOneMore(concessions: seq<Concession>, c: Concession, student: nat, year: Year, head: nat)
    ensures Has(concessions + [c], student, year, head)
      <==> Has(concessions, student, year, head) || (c.student == student && c.year == year && c.head == Some(head))
  {
    var more := concessions + [c];
    if Has(concessions, student, year, head) {
      var x :| x in concessions && x.student == student && x.year == year && x.head == Some(head);
      assert x in more;
    }
    assert c in more;
  }

  lemma OpenBillIs(b: Books, student: nat, year: Year, id: nat)
    requires DistinctBills(b.invoices) && id in BillIds(b.invoices)
    ensures id in OpenBills(b, student, year) <==>
      var i := Bill(b.invoices, id); i.student == student && i.year == year && i.Live() && i.status != Paid
  {
    forall i | i in b.invoices && i.id == id ensures i == Bill(b.invoices, id) { BillIs(b.invoices, i); }
  }

  lemma PerTermStep(concessions: seq<Concession>, grants: seq<Grant>, g: Grant, year: Year, head: nat, terms: nat,
                    student: nat)
    requires terms > 0
    ensures
      var before := PerTerm(concessions, grants, year, head, terms, student);
      PerTerm(concessions, grants + [g], year, head, terms, student)
      == if before.Some? || Has(concessions, student, year, head) || g.student != student then before
         else Some(g.annual / terms)
  {
    assert (grants + [g])[..|grants|] == grants;
  }

  lemma LineStep(p: Promised, q: Promised, grants: seq<Grant>, g: Grant, year: Year, head: nat, terms: nat, k: nat)
    requires terms > 0 && Keyed(p.books) && Itemised(p.books, {}) && k < |p.books.lines|
    requires Came(p, q, grants, year, head, terms) && !Has(q.concessions, g.student, year, head)
    ensures Relined(p.books, p.books.lines[k], Give(q, g, year, head, terms).books.lines[k], head, year,
                    Per(p.concessions, grants + [g], year, head, terms))
  {
    var l := p.books.lines[k];
    var i := Bill(p.books.invoices, l.invoice);
    OpenBillIs(p.books, g.student, year, l.invoice);
    PerTermStep(p.concessions, grants, g, year, head, terms, i.student);
  }

  lemma GiveCame(p: Promised, q: Promised, grants: seq<Grant>, g: Grant, year: Year, head: nat, terms: nat)
    requires terms > 0 && Keyed(p.books) && Itemised(p.books, {})
    requires Came(p, q, grants, year, head, terms)
    ensures Came(p, Give(q, g, year, head, terms), grants + [g], year, head, terms)
  {
    var r := Give(q, g, year, head, terms);
    var c := Concession(g.student, year, Some(head), Some(g.annual / terms), None, true);
    forall s: nat
      ensures Has(r.concessions, s, year, head)
        <==> Has(p.concessions, s, year, head) || PerTerm(p.concessions, grants + [g], year, head, terms, s).Some?
    {
      HasOneMore(q.concessions, c, s, year, head);
      PerTermStep(p.concessions, grants, g, year, head, terms, s);
    }
    forall k | 0 <= k < |p.books.lines|
      ensures Relined(p.books, p.books.lines[k], r.books.lines[k], head, year,
                      Per(p.concessions, grants + [g], year, head, terms))
    {
      if Has(q.concessions, g.student, year, head) {
        PerTermStep(p.concessions, grants, g, year, head, terms,
                    Bill(p.books.invoices, p.books.lines[k].invoice).student);
      } else {
        LineStep(p, q, grants, g, year, head, terms, k);
      }
    }
  }

  lemma CameFromNothing(p: Promised, year: Year, head: nat, terms: nat)
    requires terms > 0 && Itemised(p.books, {})
    ensures Came(p, p, [], year, head, terms)
  {
  }

  lemma {:induction false} GiveAllCame(p: Promised, grants: seq<Grant>, year: Year, head: nat, terms: nat, q: Promised)
    requires terms > 0 && Keyed(p.books) && Itemised(p.books, {}) && q == GiveAll(p, grants, year, head, terms)
    ensures Came(p, q, grants, year, head, terms)
  {
    if grants == [] {
      CameFromNothing(p, year, head, terms);
    } else {
      var m := |grants| - 1;
      var q1 := GiveAll(p, grants[..m], year, head, terms);
      GiveAllCame(p, grants[..m], year, head, terms, q1);
      GiveCame(p, q1, grants[..m], grants[m], year, head, terms);
      assert grants == grants[..m] + [grants[m]];
    }
  }

  // --- validity -------------------------------------------------------------

  /** What re-lining takes off a bill. */
  ghost function OffLine(b: Books, bill: nat, head: nat, year: Year, per: nat -> Option<nat>): Line -> int
    requires bill in BillIds(b.invoices)
  {
    var i := Bill(b.invoices, bill);
    (l: Line) =>
      if l.invoice == bill && i.year == year && i.Live() && i.status != Paid && l.head == Some(head) && l.discount == 0
        && per(i.student).Some?
      then Min(l.amount, per(i.student).value) else 0
  }

  ghost function Off(b: Books, bill: nat, head: nat, year: Year, per: nat -> Option<nat>): int
    requires bill in BillIds(b.invoices)
  {
    Sum(b.lines, OffLine(b, bill, head, year, per))
  }

  lemma {:induction false} RelinedSums(b: Books, olds: seq<Line>, news: seq<Line>, bill: nat, head: nat, year: Year,
                                       per: nat -> Option<nat>)
    requires |olds| == |news| && bill in BillIds(b.invoices)
    requires forall l :: l in olds ==> l.invoice in BillIds(b.invoices)
    requires forall k :: 0 <= k < |olds| ==> Relined(b, olds[k], news[k], head, year, per)
    ensures Sum(news, AmountOn(bill)) == Sum(olds, AmountOn(bill))
    ensures Sum(news, DiscountOn(bill)) == Sum(olds, DiscountOn(bill)) + Sum(olds, OffLine(b, bill, head, year, per))
  {
    if olds != [] {
      var m := |olds| - 1;
      RelinedSums(b, olds[..m], news[..m], bill, head, year, per);
      assert Relined(b, olds[m], news[m], head, year, per);
    }
  }

  /** No bill with money on it is discounted by more than it still owes. */
  ghost predicate RoomFor(b: Books, year: Year, head: nat, per: nat -> Option<nat>)
  {
    forall id :: id in BillIds(b.invoices) && Bill(b.invoices, id).paid > 0 ==>
      Off(b, id, head, year, per) <= Bill(b.invoices, id).Balance()
  }

  lemma HeaderAfter(b: Books, lines: seq<Line>, year: Year, head: nat, per: nat -> Option<nat>, i: Invoice)
    requires Valid(b) && |lines| == |b.lines| && i in b.invoices
    requires forall k :: 0 <= k < |lines| ==> Relined(b, b.lines[k], lines[k], head, year, per)
    ensures Rehead(lines, YearBills(b, year))(i) == i.(discount := i.discount + Off(b, i.id, head, year, per))
    ensures Headed(Rehead(lines, YearBills(b, year))(i), lines)
  {
    RelinedSums(b, b.lines, lines, i.id, head, year, per);
    BillIs(b.invoices, i);
    if i.year == year {
      assert i.id in YearBills(b, year);
    } else {
      forall x | x in b.invoices && x.id == i.id ensures x == i { BillIs(b.invoices, x); }
      assert i.id !in YearBills(b, year);
      SumZero(b.lines, OffLine(b, i.id, head, year, per));
    }
  }

  /** A bill is never discounted beyond its charge, so one with nothing paid on it always has room. */
  lemma OffWithinNet(b: Books, year: Year, head: nat, per: nat -> Option<nat>, id: nat)
    requires Valid(b) && id in BillIds(b.invoices)
    ensures 0 <= Off(b, id, head, year, per) <= Bill(b.invoices, id).Net()
  {
    var off := OffLine(b, id, head, year, per);
    var rest := (l: Line) => AmountOn(id)(l) - DiscountOn(id)(l);
    SumNonNegative(b.lines, off);
    SumAtMost(b.lines, off, rest);
    SumPlus(b.lines, DiscountOn(id), rest, AmountOn(id));
  }

  lemma RelinedItemised(b: Books, lines: seq<Line>, year: Year, head: nat, per: nat -> Option<nat>)
    requires Valid(b) && |lines| == |b.lines|
    requires forall k :: 0 <= k < |lines| ==> Relined(b, b.lines[k], lines[k], head, year, per)
    ensures Itemised(RecomputeHeaders(b.(lines := lines), YearBills(b, year)), {})
  {
    var u := Rehead(lines, YearBills(b, year));
    BillOfEach(b.invoices, u);
    forall k | 0 <= k < |b.invoices| ensures Headed(Each(b.invoices, u)[k], lines) {
      HeaderAfter(b, lines, year, head, per, b.invoices[k]);
    }
    forall k | 0 <= k < |lines|
      ensures lines[k].invoice in BillIds(b.invoices) && 0 <= lines[k].discount <= lines[k].amount
    {
      assert b.lines[k] in b.lines;
    }
  }

  ghost predicate HeadersMoved(b: Books, r: Books, year: Year, head: nat, per: nat -> Option<nat>)
  {
    && |r.invoices| == |b.invoices| && r.payments == b.payments
    && (forall k :: 0 <= k < |b.invoices| ==>
          && b.invoices[k].id in BillIds(b.invoices) && Bill(b.invoices, b.invoices[k].id) == b.invoices[k]
          && r.invoices[k]
            == b.invoices[k].(discount := b.invoices[k].discount + Off(b, b.invoices[k].id, head, year, per)))
  }

  lemma RelinedHeaders(b: Books, lines: seq<Line>, year: Year, head: nat, per: nat -> Option<nat>, r: Books)
    requires Valid(b) && |lines| == |b.lines|
    requires forall k :: 0 <= k < |lines| ==> Relined(b, b.lines[k], lines[k], head, year, per)
    requires r == RecomputeHeaders(b.(lines := lines), YearBills(b, year))
    ensures HeadersMoved(b, r, year, head, per)
  {
    forall k | 0 <= k < |b.invoices|
      ensures r.invoices[k]
        == b.invoices[k].(discount := b.invoices[k].discount + Off(b, b.invoices[k].id, head, year, per))
      ensures Bill(b.invoices, b.invoices[k].id) == b.invoices[k]
    {
      HeaderAfter(b, lines, year, head, per, b.invoices[k]);
      BillIs(b.invoices, b.invoices[k]);
    }
  }

  lemma RoomIfWithin(b: Books, r: Books, year: Year, head: nat, per: nat -> Option<nat>)
    requires HeadersMoved(b, r, year, head, per) && Within(r, {})
    ensures RoomFor(b, year, head, per)
  {
    forall id | id in BillIds(b.invoices) && Bill(b.invoices, id).paid > 0
      ensures Off(b, id, head, year, per) <= Bill(b.invoices, id).Balance()
    {
      var k :| 0 <= k < |b.invoices| && b.invoices[k] == Bill(b.invoices, id);
      assert r.invoices[k] in r.invoices;
    }
  }

  lemma WithinIfRoom(b: Books, r: Books, year: Year, head: nat, per: nat -> Option<nat>)
    requires Valid(b) && HeadersMoved(b, r, year, head, per) && RoomFor(b, year, head, per)
    ensures Within(r, {})
  {
    forall k | 0 <= k < |r.invoices|
      ensures r.invoices[k].paid <= r.invoices[k].Net() && r.invoices[k].fine >= 0
      ensures r.invoices[k].status == Cancelled ==> r.invoices[k].paid == 0
    {
      OffWithinNet(b, year, head, per, b.invoices[k].id);
      assert b.invoices[k] in b.invoices;
    }
  }

  lemma RelinedWithin(b: Books, lines: seq<Line>, year: Year, head: nat, per: nat -> Option<nat>, r: Books)
    requires Valid(b) && |lines| == |b.lines|
    requires forall k :: 0 <= k < |lines| ==> Relined(b, b.lines[k], lines[k], head, year, per)
    requires r == RecomputeHeaders(b.(lines := lines), YearBills(b, year))
    ensures Within(r, {}) <==> RoomFor(b, year, head, per)
  {
    RelinedHeaders(b, lines, year, head, per, r);
    if Within(r, {}) {
      RoomIfWithin(b, r, year, head, per);
    }
    if RoomFor(b, year, head, per) {
      WithinIfRoom(b, r, year, head, per);
    }
  }

  lemma RelinedTallied(b: Books, lines: seq<Line>, bills: set<nat>)
    requires Tallied(b)
    ensures Tallied(RecomputeHeaders(b.(lines := lines), bills))
  {
    var r := RecomputeHeaders(b.(lines := lines), bills);
    forall k | 0 <= k < |r.invoices| ensures r.invoices[k].paid == Sum(b.allocations, PaidTo(r.invoices[k].id)) {
      assert b.invoices[k] in b.invoices;
    }
  }

  lemma RelinedValid(b: Books, lines: seq<Line>, year: Year, head: nat, per: nat -> Option<nat>, r: Books)
    requires Valid(b) && |lines| == |b.lines|
    requires forall k :: 0 <= k < |lines| ==> Relined(b, b.lines[k], lines[k], head, year, per)
    requires r == RecomputeHeaders(b.(lines := lines), YearBills(b, year))
    ensures Valid(r) <==> RoomFor(b, year, head, per)
  {
    var b1 := b.(lines := lines);
    assert forall c :: c in b.carries ==> Carries(b, c) ==> Carries(b1, c);
    assert forall a :: a in b.allocations ==> Joins(b, a) ==> Joins(b1, a);
    UpdateBillsKeeps(b1, Rehead(lines, YearBills(b, year)));
    RelinedItemised(b, lines, year, head, per);
    RelinedTallied(b, lines, YearBills(b, year));
    RelinedWithin(b, lines, year, head, per, r);
  }

  /** The run keeps the ledger valid exactly when no part-paid bill is discounted by more than it still owes. */
  lemma RunDiscountsKeeps(p: Promised, structures: seq<Structure>, grants: seq<Grant>, year: Year, head: nat,
                          q: Promised, terms: nat)
    requires Valid(p.books) && RunDiscounts(p, structures, grants, year, head) == Some(q)
    requires grants != [] && terms == TermsOf(structures, head)
    ensures terms > 0
    ensures Valid(q.books) <==> RoomFor(p.books, year, head, Per(p.concessions, grants, year, head, terms))
  {
    var given := GiveAll(p, grants, year, head, terms);
    GiveAllCame(p, grants, year, head, terms, given);
    RelinedValid(p.books, given.books.lines, year, head, Per(p.concessions, grants, year, head, terms), q.books);
  }

  /** Each bill's discount rises by what its re-lined lines came to; its charge and its money stay. */
  lemma HeadersFollow(p: Promised, structures: seq<Structure>, grants: seq<Grant>, year: Year, head: nat, q: Promised,
                      terms: nat, k: nat)
    requires Valid(p.books) && RunDiscounts(p, structures, grants, year, head) == Some(q)
    requires grants != [] && terms == TermsOf(structures, head) && k < |p.books.invoices|
    ensures terms > 0 && |q.books.invoices| == |p.books.invoices|
    ensures
      var i := p.books.invoices[k];
      q.books.invoices[k]
        == i.(discount := i.discount + Off(p.books, i.id, head, year, Per(p.concessions, grants, year, head, terms)))
  {
    var given := GiveAll(p, grants, year, head, terms);
    GiveAllCame(p, grants, year, head, terms, given);
    HeaderAfter(p.books, given.books.lines, year, head, Per(p.concessions, grants, year, head, terms),
                p.books.invoices[k]);
  }

  lemma {:induction false} OnlyLines(p: Promised, grants: seq<Grant>, year: Year, head: nat, terms: nat, q: Promised)
    requires terms > 0 && q == GiveAll(p, grants, year, head, terms)
    ensures q.books == p.books.(lines := q.books.lines)
  {
    if grants != [] {
      var m := |grants| - 1;
      OnlyLines(p, grants[..m], year, head, terms, GiveAll(p, grants[..m], year, head, terms));
    }
  }

  lemma HeadersReckoned(b: Books, lines: seq<Line>, bills: set<nat>, r: Books)
    requires Reckoned(b) && r == RecomputeHeaders(b.(lines := lines), bills)
    ensures Reckoned(r)
  {
    BillOfEach(b.invoices, Rehead(lines, bills));
    forall a | a in r.allocations ensures Joins(r, a) {
      assert Joins(b, a);
    }
    forall k | 0 <= k < |r.invoices|
      ensures r.invoices[k].paid == Sum(r.allocations, PaidTo(r.invoices[k].id))
      ensures !r.invoices[k].Live() ==> r.invoices[k].paid == 0
    {
      assert b.invoices[k] in b.invoices;
    }
  }

  /** With or without room, the run leaves every key, payment and allocation in order: money can still be counted. */
  lemma RunDiscountsReckoned(p: Promised, structures: seq<Structure>, grants: seq<Grant>, year: Year, head: nat,
                             q: Promised)
    requires Reckoned(p.books) && RunDiscounts(p, structures, grants, year, head) == Some(q)
    ensures Reckoned(q.books) && q.books.payments == p.books.payments && q.books.carries == p.books.carries
  {
    var terms := TermsOf(structures, head);
    var given := if grants == [] then p else GiveAll(p, grants, year, head, terms);
    if grants != [] {
      OnlyLines(p, grants, year, head, terms, given);
    }
    HeadersReckoned(p.books, given.books.lines, YearBills(given.books, year), q.books);
  }

  /** Without a grant nothing moves: the headers of a valid ledger are the sums already. */
  lemma NoGrantNoChange(p: Promised, structures: seq<Structure>, year: Year, head: nat)
    requires Valid(p.books)
    ensures RunDiscounts(p, structures, [], year, head) == Some(p)
  {
    forall k | 0 <= k < |p.books.invoices|
      ensures Rehead(p.books.lines, YearBills(p.books, year))(p.books.invoices[k]) == p.books.invoices[k]
    {
      assert Headed(p.books.invoices[k], p.books.lines);
    }
    assert Each(p.books.invoices, Rehead(p.books.lines, YearBills(p.books, year))) == p.books.invoices;
  }

  // --- the run, read off the rows -------------------------------------------

  /** An item of a structure bills the head in the term. */
  ghost predicate BilledIn(structures: seq<Structure>, head: nat, term: nat)
  {
    exists s, i :: s in structures && i in s.items && i.head == head && i.instalment == term
  }

  /** The number of terms is the last in which any structure bills the head, or one when none does. */
  lemma TermsAre(structures: seq<Structure>, head: nat, terms: nat)
    requires terms == TermsOf(structures, head)
    ensures if exists t: nat :: BilledIn(structures, head, t)
            then BilledIn(structures, head, terms) && forall t: nat :: BilledIn(structures, head, t) ==> t <= terms
            else terms == 1
  {
    var items := set s, i | s in structures && i in s.items && i.head == head :: i.instalment;
    forall t: nat ensures t in items <==> BilledIn(structures, head, t) {
    }
  }

  /** The child's first row on the sheet. */
  ghost predicate FirstRow(grants: seq<Grant>, student: nat, k: nat)
  {
    k < |grants| && grants[k].student == student && forall j :: 0 <= j < k ==> grants[j].student != student
  }

  /** The child has a concession on the head already. */
  ghost predicate Conceded(concessions: seq<Concession>, student: nat, year: Year, head: nat)
  {
    exists c :: c in concessions && c.student == student && c.year == year && c.head.Some? && c.head.value == head
  }

  lemma {:induction false} PerTermIs(concessions: seq<Concession>, grants: seq<Grant>, year: Year, head: nat,
                                     terms: nat,
                                     student: nat, k: nat)
    requires terms > 0 && FirstRow(grants, student, k)
    ensures PerTerm(concessions, grants, year, head, terms, student)
         == if Conceded(concessions, student, year, head) then None else Some(grants[k].annual / terms)
  {
    var m := |grants| - 1;
    if k < m {
      PerTermIs(concessions, grants[..m], year, head, terms, student, k);
    } else {
      NotNamed(concessions, grants[..m], year, head, terms, student);
    }
  }

  lemma {:induction false} NotNamed(concessions: seq<Concession>, grants: seq<Grant>, year: Year, head: nat, terms: nat,
                                    student: nat)
    requires terms > 0 && forall k :: 0 <= k < |grants| ==> grants[k].student != student
    ensures PerTerm(concessions, grants, year, head, terms, student) == None
  {
    if grants != [] {
      NotNamed(concessions, grants[..|grants| - 1], year, head, terms, student);
    }
  }

  lemma {:induction false} FirstRowExists(grants: seq<Grant>, student: nat) returns (k: nat)
    requires exists j :: 0 <= j < |grants| && grants[j].student == student
    ensures FirstRow(grants, student, k)
  {
    var m := |grants| - 1;
    if exists j :: 0 <= j < m && grants[j].student == student {
      assert exists j :: 0 <= j < |grants[..m]| && grants[..m][j].student == student;
      k := FirstRowExists(grants[..m], student);
    } else {
      k := m;
    }
  }

  /** The concession a child's first row writes: the annual amount divided by the terms, approved. */
  ghost predicate WrittenFor(concessions: seq<Concession>, grants: seq<Grant>, year: Year, head: nat, terms: nat,
                             c: Concession)
    requires terms > 0
  {
    && !Conceded(concessions, c.student, year, head)
    && exists g: nat :: FirstRow(grants, c.student, g) &&
         c == Concession(c.student, year, Some(head), Some(grants[g].annual / terms), None, true)
  }

  lemma StillWritten(concessions: seq<Concession>, grants: seq<Grant>, more: seq<Grant>, year: Year, head: nat,
                     terms: nat, c: Concession)
    requires terms > 0 && WrittenFor(concessions, grants, year, head, terms, c)
    ensures WrittenFor(concessions, grants + more, year, head, terms, c)
  {
    var g: nat :| FirstRow(grants, c.student, g) &&
      c == Concession(c.student, year, Some(head), Some(grants[g].annual / terms), None, true);
    assert FirstRow(grants + more, c.student, g);
  }

  lemma HasIs(concessions: seq<Concession>, student: nat, year: Year, head: nat)
    ensures Has(concessions, student, year, head) <==> Conceded(concessions, student, year, head)
  {
  }

  /** The last row is written exactly when it is the child's first, and the child has no concession yet. */
  lemma LastWritten(p: Promised, grants: seq<Grant>, year: Year, head: nat, terms: nat, q1: Promised)
    requires terms > 0 && grants != [] && Keyed(p.books) && Itemised(p.books, {})
    requires q1 == GiveAll(p, grants[..|grants| - 1], year, head, terms)
    ensures
      var g := grants[|grants| - 1];
      !Has(q1.concessions, g.student, year, head)
      <==> !Conceded(p.concessions, g.student, year, head) && FirstRow(grants, g.student, |grants| - 1)
  {
    var m := |grants| - 1;
    var s := grants[m].student;
    GiveAllCame(p, grants[..m], year, head, terms, q1);
    HasIs(p.concessions, s, year, head);
    if j :| 0 <= j < m && grants[j].student == s {
      assert grants[..m][j].student == s;
      var k := FirstRowExists(grants[..m], s);
      PerTermIs(p.concessions, grants[..m], year, head, terms, s, k);
      assert !FirstRow(grants, s, m);
    } else {
      NotNamed(p.concessions, grants[..m], year, head, terms, s);
    }
  }

  /** The concessions after the run are those before it and, for each child the sheet names that had none on the head,
      the one its first row writes. */
  lemma {:induction false} ConcessionsWritten(p: Promised, grants: seq<Grant>, year: Year, head: nat, terms: nat,
                                              q: Promised)
    requires terms > 0 && Keyed(p.books) && Itemised(p.books, {}) && q == GiveAll(p, grants, year, head, terms)
    ensures p.concessions <= q.concessions
    ensures forall k :: |p.concessions| <= k < |q.concessions| ==>
      WrittenFor(p.concessions, grants, year, head, terms, q.concessions[k])
    ensures forall c :: WrittenFor(p.concessions, grants, year, head, terms, c) ==> c in q.concessions
  {
    if grants != [] {
      var m := |grants| - 1;
      var q1 := GiveAll(p, grants[..m], year, head, terms);
      ConcessionsWritten(p, grants[..m], year, head, terms, q1);
      LastWritten(p, grants, year, head, terms, q1);
      WrittenFurther(p, grants, year, head, terms, q1, q);
    }
  }

  lemma WrittenFurther(p: Promised, grants: seq<Grant>, year: Year, head: nat, terms: nat, q1: Promised, q: Promised)
    requires terms > 0 && grants != [] && q == Give(q1, grants[|grants| - 1], year, head, terms)
    requires p.concessions <= q1.concessions
    requires !Has(q1.concessions, grants[|grants| - 1].student, year, head) <==>
      (!Conceded(p.concessions, grants[|grants| - 1].student, year, head)
       && FirstRow(grants, grants[|grants| - 1].student, |grants| - 1))
    requires forall k :: |p.concessions| <= k < |q1.concessions| ==>
      WrittenFor(p.concessions, grants[..|grants| - 1], year, head, terms, q1.concessions[k])
    requires forall c :: WrittenFor(p.concessions, grants[..|grants| - 1], year, head, terms, c) ==> c in q1.concessions
    ensures p.concessions <= q.concessions
    ensures forall k :: |p.concessions| <= k < |q.concessions| ==>
      WrittenFor(p.concessions, grants, year, head, terms, q.concessions[k])
    ensures forall c :: WrittenFor(p.concessions, grants, year, head, terms, c) ==> c in q.concessions
  {
    var m := |grants| - 1;
    assert grants == grants[..m] + [grants[m]];
    forall k | |p.concessions| <= k < |q.concessions|
      ensures WrittenFor(p.concessions, grants, year, head, terms, q.concessions[k])
    {
      if k < |q1.concessions| {
        StillWritten(p.concessions, grants[..m], [grants[m]], year, head, terms, q1.concessions[k]);
      } else {
        assert FirstRow(grants, grants[m].student, m);
      }
    }
    forall c | WrittenFor(p.concessions, grants, year, head, terms, c) ensures c in q.concessions {
      var g: nat :| FirstRow(grants, c.student, g) &&
        c == Concession(c.student, year, Some(head), Some(grants[g].annual / terms), None, true);
      if g < m {
        assert FirstRow(grants[..m], c.student, g);
        assert WrittenFor(p.concessions, grants[..m], year, head, terms, c);
      }
    }
  }

  /** A line the run discounts: of a bill of the year neither cancelled nor paid off, on the head, not discounted yet,
      of a child the sheet names that had no concession on the head. */
  ghost predicate Discountable(p: Promised, grants: seq<Grant>, year: Year, head: nat, l: Line, i: Invoice)
  {
    && i.id == l.invoice && i.year == year && i.status != Cancelled && i.status != Paid
    && l.head.Some? && l.head.value == head && l.discount == 0
    && !Conceded(p.concessions, i.student, year, head)
    && exists j :: 0 <= j < |grants| && grants[j].student == i.student
  }

  /** Every line the run may discount loses the child's first annual amount divided by the terms, or its whole charge
      when that is less; every other line is as it was. */
  lemma LinesComeTo(p: Promised, structures: seq<Structure>, grants: seq<Grant>, year: Year, head: nat, q: Promised,
                    terms: nat, k: nat, i: Invoice)
    requires Valid(p.books) && RunDiscounts(p, structures, grants, year, head) == Some(q) && grants != []
    requires terms == TermsOf(structures, head) && k < |p.books.lines| && i in p.books.invoices
    requires i.id == p.books.lines[k].invoice
    ensures terms > 0 && |q.books.lines| == |p.books.lines|
    ensures Discountable(p, grants, year, head, p.books.lines[k], i) ==>
      exists g: nat :: FirstRow(grants, i.student, g) &&
        q.books.lines[k] == p.books.lines[k].(discount := Min(p.books.lines[k].amount, grants[g].annual / terms))
    ensures !Discountable(p, grants, year, head, p.books.lines[k], i) ==> q.books.lines[k] == p.books.lines[k]
  {
    var given := GiveAll(p, grants, year, head, terms);
    GiveAllCame(p, grants, year, head, terms, given);
    BillIs(p.books.invoices, i);
    assert Relined(p.books, p.books.lines[k], given.books.lines[k], head, year,
                   Per(p.concessions, grants, year, head, terms));
    if exists j :: 0 <= j < |grants| && grants[j].student == i.student {
      var g := FirstRowExists(grants, i.student);
      PerTermIs(p.concessions, grants, year, head, terms, i.student, g);
    } else {
      NotNamed(p.concessions, grants, year, head, terms, i.student);
    }
  }

  // --- a second run ---------------------------------------------------------

  lemma {:induction false} EveryGrantWritten(concessions: seq<Concession>, grants: seq<Grant>, year: Year, head: nat,
                                             terms: nat, k: nat)
    requires terms > 0 && k < |grants| && !Has(concessions, grants[k].student, year, head)
    ensures PerTerm(concessions, grants, year, head, terms, grants[k].student).Some?
  {
    if k < |grants| - 1 {
      EveryGrantWritten(concessions, grants[..|grants| - 1], year, head, terms, k);
    }
  }

  lemma {:induction false} NothingToGive(q: Promised, grants: seq<Grant>, year: Year, head: nat, terms: nat)
    requires terms > 0 && forall k :: 0 <= k < |grants| ==> Has(q.concessions, grants[k].student, year, head)
    ensures GiveAll(q, grants, year, head, terms) == q
  {
    if grants != [] {
      NothingToGive(q, grants[..|grants| - 1], year, head, terms);
    }
  }

  lemma HeadersSettle(b: Books, year: Year, r: Books)
    requires DistinctBills(b.invoices) && r == RecomputeHeaders(b, YearBills(b, year))
    ensures RecomputeHeaders(r, YearBills(r, year)) == r
  {
    forall k | 0 <= k < |b.invoices|
      ensures r.invoices[k].id == b.invoices[k].id && r.invoices[k].year == b.invoices[k].year
    {
    }
    forall id ensures id in YearBills(b, year) <==> id in YearBills(r, year) {
      if id in YearBills(b, year) {
        var k :| 0 <= k < |b.invoices| && b.invoices[k].year == year && b.invoices[k].id == id;
        assert r.invoices[k] in r.invoices;
      }
      if id in YearBills(r, year) {
        var k :| 0 <= k < |r.invoices| && r.invoices[k].year == year && r.invoices[k].id == id;
        assert b.invoices[k] in b.invoices;
      }
    }
    assert YearBills(b, year) == YearBills(r, year);
    assert Each(r.invoices, Rehead(r.lines, YearBills(r, year))) == r.invoices;
  }

  /** A second run of the same sheet applies nothing. */
  lemma RunDiscountsAgain(p: Promised, structures: seq<Structure>, grants: seq<Grant>, year: Year, head: nat,
                          q: Promised)
    requires Valid(p.books) && RunDiscounts(p, structures, grants, year, head) == Some(q)
    ensures RunDiscounts(q, structures, grants, year, head) == Some(q)
  {
    var terms := TermsOf(structures, head);
    if grants == [] {
      HeadersSettle(p.books, year, q.books);
    } else {
      var given := GiveAll(p, grants, year, head, terms);
      GiveAllCame(p, grants, year, head, terms, given);
      HeadersSettle(given.books, year, q.books);
      forall k | 0 <= k < |grants| ensures Has(q.concessions, grants[k].student, year, head) {
        if !Has(p.concessions, grants[k].student, year, head) {
          EveryGrantWritten(p.concessions, grants, year, head, terms, k);
        }
      }
      NothingToGive(q, grants, year, head, terms);
    }
  }

  // --- the year against the promise -----------------------------------------

  function DiscountOf(): Line -> int { (l: Line) => l.discount }

  lemma PerTermGranted(f: FeeBook, student: nat, year: Year, item: Item, annual: nat, terms: nat)
    requires terms > 0
    requires Where(f.concessions, Applies(student, year, item.head))
      == [Concession(student, year, Some(item.head), Some(annual / terms), None, true)]
    ensures Granted(f, student, year, item) == annual / terms
  {
    var cs := Where(f.concessions, Applies(student, year, item.head));
    assert LargestAmount(cs[..0]) == None;
    assert LargestAmount(cs) == Some(annual / terms);
  }

  lemma {:induction false} TermsDiscounted(f: FeeBook, student: nat, year: Year, bill: nat, items: seq<Item>, head: nat,
                                           annual: nat, terms: nat)
    requires terms > 0 && head !in f.optional
    requires Where(f.concessions, Applies(student, year, head))
      == [Concession(student, year, Some(head), Some(annual / terms), None, true)]
    requires forall k :: 0 <= k < |items| ==> items[k].head == head && items[k].amount >= annual / terms
    ensures Sum(OwnLines(f, student, year, bill, items), DiscountOf()) == |items| * (annual / terms)
  {
    if items != [] {
      var m := |items| - 1;
      TermsDiscounted(f, student, year, bill, items[..m], head, annual, terms);
      PerTermGranted(f, student, year, items[m], annual, terms);
      SumSnoc(OwnLines(f, student, year, bill, items[..m]), ItemLine(f, student, year, bill, items[m]), DiscountOf());
    }
  }

  /** Billed in its terms, the year falls short of the promise by the remainder of the division, less than a paisa a
      term: it comes to what was promised exactly when the terms divide it. */
  lemma YearFallsShort(f: FeeBook, student: nat, year: Year, bill: nat, items: seq<Item>, head: nat, annual: nat,
                       terms: nat)
    requires terms > 0 && head !in f.optional && |items| == terms
    requires Where(f.concessions, Applies(student, year, head))
      == [Concession(student, year, Some(head), Some(annual / terms), None, true)]
    requires forall k :: 0 <= k < |items| ==> items[k].head == head && items[k].amount >= annual / terms
    ensures annual - Sum(OwnLines(f, student, year, bill, items), DiscountOf()) == annual % terms
    ensures 0 <= annual % terms < terms
  {
    TermsDiscounted(f, student, year, bill, items, head, annual, terms);
    assert annual == terms * (annual / terms) + annual % terms;
  }

  /** The stated intention: the remainder rides on the first term. */
  function WithRemainder(annual: nat, terms: nat, k: nat): nat
    requires terms > 0
  {
    annual / terms + if k == 0 then annual % terms else 0
  }

  function IntendedTo(annual: nat, terms: nat, k: nat): nat
    requires terms > 0
  {
    if k == 0 then 0 else IntendedTo(annual, terms, k - 1) + WithRemainder(annual, terms, k - 1)
  }

  lemma {:induction false} IntendedSoFar(annual: nat, terms: nat, k: nat)
    requires terms > 0
    ensures IntendedTo(annual, terms, k) == k * (annual / terms) + if k == 0 then 0 else annual % terms
  {
    if k > 0 {
      IntendedSoFar(annual, terms, k - 1);
    }
  }

  /** With the remainder on the first term the year adds back to the promise exactly. */
  lemma IntendedAddsBack(annual: nat, terms: nat)
    requires terms > 0
    ensures IntendedTo(annual, terms, terms) == annual
  {
    IntendedSoFar(annual, terms, terms);
  }
}
