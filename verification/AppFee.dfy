/**
The application fee: a bill for every child admitted this year who has none,
settled from the credit the family already has, oldest receipt first.
*/
module AppFee {
  import opened Tables
  import opened Books
  import opened Upkeep
  import opened Balances
  import opened Growth
  import opened Waterfall
  import opened Posting

  const FEE := 100000
  const FEE_SERIES := "INV/2026-27/APP"
  const FEE_INSTALMENT := 40
  const GRACE := 14

  // --- settling a bill from credit ------------------------------------------

  function HasCredit(student: nat): Payment -> bool { (p: Payment) => p.student == student && p.amount > p.drawn }
  function PaidOn(): Payment -> int { (p: Payment) => p.paidOn }

  /** A student's receipts with something left on them, oldest first. */
  function Credits(b: Books, student: nat): seq<Payment> { SortBy(Where(b.payments, HasCredit(student)), PaidOn()) }

  function LeftOn(credits: seq<Payment>): seq<int>
  {
    seq(|credits|, k requires 0 <= k < |credits| => credits[k].Left())
  }

  /** Credit `k` gives what it has left, up to what is still owed; once nothing is owed the loop has ended. */
  function SettleOne(b: Books, bill: nat, credits: seq<Payment>, owed: int, today: int, k: nat): Books
    requires k < |credits|
  {
    if Left(LeftOn(credits), owed, k) <= 0 then b
    else Allocate(b, Allocation(credits[k].id, bill, Charge(LeftOn(credits), owed, k)), today)
  }

  function SettleTo(b: Books, bill: nat, credits: seq<Payment>, owed: int, today: int, k: nat): Books
    requires k <= |credits|
  {
    if k == 0 then b else SettleOne(SettleTo(b, bill, credits, owed, today, k - 1), bill, credits, owed, today, k - 1)
  }

  function Settle(b: Books, student: nat, bill: nat, owed: int, today: int): Books
  {
    var credits := Credits(b, student);
    SettleTo(b, bill, credits, owed, today, |credits|)
  }

  // --- the run --------------------------------------------------------------

  /** The child has a live bill of the year with a line under the head. */
  predicate BilledUnder(b: Books, student: nat, year: Year, head: nat)
  {
    exists l, i :: l in b.lines && i in b.invoices && l.invoice == i.id && l.head == Some(head)
      && i.student == student && i.year == year && i.Live()
  }

  function FeeBill(student: nat, year: Year, seq': nat, today: int): Invoice
  {
    Invoice(0, student, year, DocNo(FEE_SERIES, seq'), Some(FEE_INSTALMENT), today, Some(today + GRACE), FEE, 0, 0, 0,
            Unpaid)
  }

  function ChargeFee(b: Books, student: nat, year: Year, head: nat, seq': nat, today: int): Option<Books>
  {
    var b1 :- RaiseBill(b, FeeBill(student, year, seq', today), Some(head));
    Some(Settle(b1, student, b.next, FEE, today))
  }

  /** The children in turn; the program's own counter starts at nothing. */
  function ChargeFees(b: Books, kids: seq<nat>, year: Year, head: nat, today: int): Option<Books>
  {
    if kids == [] then Some(b)
    else
      var b1 :- ChargeFees(b, kids[..|kids| - 1], year, head, today);
      ChargeFee(b1, kids[|kids| - 1], year, head, |kids|, today)
  }

  function Unbilled(b: Books, year: Year, head: nat): nat -> bool { (s: nat) => !BilledUnder(b, s, year, head) }

  /** `admitted` are this year's active admissions, in admission order. None when a bill number is taken: the run rolls
      back. */
  function RunFees(b: Books, admitted: seq<nat>, year: Year, head: nat, today: int): Option<Books>
  {
    ChargeFees(b, Where(admitted, Unbilled(b, year, head)), year, head, today)
  }

  /** The child has no live bill of the year with a line under the head. */
  ghost predicate NoBillUnder(b: Books, student: nat, year: Year, head: nat)
  {
    forall l, i :: l in b.lines && i in b.invoices && l.invoice == i.id && l.head == Some(head) ==>
      i.student != student || i.year != year || i.status == Cancelled
  }

  lemma NoBillUnderIs(b: Books, student: nat, year: Year, head: nat)
    ensures NoBillUnder(b, student, year, head) <==> !BilledUnder(b, student, year, head)
  {
  }

  // --- credit is taken oldest first, and exactly ----------------------------

  ghost predicate CreditsOn(b: Books, credits: seq<Payment>, student: nat)
  {
    && (forall k :: 0 <= k < |credits| ==>
          && credits[k].id in PaymentIds(b.payments) && Receipt(b.payments, credits[k].id) == credits[k]
          && credits[k].student == student && credits[k].Left() > 0)
    && (forall j, k :: 0 <= j < k < |credits| ==> credits[j].id != credits[k].id)
  }

  lemma CreditsAre(b: Books, student: nat)
    requires Keyed(b)
    ensures CreditsOn(b, Credits(b, student), student) && Sorted(Credits(b, student), PaidOn())
    ensures forall p :: p in Credits(b, student) <==> p in b.payments && HasCredit(student)(p)
  {
    var rows := Where(b.payments, HasCredit(student));
    var apart := (x: Payment, y: Payment) => x.id != y.id;
    WhereIn(b.payments, HasCredit(student));
    WherePairs(b.payments, HasCredit(student), apart);
    SortByPairs(rows, PaidOn(), apart);
    SortBySorted(rows, PaidOn());
    SortByRows(rows, PaidOn(), PaidOn());
    var credits := Credits(b, student);
    forall k | 0 <= k < |credits|
      ensures credits[k].id in PaymentIds(b.payments) && Receipt(b.payments, credits[k].id) == credits[k]
      ensures credits[k].student == student && credits[k].Left() > 0
    {
      assert credits[k] in credits;
      ReceiptIs(b.payments, credits[k]);
    }
  }

  /** What `k` credits have given from the receipt `id`. */
  function Given(credits: seq<Payment>, owed: int, k: nat, id: nat): int
    requires k <= |credits|
  {
    if k == 0 then 0
    else Given(credits, owed, k - 1, id) + if credits[k - 1].id == id then Charge(LeftOn(credits), owed, k - 1) else 0
  }

  ghost function Ids(credits: seq<Payment>): set<nat> { set c | c in credits :: c.id }

  /** The bill is `paid` further on; every other bill is as it was. */
  ghost predicate BillSide(b: Books, r: Books, bill: nat, paid: int)
  {
    && BillIds(r.invoices) == BillIds(b.invoices) && bill in BillIds(b.invoices)
    && Bill(r.invoices, bill).Live()
    && Bill(r.invoices, bill) == Bill(b.invoices, bill).(
         paid := Bill(b.invoices, bill).paid + paid, status := Bill(r.invoices, bill).status)
    && (forall id :: id in BillIds(b.invoices) && id != bill ==> Bill(r.invoices, id) == Bill(b.invoices, id))
  }

  ghost predicate ReceiptSide(b: Books, r: Books, credits: seq<Payment>, owed: int, k: nat)
    requires k <= |credits|
  {
    && PaymentIds(r.payments) == PaymentIds(b.payments)
    && (forall id :: id in PaymentIds(b.payments) ==>
          Receipt(r.payments, id)
            == Receipt(b.payments, id).(drawn := Receipt(b.payments, id).drawn + Given(credits, owed, k, id)))
  }

  ghost predicate PaidOnlyBy(r: Books, bill: nat, payments: set<nat>)
  {
    forall a :: a in r.allocations && a.invoice == bill ==> a.payment in payments
  }

  /** Each earlier credit drawn by its share, the bill paid by their sum, nothing else moved. */
  ghost predicate SettledSoFar(b: Books, r: Books, bill: nat, credits: seq<Payment>, owed: int, k: nat)
    requires k <= |credits|
  {
    && BillSide(b, r, bill, ChargedTo(LeftOn(credits), owed, k)) && ReceiptSide(b, r, credits, owed, k)
    && PaidOnlyBy(r, bill, Ids(credits[..k]))
    && r.next == b.next && r.lines == b.lines && r.carries == b.carries && r.serial == b.serial
  }

  /** The bill waits for `owed`, and nothing has been paid on it yet. */
  ghost predicate Awaiting(b: Books, student: nat, bill: nat, owed: int)
  {
    && Valid(b) && bill in BillIds(b.invoices) && Bill(b.invoices, bill).student == student
      && Bill(b.invoices, bill).Live()
    && owed >= 0 && Bill(b.invoices, bill).Balance() == owed && PaidOnlyBy(b, bill, {})
  }

  ghost predicate MaySettle(b: Books, bill: nat, credits: seq<Payment>, student: nat, owed: int)
  {
    Awaiting(b, student, bill, owed) && CreditsOn(b, credits, student)
  }

  lemma LeftsNonNegative(b: Books, credits: seq<Payment>, student: nat)
    requires CreditsOn(b, credits, student)
    ensures NonNegative(LeftOn(credits))
  {
  }

  lemma {:induction false} GivenOnlyByCredits(credits: seq<Payment>, owed: int, k: nat, id: nat)
    requires k <= |credits| && id !in Ids(credits[..k])
    ensures Given(credits, owed, k, id) == 0
  {
    if k > 0 {
      assert credits[k - 1] in credits[..k];
      assert forall c :: c in credits[..k - 1] ==> c in credits[..k];
      GivenOnlyByCredits(credits, owed, k - 1, id);
    }
  }

  lemma NotEarlier(b: Books, credits: seq<Payment>, student: nat, k: nat)
    requires CreditsOn(b, credits, student) && k < |credits|
    ensures credits[k].id !in Ids(credits[..k])
  {
  }

  /** Each credit gives once: its own share. */
  lemma {:induction false} GivenIs(b: Books, credits: seq<Payment>, student: nat, owed: int, k: nat, j: nat)
    requires CreditsOn(b, credits, student) && j < k <= |credits|
    ensures Given(credits, owed, k, credits[j].id) == Charge(LeftOn(credits), owed, j)
  {
    if j == k - 1 {
      NotEarlier(b, credits, student, j);
      GivenOnlyByCredits(credits, owed, j, credits[j].id);
    } else {
      GivenIs(b, credits, student, owed, k - 1, j);
    }
  }

  lemma NextMaySettle(b: Books, before: Books, bill: nat, credits: seq<Payment>, student: nat, owed: int, k: nat,
                      a: Allocation)
    requires MaySettle(b, bill, credits, student, owed) && k < |credits|
    requires Valid(before) && SettledSoFar(b, before, bill, credits, owed, k)
    requires Left(LeftOn(credits), owed, k) > 0
    requires a == Allocation(credits[k].id, bill, Charge(LeftOn(credits), owed, k))
    ensures MayAllocate(before, a, {})
  {
    ChargedAndLeft(LeftOn(credits), owed, k);
    NotEarlier(b, credits, student, k);
    GivenOnlyByCredits(credits, owed, k, credits[k].id);
  }

  lemma BillFurther(b: Books, before: Books, bill: nat, paid: int, a: Allocation, today: int, r: Books)
    requires Valid(before) && BillSide(b, before, bill, paid) && a.invoice == bill && r == Allocate(before, a, today)
    ensures BillSide(b, r, bill, paid + a.amount)
  {
    AllocateBill(before, a, today);
  }

  lemma ReceiptsFurther(b: Books, before: Books, credits: seq<Payment>, owed: int, k: nat, a: Allocation, today: int,
                        r: Books)
    requires Valid(before) && k < |credits| && ReceiptSide(b, before, credits, owed, k)
    requires r == Allocate(before, a, today)
    requires a.payment == credits[k].id && a.payment in PaymentIds(b.payments)
    requires a.amount == Charge(LeftOn(credits), owed, k)
    ensures ReceiptSide(b, r, credits, owed, k + 1)
  {
    AllocateReceipt(before, a, today);
  }

  lemma PaidByOneMore(before: Books, bill: nat, credits: seq<Payment>, k: nat, a: Allocation, today: int, r: Books)
    requires k < |credits| && a.payment == credits[k].id && r == Allocate(before, a, today)
    requires PaidOnlyBy(before, bill, Ids(credits[..k]))
    ensures PaidOnlyBy(r, bill, Ids(credits[..k + 1]))
  {
    assert credits[..k + 1] == credits[..k] + [credits[k]];
    assert r.allocations == before.allocations + [a];
  }

  lemma SettledFurther(b: Books, before: Books, bill: nat, credits: seq<Payment>, owed: int, k: nat, a: Allocation,
                       today: int, r: Books)
    requires Valid(before) && k < |credits| && SettledSoFar(b, before, bill, credits, owed, k)
    requires r == Allocate(before, a, today)
    requires a == Allocation(credits[k].id, bill, Charge(LeftOn(credits), owed, k))
    requires a.payment in PaymentIds(b.payments)
    ensures SettledSoFar(b, r, bill, credits, owed, k + 1)
  {
    BillFurther(b, before, bill, ChargedTo(LeftOn(credits), owed, k), a, today, r);
    ReceiptsFurther(b, before, credits, owed, k, a, today, r);
    PaidByOneMore(before, bill, credits, k, a, today, r);
  }

  lemma NothingGiven(b: Books, credits: seq<Payment>, student: nat, owed: int, k: nat)
    requires CreditsOn(b, credits, student) && owed >= 0 && k < |credits| && Left(LeftOn(credits), owed, k) <= 0
    ensures Charge(LeftOn(credits), owed, k) == 0
  {
    ChargeWithinFee(LeftOn(credits), owed, k);
  }

  lemma NothingLeftToSettle(b: Books, before: Books, bill: nat, credits: seq<Payment>, owed: int, k: nat)
    requires k < |credits| && SettledSoFar(b, before, bill, credits, owed, k) && Charge(LeftOn(credits), owed, k) == 0
    ensures SettledSoFar(b, before, bill, credits, owed, k + 1)
  {
    assert credits[..k + 1] == credits[..k] + [credits[k]];
    assert ReceiptSide(b, before, credits, owed, k + 1);
  }

  lemma SettleStep(b: Books, before: Books, bill: nat, credits: seq<Payment>, student: nat, owed: int, today: int,
                   k: nat, r: Books, k': nat)
    requires MaySettle(b, bill, credits, student, owed) && k < |credits| && k' == k + 1
    requires Valid(before) && SettledSoFar(b, before, bill, credits, owed, k)
    requires r == SettleOne(before, bill, credits, owed, today, k)
    ensures Valid(r) && SettledSoFar(b, r, bill, credits, owed, k')
  {
    if Left(LeftOn(credits), owed, k) > 0 {
      var a := Allocation(credits[k].id, bill, Charge(LeftOn(credits), owed, k));
      NextMaySettle(b, before, bill, credits, student, owed, k, a);
      AllocateKeeps(before, a, today, {});
      SettledFurther(b, before, bill, credits, owed, k, a, today, Allocate(before, a, today));
    } else {
      NothingGiven(b, credits, student, owed, k);
      NothingLeftToSettle(b, before, bill, credits, owed, k);
    }
  }

  lemma SettledNothing(b: Books, bill: nat, credits: seq<Payment>, student: nat, owed: int)
    requires MaySettle(b, bill, credits, student, owed)
    ensures SettledSoFar(b, b, bill, credits, owed, 0)
  {
  }

  lemma {:induction false} SettleToKeeps(b: Books, bill: nat, credits: seq<Payment>, student: nat, owed: int,
                                         today: int, k: nat, r: Books)
    requires MaySettle(b, bill, credits, student, owed) && k <= |credits|
    requires r == SettleTo(b, bill, credits, owed, today, k)
    ensures Valid(r) && SettledSoFar(b, r, bill, credits, owed, k)
  {
    if k == 0 {
      SettledNothing(b, bill, credits, student, owed);
    } else {
      var before := SettleTo(b, bill, credits, owed, today, k - 1);
      SettleToKeeps(b, bill, credits, student, owed, today, k - 1, before);
      SettleStep(b, before, bill, credits, student, owed, today, k - 1, r, k);
    }
  }

  // --- what settling promises -----------------------------------------------

  /** What all the credits hold is what the family is in credit. */
  lemma CreditIsTotal(b: Books, student: nat)
    requires Valid(b)
    ensures Total(LeftOn(Credits(b, student))) == Credit(b, student)
  {
    var left := (p: Payment) => p.Left();
    SortByRows(Where(b.payments, HasCredit(student)), PaidOn(), left);
    SumWhere(b.payments, HasCredit(student), left, LeftOf(student));
    var credits := Credits(b, student);
    SumOfLefts(credits, |credits|, left);
    assert credits[..|credits|] == credits;
  }

  lemma {:induction false} SumOfLefts(credits: seq<Payment>, k: nat, left: Payment -> int)
    requires k <= |credits| && forall p :: left(p) == p.Left()
    ensures SumTo(LeftOn(credits), k) == Sum(credits[..k], left)
  {
    if k > 0 {
      SumOfLefts(credits, k - 1, left);
      assert credits[..k][..k - 1] == credits[..k - 1];
    }
  }

  /** An allocation takes its amount off the credit of the receipt's family. */
  lemma AllocateDraws(b: Books, a: Allocation, today: int)
    requires Keyed(b) && Tallied(b) && a.payment in PaymentIds(b.payments)
    ensures Credit(Allocate(b, a, today), Receipt(b.payments, a.payment).student)
         == Credit(b, Receipt(b.payments, a.payment).student) - a.amount
  {
    var student := Receipt(b.payments, a.payment).student;
    var touched := set x | x in [a] :: x.payment;
    assert touched == {a.payment} by { assert a in [a]; }
    var u := SyncPayment(b.allocations + [a], touched);
    SumSnoc(b.allocations, a, DrawnFrom(a.payment));
    forall p | p in b.payments
      ensures LeftOf(student)(u(p)) == LeftOf(student)(p) + if PaymentKey(p) == a.payment then -a.amount else 0
    {
      if p.id == a.payment {
        ReceiptIs(b.payments, p);
      }
    }
    SumEachOne(b.payments, u, LeftOf(student), PaymentKey, a.payment, -a.amount);
  }

  lemma SettleOneMoves(b: Books, before: Books, bill: nat, credits: seq<Payment>, student: nat, owed: int, today: int,
                       k: nat, s: nat)
    requires MaySettle(b, bill, credits, student, owed) && k < |credits|
    requires Valid(before) && SettledSoFar(b, before, bill, credits, owed, k)
    ensures
      var r := SettleOne(before, bill, credits, owed, today, k);
      && Charged(r, s) == Charged(before, s) && Received(r, s) == Received(before, s)
      && Credit(r, student) == Credit(before, student) - Charge(LeftOn(credits), owed, k)
  {
    if Left(LeftOn(credits), owed, k) > 0 {
      var a := Allocation(credits[k].id, bill, Charge(LeftOn(credits), owed, k));
      AllocationsMoveNothing(before, before.allocations + [a], [a], today, s);
      AllocateDraws(before, a, today);
    } else {
      NothingGiven(b, credits, student, owed, k);
    }
  }

  lemma NextMoves(b: Books, before: Books, bill: nat, credits: seq<Payment>, student: nat, owed: int, today: int,
                  k: nat, r: Books, s: nat)
    requires MaySettle(b, bill, credits, student, owed) && k < |credits|
    requires before == SettleTo(b, bill, credits, owed, today, k)
    requires r == SettleOne(before, bill, credits, owed, today, k)
    ensures Charged(r, s) == Charged(before, s) && Received(r, s) == Received(before, s)
    ensures Credit(r, student) == Credit(before, student) - Charge(LeftOn(credits), owed, k)
  {
    SettleToKeeps(b, bill, credits, student, owed, today, k, before);
    SettleOneMoves(b, before, bill, credits, student, owed, today, k, s);
  }

  /** Settling moves credit onto the bill and changes no family's account. */
  lemma {:induction false} SettleToMoves(b: Books, bill: nat, credits: seq<Payment>, student: nat, owed: int,
                                         today: int, k: nat, r: Books, s: nat)
    requires MaySettle(b, bill, credits, student, owed) && k <= |credits|
    requires r == SettleTo(b, bill, credits, owed, today, k)
    ensures Charged(r, s) == Charged(b, s) && Received(r, s) == Received(b, s)
    ensures Credit(r, student) == Credit(b, student) - ChargedTo(LeftOn(credits), owed, k)
  {
    if k > 0 {
      var before := SettleTo(b, bill, credits, owed, today, k - 1);
      SettleToMoves(b, bill, credits, student, owed, today, k - 1, before, s);
      NextMoves(b, before, bill, credits, student, owed, today, k - 1, r, s);
    }
  }

  /** All the credits together give what is asked or what there is, whichever is less. */
  lemma GivenInAll(b: Books, credits: seq<Payment>, student: nat, owed: int)
    requires Valid(b) && credits == Credits(b, student) && owed >= 0
    ensures ChargedTo(LeftOn(credits), owed, |credits|) == Min(owed, Credit(b, student))
  {
    CreditsAre(b, student);
    LeftsNonNegative(b, credits, student);
    CreditIsTotal(b, student);
    AllCharge(LeftOn(credits), owed);
  }

  /** The bill is paid as much as it asks or the family has, whichever is less; the credit falls by exactly that. */
  lemma SettlesExactly(b: Books, student: nat, bill: nat, owed: int, today: int, r: Books, paid: int)
    requires Awaiting(b, student, bill, owed) && r == Settle(b, student, bill, owed, today)
    requires paid == Min(owed, Credit(b, student))
    ensures Valid(r) && BillSide(b, r, bill, paid) && r.lines == b.lines
    ensures Credit(r, student) == Credit(b, student) - paid
  {
    var credits := Credits(b, student);
    CreditsAre(b, student);
    GivenInAll(b, credits, student, owed);
    SettleToKeeps(b, bill, credits, student, owed, today, |credits|, r);
    SettleToMoves(b, bill, credits, student, owed, today, |credits|, r, student);
  }

  /** What each credit gives to a bill asking for `owed`: nothing until every older one is spent. */
  lemma GivesInOrder(b: Books, credits: seq<Payment>, student: nat, owed: int, j: nat, k: nat)
    requires CreditsOn(b, credits, student) && owed >= 0 && j < k < |credits|
    requires Given(credits, owed, |credits|, credits[k].id) != 0
    ensures Given(credits, owed, |credits|, credits[j].id) == credits[j].Left()
  {
    LeftsNonNegative(b, credits, student);
    GivenIs(b, credits, student, owed, |credits|, j);
    GivenIs(b, credits, student, owed, |credits|, k);
    ChargeWithinFee(LeftOn(credits), owed, j);
    if Charge(LeftOn(credits), owed, j) < LeftOn(credits)[j] {
      FromTheBack(LeftOn(credits), owed, j, k);
    }
  }

  /** A receipt gives to the bill only once every older one is spent. */
  lemma OldestFirst(b: Books, student: nat, bill: nat, owed: int, today: int, j: nat, k: nat, r: Books, older: Payment,
                    newer: Payment)
    requires Awaiting(b, student, bill, owed) && r == Settle(b, student, bill, owed, today)
    requires j < k < |Credits(b, student)| && older == Credits(b, student)[j] && newer == Credits(b, student)[k]
    ensures older.paidOn <= newer.paidOn
    ensures older.id in PaymentIds(r.payments) && newer.id in PaymentIds(r.payments)
    ensures Receipt(r.payments, newer.id).drawn != newer.drawn ==> Receipt(r.payments, older.id).Left() == 0
  {
    var credits := Credits(b, student);
    CreditsAre(b, student);
    assert NotAfter(PaidOn())(credits[j], credits[k]);
    SettleToKeeps(b, bill, credits, student, owed, today, |credits|, r);
    if Given(credits, owed, |credits|, credits[k].id) != 0 {
      GivesInOrder(b, credits, student, owed, j, k);
    }
  }
}
