/**
What a family owes and what it is owed, and the law that ties the two to the
bills raised and the money received: every rupee allocated is counted once on
a bill and once on a receipt.
*/
module Balances {
  import opened Tables
  import opened Books
  import opened Upkeep

  function BalanceOf(student: nat): Invoice -> int
  {
    (i: Invoice) => if i.student == student && i.Live() then i.Balance() else 0
  }
  function NetOf(student: nat): Invoice -> int
  {
    (i: Invoice) => if i.student == student && i.Live() then i.Net() else 0
  }
  function LeftOf(student: nat): Payment -> int { (p: Payment) => if p.student == student then p.Left() else 0 }
  function AmountOf(student: nat): Payment -> int { (p: Payment) => if p.student == student then p.amount else 0 }

  /** Still to pay on live bills. */
  function Owed(b: Books, student: nat): int { Sum(b.invoices, BalanceOf(student)) }
  /** Received and not yet allocated. */
  function Credit(b: Books, student: nat): int { Sum(b.payments, LeftOf(student)) }
  function Charged(b: Books, student: nat): int { Sum(b.invoices, NetOf(student)) }
  function Received(b: Books, student: nat): int { Sum(b.payments, AmountOf(student)) }

  // --- counting allocations by bill and by receipt --------------------------

  /** The allocations whose `side` is `key`. */
  function Under(side: Allocation -> nat, key: nat): Allocation -> int
  {
    (a: Allocation) => if side(a) == key then a.amount else 0
  }

  function Share<T>(mine: T -> bool, key: T -> nat, allocations: seq<Allocation>, side: Allocation -> nat): T -> int
  {
    x => if mine(x) then Sum(allocations, Under(side, key(x))) else 0
  }

  ghost function Claimed<T>(rows: seq<T>, mine: T -> bool, key: T -> nat, side: Allocation -> nat): Allocation -> int
  {
    (a: Allocation) => if exists x :: x in rows && mine(x) && key(x) == side(a) then a.amount else 0
  }

  function Hit<T>(mine: T -> bool, key: T -> nat, k: nat, amount: int): T -> int
  {
    x => if mine(x) && key(x) == k then amount else 0
  }

  lemma {:induction false} OneHit<T>(rows: seq<T>, mine: T -> bool, key: T -> nat, k: nat, amount: int)
    requires forall i, j :: 0 <= i < j < |rows| ==> key(rows[i]) != key(rows[j])
    ensures Sum(rows, Hit(mine, key, k, amount)) == if exists x :: x in rows && mine(x) && key(x) == k then amount
                                                    else 0
  {
    if rows != [] {
      var m := |rows| - 1;
      OneHit(rows[..m], mine, key, k, amount);
      assert rows == rows[..m] + [rows[m]];
    }
  }

  /** An update that moves one row's value by `delta` moves the sum by `delta`. */
  lemma SumEachOne<T>(rows: seq<T>, u: T -> T, f: T -> int, key: T -> nat, k: nat, delta: int)
    requires forall i, j :: 0 <= i < j < |rows| ==> key(rows[i]) != key(rows[j])
    requires exists x :: x in rows && key(x) == k
    requires forall x :: x in rows ==> f(u(x)) == f(x) + if key(x) == k then delta else 0
    ensures Sum(Each(rows, u), f) == Sum(rows, f) + delta
  {
    var after := x => f(u(x));
    OneHit(rows, x => true, key, k, delta);
    SumEach(rows, u, f, after);
    SumPlus(rows, f, Hit(x => true, key, k, delta), after);
  }

  /** Summing each row's allocations is summing the allocations that have a row. */
  lemma {:induction false} CountedOnce<T>(rows: seq<T>, mine: T -> bool, key: T -> nat, allocations: seq<Allocation>,
                                          side: Allocation -> nat)
    requires forall i, j :: 0 <= i < j < |rows| ==> key(rows[i]) != key(rows[j])
    ensures Sum(rows, Share(mine, key, allocations, side)) == Sum(allocations, Claimed(rows, mine, key, side))
  {
    if allocations == [] {
      SumZero(rows, Share(mine, key, [], side));
    } else {
      var m := |allocations| - 1;
      var a := allocations[m];
      CountedOnce(rows, mine, key, allocations[..m], side);
      OneHit(rows, mine, key, side(a), a.amount);
      SumPlus(rows, Share(mine, key, allocations[..m], side), Hit(mine, key, side(a), a.amount),
              Share(mine, key, allocations, side));
    }
  }

  function BilledTo(student: nat): Invoice -> bool { (i: Invoice) => i.student == student }
  function PaidBy(student: nat): Payment -> bool { (p: Payment) => p.student == student }
  const BillKey: Invoice -> nat := (i: Invoice) => i.id
  const PaymentKey: Payment -> nat := (p: Payment) => p.id
  const ByBill: Allocation -> nat := (a: Allocation) => a.invoice
  const ByPayment: Allocation -> nat := (a: Allocation) => a.payment

  /** All that counting money needs: keys name one row, paid and drawn are sums, and nothing is paid on a cancelled
      bill. */
  ghost predicate Reckoned(b: Books)
  {
    Keyed(b) && Tallied(b) && Joined(b) && forall i :: i in b.invoices && !i.Live() ==> i.paid == 0
  }

  lemma PaidIsDrawn(b: Books, student: nat)
    requires Reckoned(b)
    ensures Sum(b.invoices, Share(BilledTo(student), BillKey, b.allocations, ByBill))
         == Sum(b.payments, Share(PaidBy(student), PaymentKey, b.allocations, ByPayment))
  {
    CountedOnce(b.invoices, BilledTo(student), BillKey, b.allocations, ByBill);
    CountedOnce(b.payments, PaidBy(student), PaymentKey, b.allocations, ByPayment);
    var onBills := Claimed(b.invoices, BilledTo(student), BillKey, ByBill);
    var onReceipts := Claimed(b.payments, PaidBy(student), PaymentKey, ByPayment);
    forall a | a in b.allocations ensures onBills(a) == onReceipts(a) {
      assert Joins(b, a);
      var i, p := Bill(b.invoices, a.invoice), Receipt(b.payments, a.payment);
      forall x | x in b.invoices && x.id == a.invoice ensures x == i { BillIs(b.invoices, x); }
      forall x | x in b.payments && x.id == a.payment ensures x == p { ReceiptIs(b.payments, x); }
      assert i.student == student ==> BilledTo(student)(i) && BillKey(i) == ByBill(a);
      assert p.student == student ==> PaidBy(student)(p) && PaymentKey(p) == ByPayment(a);
    }
    SumSame(b.allocations, onBills, onReceipts);
  }

  /** Owed less credit is charged less received, in every valid ledger, and in one that has over-discounted a bill
      too. */
  lemma BalanceLaw(b: Books, student: nat)
    requires Reckoned(b)
    ensures Owed(b, student) - Credit(b, student) == Charged(b, student) - Received(b, student)
  {
    var paid := Share(BilledTo(student), BillKey, b.allocations, ByBill);
    var drawn := Share(PaidBy(student), PaymentKey, b.allocations, ByPayment);
    forall i | i in b.invoices ensures NetOf(student)(i) == BalanceOf(student)(i) + paid(i) {
      SumSame(b.allocations, PaidTo(i.id), Under(ByBill, i.id));
    }
    forall p | p in b.payments ensures AmountOf(student)(p) == LeftOf(student)(p) + drawn(p) {
      SumSame(b.allocations, DrawnFrom(p.id), Under(ByPayment, p.id));
    }
    SumPlus(b.invoices, BalanceOf(student), paid, NetOf(student));
    SumPlus(b.payments, LeftOf(student), drawn, AmountOf(student));
    PaidIsDrawn(b, student);
  }
}
