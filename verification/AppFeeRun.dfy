/** A whole run of the application fee: who is billed, what it charges, what a second run does. */
module AppFeeRun {
  import opened Tables
  import opened Books
  import opened Upkeep
  import opened Balances
  import opened Undo
  import opened Growth
  import opened Waterfall
  import opened Posting
  import opened AppFee

  // --- one child ------------------------------------------------------------

  lemma NewBillAwaits(b: Books, student: nat, year: Year, head: nat, seq': nat, today: int, b1: Books)
    requires Valid(b) && RaiseBill(b, FeeBill(student, year, seq', today), Some(head)) == Some(b1)
    ensures Awaiting(b1, student, b.next, FEE)
  {
    RaiseBillKeeps(b, FeeBill(student, year, seq', today), Some(head));
    forall a | a in b1.allocations ensures a.invoice != b.next {
      assert Joins(b, a);
    }
  }

  /** Later work leaves every bill its student and year, live if it was, and every line. */
  ghost predicate StillStands(b: Books, r: Books)
  {
    && b.lines <= r.lines && BillIds(b.invoices) <= BillIds(r.invoices)
    && (forall id :: id in BillIds(b.invoices) ==>
          var i, j := Bill(b.invoices, id), Bill(r.invoices, id);
          j.student == i.student && j.year == i.year && j.no == i.no && (i.Live() ==> j.Live()))
  }

  lemma StandsStill(a: Books, b: Books, c: Books)
    requires StillStands(a, b) && StillStands(b, c)
    ensures StillStands(a, c)
  {
  }

  lemma RaisingStands(b: Books, row: Invoice, head: Option<nat>, b1: Books)
    requires Keyed(b) && Keyed(b1) && RaiseBill(b, row, head) == Some(b1)
    ensures StillStands(b, b1)
  {
    forall id | id in BillIds(b.invoices)
      ensures id in BillIds(b1.invoices) && Bill(b1.invoices, id) == Bill(b.invoices, id)
    {
      BillOfMore(b.invoices, [row.(id := b.next)], id);
    }
  }

  lemma SettlingStands(b: Books, r: Books, bill: nat, paid: int)
    requires BillSide(b, r, bill, paid) && r.lines == b.lines
    ensures StillStands(b, r)
  {
  }

  lemma StaysBilled(b: Books, r: Books, student: nat, year: Year, head: nat)
    requires Keyed(b) && StillStands(b, r) && BilledUnder(b, student, year, head)
    ensures BilledUnder(r, student, year, head)
  {
    var l, i :| l in b.lines && i in b.invoices && l.invoice == i.id && l.head == Some(head)
      && i.student == student && i.year == year && i.Live();
    BillIs(b.invoices, i);
    assert l in r.lines && Bill(r.invoices, i.id) in r.invoices;
  }

  lemma NewlyBilled(b1: Books, student: nat, year: Year, head: nat, bill: nat)
    requires bill in BillIds(b1.invoices) && Bill(b1.invoices, bill).student == student
    requires Bill(b1.invoices, bill).year == year
    requires Bill(b1.invoices, bill).Live() && exists l :: l in b1.lines && l.invoice == bill && l.head == Some(head)
    ensures BilledUnder(b1, student, year, head)
  {
  }

  lemma FeeSettled(b1: Books, student: nat, year: Year, head: nat, bill: nat, today: int, r: Books, paid: int)
    requires Awaiting(b1, student, bill, FEE) && r == Settle(b1, student, bill, FEE, today)
    requires paid == Min(FEE, Credit(b1, student))
    requires Bill(b1.invoices, bill).year == year && Line(bill, Some(head), FEE, 0) in b1.lines
    ensures Valid(r) && StillStands(b1, r) && BilledUnder(r, student, year, head) && BillSide(b1, r, bill, paid)
  {
    SettlesExactly(b1, student, bill, FEE, today, r, paid);
    SettlingStands(b1, r, bill, paid);
    NewlyBilled(r, student, year, head, bill);
  }

  lemma ChargedBillAwaits(b: Books, student: nat, year: Year, head: nat, seq': nat, today: int, b1: Books)
    requires Valid(b) && RaiseBill(b, FeeBill(student, year, seq', today), Some(head)) == Some(b1)
    ensures Awaiting(b1, student, b.next, FEE) && StillStands(b, b1) && Credit(b1, student) == Credit(b, student)
    ensures Bill(b1.invoices, b.next) == FeeBill(student, year, seq', today).(id := b.next)
    ensures Line(b.next, Some(head), FEE, 0) in b1.lines
  {
    RaiseBillKeeps(b, FeeBill(student, year, seq', today), Some(head));
    NewBillAwaits(b, student, year, head, seq', today, b1);
    RaisingStands(b, FeeBill(student, year, seq', today), Some(head), b1);
  }

  /** Charging one child: it is billed afterwards and nobody's bills are lost. */
  lemma ChargeFeeDoes(b: Books, student: nat, year: Year, head: nat, seq': nat, today: int, r: Books)
    requires Valid(b) && ChargeFee(b, student, year, head, seq', today) == Some(r)
    ensures Valid(r) && StillStands(b, r) && BilledUnder(r, student, year, head)
    ensures b.next in BillIds(r.invoices) && Bill(r.invoices, b.next).no == DocNo(FEE_SERIES, seq')
  {
    var b1 := RaiseBill(b, FeeBill(student, year, seq', today), Some(head)).value;
    ChargedBillAwaits(b, student, year, head, seq', today, b1);
    FeeSettled(b1, student, year, head, b.next, today, r, Min(FEE, Credit(b1, student)));
    StandsStill(b, b1, r);
  }

  /** The bill is left owing what the family's credit did not cover. */
  lemma ChargeFeeOwes(b: Books, student: nat, year: Year, head: nat, seq': nat, today: int, r: Books)
    requires Valid(b) && ChargeFee(b, student, year, head, seq', today) == Some(r)
    ensures b.next in BillIds(r.invoices) && Bill(r.invoices, b.next).Balance() == Max(0, FEE - Credit(b, student))
  {
    var b1 := RaiseBill(b, FeeBill(student, year, seq', today), Some(head)).value;
    ChargedBillAwaits(b, student, year, head, seq', today, b1);
    SettlesExactly(b1, student, b.next, FEE, today, r, Min(FEE, Credit(b1, student)));
    CreditsNonNegative(b, student);
  }

  lemma CreditsNonNegative(b: Books, student: nat)
    requires Valid(b)
    ensures Credit(b, student) >= 0
  {
    SumNonNegative(b.payments, LeftOf(student));
  }

  function FeeOf(student: nat, s: nat): int { if s == student then FEE else 0 }

  lemma ChargeFeeAccounts(b: Books, student: nat, year: Year, head: nat, seq': nat, today: int, r: Books, s: nat)
    requires Valid(b) && ChargeFee(b, student, year, head, seq', today) == Some(r)
    ensures Charged(r, s) == Charged(b, s) + FeeOf(student, s) && Received(r, s) == Received(b, s)
  {
    var row := FeeBill(student, year, seq', today);
    var b1 := RaiseBill(b, row, Some(head)).value;
    RaiseBillCharges(b, row, Some(head), s);
    NewBillAwaits(b, student, year, head, seq', today, b1);
    CreditsAre(b1, student);
    SettleToMoves(b1, b.next, Credits(b1, student), student, FEE, today, |Credits(b1, student)|, r, s);
  }

  lemma {:induction false} SettleToGrows(b0: Books, b: Books, year: Year, bill: nat, credits: seq<Payment>, owed: int,
                                         today: int, k: nat, r: Books)
    requires Keyed(b0) && Grown(b0, b, year) && bill >= b0.next && k <= |credits|
    requires r == SettleTo(b, bill, credits, owed, today, k)
    ensures Grown(b0, r, year)
  {
    if k > 0 {
      var before := SettleTo(b, bill, credits, owed, today, k - 1);
      SettleToGrows(b0, b, year, bill, credits, owed, today, k - 1, before);
      SettleOneGrows(b0, before, year, bill, credits, owed, today, k - 1, r);
    }
  }

  lemma SettleOneGrows(b0: Books, b: Books, year: Year, bill: nat, credits: seq<Payment>, owed: int, today: int, k: nat,
                       r: Books)
    requires Keyed(b0) && Grown(b0, b, year) && bill >= b0.next && k < |credits|
    requires r == SettleOne(b, bill, credits, owed, today, k)
    ensures Grown(b0, r, year)
  {
    AllocateGrows(b0, b, year, Allocation(credits[k].id, bill, Charge(LeftOn(credits), owed, k)), today);
  }

  lemma ChargeFeeGrows(b0: Books, b: Books, student: nat, year: Year, head: nat, seq': nat, today: int, r: Books)
    requires Keyed(b0) && Grown(b0, b, year) && ChargeFee(b, student, year, head, seq', today) == Some(r)
    ensures Grown(b0, r, year)
  {
    var row := FeeBill(student, year, seq', today);
    var b1 := RaiseBill(b, row, Some(head)).value;
    RaiseBillGrows(b0, b, year, row, Some(head));
    SettleToGrows(b0, b1, year, b.next, Credits(b1, student), FEE, today, |Credits(b1, student)|, r);
  }

  // --- every child ----------------------------------------------------------

  function FeesOf(kids: seq<nat>, s: nat): int { Sum(kids, (k: nat) => FeeOf(k, s)) }

  ghost predicate AllBilled(b: Books, kids: seq<nat>, year: Year, head: nat)
  {
    forall k :: 0 <= k < |kids| ==> BilledUnder(b, kids[k], year, head)
  }

  lemma AllStayBilled(b: Books, r: Books, kids: seq<nat>, year: Year, head: nat)
    requires Keyed(b) && StillStands(b, r) && AllBilled(b, kids, year, head)
    ensures AllBilled(r, kids, year, head)
  {
    forall k | 0 <= k < |kids| ensures BilledUnder(r, kids[k], year, head) {
      StaysBilled(b, r, kids[k], year, head);
    }
  }

  lemma NobodyCharged(b: Books, kids: seq<nat>, year: Year, head: nat)
    requires kids == []
    ensures StillStands(b, b) && AllBilled(b, kids, year, head)
  {
  }

  lemma OneMoreBilled(r: Books, kids: seq<nat>, year: Year, head: nat)
    requires kids != [] && AllBilled(r, kids[..|kids| - 1], year, head) && BilledUnder(r, kids[|kids| - 1], year, head)
    ensures AllBilled(r, kids, year, head)
  {
    forall k | 0 <= k < |kids| ensures BilledUnder(r, kids[k], year, head) {
      if k < |kids| - 1 {
        assert kids[..|kids| - 1][k] == kids[k];
      }
    }
  }

  lemma {:induction false} ChargeFeesDo(b: Books, kids: seq<nat>, year: Year, head: nat, today: int, r: Books)
    requires Valid(b) && ChargeFees(b, kids, year, head, today) == Some(r)
    ensures Valid(r) && StillStands(b, r) && AllBilled(r, kids, year, head)
  {
    if kids == [] {
      NobodyCharged(b, kids, year, head);
    } else {
      var m := |kids| - 1;
      var b1 := ChargeFees(b, kids[..m], year, head, today).value;
      ChargeFeesDo(b, kids[..m], year, head, today, b1);
      ChargeFeeDoes(b1, kids[m], year, head, |kids|, today, r);
      StandsStill(b, b1, r);
      AllStayBilled(b1, r, kids[..m], year, head);
      OneMoreBilled(r, kids, year, head);
    }
  }

  lemma {:induction false} ChargeFeesAccount(b: Books, kids: seq<nat>, year: Year, head: nat, today: int, r: Books,
                                             s: nat)
    requires Valid(b) && ChargeFees(b, kids, year, head, today) == Some(r)
    ensures Charged(r, s) == Charged(b, s) + FeesOf(kids, s) && Received(r, s) == Received(b, s)
  {
    if kids != [] {
      var m := |kids| - 1;
      var b1 := ChargeFees(b, kids[..m], year, head, today).value;
      ChargeFeesDo(b, kids[..m], year, head, today, b1);
      ChargeFeesAccount(b, kids[..m], year, head, today, b1, s);
      ChargeFeeAccounts(b1, kids[m], year, head, |kids|, today, r, s);
    }
  }

  lemma {:induction false} ChargeFeesGrow(b0: Books, b: Books, kids: seq<nat>, year: Year, head: nat, today: int,
                                          r: Books)
    requires Keyed(b0) && Grown(b0, b, year) && ChargeFees(b, kids, year, head, today) == Some(r)
    ensures Grown(b0, r, year)
  {
    if kids != [] {
      var m := |kids| - 1;
      var b1 := ChargeFees(b, kids[..m], year, head, today).value;
      ChargeFeesGrow(b0, b, kids[..m], year, head, today, b1);
      ChargeFeeGrows(b0, b1, kids[m], year, head, |kids|, today, r);
    }
  }

  // --- the run --------------------------------------------------------------

  /** Everybody admitted is billed afterwards; each family is charged the fee once per child not billed before, and
      receives nothing, so its account rises by exactly that. */
  lemma RunFeesDoes(b: Books, admitted: seq<nat>, year: Year, head: nat, today: int, r: Books, s: nat)
    requires Valid(b) && RunFees(b, admitted, year, head, today) == Some(r)
    ensures Valid(r) && AllBilled(r, admitted, year, head)
    ensures Owed(r, s) - Credit(r, s) == Owed(b, s) - Credit(b, s) + FeesOf(Where(admitted, Unbilled(b, year, head)), s)
  {
    var kids := Where(admitted, Unbilled(b, year, head));
    ChargeFeesDo(b, kids, year, head, today, r);
    ChargeFeesAccount(b, kids, year, head, today, r, s);
    BalanceLaw(b, s);
    BalanceLaw(r, s);
    WhereIn(admitted, Unbilled(b, year, head));
    forall k | 0 <= k < |admitted| ensures BilledUnder(r, admitted[k], year, head) {
      if BilledUnder(b, admitted[k], year, head) {
        StaysBilled(b, r, admitted[k], year, head);
      } else {
        assert admitted[k] in kids;
      }
    }
  }

  /** A second run over the same children changes nothing at all. */
  lemma RunFeesAgain(b: Books, admitted: seq<nat>, year: Year, head: nat, today: int, r: Books, later: int)
    requires Valid(b) && RunFees(b, admitted, year, head, today) == Some(r)
    ensures RunFees(r, admitted, year, head, later) == Some(r)
  {
    RunFeesDoes(b, admitted, year, head, today, r, 0);
    WhereNone(admitted, Unbilled(r, year, head));
  }

  /** Once bill number 1 of the series exists, a run is refused as soon as it finds a child to bill: its counter starts
      at 1 again, and bill numbers are unique. */
  lemma {:induction false} LaterChildRefused(b: Books, kids: seq<nat>, year: Year, head: nat, today: int)
    requires NumberTaken(b, DocNo(FEE_SERIES, 1))
    ensures ChargeFees(b, kids, year, head, today) == if kids == [] then Some(b) else None
  {
    if |kids| > 1 {
      LaterChildRefused(b, kids[..|kids| - 1], year, head, today);
    } else if |kids| == 1 {
      assert kids[..0] == [];
    }
  }

  lemma {:induction false} FirstNumberTaken(b: Books, kids: seq<nat>, year: Year, head: nat, today: int, r: Books)
    requires Valid(b) && kids != [] && ChargeFees(b, kids, year, head, today) == Some(r)
    ensures NumberTaken(r, DocNo(FEE_SERIES, 1))
  {
    var m := |kids| - 1;
    var b1 := ChargeFees(b, kids[..m], year, head, today).value;
    ChargeFeesDo(b, kids[..m], year, head, today, b1);
    ChargeFeeDoes(b1, kids[m], year, head, |kids|, today, r);
    if m > 0 {
      FirstNumberTaken(b, kids[..m], year, head, today, b1);
      var i :| i in b1.invoices && i.no == DocNo(FEE_SERIES, 1);
      BillIs(b1.invoices, i);
      assert Bill(r.invoices, i.id).no == DocNo(FEE_SERIES, 1);
    }
  }

  /** After a run that billed anybody, a run over any other list is accepted exactly when it finds nobody new, and then
      it changes nothing: a child admitted later can never be billed by it. */
  lemma OneRunOnly(b: Books, admitted: seq<nat>, year: Year, head: nat, today: int, r: Books, others: seq<nat>,
                   later: int)
    requires Valid(b) && RunFees(b, admitted, year, head, today) == Some(r)
    requires exists k :: 0 <= k < |admitted| && !BilledUnder(b, admitted[k], year, head)
    ensures RunFees(r, others, year, head, later) == if AllBilled(r, others, year, head) then Some(r) else None
  {
    var kids := Where(admitted, Unbilled(b, year, head));
    WhereIn(admitted, Unbilled(b, year, head));
    var k :| 0 <= k < |admitted| && !BilledUnder(b, admitted[k], year, head);
    assert admitted[k] in kids;
    FirstNumberTaken(b, kids, year, head, today, r);
    var new' := Where(others, Unbilled(r, year, head));
    LaterChildRefused(r, new', year, head, later);
    NobodyNew(r, others, year, head);
  }

  lemma NobodyNew(b: Books, others: seq<nat>, year: Year, head: nat)
    ensures Where(others, Unbilled(b, year, head)) == [] <==> AllBilled(b, others, year, head)
  {
    WhereIn(others, Unbilled(b, year, head));
    if AllBilled(b, others, year, head) {
      WhereNone(others, Unbilled(b, year, head));
    } else {
      var k :| 0 <= k < |others| && !BilledUnder(b, others[k], year, head);
      assert others[k] in Where(others, Unbilled(b, year, head));
    }
  }
}
