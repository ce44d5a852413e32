/** What the application fee puts on the ledger, read off its rows: who is billed, and for how much. */
module FeeBills {
  import opened Tables
  import opened Books
  import opened Posting
  import opened AppFee
  import opened AppFeeRun
  import opened TermBills
  import Transport

  /** A bill the run raised: a thousand rupees on one line under the head, due in a fortnight, for an admitted child
      that had no live bill of the year under it. */
  ghost predicate FeeRight(b: Books, r: Books, admitted: seq<nat>, year: Year, head: nat, today: int, i: Invoice)
  {
    && i.student in admitted && i.year == year && i.status != Cancelled
    && i.gross == 100000 && i.discount == 0 && i.fine == 0
    && i.no.series == "INV/2026-27/APP" && i.instalment == Some(40) && i.issued == today && i.due == Some(today + 14)
    && Where(r.lines, OnBill(i.id)) == [Line(i.id, Some(head), 100000, 0)]
    && NoBillUnder(b, i.student, year, head)
  }

  ghost predicate FeesRight(b: Books, r: Books, admitted: seq<nat>, year: Year, head: nat, today: int)
  {
    && BillIds(b.invoices) <= BillIds(r.invoices)
    && (forall id :: id in BillIds(b.invoices) ==> Bill(r.invoices, id) == Bill(b.invoices, id))
    && (forall id :: id in BillIds(r.invoices) && id !in BillIds(b.invoices) ==>
          FeeRight(b, r, admitted, year, head, today, Bill(r.invoices, id)))
  }

  lemma OneFee(b: Books, student: nat, year: Year, head: nat, seq': nat, today: int, r: Books)
    requires Valid(b) && ChargeFee(b, student, year, head, seq', today) == Some(r)
    ensures BillIds(r.invoices) == BillIds(b.invoices) + {b.next} && b.next !in BillIds(b.invoices)
    ensures forall id :: id in BillIds(b.invoices) ==> Bill(r.invoices, id) == Bill(b.invoices, id)
    ensures r.lines == b.lines + [Line(b.next, Some(head), 100000, 0)]
    ensures
      var i, row := Bill(r.invoices, b.next), FeeBill(student, year, seq', today);
      i == row.(id := b.next, paid := i.paid, status := i.status) && i.Live()
  {
    var row := FeeBill(student, year, seq', today);
    var b1 := RaiseBill(b, row, Some(head)).value;
    RaiseBillKeeps(b, row, Some(head));
    Transport.RaiseBillDoes(b, row, Some(head), b1);
    NewBillAwaits(b, student, year, head, seq', today, b1);
    CreditsAre(b1, student);
    SettleToKeeps(b1, b.next, Credits(b1, student), student, FEE, today, |Credits(b1, student)|, r);
  }

  lemma FeeStays(b0: Books, b: Books, r: Books, admitted: seq<nat>, year: Year, head: nat, today: int, i: Invoice,
                 new': Line)
    requires FeeRight(b0, b, admitted, year, head, today, i) && r.lines == b.lines + [new'] && new'.invoice != i.id
    ensures FeeRight(b0, r, admitted, year, head, today, i)
  {
    OtherLines(b.lines, [new'], new'.invoice, i.id);
  }

  lemma NewFeeRight(b0: Books, b: Books, r: Books, admitted: seq<nat>, student: nat, year: Year, head: nat, seq': nat,
                    today: int)
    requires Valid(b) && ChargeFee(b, student, year, head, seq', today) == Some(r)
    requires student in admitted && NoBillUnder(b0, student, year, head)
    ensures b.next in BillIds(r.invoices) && FeeRight(b0, r, admitted, year, head, today, Bill(r.invoices, b.next))
  {
    OneFee(b, student, year, head, seq', today, r);
    NothingOnNext(b);
    OwnLinesOnly(b.lines, [Line(b.next, Some(head), 100000, 0)], b.next);
  }

  lemma FeesFurther(b0: Books, b: Books, r: Books, admitted: seq<nat>, student: nat, year: Year, head: nat, seq': nat,
                    today: int)
    requires Valid(b) && FeesRight(b0, b, admitted, year, head, today)
    requires student in admitted && NoBillUnder(b0, student, year, head)
    requires ChargeFee(b, student, year, head, seq', today) == Some(r)
    ensures FeesRight(b0, r, admitted, year, head, today)
  {
    OneFee(b, student, year, head, seq', today, r);
    forall id | id in BillIds(r.invoices) && id !in BillIds(b0.invoices)
      ensures FeeRight(b0, r, admitted, year, head, today, Bill(r.invoices, id))
    {
      if id == b.next {
        NewFeeRight(b0, b, r, admitted, student, year, head, seq', today);
      } else {
        FeeStays(b0, b, r, admitted, year, head, today, Bill(b.invoices, id), Line(b.next, Some(head), 100000, 0));
      }
    }
  }

  lemma {:induction false} ChargedRightly(b: Books, admitted: seq<nat>, kids: seq<nat>, year: Year, head: nat,
                                          today: int,
                                          r: Books)
    requires Valid(b) && ChargeFees(b, kids, year, head, today) == Some(r)
    requires forall k :: k in kids ==> k in admitted && NoBillUnder(b, k, year, head)
    ensures FeesRight(b, r, admitted, year, head, today)
  {
    if kids != [] {
      var m := |kids| - 1;
      var b1 := ChargeFees(b, kids[..m], year, head, today).value;
      ChargeFeesDo(b, kids[..m], year, head, today, b1);
      ChargedRightly(b, admitted, kids[..m], year, head, today, b1);
      FeesFurther(b, b1, r, admitted, kids[m], year, head, |kids|, today);
    }
  }

  /** A run leaves every bill there was as it was, raises a bill of a thousand rupees only for an admitted child without
      one, and leaves no admitted child without. */
  lemma FeesRaise(b: Books, admitted: seq<nat>, year: Year, head: nat, today: int, r: Books)
    requires Valid(b) && RunFees(b, admitted, year, head, today) == Some(r)
    ensures FeesRight(b, r, admitted, year, head, today)
    ensures forall k :: 0 <= k < |admitted| ==> !NoBillUnder(r, admitted[k], year, head)
  {
    var kids := Where(admitted, Unbilled(b, year, head));
    WhereIn(admitted, Unbilled(b, year, head));
    forall k | k in kids ensures NoBillUnder(b, k, year, head) {
      NoBillUnderIs(b, k, year, head);
    }
    ChargedRightly(b, admitted, kids, year, head, today, r);
    RunFeesDoes(b, admitted, year, head, today, r, 0);
    forall k | 0 <= k < |admitted| ensures !NoBillUnder(r, admitted[k], year, head) {
      NoBillUnderIs(r, admitted[k], year, head);
    }
  }
}
