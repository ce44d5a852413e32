/** Whatever joins, leaves, prices and payments follow one another, a child's fee and bill are what they were on
    joining. */
module ActivityRuns {
  import opened Tables
  import opened Books
  import opened Upkeep
  import opened Posting
  import opened Transport
  import opened Activities

  // --- looking up -----------------------------------------------------------

  lemma {:induction false} FindPlaceIs(places: seq<Place>, id: nat, k: nat)
    requires Apart(places) && k < |places| && places[k].id == id
    ensures FindPlace(places, id) == Some(places[k])
  {
    if k < |places| - 1 {
      FindPlaceIs(places[..|places| - 1], id, k);
    }
  }

  lemma {:induction false} FindPlaceAt(places: seq<Place>, id: nat) returns (k: nat)
    requires FindPlace(places, id).Some?
    ensures k < |places| && places[k] == FindPlace(places, id).value && places[k].id == id
  {
    if places[|places| - 1].id == id {
      k := |places| - 1;
    } else {
      k := FindPlaceAt(places[..|places| - 1], id);
    }
  }

  lemma {:induction false} FindIs(activities: seq<Activity>, id: nat)
    requires Find(activities, id).Some?
    ensures Find(activities, id).value in activities && Find(activities, id).value.id == id
  {
    if activities[|activities| - 1].id != id {
      FindIs(activities[..|activities| - 1], id);
    }
  }

  lemma MoneyStaysPut(b: Books)
    ensures MoneyStays(b, b)
  {
  }

  lemma MoneyStaysTwice(a: Books, b: Books, c: Books)
    requires MoneyStays(a, b) && MoneyStays(b, c)
    ensures MoneyStays(a, c)
  {
  }

  lemma LaterTwice(c: Club, d: Club, e: Club)
    requires Later(c, d) && Later(d, e)
    ensures Later(c, e)
  {
    MoneyStaysTwice(c.books, d.books, e.books);
    forall k | 0 <= k < |c.places| ensures Frozen(c.places[k], e.places[k]) {
      assert Frozen(c.places[k], d.places[k]) && Frozen(d.places[k], e.places[k]);
    }
  }

  // --- joining --------------------------------------------------------------

  /** A place in a larger ledger whose own bill is as it was. */
  lemma StillBilled(b: Books, r: Books, p: Place)
    requires Billed(b, p) && BillIds(b.invoices) <= BillIds(r.invoices)
    requires forall id :: id in BillIds(b.invoices) ==> Bill(r.invoices, id) == Bill(b.invoices, id)
    ensures Billed(r, p)
  {
  }

  lemma RaisedMoneyStays(b: Books, row: Invoice, head: Option<nat>, b1: Books)
    requires RaisedOne(b, row, head, b1) && b1.allocations == b.allocations
    ensures MoneyStays(b, b1)
  {
  }

  lemma NewPlaceApart(c: Club, p: Place, books: Books)
    requires Sound(c) && p.id == c.nextRow && (p.bill.Some? ==> p.bill.value == c.books.next)
    requires !HasPlace(c.places, p.student, p.activity)
    ensures Apart(c.places + [p])
  {
    forall k | 0 <= k < |c.places|
      ensures c.places[k].id != p.id && (p.bill.Some? ==> c.places[k].bill != p.bill)
      ensures !(c.places[k].enrolled && c.places[k].student == p.student && c.places[k].activity == p.activity)
    {
      assert c.places[k] in c.places;
      if c.places[k].bill.Some? {
        var i := Bill(c.books.invoices, c.places[k].bill.value);
      }
    }
  }

  /** Joining with a bill that has just been raised for what is charged. */
  lemma JoinBilled(c: Club, raised: Books, row: Invoice, head: Option<nat>, activity: nat)
    requires Sound(c) && Valid(raised) && RaisedOne(c.books, row, head, raised)
    requires raised.allocations == c.books.allocations
    requires row.gross > 0 && row.discount == row.fine == row.paid == 0 && row.status == Unpaid
    requires !HasPlace(c.places, row.student, activity)
    ensures Sound(AddPlace(c, raised, row.student, activity, Some(c.books.next), row.gross))
    ensures Later(c, AddPlace(c, raised, row.student, activity, Some(c.books.next), row.gross))
  {
    var p := Place(c.nextRow, row.student, activity, Some(c.books.next), row.gross, true);
    NewPlaceApart(c, p, raised);
    RaisedMoneyStays(c.books, row, head, raised);
    forall k | 0 <= k < |c.places| ensures Billed(raised, c.places[k]) {
      StillBilled(c.books, raised, c.places[k]);
    }
  }

  lemma JoinFree(c: Club, student: nat, activity: nat)
    requires Sound(c) && !HasPlace(c.places, student, activity)
    ensures Sound(AddPlace(c, c.books, student, activity, None, 0))
    ensures Later(c, AddPlace(c, c.books, student, activity, None, 0))
  {
    NewPlaceApart(c, Place(c.nextRow, student, activity, None, 0, true), c.books);
    MoneyStaysPut(c.books);
  }

  lemma RaisedFor(b: Books, row: Invoice, head: Option<nat>, serial: nat, raised: Books)
    requires Valid(b) && Fresh(row) && RaiseBill(b.(serial := serial), row, head) == Some(raised)
    ensures Valid(raised) && RaisedOne(b, row, head, raised) && raised.allocations == b.allocations
  {
    NumbersAreFree(b, b.next, serial, {});
    RaiseBillKeeps(b.(serial := serial), row, head);
    RaiseBillDoes(b.(serial := serial), row, head, raised);
  }

  lemma EnrolKeeps(c: Club, allowed: bool, student: nat, activity: nat, waive: bool, year: Year, series: string,
                   head: Option<nat>, today: int, d: Club)
    requires Sound(c) && Enrol(c, allowed, student, activity, waive, year, series, head, today) == Done(d)
    ensures Sound(d) && Later(c, d)
  {
    var fee := if waive then 0 else Find(c.activities, activity).value.fee;
    if fee == 0 {
      JoinFree(c, student, activity);
    } else {
      var numbered := c.books.(serial := c.books.serial + 1);
      var row := ActivityBill(student, year, DocNo(series, numbered.serial), fee, today);
      var raised := RaiseBill(numbered, row, head).value;
      RaisedFor(c.books, row, head, numbered.serial, raised);
      JoinBilled(c, raised, row, head, activity);
    }
  }

  /** Joining charges what the activity costs that day, or nothing when waived, on a bill for exactly that; and only
      into an activity that is running and has room. */
  lemma EnrolCharges(c: Club, allowed: bool, student: nat, activity: nat, waive: bool, year: Year, series: string,
                   head: Option<nat>, today: int, d: Club)
    requires Sound(c) && Enrol(c, allowed, student, activity, waive, year, series, head, today) == Done(d)
    ensures Find(c.activities, activity).Some?
    ensures
      var a := Find(c.activities, activity).value;
      var charged := if waive then 0 else a.fee;
      && a in c.activities && a.id == activity && a.active
        && (a.capacity > 0 ==> Taken(c.places, activity) < a.capacity)
      && d.places
        == c.places
          + [Place(c.nextRow, student, activity, if charged == 0 then None else Some(c.books.next), charged, true)]
    ensures Taken(d.places, activity) == Taken(c.places, activity) + 1
  {
    FindIs(c.activities, activity);
    assert d.places[..|d.places| - 1] == c.places;
  }

  // --- leaving --------------------------------------------------------------

  lemma CancelKeeps(b: Books, bill: nat, r: Books)
    requires Valid(b) && r == b.(invoices := Each(b.invoices, CancelUnpaid(bill)))
    ensures Valid(r) && BillIds(r.invoices) == BillIds(b.invoices)
    ensures forall id :: id in BillIds(b.invoices) ==> Bill(r.invoices, id) == CancelUnpaid(bill)(Bill(b.invoices, id))
  {
    UpdateBillsKeeps(b, CancelUnpaid(bill));
    BillOfEach(b.invoices, CancelUnpaid(bill));
    forall k | 0 <= k < |b.invoices|
      ensures Headed(r.invoices[k], r.lines) && r.invoices[k].paid == Sum(r.allocations, PaidTo(r.invoices[k].id))
      ensures r.invoices[k].fine >= 0 && r.invoices[k].paid <= r.invoices[k].Net()
      ensures r.invoices[k].status == Cancelled ==> r.invoices[k].paid == 0
    {
      assert b.invoices[k] in b.invoices;
    }
  }

  lemma CloseApart(places: seq<Place>, id: nat)
    requires Apart(places)
    ensures Apart(Each(places, Closed(id)))
  {
    var r := Each(places, Closed(id));
    assert forall k :: 0 <= k < |places| ==> Frozen(places[k], r[k]);
  }

  lemma LeftBilled(c: Club, place: nat, p: Place, books: Books, k: nat)
    requires Sound(c) && FindPlace(c.places, place) == Some(p) && p.enrolled && k < |c.places|
    requires BillIds(books.invoices) == BillIds(c.books.invoices)
    requires p.bill.Some? ==> forall id :: id in BillIds(books.invoices) ==>
      Bill(books.invoices, id) == CancelUnpaid(p.bill.value)(Bill(c.books.invoices, id))
    requires p.bill.None? ==> books == c.books
    ensures Billed(books, Closed(place)(c.places[k]))
  {
    var j := FindPlaceAt(c.places, place);
    assert Billed(c.books, c.places[j]) && Billed(c.books, c.places[k]);
    if p.bill.Some? {
      if j == k {
        CancelledWhenUnpaid(c.books, books, c.places[k]);
      } else {
        StaysBilled(c.books, books, p.bill.value, c.places[k]);
      }
    }
  }

  lemma CancelledWhenUnpaid(b: Books, r: Books, p: Place)
    requires Billed(b, p) && p.enrolled && p.bill.Some? && BillIds(r.invoices) == BillIds(b.invoices)
    requires forall id :: id in BillIds(r.invoices) ==>
      Bill(r.invoices, id) == CancelUnpaid(p.bill.value)(Bill(b.invoices, id))
    ensures Billed(r, p.(enrolled := false))
  {
  }

  lemma StaysBilled(b: Books, r: Books, bill: nat, q: Place)
    requires Billed(b, q) && q.bill != Some(bill) && BillIds(r.invoices) == BillIds(b.invoices)
    requires forall id :: id in BillIds(r.invoices) ==> Bill(r.invoices, id) == CancelUnpaid(bill)(Bill(b.invoices, id))
    ensures Billed(r, q)
  {
  }

  lemma LeaveKeeps(c: Club, allowed: bool, student: nat, place: nat, d: Club)
    requires Sound(c) && Leave(c, allowed, student, place) == Done(d)
    ensures Sound(d) && Later(c, d)
  {
    var p := FindPlace(c.places, place).value;
    CloseApart(c.places, place);
    if p.bill.Some? {
      CancelKeeps(c.books, p.bill.value, d.books);
    } else {
      MoneyStaysPut(c.books);
    }
    forall k | 0 <= k < |c.places| ensures Billed(d.books, d.places[k]) && d.places[k].id < d.nextRow {
      LeftBilled(c, place, p, d.books, k);
    }
  }

  /** Leaving cancels the bill exactly when nothing had been paid on it; no other bill, no receipt and no allocation
      moves. */
  lemma LeavingCancels(c: Club, allowed: bool, student: nat, place: nat, d: Club)
    requires Sound(c) && Leave(c, allowed, student, place) == Done(d)
    ensures d.books == c.books.(invoices := d.books.invoices) && BillIds(d.books.invoices) == BillIds(c.books.invoices)
    ensures |d.places| == |c.places| && forall k :: 0 <= k < |c.places| ==>
      d.places[k] == if c.places[k].id == place then c.places[k].(enrolled := false) else c.places[k]
    ensures
      var p := FindPlace(c.places, place).value;
      && (forall id :: id in BillIds(c.books.invoices) && p.bill != Some(id) ==>
          Bill(d.books.invoices, id) == Bill(c.books.invoices, id))
      && (p.bill.Some? && p.bill.value in BillIds(c.books.invoices) ==>
            var i, j := Bill(c.books.invoices, p.bill.value), Bill(d.books.invoices, p.bill.value);
            j.paid == i.paid && (j.status == Cancelled <==> i.paid == 0))
  {
    var j := FindPlaceAt(c.places, place);
    assert Billed(c.books, c.places[j]);
    if c.places[j].bill.Some? {
      CancelKeeps(c.books, c.places[j].bill.value, d.books);
    }
  }

  // --- paying and saving ----------------------------------------------------

  lemma {:induction false} FoundBill(rows: seq<Invoice>, id: nat)
    requires DistinctBills(rows) && FindBill(rows, id).Some?
    ensures id in BillIds(rows) && Bill(rows, id) == FindBill(rows, id).value
  {
    FindBillIs(rows, id);
  }

  /** A receipt only ever adds to what is paid. */
  lemma ReceiptMoneyStays(b: Books, row: Payment, bill: nat, today: int, r: Books)
    requires Valid(b) && Payable(b, row, bill) && PostReceipt(b, row, bill, today) == Some(r)
    ensures Valid(r) && MoneyStays(b, r) && SameBills(b, r)
    ensures forall id :: id in BillIds(b.invoices) && id != bill ==> Bill(r.invoices, id) == Bill(b.invoices, id)
  {
    PostReceiptKeeps(b, row, bill, today);
    PostReceiptBills(b, row, bill, today, r);
    SurplusIsCredit(b, row, bill, today);
    HandWrittenAgrees(b, row, bill, today);
    assert Bill(b.invoices, bill).Balance() >= 0;
  }

  lemma PaidStaysBilled(b: Books, r: Books, bill: nat, p: Place)
    requires Valid(b) && Billed(b, p) && SameBills(b, r) && MoneyStays(b, r) && bill in BillIds(b.invoices)
    requires Bill(b.invoices, bill).Live()
    requires forall id :: id in BillIds(b.invoices) && id != bill ==> Bill(r.invoices, id) == Bill(b.invoices, id)
    ensures Billed(r, p)
  {
    PaidNotNegative(b, bill);
  }

  lemma PaidNotNegative(b: Books, bill: nat)
    requires Valid(b) && bill in BillIds(b.invoices)
    ensures Bill(b.invoices, bill).paid >= 0
  {
    forall a | a in b.allocations ensures PaidTo(bill)(a) >= 0 {
      assert Joins(b, a);
    }
    SumNonNegative(b.allocations, PaidTo(bill));
  }

  lemma PayKeeps(c: Club, row: Payment, bill: nat, today: int, d: Club)
    requires Sound(c) && Pay(c, row, bill, today) == Done(d)
    ensures Sound(d) && Later(c, d)
  {
    FoundBill(c.books.invoices, bill);
    ReceiptMoneyStays(c.books, row, bill, today, d.books);
    forall k | 0 <= k < |c.places| ensures Billed(d.books, d.places[k]) {
      PaidStaysBilled(c.books, d.books, bill, c.places[k]);
    }
  }

  lemma SaveKeeps(c: Club, id: Option<nat>, rupees: real, capacity: int, active: bool, d: Club)
    requires Sound(c) && Save(c, id, rupees, capacity, active) == Done(d)
    ensures Sound(d) && Later(c, d)
    ensures d.books == c.books && d.places == c.places
  {
    MoneyStaysPut(c.books);
  }

  // --- every run ------------------------------------------------------------

  lemma ActKeeps(c: Club, s: Step, today: int, d: Club)
    requires Sound(c) && d == After(c, s, today)
    ensures Sound(d) && Later(c, d)
  {
    MoneyStaysPut(c.books);
    if Act(c, s, today).Done? {
      match s
      case Saving(id, rupees, capacity, active) => SaveKeeps(c, id, rupees, capacity, active, d);
      case Enrolling(allowed, student, activity, waive, year, series, head) =>
        EnrolKeeps(c, allowed, student, activity, waive, year, series, head, today, d);
      case Leaving(allowed, student, place) => LeaveKeeps(c, allowed, student, place, d);
      case Paying(row, bill) => PayKeeps(c, row, bill, today, d);
    }
  }

  /** Whatever stands in the places, a step keeps the ledger valid. */
  lemma BooksKept(c: Club, s: Step, today: int, d: Club)
    requires Valid(c.books) && Act(c, s, today) == Done(d)
    ensures Valid(d.books)
  {
    match s
    case Saving(_, _, _, _) =>
    case Enrolling(_, student, activity, waive, year, series, head) =>
      if !waive && Find(c.activities, activity).value.fee > 0 {
        var serial := c.books.serial + 1;
        var row := ActivityBill(student, year, DocNo(series, serial), Find(c.activities, activity).value.fee, today);
        RaisedFor(c.books, row, head, serial, d.books);
      }
    case Leaving(_, _, place) =>
      var p := FindPlace(c.places, place).value;
      if p.bill.Some? {
        CancelKeeps(c.books, p.bill.value, d.books);
      }
    case Paying(row, bill) =>
      FoundBill(c.books.invoices, bill);
      ReceiptMoneyStays(c.books, row, bill, today, d.books);
  }

  /** Over any run a place keeps its child, activity, bill and fee; its bill's gross is that fee, and is cancelled
      exactly when the child left with nothing paid on it; no bill loses money and no allocation is taken back. */
  lemma {:induction false} RunKeeps(c: Club, steps: seq<Step>, days: nat -> int, d: Club)
    requires Sound(c) && d == Run(c, steps, days)
    ensures Sound(d) && Later(c, d)
  {
    if steps == [] {
      NothingYet(c);
    } else {
      var m := |steps| - 1;
      var c1 := Run(c, steps[..m], days);
      RunKeeps(c, steps[..m], days, c1);
      ActKeeps(c1, steps[m], days(m), d);
      LaterTwice(c, c1, d);
    }
  }

  lemma NothingYet(c: Club)
    ensures Later(c, c)
  {
    MoneyStaysPut(c.books);
  }

  function DaysAfter(days: nat -> int, n: nat): nat -> int { (k: nat) => days(n + k) }

  lemma RunFurther(c: Club, steps: seq<Step>, s: Step, days: nat -> int, d: Club)
    requires d == Run(c, steps, days)
    ensures Run(c, steps + [s], days) == After(d, s, days(|steps|))
  {
    assert (steps + [s])[..|steps|] == steps;
  }

  lemma {:induction false} RunsJoin(c: Club, first: seq<Step>, more: seq<Step>, days: nat -> int, mid: Club, d: Club)
    requires mid == Run(c, first, days) && d == Run(mid, more, DaysAfter(days, |first|))
    ensures Run(c, first + more, days) == d
  {
    if more == [] {
      assert first + more == first;
    } else {
      var m := |more| - 1;
      var d1 := Run(mid, more[..m], DaysAfter(days, |first|));
      RunsJoin(c, first, more[..m], days, mid, d1);
      RunFurther(c, first + more[..m], more[m], days, d1);
      RunFurther(mid, more[..m], more[m], DaysAfter(days, |first|), d1);
      assert first + more == first + more[..m] + [more[m]] && more == more[..m] + [more[m]];
      assert DaysAfter(days, |first|)(m) == days(|first + more[..m]|);
    }
  }

  /** The fee on a place is what the activity cost on the day the child joined, whatever is saved, joined, left or paid
      afterwards, and its bill is for that. */
  lemma FeeStaysFrozen(c: Club, first: seq<Step>, e: Step, more: seq<Step>, days: nat -> int, before: Club,
                       joined: Club, d: Club)
    requires Sound(c) && e.Enrolling? && before == Run(c, first, days) && Act(before, e, days(|first|)) == Done(joined)
    requires d == Run(c, first + [e] + more, days)
    ensures Find(before.activities, e.activity).Some? && |before.places| < |d.places|
    ensures
      var p := d.places[|before.places|];
      && p.fee == (if e.waive then 0 else Find(before.activities, e.activity).value.fee)
      && p.student == e.student && p.activity == e.activity && Billed(d.books, p)
  {
    RunKeeps(c, first, days, before);
    assert (first + [e])[..|first|] == first;
    assert Run(c, first + [e], days) == joined;
    ActKeeps(before, e, days(|first|), joined);
    var later := DaysAfter(days, |first + [e]|);
    RunsJoin(c, first + [e], more, days, joined, Run(joined, more, later));
    RunKeeps(joined, more, later, d);
    EnrolCharges(before, e.allowed, e.student, e.activity, e.waive, e.year, e.series, e.head, days(|first|), joined);
    assert Frozen(joined.places[|before.places|], d.places[|before.places|]);
  }

  // --- the handler as written -----------------------------------------------

  /** The activity's row. */
  ghost predicate RowOf(activities: seq<Activity>, id: nat, a: Activity)
  {
    exists k :: 0 <= k < |activities| && IsLast(activities, id, a, k)
  }

  ghost predicate IsLast(activities: seq<Activity>, id: nat, a: Activity, k: nat)
  {
    k < |activities| && activities[k] == a && a.id == id && forall j :: k < j < |activities| ==> activities[j].id != id
  }

  lemma {:induction false} FindMeans(activities: seq<Activity>, id: nat)
    ensures forall a :: Find(activities, id) == Some(a) <==> RowOf(activities, id, a)
  {
    if activities != [] {
      var m := |activities| - 1;
      FindMeans(activities[..m], id);
      forall a ensures Find(activities, id) == Some(a) <==> RowOf(activities, id, a) {
        if activities[m].id == id {
          assert IsLast(activities, id, activities[m], m);
        } else {
          if RowOf(activities[..m], id, a) {
            var k :| 0 <= k < m && IsLast(activities[..m], id, a, k);
            assert IsLast(activities, id, a, k);
          }
          if RowOf(activities, id, a) {
            var k :| 0 <= k < |activities| && IsLast(activities, id, a, k);
            assert IsLast(activities[..m], id, a, k);
          }
        }
      }
    }
  }

  /** The places children hold in the activity. */
  function HeldIn(places: seq<Place>, activity: nat): set<nat>
  {
    set k | 0 <= k < |places| && places[k].activity == activity && places[k].enrolled
  }

  lemma HeldFurther(places: seq<Place>, activity: nat)
    requires places != []
    ensures
      var m := |places| - 1;
      |HeldIn(places, activity)|
      == |HeldIn(places[..m], activity)| + if places[m].activity == activity && places[m].enrolled then 1 else 0
  {
    var m := |places| - 1;
    var before := HeldIn(places[..m], activity);
    if places[m].activity == activity && places[m].enrolled {
      assert HeldIn(places, activity) == before + {m} && m !in before;
    } else {
      assert HeldIn(places, activity) == before;
    }
  }

  lemma {:induction false} TakenIs(places: seq<Place>, activity: nat)
    ensures Taken(places, activity) == |HeldIn(places, activity)|
  {
    if places == [] {
      assert HeldIn(places, activity) == {};
    } else {
      var m := |places| - 1;
      TakenIs(places[..m], activity);
      HeldFurther(places, activity);
    }
  }

  /** The activity is there and running, a place is free, and the child holds none in it. */
  ghost predicate MayJoin(c: Club, student: nat, activity: nat, a: Activity)
  {
    && RowOf(c.activities, activity, a) && a.active && (a.capacity > 0 ==> |HeldIn(c.places, activity)| < a.capacity)
    && forall k :: 0 <= k < |c.places| && c.places[k].student == student && c.places[k].activity == activity ==>
         !c.places[k].enrolled
  }

  lemma NoPlaceIs(places: seq<Place>, student: nat, activity: nat)
    ensures !HasPlace(places, student, activity) <==>
      forall k :: 0 <= k < |places| && places[k].student == student && places[k].activity == activity ==>
        !places[k].enrolled
  {
    forall k | 0 <= k < |places| ensures places[k] in places {
    }
  }

  /** As written, joining is accepted if and only if the child may be edited, the activity is there, running and has
      room, the child is not in it already, and there is nothing to charge. */
  lemma JoiningAsWritten(c: Club, allowed: bool, student: nat, activity: nat, waive: bool, year: Year, series: string,
                         today: int)
    ensures Enrol(c, allowed, student, activity, waive, year, series, None, today).Done? <==>
      allowed && exists a :: MayJoin(c, student, activity, a) && (waive || a.fee == 0)
  {
    FindMeans(c.activities, activity);
    TakenIs(c.places, activity);
    NoPlaceIs(c.places, student, activity);
    if Enrol(c, allowed, student, activity, waive, year, series, None, today).Done? {
      assert MayJoin(c, student, activity, Find(c.activities, activity).value);
    }
  }

  /** With a head on the line, as intended, whether there is something to charge makes no difference unless the bill
      number is taken. */
  lemma JoiningAsIntended(c: Club, allowed: bool, student: nat, activity: nat, waive: bool, year: Year, series: string,
                          head: nat, today: int)
    ensures Enrol(c, allowed, student, activity, waive, year, series, Some(head), today).Done? <==>
      allowed && exists a ::
        MayJoin(c, student, activity, a)
        && (waive || a.fee == 0 || forall i :: i in c.books.invoices ==> i.no != DocNo(series, c.books.serial + 1))
  {
    FindMeans(c.activities, activity);
    TakenIs(c.places, activity);
    NoPlaceIs(c.places, student, activity);
    if Enrol(c, allowed, student, activity, waive, year, series, Some(head), today).Done? {
      assert MayJoin(c, student, activity, Find(c.activities, activity).value);
    }
  }

  /** A club of one activity, with nobody in it and nothing in the ledger. */
  function NewClub(fee: nat): Club { Club(Books([], [], [], [], [], 0, 0), [Activity(0, fee, 0, true)], [], 1) }

  /** The first child to join an activity that costs anything is refused. */
  lemma FirstChargedJoinRefused(fee: nat, student: nat, year: Year, series: string, today: int)
    requires fee > 0
    ensures Sound(NewClub(fee))
    ensures Enrol(NewClub(fee), true, student, 0, false, year, series, None, today) == Refused(NoFeeHead)
    ensures Enrol(NewClub(fee), true, student, 0, false, year, series, Some(0), today).Done?
  {
    assert Find(NewClub(fee).activities, 0) == Some(Activity(0, fee, 0, true));
  }

  predicate AsWritten(s: Step) { s.Enrolling? ==> s.head == None }

  ghost predicate NothingCharged(c: Club)
  {
    forall k :: 0 <= k < |c.places| ==> c.places[k].bill == None && c.places[k].fee == 0
  }

  /** As written, no run ever charges anybody for an activity. */
  lemma {:induction false} NobodyCharged(c: Club, steps: seq<Step>, days: nat -> int, d: Club)
    requires Sound(c) && NothingCharged(c) && d == Run(c, steps, days)
    requires forall k :: 0 <= k < |steps| ==> AsWritten(steps[k])
    ensures NothingCharged(d)
  {
    if steps != [] {
      var m := |steps| - 1;
      NobodyCharged(c, steps[..m], days, Run(c, steps[..m], days));
    }
  }

  // --- each step, read off the rows -----------------------------------------

  /** The amount in rupees to the nearest paisa, halves up. */
  ghost predicate Nearest(rupees: real, fee: int) { fee as real - 0.5 <= rupees * 100.0 < fee as real + 0.5 }

  /** Saving is refused exactly for a fee below nothing or above a lakh, a capacity below nothing, or an activity that
      is not there. */
  lemma SavingAccepted(c: Club, id: Option<nat>, rupees: real, capacity: int, active: bool)
    ensures Save(c, id, rupees, capacity, active).Done? <==>
      0.0 <= rupees <= 100000.0 && capacity >= 0 && (id.Some? ==> exists a :: a in c.activities && a.id == id.value)
  {
  }

  /** A saved activity costs the amount to the nearest paisa; the others are as they were. */
  lemma SavingMeans(c: Club, id: Option<nat>, rupees: real, capacity: int, active: bool, d: Club)
    requires Save(c, id, rupees, capacity, active) == Done(d)
    ensures d.books == c.books && d.places == c.places
    ensures id.Some? ==> |d.activities| == |c.activities| && forall k :: 0 <= k < |c.activities| ==>
      if c.activities[k].id == id.value then SavedAs(d.activities[k], id.value, rupees, capacity, active)
      else d.activities[k] == c.activities[k]
    ensures id.None? ==> |d.activities| == |c.activities| + 1 && c.activities <= d.activities
    ensures id.None? ==> SavedAs(d.activities[|c.activities|], c.nextRow, rupees, capacity, active)
  {
    PaiseIsNearest(rupees);
  }

  ghost predicate SavedAs(a: Activity, id: nat, rupees: real, capacity: int, active: bool)
  {
    a.id == id && Nearest(rupees, a.fee) && a.capacity == capacity && a.active == active
  }

  lemma PaiseIsNearest(rupees: real)
    ensures Nearest(rupees, Paise(rupees))
  {
  }

  /** A receipt is taken exactly for a positive amount, against a bill that is there, is not cancelled and is the
      payer's, under a number nobody has. */
  lemma PayingAccepted(c: Club, row: Payment, bill: nat, today: int)
    requires DistinctBills(c.books.invoices)
    ensures Pay(c, row, bill, today).Done? <==>
      && row.amount > 0 && row.drawn == 0
      && (exists i :: i in c.books.invoices && i.id == bill && i.status != Cancelled && i.student == row.student)
      && (row.receipt.Some? ==> forall p :: p in c.books.payments ==> p.receipt != row.receipt)
  {
    FindBillIs(c.books.invoices, bill);
    if i :| i in c.books.invoices && i.id == bill {
      BillIs(c.books.invoices, i);
    }
  }

  /** A place is given up exactly when it is the child's, still held, and the child may be edited. */
  lemma LeavingAccepted(c: Club, allowed: bool, student: nat, place: nat)
    requires Apart(c.places)
    ensures Leave(c, allowed, student, place).Done? <==>
      allowed && exists k :: 0 <= k < |c.places| && c.places[k].id == place && c.places[k].student == student
                   && c.places[k].enrolled
  {
    if Leave(c, allowed, student, place).Done? {
      var k := FindPlaceAt(c.places, place);
    }
    if k :| 0 <= k < |c.places| && c.places[k].id == place && c.places[k].student == student && c.places[k].enrolled {
      FindPlaceIs(c.places, place, k);
    }
  }

  /** Joining with something to charge raises one bill, for the fee of the day, due in a fortnight, numbered next in the
      school's series; every other bill is as it was. */
  lemma JoiningBills(c: Club, allowed: bool, student: nat, activity: nat, waive: bool, year: Year, series: string,
                     head: nat, today: int, d: Club, a: Activity)
    requires Valid(c.books) && RowOf(c.activities, activity, a) && a.fee > 0 && !waive
    requires Enrol(c, allowed, student, activity, waive, year, series, Some(head), today) == Done(d)
    ensures BillIds(d.books.invoices) == BillIds(c.books.invoices) + {c.books.next}
    ensures Bill(d.books.invoices, c.books.next) == Invoice(c.books.next, student, year,
      DocNo(series, c.books.serial + 1), None, today, Some(today + 14), a.fee, 0, 0, 0, Unpaid)
    ensures forall id :: id in BillIds(c.books.invoices) ==> Bill(d.books.invoices, id) == Bill(c.books.invoices, id)
    ensures d.books.lines == c.books.lines + [Line(c.books.next, Some(head), a.fee, 0)]
  {
    FindMeans(c.activities, activity);
    var serial := c.books.serial + 1;
    RaisedFor(c.books, ActivityBill(student, year, DocNo(series, serial), a.fee, today), Some(head), serial, d.books);
  }
}
