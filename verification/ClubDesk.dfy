/** The activities as the handlers work on them, over the ledger that holds the bills. */
module ClubDesk {
  import opened Tables
  import opened Books
  import opened Posting
  import opened Activities
  import ActivityRuns
  import LedgerDesk

  class Clubs {
    const ledger: LedgerDesk.Ledger
    var activities: seq<Activity>
    var places: seq<Place>
    var nextRow: nat

    function Contents(): Club
      reads this, ledger
    {
      Club(ledger.Contents(), activities, places, nextRow)
    }

    ghost predicate Sound()
      reads this, ledger
    {
      Activities.Sound(Contents())
    }

    constructor (ledger: LedgerDesk.Ledger)
      requires ledger.Sound()
      ensures Sound() && this.ledger == ledger && places == []
    {
      this.ledger := ledger;
      activities, places, nextRow := [], [], 0;
    }

    /** What the handler of a step has done: the next state, or the refusal and the same state. */
    ghost predicate Answered(before: Club, step: Activities.Step, today: int, why: Option<Refusal>)
      reads this, ledger
    {
      match Act(before, step, today)
      case Done(after) => why == None && Contents() == after
      case Refused(reason) => why == Some(reason) && Contents() == before
    }

    method SaveActivity(id: Option<nat>, rupees: real, capacity: int, active: bool) returns (why: Option<Refusal>)
      requires Sound()
      modifies this
      ensures Sound() && Later(old(Contents()), Contents())
      ensures Answered(old(Contents()), Saving(id, rupees, capacity, active), 0, why)
    {
      ghost var before := Contents();
      ActivityRuns.ActKeeps(before, Saving(id, rupees, capacity, active), 0,
                            After(before, Saving(id, rupees, capacity, active), 0));
      ActivityRuns.NothingYet(before);
      if rupees < 0.0 {
        return Some(FeeBelowNothing);
      }
      if rupees > LARGEST_FEE {
        return Some(FeeTooLarge);
      }
      if capacity < 0 {
        return Some(CapacityBelowNothing);
      }
      var paise := (rupees * 100.0 + 0.5).Floor;
      if id.Some? {
        if !exists a :: a in activities && a.id == id.value {
          return Some(NoSuchActivity);
        }
        activities := Each(activities, Rewrite(id.value, paise, capacity, active));
        return None;
      }
      activities := activities + [Activity(nextRow, paise, capacity, active)];
      nextRow := nextRow + 1;
      return None;
    }

    /** The bill for a place that is charged for; it is taken back when its number is taken, its line has no head, or
        the place is already taken. */
    method BillPlace(student: nat, year: Year, series: string, head: Option<nat>, fee: nat, there: bool, today: int)
      returns (why: Option<Refusal>)
      modifies ledger
      ensures activities == old(activities) && places == old(places) && nextRow == old(nextRow)
      ensures
        var numbered := old(ledger.Contents()).(serial := old(ledger.serial) + 1);
        var raised :=
          RaiseBill(numbered, ActivityBill(student, year, DocNo(series, numbered.serial), fee, today), head);
        && why == (if raised.None? then Some(AlreadyThere) else if head.None? then Some(NoFeeHead) else if there
                   then Some(AlreadyThere) else None)
        && ledger.Contents() == if why.None? then raised.value else old(ledger.Contents())
    {
      var saved := ledger.Contents();
      ledger.serial := ledger.serial + 1;
      var ok := ledger.Raise(ActivityBill(student, year, DocNo(series, ledger.serial), fee, today), head);
      why := None;
      if !ok {
        why := Some(AlreadyThere);
      } else if head.None? {
        why := Some(NoFeeHead);
      } else if there {
        why := Some(AlreadyThere);
      }
      if why.Some? {
        ledger.Put(saved);
      }
    }

    method TakePlace(allowed: bool, student: nat, activity: nat, waive: bool, year: Year, series: string,
                     head: Option<nat>, today: int) returns (why: Option<Refusal>)
      modifies this, ledger
      ensures Answered(old(Contents()), Enrolling(allowed, student, activity, waive, year, series, head), today, why)
    {
      if !allowed {
        return Some(NotYours);
      }
      var found := Find(activities, activity);
      if found == None {
        return Some(NotYours);
      }
      var taken := Taken(places, activity);
      if !found.value.active {
        return Some(WoundUp);
      }
      if found.value.capacity > 0 && taken >= found.value.capacity {
        return Some(Full);
      }
      var fee := if waive then 0 else found.value.fee;
      var there := HasPlace(places, student, activity);
      if fee == 0 && there {
        return Some(AlreadyThere);
      }
      var bill: Option<nat> := None;
      if fee > 0 {
        bill := Some(ledger.next);
        why := BillPlace(student, year, series, head, fee, there, today);
        if why.Some? {
          return;
        }
      }
      places := places + [Place(nextRow, student, activity, bill, fee, true)];
      nextRow := nextRow + 1;
      return None;
    }

    /** The handler as written passes no head. */
    method EnrolInActivity(allowed: bool, student: nat, activity: nat, waive: bool, year: Year, series: string,
                     head: Option<nat>, today: int) returns (why: Option<Refusal>)
      requires Sound()
      modifies this, ledger
      ensures Sound() && Later(old(Contents()), Contents())
      ensures Answered(old(Contents()), Enrolling(allowed, student, activity, waive, year, series, head), today, why)
    {
      ghost var before := Contents();
      ghost var step := Enrolling(allowed, student, activity, waive, year, series, head);
      why := TakePlace(allowed, student, activity, waive, year, series, head, today);
      ActivityRuns.ActKeeps(before, step, today, Contents());
    }

    method LeaveActivity(allowed: bool, student: nat, place: nat) returns (why: Option<Refusal>, cancelled: bool)
      requires Sound()
      modifies this, ledger
      ensures Sound() && Later(old(Contents()), Contents())
      ensures Answered(old(Contents()), Leaving(allowed, student, place), 0, why)
    {
      ghost var before := Contents();
      ghost var step := Leaving(allowed, student, place);
      ActivityRuns.ActKeeps(before, step, 0, After(before, step, 0));
      ActivityRuns.NothingYet(before);
      cancelled := false;
      var found := FindPlace(places, place);
      if found == None || found.value.student != student || !found.value.enrolled || !allowed {
        return Some(NotEnrolled), false;
      }
      places := Each(places, Closed(place));
      if found.value.bill.None? {
        return None, false;
      }
      var i := FindBill(ledger.invoices, found.value.bill.value);
      cancelled := i.Some? && i.value.paid == 0 && i.value.Live();
      ledger.invoices := Each(ledger.invoices, CancelUnpaid(found.value.bill.value));
      return None, cancelled;
    }
  }
}
