/**
Clubs and coaching: joining one raises a bill for what it costs that day,
leaving it cancels the bill if nothing has been paid on it.
*/
module Activities {
  import opened Tables
  import opened Books
  import opened Posting

  const FORTNIGHT := 14
  const LARGEST_FEE := 100000.0

  /** A capacity of nothing means no limit. */
  datatype Activity = Activity(id: nat, fee: nat, capacity: nat, active: bool)

  /** `fee` is what the child was charged on joining. */
  datatype Place = Place(id: nat, student: nat, activity: nat, bill: Option<nat>, fee: nat, enrolled: bool)

  datatype Club = Club(books: Books, activities: seq<Activity>, places: seq<Place>, nextRow: nat)

  datatype Refusal =
    | FeeBelowNothing | FeeTooLarge | CapacityBelowNothing | NoSuchActivity
    | NotYours | WoundUp | Full | AlreadyThere | NoFeeHead
    | NotEnrolled
    | NotPayable

  datatype Reply = Done(club: Club) | Refused(why: Refusal)

  // --- saving an activity ---------------------------------------------------

  /** A fee typed in rupees, to the nearest paisa. */
  function Paise(rupees: real): int { (rupees * 100.0 + 0.5).Floor }

  function Rewrite(id: nat, fee: nat, capacity: nat, active: bool): Activity -> Activity
  {
    (a: Activity) => if a.id == id then Activity(id, fee, capacity, active) else a
  }

  function Save(c: Club, id: Option<nat>, rupees: real, capacity: int, active: bool): Reply
  {
    if rupees < 0.0 then Refused(FeeBelowNothing)
    else if rupees > LARGEST_FEE then Refused(FeeTooLarge)
    else if capacity < 0 then Refused(CapacityBelowNothing)
    else match id
      case Some(a) =>
        if exists x :: x in c.activities && x.id == a
        then Done(c.(activities := Each(c.activities, Rewrite(a, Paise(rupees), capacity, active))))
        else Refused(NoSuchActivity)
      case None =>
        Done(c.(activities := c.activities + [Activity(c.nextRow, Paise(rupees), capacity, active)],
                nextRow := c.nextRow + 1))
  }

  // --- joining --------------------------------------------------------------

  predicate HasPlace(places: seq<Place>, student: nat, activity: nat)
  {
    exists p :: p in places && p.student == student && p.activity == activity && p.enrolled
  }

  function Taken(places: seq<Place>, activity: nat): nat
  {
    |Where(places, (p: Place) => p.activity == activity && p.enrolled)|
  }

  function Find(activities: seq<Activity>, id: nat): Option<Activity>
  {
    if activities == [] then None
    else if activities[|activities| - 1].id == id then Some(activities[|activities| - 1])
    else Find(activities[..|activities| - 1], id)
  }

  function ActivityBill(student: nat, year: Year, no: DocNo, fee: nat, today: int): Invoice
  {
    Invoice(0, student, year, no, None, today, Some(today + FORTNIGHT), fee, 0, 0, 0, Unpaid)
  }

  function AddPlace(c: Club, books: Books, student: nat, activity: nat, bill: Option<nat>, fee: nat): Club
  {
    c.(books := books, places := c.places + [Place(c.nextRow, student, activity, bill, fee, true)],
       nextRow := c.nextRow + 1)
  }

  /** `allowed` says whether the child is one the caller can edit, `head` the fee head put on the bill's line. The
      handler as written puts none, and a line without one is refused; a bill with a head is what it intends. A taken
      bill number reads as "already enrolled" too: the handler does not tell the two apart. */
  function Enrol(c: Club, allowed: bool, student: nat, activity: nat, waive: bool, year: Year, series: string,
                 head: Option<nat>, today: int): Reply
  {
    if !allowed then Refused(NotYours)
    else match Find(c.activities, activity)
      case None => Refused(NotYours)
      case Some(a) =>
        var taken := Taken(c.places, activity);
        if !a.active then Refused(WoundUp)
        else if a.capacity > 0 && taken >= a.capacity then Refused(Full)
        else
          var fee := if waive then 0 else a.fee;
          if fee == 0 then
            if HasPlace(c.places, student, activity) then Refused(AlreadyThere)
            else Done(AddPlace(c, c.books, student, activity, None, 0))
          else
            var numbered := c.books.(serial := c.books.serial + 1);
            match RaiseBill(numbered, ActivityBill(student, year, DocNo(series, numbered.serial), fee, today), head)
            case None => Refused(AlreadyThere)
            case Some(billed) =>
              if head.None? then Refused(NoFeeHead)
              else if HasPlace(c.places, student, activity) then Refused(AlreadyThere)
              else Done(AddPlace(c, billed, student, activity, Some(c.books.next), fee))
  }

  // --- leaving --------------------------------------------------------------

  function Closed(id: nat): Place -> Place { (p: Place) => if p.id == id then p.(enrolled := false) else p }

  /** The bill is cancelled only if nothing has been paid on it. */
  function CancelUnpaid(bill: nat): Invoice -> Invoice
  {
    (i: Invoice) => if i.id == bill && i.paid == 0 && i.status != Cancelled then i.(status := Cancelled) else i
  }

  function FindPlace(places: seq<Place>, id: nat): Option<Place>
  {
    if places == [] then None
    else if places[|places| - 1].id == id then Some(places[|places| - 1])
    else FindPlace(places[..|places| - 1], id)
  }

  function Leave(c: Club, allowed: bool, student: nat, place: nat): Reply
  {
    match FindPlace(c.places, place)
    case None => Refused(NotEnrolled)
    case Some(p) =>
      if p.student != student || !p.enrolled || !allowed then Refused(NotEnrolled)
      else
        var left := c.(places := Each(c.places, Closed(place)));
        if p.bill.None? then Done(left)
        else Done(left.(books := left.books.(invoices := Each(left.books.invoices, CancelUnpaid(p.bill.value)))))
  }

  // --- paying ---------------------------------------------------------------

  /** A receipt against a live bill of the child; a cancelled bill takes no money. */
  function Pay(c: Club, row: Payment, bill: nat, today: int): Reply
  {
    match FindBill(c.books.invoices, bill)
    case None => Refused(NotPayable)
    case Some(i) =>
      if row.amount <= 0 || row.drawn != 0 || !i.Live() || i.student != row.student then Refused(NotPayable)
      else match PostReceipt(c.books, row, bill, today)
        case None => Refused(NotPayable)
        case Some(paid) => Done(c.(books := paid))
  }

  datatype Step =
    | Saving(id: Option<nat>, rupees: real, capacity: int, active: bool)
    | Enrolling(allowed: bool, student: nat, activity: nat, waive: bool, year: Year, series: string, head: Option<nat>)
    | Leaving(allowed: bool, student: nat, place: nat)
    | Paying(row: Payment, bill: nat)

  function Act(c: Club, s: Step, today: int): Reply
  {
    match s
    case Saving(id, rupees, capacity, active) => Save(c, id, rupees, capacity, active)
    case Enrolling(allowed, student, activity, waive, year, series, head) =>
      Enrol(c, allowed, student, activity, waive, year, series, head, today)
    case Leaving(allowed, student, place) => Leave(c, allowed, student, place)
    case Paying(row, bill) => Pay(c, row, bill, today)
  }

  /** A refused step leaves everything as it was. */
  function After(c: Club, s: Step, today: int): Club
  {
    match Act(c, s, today) case Done(d) => d case Refused(_) => c
  }

  function Run(c: Club, steps: seq<Step>, days: nat -> int): Club
  {
    if steps == [] then c
    else After(Run(c, steps[..|steps| - 1], days), steps[|steps| - 1], days(|steps| - 1))
  }

  // --- what holds in every state --------------------------------------------

  /** A place that was charged for has a bill for exactly that, cancelled just when the child left with nothing paid on
      it. */
  ghost predicate Billed(books: Books, p: Place)
  {
    if p.bill.None? then p.fee == 0
    else
      && p.bill.value in BillIds(books.invoices) && p.fee > 0
      && var i := Bill(books.invoices, p.bill.value);
      && i.student == p.student && i.gross == p.fee && i.discount == 0 && i.fine == 0
      && (i.status == Cancelled <==> !p.enrolled && i.paid == 0)
  }

  ghost predicate Apart(places: seq<Place>)
  {
    forall j, k :: 0 <= j < k < |places| ==>
      && places[j].id != places[k].id
      && (places[j].bill.Some? ==> places[j].bill != places[k].bill)
      && !(places[j].enrolled && places[k].enrolled && places[j].student == places[k].student
           && places[j].activity == places[k].activity)
  }

  ghost predicate Sound(c: Club)
  {
    && Valid(c.books) && Apart(c.places)
    && (forall k :: 0 <= k < |c.places| ==> c.places[k].id < c.nextRow && Billed(c.books, c.places[k]))
  }

  /** What a place never loses: the child, the activity, the bill and the fee; and having left, it stays left. */
  ghost predicate Frozen(p: Place, q: Place)
  {
    q == p.(enrolled := q.enrolled) && (q.enrolled ==> p.enrolled)
  }

  /** No bill loses money, and none changes hands or price. */
  ghost predicate MoneyStays(b: Books, r: Books)
  {
    && BillIds(b.invoices) <= BillIds(r.invoices)
    && (forall id :: id in BillIds(b.invoices) ==>
          var i, j := Bill(b.invoices, id), Bill(r.invoices, id);
          j == i.(paid := j.paid, status := j.status) && j.paid >= i.paid)
    && b.allocations <= r.allocations
  }

  ghost predicate Later(c: Club, d: Club)
  {
    && |c.places| <= |d.places| && MoneyStays(c.books, d.books)
    && (forall k :: 0 <= k < |c.places| ==> Frozen(c.places[k], d.places[k]))
  }
}
