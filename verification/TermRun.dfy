/**
A term's billing run: every structure in turn bills the children here who have
no live bill for the instalment, with each child's concession per head, and
brings their arrears along.
*/
module TermRun {
  import opened Tables
  import opened Books
  import opened Waterfall
  import opened Arrears

  const EXPECTED_STRUCTURES := 13
  const GRACE := 14

  /** An approved concession: an amount, or a percentage in hundredths of one percent, on one head or on all. */
  datatype Concession = Concession(student: nat, year: Year, head: Option<nat>, amount: Option<nat>,
                                   percent: Option<nat>, approved: bool)

  datatype Item = Item(head: nat, instalment: nat, amount: nat)
  datatype Structure = Structure(class': Option<nat>, items: seq<Item>)
  datatype Enrolment = Enrolment(student: nat, year: Year, class': nat, active: bool)
  datatype OptIn = OptIn(student: nat, year: Year, head: nat, ended: bool)

  /** What a run reads and does not change. */
  datatype FeeBook = FeeBook(
    structures: seq<Structure>, enrolments: seq<Enrolment>, concessions: seq<Concession>,
    optional: set<nat>, optIns: seq<OptIn>, arrearsHead: nat, series: string)

  // --- one line -------------------------------------------------------------

  function Applies(student: nat, year: Year, head: nat): Concession -> bool
  {
    (c: Concession) => c.student == student && c.year == year && c.approved && (c.head == None || c.head == Some(head))
  }

  /** The percentage of an amount to the nearest paisa, halves up. */
  function PercentOf(amount: nat, percent: nat): nat { (2 * amount * percent + 10000) / 20000 }

  function LargestAmount(cs: seq<Concession>): Option<nat>
  {
    if cs == [] then None
    else
      var rest := LargestAmount(cs[..|cs| - 1]);
      var c := cs[|cs| - 1];
      if c.amount.Some? && (rest.None? || rest.value < c.amount.value) then c.amount else rest
  }

  function LargestPercent(cs: seq<Concession>, amount: nat): Option<nat>
  {
    if cs == [] then None
    else
      var rest := LargestPercent(cs[..|cs| - 1], amount);
      var c := cs[|cs| - 1];
      if c.percent.Some? && (rest.None? || rest.value < PercentOf(amount, c.percent.value))
      then Some(PercentOf(amount, c.percent.value)) else rest
  }

  /** The largest stated amount; only when no concession states one, the largest percentage. */
  function Granted(f: FeeBook, student: nat, year: Year, item: Item): nat
  {
    var cs := Where(f.concessions, Applies(student, year, item.head));
    match LargestAmount(cs)
    case Some(a) => a
    case None => match LargestPercent(cs, item.amount) { case Some(p) => p case None => 0 }
  }

  predicate Chosen(f: FeeBook, student: nat, year: Year, head: nat)
  {
    head !in f.optional || exists o :: o in f.optIns && o == OptIn(student, year, head, false)
  }

  function ItemLine(f: FeeBook, student: nat, year: Year, bill: nat, item: Item): Line
  {
    Line(bill, Some(item.head), item.amount, Min(item.amount, Granted(f, student, year, item)))
  }

  function OwnLines(f: FeeBook, student: nat, year: Year, bill: nat, items: seq<Item>): seq<Line>
  {
    if items == [] then []
    else
      var rest := OwnLines(f, student, year, bill, items[..|items| - 1]);
      var item := items[|items| - 1];
      if Chosen(f, student, year, item.head) then rest + [ItemLine(f, student, year, bill, item)] else rest
  }

  // --- one child ------------------------------------------------------------

  function InsertLines(b: Books, ls: seq<Line>): Books { b.(lines := b.lines + ls) }

  function NewBill(f: FeeBook, b: Books, student: nat, year: Year, instalment: nat, today: int): Invoice
  {
    Invoice(0, student, year, DocNo(f.series, b.serial + 1), Some(instalment), today, Some(today + GRACE), 0, 0, 0, 0,
            Unpaid)
  }

  predicate HasLines(b: Books, bill: nat) { exists l :: l in b.lines && l.invoice == bill }

  /** Draw a number, raise an empty bill, put the lines and the arrears on it, total it; withdraw it if it came to no
      line. */
  function BillChild(f: FeeBook, b: Books, student: nat, year: Year, instalment: nat, items: seq<Item>,
                     today: int): Option<Books>
  {
    var row := NewBill(f, b, student, year, instalment, today);
    var b1 :- InsertInvoice(b.(serial := b.serial + 1), row);
    var b2 := InsertLines(b1, OwnLines(f, student, year, b.next, items));
    var b3 :- CarryArrears(b2, student, year, b.next, row.no, f.arrearsHead, today);
    var b4 := RecomputeHeaders(b3, {b.next});
    if HasLines(b4, b.next) then Some(b4) else DeleteInvoices(b4, {b.next}, today)
  }

  // --- the run --------------------------------------------------------------

  function Priced(s: Structure, instalment: nat): seq<Item> { Where(s.items, (i: Item) => i.instalment == instalment) }

  predicate BillFor(i: Invoice, student: nat, year: Year, instalment: nat)
  {
    i.student == student && i.year == year && i.instalment == Some(instalment) && i.Live()
  }

  predicate Billed(b: Books, student: nat, year: Year, instalment: nat)
  {
    exists i :: i in b.invoices && BillFor(i, student, year, instalment)
  }

  function Selects(b: Books, s: Structure, year: Year, instalment: nat): Enrolment -> bool
  {
    (e: Enrolment) =>
      e.year == year && e.active && (s.class' == None || s.class' == Some(e.class'))
      && !Billed(b, e.student, year, instalment)
  }

  function BillChildren(f: FeeBook, b: Books, children: seq<Enrolment>, year: Year, instalment: nat, items: seq<Item>,
                        today: int): Option<Books>
  {
    if children == [] then Some(b)
    else
      var b1 :- BillChildren(f, b, children[..|children| - 1], year, instalment, items, today);
      BillChild(f, b1, children[|children| - 1].student, year, instalment, items, today)
  }

  function RunStructure(f: FeeBook, b: Books, s: Structure, year: Year, instalment: nat, today: int): Option<Books>
  {
    var items := Priced(s, instalment);
    if items == [] then Some(b)
    else BillChildren(f, b, Where(f.enrolments, Selects(b, s, year, instalment)), year, instalment, items, today)
  }

  function RunStructures(f: FeeBook, b: Books, structures: seq<Structure>, year: Year, instalment: nat,
                         today: int): Option<Books>
  {
    if structures == [] then Some(b)
    else
      var b1 :- RunStructures(f, b, structures[..|structures| - 1], year, instalment, today);
      RunStructure(f, b1, structures[|structures| - 1], year, instalment, today)
  }

  /** None when the run stops and rolls back: not thirteen structures, or a bill number already taken. */
  function Run(f: FeeBook, b: Books, year: Year, instalment: nat, today: int): Option<Books>
  {
    if |f.structures| != EXPECTED_STRUCTURES then None
    else RunStructures(f, b, f.structures, year, instalment, today)
  }

  // --- concessions ----------------------------------------------------------

  lemma {:induction false} LargestAmountIs(cs: seq<Concession>)
    ensures LargestAmount(cs).None? <==> forall c :: c in cs ==> c.amount.None?
    ensures LargestAmount(cs).Some? ==> exists c :: c in cs && c.amount == LargestAmount(cs)
    ensures forall c :: c in cs && c.amount.Some? ==> c.amount.value <= LargestAmount(cs).value
  {
    if cs != [] {
      LargestAmountIs(cs[..|cs| - 1]);
    }
  }

  lemma {:induction false} LargestPercentIs(cs: seq<Concession>, amount: nat)
    ensures LargestPercent(cs, amount).None? <==> forall c :: c in cs ==> c.percent.None?
    ensures LargestPercent(cs, amount).Some? ==>
      exists c :: c in cs && c.percent.Some? && PercentOf(amount, c.percent.value) == LargestPercent(cs, amount).value
    ensures forall c :: c in cs && c.percent.Some? ==>
      PercentOf(amount, c.percent.value) <= LargestPercent(cs, amount).value
  {
    if cs != [] {
      LargestPercentIs(cs[..|cs| - 1], amount);
    }
  }

  /** A line's discount never passes its charge, covers every stated amount up to it, and ignores every percentage
      as soon as one amount is stated. */
  lemma DiscountIs(f: FeeBook, student: nat, year: Year, bill: nat, item: Item)
    ensures
      var l := ItemLine(f, student, year, bill, item);
      var cs := Where(f.concessions, Applies(student, year, item.head));
      && 0 <= l.discount <= l.amount
      && (forall c :: c in cs && c.amount.Some? ==> Min(item.amount, c.amount.value) <= l.discount)
      && ((exists c :: c in cs && c.amount.Some?) ==>
            exists c :: c in cs && c.amount.Some? && l.discount == Min(item.amount, c.amount.value))
      && ((forall c :: c in cs ==> c.amount.None?) ==>
            forall c :: c in cs && c.percent.Some? ==>
              Min(item.amount, PercentOf(item.amount, c.percent.value)) <= l.discount)
      && (cs == [] ==> l.discount == 0)
  {
    var cs := Where(f.concessions, Applies(student, year, item.head));
    LargestAmountIs(cs);
    LargestPercentIs(cs, item.amount);
  }

  lemma {:induction false} OwnLinesSound(f: FeeBook, student: nat, year: Year, bill: nat, items: seq<Item>)
    ensures forall l :: l in OwnLines(f, student, year, bill, items) ==>
      l.invoice == bill && 0 <= l.discount <= l.amount
  {
    if items != [] {
      OwnLinesSound(f, student, year, bill, items[..|items| - 1]);
    }
  }
}
