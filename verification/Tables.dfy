/**
The rows of a table in the order they were inserted, and what the programs ask
of them: add up a column, keep the rows meeting a condition, update every row.
*/
module Tables {

  datatype Option<+T> = None | Some(value: T) {
    predicate IsFailure() { None? }
    function PropagateFailure<U>(): Option<U>
      requires None?
    {
      None
    }
    function Extract(): T
      requires Some?
    {
      value
    }
  }

  function Sum<T>(rows: seq<T>, f: T -> int): int
  {
    if rows == [] then 0 else Sum(rows[..|rows| - 1], f) + f(rows[|rows| - 1])
  }

  function Where<T>(rows: seq<T>, p: T -> bool): seq<T>
  {
    if rows == [] then []
    else
      var rest := Where(rows[..|rows| - 1], p);
      if p(rows[|rows| - 1]) then rest + [rows[|rows| - 1]] else rest
  }

  function Each<T>(rows: seq<T>, f: T -> T): seq<T>
  {
    seq(|rows|, i requires 0 <= i < |rows| => f(rows[i]))
  }

  /** The negation of a condition, as a condition. */
  function Not<T>(p: T -> bool): T -> bool { x => !p(x) }

  predicate IsPrefix<T(==)>(a: seq<T>, b: seq<T>) { |a| <= |b| && b[..|a|] == a }

  ghost predicate Pairwise<T>(rows: seq<T>, rel: (T, T) -> bool)
  {
    forall j, k :: 0 <= j < k < |rows| ==> rel(rows[j], rows[k])
  }

  // --- sums -----------------------------------------------------------------

  lemma SumSnoc<T>(rows: seq<T>, x: T, f: T -> int)
    ensures Sum(rows + [x], f) == Sum(rows, f) + f(x)
  {
    assert (rows + [x])[..|rows|] == rows;
  }

  lemma SumOne<T>(x: T, f: T -> int)
    ensures Sum([x], f) == f(x)
  {
    SumSnoc([], x, f);
    assert [] + [x] == [x];
  }

  lemma SumTwo<T>(x: T, y: T, f: T -> int)
    ensures Sum([x, y], f) == f(x) + f(y)
  {
    SumOne(x, f);
    SumSnoc([x], y, f);
    assert [x] + [y] == [x, y];
  }

  lemma {:induction false} SumConcat<T>(a: seq<T>, b: seq<T>, f: T -> int)
    ensures Sum(a + b, f) == Sum(a, f) + Sum(b, f)
  {
    if b == [] {
      assert a + b == a;
    } else {
      var m := |b| - 1;
      assert (a + b)[..|a + b| - 1] == a + b[..m];
      SumConcat(a, b[..m], f);
    }
  }

  lemma {:induction false} SumSame<T>(rows: seq<T>, f: T -> int, g: T -> int)
    requires forall x :: x in rows ==> f(x) == g(x)
    ensures Sum(rows, f) == Sum(rows, g)
  {
    if rows != [] {
      SumSame(rows[..|rows| - 1], f, g);
    }
  }

  lemma {:induction false} SumZero<T>(rows: seq<T>, f: T -> int)
    requires forall x :: x in rows ==> f(x) == 0
    ensures Sum(rows, f) == 0
  {
    if rows != [] {
      SumZero(rows[..|rows| - 1], f);
    }
  }

  lemma {:induction false} SumNonNegative<T>(rows: seq<T>, f: T -> int)
    requires forall x :: x in rows ==> f(x) >= 0
    ensures Sum(rows, f) >= 0
    ensures forall x :: x in rows ==> f(x) <= Sum(rows, f)
  {
    if rows != [] {
      SumNonNegative(rows[..|rows| - 1], f);
    }
  }

  lemma {:induction false} SumAtMost<T>(rows: seq<T>, f: T -> int, g: T -> int)
    requires forall x :: x in rows ==> f(x) <= g(x)
    ensures Sum(rows, f) <= Sum(rows, g)
  {
    if rows != [] {
      SumAtMost(rows[..|rows| - 1], f, g);
    }
  }

  lemma {:induction false} SumPlus<T>(rows: seq<T>, f: T -> int, g: T -> int, h: T -> int)
    requires forall x :: x in rows ==> h(x) == f(x) + g(x)
    ensures Sum(rows, h) == Sum(rows, f) + Sum(rows, g)
  {
    if rows != [] {
      SumPlus(rows[..|rows| - 1], f, g, h);
    }
  }

  /** Adding up the kept rows is adding up every row with the dropped ones counted as nothing. */
  lemma {:induction false} SumWhere<T>(rows: seq<T>, p: T -> bool, f: T -> int, g: T -> int)
    requires forall x :: x in rows ==> g(x) == if p(x) then f(x) else 0
    ensures Sum(Where(rows, p), f) == Sum(rows, g)
  {
    if rows != [] {
      var m := |rows| - 1;
      SumWhere(rows[..m], p, f, g);
      if p(rows[m]) {
        SumSnoc(Where(rows[..m], p), rows[m], f);
      }
    }
  }

  lemma {:induction false} SumEach<T>(rows: seq<T>, u: T -> T, f: T -> int, g: T -> int)
    requires forall x :: x in rows ==> g(x) == f(u(x))
    ensures Sum(Each(rows, u), f) == Sum(rows, g)
  {
    if rows != [] {
      var m := |rows| - 1;
      SumEach(rows[..m], u, f, g);
      assert Each(rows, u)[..m] == Each(rows[..m], u);
    }
  }

  // --- keeping rows ---------------------------------------------------------

  lemma {:induction false} WhereIn<T>(rows: seq<T>, p: T -> bool)
    ensures |Where(rows, p)| <= |rows|
    ensures forall x :: x in Where(rows, p) <==> x in rows && p(x)
  {
    if rows != [] {
      WhereIn(rows[..|rows| - 1], p);
    }
  }

  /** Kept rows stand in the order they stood in. */
  lemma {:induction false} WhereInOrder<T>(rows: seq<T>, p: T -> bool, j: nat, k: nat) returns (x: nat, y: nat)
    requires j < k < |Where(rows, p)|
    ensures x < y < |rows| && rows[x] == Where(rows, p)[j] && rows[y] == Where(rows, p)[k]
  {
    var m := |rows| - 1;
    if k < |Where(rows[..m], p)| {
      x, y := WhereInOrder(rows[..m], p, j, k);
    } else {
      x := WhereAt(rows[..m], p, j);
      y := m;
    }
  }

  lemma {:induction false} WhereConcat<T>(a: seq<T>, b: seq<T>, p: T -> bool)
    ensures Where(a + b, p) == Where(a, p) + Where(b, p)
  {
    if b == [] {
      assert a + b == a;
    } else {
      var m := |b| - 1;
      assert (a + b)[..|a + b| - 1] == a + b[..m];
      WhereConcat(a, b[..m], p);
    }
  }

  lemma {:induction false} WhereAll<T>(rows: seq<T>, p: T -> bool)
    requires forall x :: x in rows ==> p(x)
    ensures Where(rows, p) == rows
  {
    if rows != [] {
      WhereAll(rows[..|rows| - 1], p);
    }
  }

  lemma {:induction false} WhereNone<T>(rows: seq<T>, p: T -> bool)
    requires forall x :: x in rows ==> !p(x)
    ensures Where(rows, p) == []
  {
    if rows != [] {
      WhereNone(rows[..|rows| - 1], p);
    }
  }

  lemma {:induction false} WhereSame<T>(rows: seq<T>, p: T -> bool, q: T -> bool)
    requires forall x :: x in rows ==> (p(x) <==> q(x))
    ensures Where(rows, p) == Where(rows, q)
  {
    if rows != [] {
      WhereSame(rows[..|rows| - 1], p, q);
    }
  }

  lemma {:induction false} WhereAt<T>(rows: seq<T>, p: T -> bool, j: nat) returns (i: nat)
    requires j < |Where(rows, p)|
    ensures i < |rows| && rows[i] == Where(rows, p)[j]
  {
    var m := |rows| - 1;
    if j < |Where(rows[..m], p)| {
      i := WhereAt(rows[..m], p, j);
    } else {
      i := m;
    }
  }

  /** What holds of every earlier and later row holds of those kept. */
  lemma {:induction false} WherePairs<T>(rows: seq<T>, p: T -> bool, rel: (T, T) -> bool)
    requires Pairwise(rows, rel)
    ensures Pairwise(Where(rows, p), rel)
  {
    if rows != [] {
      var m := |rows| - 1;
      WherePairs(rows[..m], p, rel);
      WhereIn(rows[..m], p);
      var r := Where(rows[..m], p);
      forall j | 0 <= j < |r| ensures rel(r[j], rows[m]) {
        var i := WhereAt(rows[..m], p, j);
      }
    }
  }

  /** Two tables related row by row stay so when the same rows are kept of each. */
  lemma {:induction false} WhereParallel<T>(a: seq<T>, c: seq<T>, p: T -> bool, rel: (T, T) -> bool)
    requires |a| == |c| && forall k :: 0 <= k < |a| ==> rel(a[k], c[k]) && p(a[k]) == p(c[k])
    ensures |Where(a, p)| == |Where(c, p)|
    ensures forall k :: 0 <= k < |Where(a, p)| ==> rel(Where(a, p)[k], Where(c, p)[k])
  {
    if a != [] {
      WhereParallel(a[..|a| - 1], c[..|a| - 1], p, rel);
    }
  }

  lemma {:induction false} WhereTwice<T>(rows: seq<T>, p: T -> bool, q: T -> bool, both: T -> bool)
    requires forall x :: x in rows ==> both(x) == (p(x) && q(x))
    ensures Where(Where(rows, p), q) == Where(rows, both)
  {
    if rows != [] {
      var m := |rows| - 1;
      WhereTwice(rows[..m], p, q, both);
      if p(rows[m]) {
        assert (Where(rows[..m], p) + [rows[m]])[..|Where(rows[..m], p)|] == Where(rows[..m], p);
      }
    }
  }

  /** Old rows that all stay, followed by new rows that all go. */
  lemma WhereOldNew<T>(old': seq<T>, new': seq<T>, p: T -> bool)
    requires forall x :: x in old' ==> p(x)
    requires forall x :: x in new' ==> !p(x)
    ensures Where(old' + new', p) == old'
  {
    WhereConcat(old', new', p);
    WhereAll(old', p);
    WhereNone(new', p);
  }

  /** The same rows told apart the other way round. */
  lemma WhereNewOld<T>(old': seq<T>, new': seq<T>, p: T -> bool)
    requires forall x :: x in old' ==> !p(x)
    requires forall x :: x in new' ==> p(x)
    ensures Where(old' + new', Not(p)) == old' && Where(old' + new', p) == new'
  {
    WhereOldNew(old', new', Not(p));
    WhereConcat(old', new', p);
    WhereNone(old', p);
    WhereAll(new', p);
  }

  // --- ORDER BY a column, rows of equal value in the order they were inserted -

  function InsertBy<T>(x: T, sorted: seq<T>, key: T -> int): seq<T>
  {
    if sorted == [] || key(sorted[|sorted| - 1]) <= key(x) then sorted + [x]
    else InsertBy(x, sorted[..|sorted| - 1], key) + [sorted[|sorted| - 1]]
  }

  function SortBy<T>(rows: seq<T>, key: T -> int): seq<T>
  {
    if rows == [] then [] else InsertBy(rows[|rows| - 1], SortBy(rows[..|rows| - 1], key), key)
  }

  function NotAfter<T>(key: T -> int): (T, T) -> bool { (x, y) => key(x) <= key(y) }

  ghost predicate Sorted<T>(rows: seq<T>, key: T -> int) { Pairwise(rows, NotAfter(key)) }

  lemma {:induction false} InsertByRows<T>(x: T, sorted: seq<T>, key: T -> int, f: T -> int)
    ensures forall y :: y in InsertBy(x, sorted, key) <==> y == x || y in sorted
    ensures Sum(InsertBy(x, sorted, key), f) == Sum(sorted, f) + f(x)
  {
    if sorted == [] || key(sorted[|sorted| - 1]) <= key(x) {
      SumSnoc(sorted, x, f);
    } else {
      var m := |sorted| - 1;
      InsertByRows(x, sorted[..m], key, f);
      SumSnoc(InsertBy(x, sorted[..m], key), sorted[m], f);
      assert sorted == sorted[..m] + [sorted[m]];
    }
  }

  lemma {:induction false} InsertByAll<T>(x: T, sorted: seq<T>, key: T -> int, p: T -> bool)
    requires p(x) && forall k :: 0 <= k < |sorted| ==> p(sorted[k])
    ensures forall k :: 0 <= k < |InsertBy(x, sorted, key)| ==> p(InsertBy(x, sorted, key)[k])
  {
    if sorted != [] && key(sorted[|sorted| - 1]) > key(x) {
      InsertByAll(x, sorted[..|sorted| - 1], key, p);
    }
  }

  lemma PairwiseSnoc<T>(rows: seq<T>, y: T, rel: (T, T) -> bool)
    requires Pairwise(rows, rel) && forall k :: 0 <= k < |rows| ==> rel(rows[k], y)
    ensures Pairwise(rows + [y], rel)
  {
  }

  lemma {:induction false} InsertByPairs<T>(x: T, sorted: seq<T>, key: T -> int, rel: (T, T) -> bool)
    requires Sorted(sorted, key) && Pairwise(sorted, rel)
    requires forall k :: 0 <= k < |sorted| ==> if key(sorted[k]) <= key(x) then rel(sorted[k], x) else rel(x, sorted[k])
    ensures Pairwise(InsertBy(x, sorted, key), rel)
  {
    if sorted == [] || key(sorted[|sorted| - 1]) <= key(x) {
      forall k | 0 <= k < |sorted| ensures rel(sorted[k], x) {
        assert k < |sorted| - 1 ==> NotAfter(key)(sorted[k], sorted[|sorted| - 1]);
      }
      PairwiseSnoc(sorted, x, rel);
    } else {
      var m := |sorted| - 1;
      InsertByPairs(x, sorted[..m], key, rel);
      InsertByAll(x, sorted[..m], key, y => rel(y, sorted[m]));
      PairwiseSnoc(InsertBy(x, sorted[..m], key), sorted[m], rel);
    }
  }

  lemma {:induction false} SortByAll<T>(rows: seq<T>, key: T -> int, p: T -> bool)
    requires forall k :: 0 <= k < |rows| ==> p(rows[k])
    ensures forall k :: 0 <= k < |SortBy(rows, key)| ==> p(SortBy(rows, key)[k])
  {
    if rows != [] {
      var m := |rows| - 1;
      SortByAll(rows[..m], key, p);
      InsertByAll(rows[m], SortBy(rows[..m], key), key, p);
    }
  }

  /** Sorting puts the rows in order. */
  lemma {:induction false} SortBySorted<T>(rows: seq<T>, key: T -> int)
    ensures Sorted(SortBy(rows, key), key)
  {
    if rows != [] {
      var m := |rows| - 1;
      SortBySorted(rows[..m], key);
      InsertByPairs(rows[m], SortBy(rows[..m], key), key, NotAfter(key));
    }
  }

  /** Sorting keeps the rows and what they add up to. */
  lemma {:induction false} SortByRows<T>(rows: seq<T>, key: T -> int, f: T -> int)
    ensures forall y :: y in SortBy(rows, key) <==> y in rows
    ensures Sum(SortBy(rows, key), f) == Sum(rows, f)
  {
    if rows != [] {
      var m := |rows| - 1;
      SortByRows(rows[..m], key, f);
      InsertByRows(rows[m], SortBy(rows[..m], key), key, f);
      assert rows == rows[..m] + [rows[m]];
    }
  }

  /** Sorting keeps how any two rows are related. */
  lemma {:induction false} SortByPairs<T>(rows: seq<T>, key: T -> int, rel: (T, T) -> bool)
    requires Pairwise(rows, rel) && forall x, y :: rel(x, y) ==> rel(y, x)
    ensures Pairwise(SortBy(rows, key), rel)
  {
    if rows != [] {
      var m := |rows| - 1;
      SortByPairs(rows[..m], key, rel);
      SortBySorted(rows[..m], key);
      SortByAll(rows[..m], key, y => rel(rows[m], y) && rel(y, rows[m]));
      InsertByPairs(rows[m], SortBy(rows[..m], key), key, rel);
    }
  }
}
