/**
Re-emitting the sheet grouped by role, then workspace, then section, each group
where its first row stood. Grouping is by dictionaries that remember the order
in which their keys came.
*/
module Regroup {
  import opened Tables
  import opened Sheet

  function Has<T>(key: T -> string, k: string): T -> bool { x => key(x) == k }

  /** The keys of the rows in the order they first appear. */
  function Firsts<T>(rows: seq<T>, key: T -> string): seq<string>
  {
    if rows == [] then []
    else
      var before := Firsts(rows[..|rows| - 1], key);
      var k := key(rows[|rows| - 1]);
      if k in before then before else before + [k]
  }

  /** The groups of the first `n` keys, one after another, each put in order by `inner`. */
  function Joined<T>(rows: seq<T>, key: T -> string, inner: seq<T> -> seq<T>, keys: seq<string>): seq<T>
  {
    if keys == [] then []
    else Joined(rows, key, inner, keys[..|keys| - 1]) + inner(Where(rows, Has(key, keys[|keys| - 1])))
  }

  function Group<T>(rows: seq<T>, key: T -> string, inner: seq<T> -> seq<T>): seq<T>
  {
    Joined(rows, key, inner, Firsts(rows, key))
  }

  const ByRole: Row -> string := (r: Row) => r.role
  const ByWorkspace: Row -> string := (r: Row) => r.workspace
  const BySection: Row -> string := (r: Row) => r.section

  function AsTheyStand(rows: seq<Row>): seq<Row> { rows }
  function Sections(rows: seq<Row>): seq<Row> { Group(rows, BySection, AsTheyStand) }
  function Workspaces(rows: seq<Row>): seq<Row> { Group(rows, ByWorkspace, Sections) }
  function Regrouped(rows: seq<Row>): seq<Row> { Group(rows, ByRole, Workspaces) }

  // --- the dictionaries -----------------------------------------------------

  /** An ordered dictionary from a key to the rows filed under it. */
  datatype Files<T> = Files(order: seq<string>, rows: map<string, seq<T>>)

  method FileBy<T>(rows: seq<T>, key: T -> string) returns (f: Files<T>)
    ensures f.order == Firsts(rows, key) && f.rows.Keys == set k | k in f.order
    ensures forall k :: k in f.order ==> f.rows[k] == Where(rows, Has(key, k))
  {
    f := Files([], map[]);
    for n := 0 to |rows|
      invariant f.order == Firsts(rows[..n], key) && f.rows.Keys == set k | k in f.order
      invariant forall k :: k in f.order ==> f.rows[k] == Where(rows[..n], Has(key, k))
    {
      var k := key(rows[n]);
      assert rows[..n + 1][..n] == rows[..n];
      if k !in f.rows {
        NoneYet(rows[..n], key, k);
        f := Files(f.order + [k], f.rows[k := []]);
      }
      f := f.(rows := f.rows[k := f.rows[k] + [rows[n]]]);
    }
    assert rows[..|rows|] == rows;
  }

  lemma {:induction false} NoneYet<T>(rows: seq<T>, key: T -> string, k: string)
    requires k !in Firsts(rows, key)
    ensures Where(rows, Has(key, k)) == []
  {
    if rows != [] {
      NoneYet(rows[..|rows| - 1], key, k);
    }
  }

  method EmitSections(rows: seq<Row>) returns (out: seq<Row>)
    ensures out == Sections(rows)
  {
    var f := FileBy(rows, BySection);
    out := [];
    for n := 0 to |f.order|
      invariant out == Joined(rows, BySection, AsTheyStand, f.order[..n])
    {
      assert f.order[..n + 1][..n] == f.order[..n];
      assert AsTheyStand(Where(rows, Has(BySection, f.order[n]))) == f.rows[f.order[n]];
      out := out + f.rows[f.order[n]];
    }
    assert f.order[..|f.order|] == f.order;
  }

  method EmitWorkspaces(rows: seq<Row>) returns (out: seq<Row>)
    ensures out == Workspaces(rows)
  {
    var f := FileBy(rows, ByWorkspace);
    out := [];
    for n := 0 to |f.order|
      invariant out == Joined(rows, ByWorkspace, Sections, f.order[..n])
    {
      assert f.order[..n + 1][..n] == f.order[..n];
      var more := EmitSections(f.rows[f.order[n]]);
      out := out + more;
    }
    assert f.order[..|f.order|] == f.order;
  }

  method Emit(rows: seq<Row>) returns (out: seq<Row>)
    ensures out == Regrouped(rows)
  {
    var f := FileBy(rows, ByRole);
    out := [];
    for n := 0 to |f.order|
      invariant out == Joined(rows, ByRole, Workspaces, f.order[..n])
    {
      assert f.order[..n + 1][..n] == f.order[..n];
      var more := EmitWorkspaces(f.rows[f.order[n]]);
      out := out + more;
    }
    assert f.order[..|f.order|] == f.order;
  }

  // --- one level of grouping ------------------------------------------------

  lemma {:induction false} FirstsAre<T>(rows: seq<T>, key: T -> string)
    ensures forall k :: 0 <= k < |rows| ==> key(rows[k]) in Firsts(rows, key)
    ensures forall j, k :: 0 <= j < k < |Firsts(rows, key)| ==> Firsts(rows, key)[j] != Firsts(rows, key)[k]
    ensures forall k :: k in Firsts(rows, key) ==> Where(rows, Has(key, k)) != []
  {
    if rows != [] {
      FirstsAre(rows[..|rows| - 1], key);
    }
  }

  /** The step keeps the rows it is given, and does nothing the second time. */
  ghost predicate Settles<T(!new)>(inner: seq<T> -> seq<T>)
  {
    && (forall g: seq<T> :: multiset(inner(g)) == multiset(g))
    && (forall g: seq<T> :: inner(inner(g)) == inner(g))
  }

  /** Rows with the property come out of the step as they went in. */
  ghost predicate KeepsOrder<T(!new)>(inner: seq<T> -> seq<T>, p: T -> bool)
  {
    forall g: seq<T> :: Where(inner(g), p) == Where(g, p)
  }

  /** Rows alike by `place` come out of the step together. */
  ghost predicate Gathers<T(!new), P(!new)>(inner: seq<T> -> seq<T>, place: T -> P)
  {
    forall g: seq<T> :: Together(inner(g), place)
  }

  ghost predicate Together<T, P(!new)>(rows: seq<T>, place: T -> P)
  {
    forall i, j, k :: 0 <= i < j < k < |rows| && place(rows[i]) == place(rows[k]) ==> place(rows[j]) == place(rows[i])
  }

  function Grouping<T>(key: T -> string, inner: seq<T> -> seq<T>): seq<T> -> seq<T> { g => Group(g, key, inner) }

  // --- the rows of one group ------------------------------------------------

  lemma {:induction false} WhereHas<T>(rows: seq<T>, key: T -> string, k: string)
    ensures forall i :: 0 <= i < |Where(rows, Has(key, k))| ==> key(Where(rows, Has(key, k))[i]) == k
  {
    if rows != [] {
      WhereHas(rows[..|rows| - 1], key, k);
    }
  }

  lemma SameKey<T>(a: seq<T>, b: seq<T>, key: T -> string, k: string)
    requires multiset(a) == multiset(b) && forall i :: 0 <= i < |a| ==> key(a[i]) == k
    ensures |b| == |a| && forall i :: 0 <= i < |b| ==> key(b[i]) == k
  {
    assert |multiset(a)| == |a| && |multiset(b)| == |b|;
    forall i | 0 <= i < |b| ensures key(b[i]) == k {
      assert b[i] in multiset(b);
      assert b[i] in multiset(a);
      var j :| 0 <= j < |a| && a[j] == b[i];
    }
  }

  lemma GroupHas<T(!new)>(rows: seq<T>, key: T -> string, inner: seq<T> -> seq<T>, k: string)
    requires Settles(inner)
    ensures forall i :: 0 <= i < |inner(Where(rows, Has(key, k)))| ==> key(inner(Where(rows, Has(key, k)))[i]) == k
    ensures |inner(Where(rows, Has(key, k)))| == |Where(rows, Has(key, k))|
  {
    WhereHas(rows, key, k);
    SameKey(Where(rows, Has(key, k)), inner(Where(rows, Has(key, k))), key, k);
  }

  lemma {:induction false} WhereBoth<T>(rows: seq<T>, p: T -> bool, q: T -> bool)
    requires forall k :: 0 <= k < |rows| ==> p(rows[k]) ==> q(rows[k])
    ensures Where(Where(rows, q), p) == Where(rows, p)
  {
    if rows != [] {
      var m := |rows| - 1;
      WhereBoth(rows[..m], p, q);
      if q(rows[m]) {
        assert (Where(rows[..m], q) + [rows[m]])[..|Where(rows[..m], q)|] == Where(rows[..m], q);
      }
    }
  }

  lemma {:induction false} WhereNothing<T>(rows: seq<T>, p: T -> bool)
    requires forall k :: 0 <= k < |rows| ==> !p(rows[k])
    ensures Where(rows, p) == []
  {
    if rows != [] {
      WhereNothing(rows[..|rows| - 1], p);
    }
  }

  lemma {:induction false} WhereEverything<T>(rows: seq<T>, p: T -> bool)
    requires forall k :: 0 <= k < |rows| ==> p(rows[k])
    ensures Where(rows, p) == rows
  {
    if rows != [] {
      WhereEverything(rows[..|rows| - 1], p);
    }
  }

  // --- stable ---------------------------------------------------------------

  lemma {:induction false} JoinedKeeps<T(!new)>(rows: seq<T>, key: T -> string, inner: seq<T> -> seq<T>,
                                                keys: seq<string>, p: T -> bool, k: string)
    requires (forall x :: p(x) ==> key(x) == k) && KeepsOrder(inner, p)
    requires forall i, j :: 0 <= i < j < |keys| ==> keys[i] != keys[j]
    ensures Where(Joined(rows, key, inner, keys), p) == if k in keys then Where(rows, p) else []
  {
    if keys != [] {
      var m := |keys| - 1;
      JoinedKeeps(rows, key, inner, keys[..m], p, k);
      PartKeeps(rows, key, inner, keys[m], p, k);
      JoinedWhere(Joined(rows, key, inner, keys[..m]), inner(Where(rows, Has(key, keys[m]))), p, Where(rows, p), keys,
                  k);
    }
  }

  /** One more group joined: rows with the property are in the group of their own key and nowhere else. */
  lemma JoinedWhere<T>(before: seq<T>, part: seq<T>, p: T -> bool, all: seq<T>, keys: seq<string>, k: string)
    requires keys != [] && forall i, j :: 0 <= i < j < |keys| ==> keys[i] != keys[j]
    requires Where(before, p) == if k in keys[..|keys| - 1] then all else []
    requires Where(part, p) == if keys[|keys| - 1] == k then all else []
    ensures Where(before + part, p) == if k in keys then all else []
  {
    WhereConcat(before, part, p);
    var m := |keys| - 1;
    assert k in keys <==> k in keys[..m] || k == keys[m];
  }

  lemma PartKeeps<T(!new)>(rows: seq<T>, key: T -> string, inner: seq<T> -> seq<T>, j: string, p: T -> bool, k: string)
    requires (forall x :: p(x) ==> key(x) == k) && KeepsOrder(inner, p)
    ensures Where(inner(Where(rows, Has(key, j))), p) == if j == k then Where(rows, p) else []
  {
    var group := Where(rows, Has(key, j));
    assert Where(inner(group), p) == Where(group, p);
    if j == k {
      WhereBoth(rows, p, Has(key, k));
    } else {
      WhereHas(rows, key, j);
      WhereNothing(group, p);
    }
  }

  lemma GroupKeepsOrder<T(!new)>(key: T -> string, inner: seq<T> -> seq<T>, p: T -> bool, k: string)
    requires (forall x :: p(x) ==> key(x) == k) && KeepsOrder(inner, p)
    ensures KeepsOrder(Grouping(key, inner), p)
  {
    forall g: seq<T> ensures Where(Grouping(key, inner)(g), p) == Where(g, p) {
      FirstsAre(g, key);
      JoinedKeeps(g, key, inner, Firsts(g, key), p, k);
      if k !in Firsts(g, key) {
        WhereNothing(g, p);
      }
    }
  }

  // --- together -------------------------------------------------------------

  lemma TogetherConcat<T, P(!new)>(a: seq<T>, b: seq<T>, place: T -> P)
    requires Together(a, place) && Together(b, place)
    requires forall i, j :: 0 <= i < |a| && 0 <= j < |b| ==> place(a[i]) != place(b[j])
    ensures Together(a + b, place)
  {
  }

  lemma TogetherWithin<T, P(!new), Q(!new)>(rows: seq<T>, key: T -> string, k: string, part: T -> Q, place: T -> P)
    requires Together(rows, part) && forall i :: 0 <= i < |rows| ==> key(rows[i]) == k
    requires forall x, y :: place(x) == place(y) <==> key(x) == key(y) && part(x) == part(y)
    ensures Together(rows, place)
  {
    forall i, j, n | 0 <= i < j < n < |rows| && place(rows[i]) == place(rows[n])
      ensures place(rows[j]) == place(rows[i])
    {
      assert part(rows[i]) == part(rows[n]);
      assert part(rows[j]) == part(rows[i]);
    }
  }

  lemma {:induction false} JoinedTogether<T(!new), P(!new),
    Q(!new)>(rows: seq<T>, key: T -> string, inner: seq<T> -> seq<T>, keys: seq<string>, part: T -> Q, place: T -> P)
    requires Settles(inner) && Gathers(inner, part)
    requires forall x, y :: place(x) == place(y) <==> key(x) == key(y) && part(x) == part(y)
    requires forall i, j :: 0 <= i < j < |keys| ==> keys[i] != keys[j]
    ensures Together(Joined(rows, key, inner, keys), place)
    ensures forall i :: 0 <= i < |Joined(rows, key, inner, keys)| ==> key(Joined(rows, key, inner, keys)[i]) in keys
  {
    if keys != [] {
      var m := |keys| - 1;
      JoinedTogether(rows, key, inner, keys[..m], part, place);
      var before, group := Joined(rows, key, inner, keys[..m]), inner(Where(rows, Has(key, keys[m])));
      GroupHas(rows, key, inner, keys[m]);
      TogetherWithin(group, key, keys[m], part, place);
      forall i, j | 0 <= i < |before| && 0 <= j < |group| ensures place(before[i]) != place(group[j]) {
        assert key(before[i]) in keys[..m];
      }
      TogetherConcat(before, group, place);
    }
  }

  lemma GroupGathers<T(!new), P(!new), Q(!new)>(key: T -> string, inner: seq<T> -> seq<T>, part: T -> Q, place: T -> P)
    requires Settles(inner) && Gathers(inner, part)
    requires forall x, y :: place(x) == place(y) <==> key(x) == key(y) && part(x) == part(y)
    ensures Gathers(Grouping(key, inner), place)
  {
    forall g: seq<T> ensures Together(Grouping(key, inner)(g), place) {
      FirstsAre(g, key);
      JoinedTogether(g, key, inner, Firsts(g, key), part, place);
    }
  }

  // --- a permutation, and the second time nothing ---------------------------

  function KeyIn<T>(key: T -> string, keys: seq<string>): T -> bool { x => key(x) in keys }

  lemma {:induction false} WhereSplit<T>(rows: seq<T>, key: T -> string, keys: seq<string>, k: string)
    requires k !in keys
    ensures multiset(Where(rows, KeyIn(key, keys + [k])))
      == multiset(Where(rows, KeyIn(key, keys))) + multiset(Where(rows, Has(key, k)))
  {
    if rows != [] {
      WhereSplit(rows[..|rows| - 1], key, keys, k);
    }
  }

  lemma {:induction false} JoinedRows<T(!new)>(rows: seq<T>, key: T -> string, inner: seq<T> -> seq<T>,
                                               keys: seq<string>)
    requires Settles(inner) && forall i, j :: 0 <= i < j < |keys| ==> keys[i] != keys[j]
    ensures multiset(Joined(rows, key, inner, keys)) == multiset(Where(rows, KeyIn(key, keys)))
  {
    if keys == [] {
      WhereNothing(rows, KeyIn(key, keys));
    } else {
      var m := |keys| - 1;
      JoinedRows(rows, key, inner, keys[..m]);
      WhereSplit(rows, key, keys[..m], keys[m]);
      assert keys == keys[..m] + [keys[m]];
    }
  }

  lemma PartOf<T(!new)>(rows: seq<T>, key: T -> string, inner: seq<T> -> seq<T>, j: string, k: string)
    requires Settles(inner)
    ensures Where(inner(Where(rows, Has(key, j))), Has(key, k)) == if j == k then inner(Where(rows, Has(key, j)))
    else []
  {
    var group := inner(Where(rows, Has(key, j)));
    GroupHas(rows, key, inner, j);
    if j == k {
      WhereEverything(group, Has(key, k));
    } else {
      WhereNothing(group, Has(key, k));
    }
  }

  /** The group of a key in what was emitted is that key's group put in order. */
  lemma {:induction false} GroupOf<T(!new)>(rows: seq<T>, key: T -> string, inner: seq<T> -> seq<T>, keys: seq<string>,
                                            k: string)
    requires Settles(inner) && forall i, j :: 0 <= i < j < |keys| ==> keys[i] != keys[j]
    ensures Where(Joined(rows, key, inner, keys), Has(key, k)) == if k in keys then inner(Where(rows, Has(key, k)))
    else []
  {
    if keys != [] {
      var m := |keys| - 1;
      GroupOf(rows, key, inner, keys[..m], k);
      PartOf(rows, key, inner, keys[m], k);
      JoinedWhere(Joined(rows, key, inner, keys[..m]), inner(Where(rows, Has(key, keys[m]))), Has(key, k),
                  inner(Where(rows, Has(key, k))), keys, k);
    }
  }

  lemma {:induction false} FirstsConcat<T>(a: seq<T>, b: seq<T>, key: T -> string, k: string)
    requires b != [] && (forall i :: 0 <= i < |b| ==> key(b[i]) == k) && k !in Firsts(a, key)
    ensures Firsts(a + b, key) == Firsts(a, key) + [k]
  {
    var m := |b| - 1;
    assert (a + b)[..|a + b| - 1] == a + b[..m];
    if m == 0 {
      assert a + b[..0] == a;
    } else {
      FirstsConcat(a, b[..m], key, k);
    }
  }

  lemma {:induction false} FirstsOfJoined<T(!new)>(rows: seq<T>, key: T -> string, inner: seq<T> -> seq<T>,
                                                   keys: seq<string>)
    requires Settles(inner) && forall i, j :: 0 <= i < j < |keys| ==> keys[i] != keys[j]
    requires forall i :: 0 <= i < |keys| ==> Where(rows, Has(key, keys[i])) != []
    ensures Firsts(Joined(rows, key, inner, keys), key) == keys
  {
    if keys != [] {
      var m := |keys| - 1;
      FirstsOfJoined(rows, key, inner, keys[..m]);
      GroupHas(rows, key, inner, keys[m]);
      FirstsConcat(Joined(rows, key, inner, keys[..m]), inner(Where(rows, Has(key, keys[m]))), key, keys[m]);
    }
  }

  lemma {:induction false} JoinedAgain<T(!new)>(rows: seq<T>, out: seq<T>, key: T -> string, inner: seq<T> -> seq<T>,
                                                keys: seq<string>)
    requires forall i :: 0 <= i < |keys| ==>
      inner(Where(out, Has(key, keys[i]))) == inner(Where(rows, Has(key, keys[i])))
    ensures Joined(out, key, inner, keys) == Joined(rows, key, inner, keys)
  {
    if keys != [] {
      JoinedAgain(rows, out, key, inner, keys[..|keys| - 1]);
    }
  }

  lemma GroupTwice<T(!new)>(g: seq<T>, key: T -> string, inner: seq<T> -> seq<T>)
    requires Settles(inner)
    ensures Group(Group(g, key, inner), key, inner) == Group(g, key, inner)
  {
    var keys := Firsts(g, key);
    var out := Group(g, key, inner);
    FirstsAre(g, key);
    FirstsOfJoined(g, key, inner, keys);
    forall i | 0 <= i < |keys| ensures inner(Where(out, Has(key, keys[i]))) == inner(Where(g, Has(key, keys[i]))) {
      GroupOf(g, key, inner, keys, keys[i]);
    }
    JoinedAgain(g, out, key, inner, keys);
  }

  lemma GroupSettles<T(!new)>(key: T -> string, inner: seq<T> -> seq<T>)
    requires Settles(inner)
    ensures Settles(Grouping(key, inner))
  {
    forall g: seq<T> ensures multiset(Grouping(key, inner)(g)) == multiset(g) {
      FirstsAre(g, key);
      JoinedRows(g, key, inner, Firsts(g, key));
      WhereEverything(g, KeyIn(key, Firsts(g, key)));
    }
    forall g: seq<T> ensures Grouping(key, inner)(Grouping(key, inner)(g)) == Grouping(key, inner)(g) {
      GroupTwice(g, key, inner);
    }
  }

  // --- groups in the order they first appear --------------------------------

  /** There is a row with `p` before any with `q`. */
  ghost predicate Precedes<T>(rows: seq<T>, p: T -> bool, q: T -> bool)
  {
    exists x :: 0 <= x < |rows| && p(rows[x]) && forall y :: 0 <= y <= x ==> !q(rows[y])
  }

  lemma PrecedesFurther<T>(rows: seq<T>, more: T, p: T -> bool, q: T -> bool)
    requires Precedes(rows, p, q)
    ensures Precedes(rows + [more], p, q)
  {
    var x :| 0 <= x < |rows| && p(rows[x]) && forall y :: 0 <= y <= x ==> !q(rows[y]);
    assert p((rows + [more])[x]);
  }

  lemma {:induction false} FirstsInOrder<T>(rows: seq<T>, key: T -> string, i: nat, j: nat)
    requires i < j < |Firsts(rows, key)|
    ensures Precedes(rows, Has(key, Firsts(rows, key)[i]), Has(key, Firsts(rows, key)[j]))
  {
    var m := |rows| - 1;
    var before := Firsts(rows[..m], key);
    assert rows == rows[..m] + [rows[m]];
    FirstsAre(rows, key);
    FirstsAre(rows[..m], key);
    if j < |before| {
      FirstsInOrder(rows[..m], key, i, j);
      PrecedesFurther(rows[..m], rows[m], Has(key, before[i]), Has(key, before[j]));
    } else {
      SomeRowHas(rows[..m], key, before[i]);
      var x :| 0 <= x < m && key(rows[x]) == before[i];
      assert Has(key, before[i])(rows[x]) && forall y :: 0 <= y <= x ==> key(rows[..m][y]) in before;
    }
  }

  lemma {:induction false} SomeRowHas<T>(rows: seq<T>, key: T -> string, k: string)
    requires k in Firsts(rows, key)
    ensures exists x :: 0 <= x < |rows| && key(rows[x]) == k
  {
    var m := |rows| - 1;
    if key(rows[m]) != k {
      SomeRowHas(rows[..m], key, k);
    }
  }

  lemma {:induction false} JoinedInOrder<T(!new)>(rows: seq<T>, key: T -> string, inner: seq<T> -> seq<T>,
                                                  keys: seq<string>, i: nat, j: nat)
    returns (x: nat, y: nat)
    requires Settles(inner) && i < j < |Joined(rows, key, inner, keys)|
    ensures x <= y < |keys| && keys[x] == key(Joined(rows, key, inner, keys)[i])
    ensures keys[y] == key(Joined(rows, key, inner, keys)[j])
  {
    var m := |keys| - 1;
    var before := Joined(rows, key, inner, keys[..m]);
    GroupHas(rows, key, inner, keys[m]);
    if j < |before| {
      x, y := JoinedInOrder(rows, key, inner, keys[..m], i, j);
    } else if i < |before| {
      x := KeyOfJoined(rows, key, inner, keys[..m], i);
      y := m;
    } else {
      x, y := m, m;
    }
  }

  lemma {:induction false} KeyOfJoined<T(!new)>(rows: seq<T>, key: T -> string, inner: seq<T> -> seq<T>,
                                                keys: seq<string>, i: nat) returns (x: nat)
    requires Settles(inner) && i < |Joined(rows, key, inner, keys)|
    ensures x < |keys| && keys[x] == key(Joined(rows, key, inner, keys)[i])
  {
    var m := |keys| - 1;
    GroupHas(rows, key, inner, keys[m]);
    if i < |Joined(rows, key, inner, keys[..m])| {
      x := KeyOfJoined(rows, key, inner, keys[..m], i);
    } else {
      x := m;
    }
  }

  lemma GroupInOrder<T(!new)>(rows: seq<T>, key: T -> string, inner: seq<T> -> seq<T>, i: nat, j: nat)
    requires Settles(inner) && i < j < |Group(rows, key, inner)|
    ensures
      var a, b := key(Group(rows, key, inner)[i]), key(Group(rows, key, inner)[j]);
      a != b ==> Precedes(rows, Has(key, a), Has(key, b))
  {
    var x, y := JoinedInOrder(rows, key, inner, Firsts(rows, key), i, j);
    if x < y {
      FirstsInOrder(rows, key, x, y);
    }
  }

  /** Two rows with the property keep their order among the rows that have it. */
  lemma {:induction false} WherePlaces<T>(rows: seq<T>, p: T -> bool, i: nat, j: nat) returns (x: nat, y: nat)
    requires i < j < |rows| && p(rows[i]) && p(rows[j])
    ensures x < y < |Where(rows, p)| && Where(rows, p)[x] == rows[i] && Where(rows, p)[y] == rows[j]
  {
    var m := |rows| - 1;
    if j < m {
      x, y := WherePlaces(rows[..m], p, i, j);
    } else {
      x := WherePlace(rows[..m], p, i);
      y := |Where(rows[..m], p)|;
    }
  }

  lemma {:induction false} WherePlace<T>(rows: seq<T>, p: T -> bool, i: nat) returns (x: nat)
    requires i < |rows| && p(rows[i])
    ensures x < |Where(rows, p)| && Where(rows, p)[x] == rows[i]
  {
    var m := |rows| - 1;
    if i < m {
      x := WherePlace(rows[..m], p, i);
    } else {
      x := |Where(rows[..m], p)|;
    }
  }

  /** What precedes among some of the rows precedes among all of them. */
  lemma {:induction false} PrecedesAmong<T(!new)>(rows: seq<T>, some: T -> bool, p: T -> bool, q: T -> bool,
                                                  p': T -> bool, q': T -> bool)
    requires Precedes(Where(rows, some), p, q)
    requires (forall x :: some(x) && p(x) ==> p'(x)) && (forall x :: q'(x) ==> some(x) && q(x))
    ensures Precedes(rows, p', q')
  {
    var m := |rows| - 1;
    var rest := Where(rows[..m], some);
    assert rows == rows[..m] + [rows[m]];
    var x :| 0 <= x < |Where(rows, some)| && p(Where(rows, some)[x])
             && forall y :: 0 <= y <= x ==> !q(Where(rows, some)[y]);
    if x < |rest| {
      assert forall y :: 0 <= y <= x ==> Where(rows, some)[y] == rest[y];
      PrecedesAmong(rows[..m], some, p, q, p', q');
      PrecedesFurther(rows[..m], rows[m], p', q');
    } else {
      forall y | 0 <= y <= m ensures !q'(rows[y]) {
        if some(rows[y]) {
          var z := WherePlace(rows, some, y);
        }
      }
      assert some(rows[m]) && p(rows[m]);
    }
  }

  /** Two rows of one group, looked up in that group put in order. */
  lemma InOneGroup<T(!new)>(rows: seq<T>, key: T -> string, inner: seq<T> -> seq<T>, keys: seq<string>, i: nat, j: nat)
    returns (x: nat, y: nat)
    requires Settles(inner) && i < j < |Joined(rows, key, inner, keys)|
    requires forall m, n :: 0 <= m < n < |keys| ==> keys[m] != keys[n]
    requires key(Joined(rows, key, inner, keys)[i]) == key(Joined(rows, key, inner, keys)[j])
    ensures
      var out := Joined(rows, key, inner, keys);
      var group := inner(Where(rows, Has(key, key(out[i]))));
      x < y < |group| && group[x] == out[i] && group[y] == out[j]
  {
    var out := Joined(rows, key, inner, keys);
    var k := key(out[i]);
    var n := KeyOfJoined(rows, key, inner, keys, i);
    GroupOf(rows, key, inner, keys, k);
    x, y := WherePlaces(out, Has(key, k), i, j);
  }

  // --- the three levels -----------------------------------------------------

  datatype Pair = Pair(workspace: string, section: string)
  datatype Triple = Triple(role: string, workspace: string, section: string)

  const Anywhere: Row -> bool := (r: Row) => true
  const InSection: Row -> string := (r: Row) => r.section
  const InPair: Row -> Pair := (r: Row) => Pair(r.workspace, r.section)
  const InTriple: Row -> Triple := (r: Row) => Triple(r.role, r.workspace, r.section)

  lemma SameStep<T(!new)>(f: seq<T> -> seq<T>, h: seq<T> -> seq<T>)
    requires forall g: seq<T> :: f(g) == h(g)
    ensures Settles(h) ==> Settles(f)
  {
    if Settles(h) {
      forall g: seq<T> ensures multiset(f(g)) == multiset(g) && f(f(g)) == f(g) {
        assert h(h(g)) == h(g);
      }
    }
  }

  lemma LevelsSettle()
    ensures Settles(AsTheyStand) && Settles(Sections) && Settles(Workspaces) && Settles(Regrouped)
  {
    GroupSettles(BySection, AsTheyStand);
    SameStep(Sections, Grouping(BySection, AsTheyStand));
    GroupSettles(ByWorkspace, Sections);
    SameStep(Workspaces, Grouping(ByWorkspace, Sections));
    GroupSettles(ByRole, Workspaces);
    SameStep(Regrouped, Grouping(ByRole, Workspaces));
  }

  /** Regrouping keeps the rows, every one as often as it stood there, and regrouping twice is regrouping once. */
  lemma RegroupingSettles(rows: seq<Row>)
    ensures multiset(Regrouped(rows)) == multiset(rows)
    ensures Regrouped(Regrouped(rows)) == Regrouped(rows)
  {
    LevelsSettle();
  }

  /** Rows of one role, workspace and section stand together. */
  lemma RegroupingGathers(rows: seq<Row>)
    ensures Together(Regrouped(rows), InTriple)
  {
    LevelsSettle();
    assert Gathers(AsTheyStand, Anywhere);
    GroupGathers(BySection, AsTheyStand, Anywhere, InSection);
    assert forall g :: Sections(g) == Grouping(BySection, AsTheyStand)(g);
    assert Gathers(Sections, InSection);
    GroupGathers(ByWorkspace, Sections, InSection, InPair);
    assert forall g :: Workspaces(g) == Grouping(ByWorkspace, Sections)(g);
    assert Gathers(Workspaces, InPair);
    GroupGathers(ByRole, Workspaces, InPair, InTriple);
    assert Regrouped(rows) == Grouping(ByRole, Workspaces)(rows);
  }

  function Placed(t: Triple): Row -> bool { (r: Row) => InTriple(r) == t }

  /** Within a role, workspace and section the rows keep their order. */
  lemma RegroupingKeepsOrder(rows: seq<Row>, t: Triple)
    ensures Where(Regrouped(rows), Placed(t)) == Where(rows, Placed(t))
  {
    var p := Placed(t);
    assert KeepsOrder(AsTheyStand, p);
    GroupKeepsOrder(BySection, AsTheyStand, p, t.section);
    assert forall g :: Sections(g) == Grouping(BySection, AsTheyStand)(g);
    assert KeepsOrder(Sections, p);
    GroupKeepsOrder(ByWorkspace, Sections, p, t.workspace);
    assert forall g :: Workspaces(g) == Grouping(ByWorkspace, Sections)(g);
    assert KeepsOrder(Workspaces, p);
    GroupKeepsOrder(ByRole, Workspaces, p, t.role);
    assert Regrouped(rows) == Grouping(ByRole, Workspaces)(rows);
  }

  function OfRole(r: Row): Row -> bool { (x: Row) => x.role == r.role }
  function OfWorkspace(r: Row): Row -> bool { (x: Row) => x.role == r.role && x.workspace == r.workspace }
  function OfSection(r: Row): Row -> bool
  {
    (x: Row) => x.role == r.role && x.workspace == r.workspace && x.section == r.section
  }

  /** Roles stand in the order they first appear in the sheet, in each role its workspaces do, and in each workspace
      its sections. */
  lemma RegroupingInOrder(rows: seq<Row>, i: nat, j: nat)
    requires i < j < |Regrouped(rows)|
    ensures
      var a, b := Regrouped(rows)[i], Regrouped(rows)[j];
      if a.role != b.role then Precedes(rows, OfRole(a), OfRole(b))
      else if a.workspace != b.workspace then Precedes(rows, OfWorkspace(a), OfWorkspace(b))
      else a.section != b.section ==> Precedes(rows, OfSection(a), OfSection(b))
  {
    LevelsSettle();
    var a, b := Regrouped(rows)[i], Regrouped(rows)[j];
    if a.role != b.role {
      GroupInOrder(rows, ByRole, Workspaces, i, j);
      SamePrecedes(rows, Has(ByRole, a.role), Has(ByRole, b.role), OfRole(a), OfRole(b));
    } else {
      FirstsAre(rows, ByRole);
      var x, y := InOneGroup(rows, ByRole, Workspaces, Firsts(rows, ByRole), i, j);
      InOneRole(rows, a, b, x, y);
    }
  }

  lemma InOneRole(rows: seq<Row>, a: Row, b: Row, x: nat, y: nat)
    requires x < y < |Workspaces(Where(rows, Has(ByRole, a.role)))| && a.role == b.role
    requires Workspaces(Where(rows, Has(ByRole, a.role)))[x] == a
    requires Workspaces(Where(rows, Has(ByRole, a.role)))[y] == b
    ensures a.workspace != b.workspace ==> Precedes(rows, OfWorkspace(a), OfWorkspace(b))
    ensures a.workspace == b.workspace && a.section != b.section ==> Precedes(rows, OfSection(a), OfSection(b))
  {
    LevelsSettle();
    var some := Has(ByRole, a.role);
    if a.workspace != b.workspace {
      GroupInOrder(Where(rows, some), ByWorkspace, Sections, x, y);
      PrecedesAmong(rows, some, Has(ByWorkspace, a.workspace), Has(ByWorkspace, b.workspace), OfWorkspace(a),
                    OfWorkspace(b));
    } else if a.section != b.section {
      WhereIn(rows, some);
      SectionsInOrder(Where(rows, some), x, y);
      PrecedesAmong(rows, some, OfSection(a), OfSection(b), OfSection(a), OfSection(b));
    }
  }

  lemma SamePrecedes<T(!new)>(rows: seq<T>, p: T -> bool, q: T -> bool, p': T -> bool, q': T -> bool)
    requires Precedes(rows, p, q) && (forall x :: p(x) ==> p'(x)) && (forall x :: q'(x) ==> q(x))
    ensures Precedes(rows, p', q')
  {
  }

  lemma SectionsInOrder(rows: seq<Row>, i: nat, j: nat)
    requires i < j < |Workspaces(rows)| && Workspaces(rows)[i].workspace == Workspaces(rows)[j].workspace
    requires forall r :: r in rows ==> r.role == Workspaces(rows)[i].role == Workspaces(rows)[j].role
    ensures
      var a, b := Workspaces(rows)[i], Workspaces(rows)[j];
      a.section != b.section ==> Precedes(rows, OfSection(a), OfSection(b))
  {
    LevelsSettle();
    var a, b := Workspaces(rows)[i], Workspaces(rows)[j];
    FirstsAre(rows, ByWorkspace);
    var x, y := InOneGroup(rows, ByWorkspace, Sections, Firsts(rows, ByWorkspace), i, j);
    if a.section != b.section {
      var some := Has(ByWorkspace, a.workspace);
      GroupInOrder(Where(rows, some), BySection, AsTheyStand, x, y);
      InThisRole(rows, some, Has(BySection, a.section), Has(BySection, b.section), a, b);
    }
  }

  lemma InThisRole(rows: seq<Row>, some: Row -> bool, p: Row -> bool, q: Row -> bool, a: Row, b: Row)
    requires Precedes(Where(rows, some), p, q) && forall r :: r in rows ==> r.role == a.role
    requires forall r: Row :: some(r) && p(r) ==> r.workspace == a.workspace && r.section == a.section
    requires forall r: Row :: OfSection(b)(r) ==> some(r) && q(r)
    ensures Precedes(rows, OfSection(a), OfSection(b))
  {
    var p' := (r: Row) => r.workspace == a.workspace && r.section == a.section;
    PrecedesAmong(rows, some, p, q, p', OfSection(b));
    var x :| 0 <= x < |rows| && p'(rows[x]) && forall y :: 0 <= y <= x ==> !OfSection(b)(rows[y]);
    assert rows[x] in rows && OfSection(a)(rows[x]);
  }
}
