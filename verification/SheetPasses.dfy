/**
Three passes over the sheet: consolidation moves groups of rows onto others and
drops those whose key is already there; splitting gives every feature of a
workspace a category; deduplication removes redundant rows and sends their keys
to a survivor's.
*/
module SheetPasses {
  import opened Tables
  import opened Sheet

  datatype Group = Group(role: string, workspace: string, section: string)

  function GroupOf(r: Row): Group { Group(r.role, r.workspace, r.section) }

  // --- consolidation --------------------------------------------------------

  /** Where a row's group is folded, if it is. */
  function Moved(plan: map<Group, Group>): Row -> Row
  {
    (r: Row) =>
      if GroupOf(r) in plan then r.(workspace := plan[GroupOf(r)].workspace, section := plan[GroupOf(r)].section) else r
  }

  /** The rows whose group is folded. */
  function Folded(rows: seq<Row>, plan: map<Group, Group>): set<nat>
  {
    set k | 0 <= k < |rows| && GroupOf(rows[k]) in plan
  }

  /** The last row taken up that had the key: later rows overwrite earlier ones. */
  ghost predicate LastTaken(rows: seq<Row>, taken: set<nat>, key: Key, k: int)
  {
    && 0 <= k < |rows| && k in taken && KeyOf(rows[k]) == key
    && forall j: nat :: k < j < |rows| && j in taken ==> KeyOf(rows[j]) != key
  }

  /** `moved` holds the key of every row taken up, sent to the key of what the last such row became. */
  ghost predicate Sent(rows: seq<Row>, taken: set<nat>, out: seq<Row>, moved: map<Key, Key>)
  {
    && |out| == |rows|
    && (forall k: nat :: k < |rows| && k in taken ==> KeyOf(rows[k]) in moved)
    && (forall key :: key in moved ==> exists k :: LastTaken(rows, taken, key, k) && moved[key] == KeyOf(out[k]))
  }

  lemma SentFurther(rows: seq<Row>, taken: set<nat>, out: seq<Row>, moved: map<Key, Key>, r: Row, new': Row)
    requires Sent(rows, taken, out, moved)
    ensures Sent(rows + [r], taken, out + [new'], if |rows| in taken then moved[KeyOf(r) := KeyOf(new')] else moved)
  {
    var more := rows + [r];
    var then' := if |rows| in taken then moved[KeyOf(r) := KeyOf(new')] else moved;
    forall key | key in then'
      ensures exists k :: LastTaken(more, taken, key, k) && then'[key] == KeyOf((out + [new'])[k])
    {
      if |rows| in taken && key == KeyOf(r) {
        assert LastTaken(more, taken, key, |rows|);
      } else {
        var k :| LastTaken(rows, taken, key, k) && moved[key] == KeyOf(out[k]);
        assert LastTaken(more, taken, key, k);
      }
    }
  }

  method MoveGroups(rows: seq<Row>, plan: map<Group, Group>) returns (out: seq<Row>, moved: map<Key, Key>)
    ensures out == Each(rows, Moved(plan)) && Sent(rows, Folded(rows, plan), out, moved)
  {
    out, moved := [], map[];
    for k := 0 to |rows|
      invariant out == Each(rows[..k], Moved(plan)) && Sent(rows[..k], Folded(rows, plan), out, moved)
    {
      var r := rows[k];
      assert rows[..k + 1] == rows[..k] + [r];
      SentFurther(rows[..k], Folded(rows, plan), out, moved, r, Moved(plan)(r));
      if GroupOf(r) in plan {
        var to := plan[GroupOf(r)];
        var row := r.(workspace := to.workspace, section := to.section);
        moved := moved[KeyOf(r) := KeyOf(row)];
        out := out + [row];
      } else {
        out := out + [r];
      }
    }
    assert rows[..|rows|] == rows;
  }

  /** The first row of each key. */
  function FirstOfEach(rows: seq<Row>): seq<Row>
  {
    if rows == [] then []
    else
      var before := FirstOfEach(rows[..|rows| - 1]);
      if KeyOf(rows[|rows| - 1]) in KeysOf(before) then before else before + [rows[|rows| - 1]]
  }

  method DropCollisions(rows: seq<Row>) returns (out: seq<Row>, collisions: nat)
    ensures out == FirstOfEach(rows) && |out| + collisions == |rows|
  {
    var seen: set<Key> := {};
    out, collisions := [], 0;
    for k := 0 to |rows|
      invariant out == FirstOfEach(rows[..k]) && seen == KeysOf(out) && |out| + collisions == k
    {
      assert rows[..k + 1][..k] == rows[..k];
      if KeyOf(rows[k]) in seen {
        collisions := collisions + 1;
      } else {
        KeysOfMore(out, rows[k]);
        seen := seen + {KeyOf(rows[k])};
        out := out + [rows[k]];
      }
    }
    assert rows[..|rows|] == rows;
  }

  /** Dropping collisions leaves every key, once. */
  lemma {:induction false} CollisionsLoseNoKey(rows: seq<Row>)
    ensures DistinctKeys(FirstOfEach(rows)) && KeysOf(FirstOfEach(rows)) == KeysOf(rows)
  {
    if rows != [] {
      var m := |rows| - 1;
      CollisionsLoseNoKey(rows[..m]);
      assert rows == rows[..m] + [rows[m]];
      KeysOfMore(rows[..m], rows[m]);
      KeysOfMore(FirstOfEach(rows[..m]), rows[m]);
      if KeyOf(rows[m]) !in KeysOf(FirstOfEach(rows[..m])) {
        NewKeyDistinct(FirstOfEach(rows[..m]), rows[m]);
      }
    }
  }

  /** A moved key is sent to a row that is there, and to the same feature where every row keeps its own. */
  lemma SentToOut(rows: seq<Row>, taken: set<nat>, out: seq<Row>, moved: map<Key, Key>)
    requires Sent(rows, taken, out, moved)
    requires forall k :: 0 <= k < |rows| ==> SameFeature(KeyOf(rows[k]), KeyOf(out[k]))
    ensures forall key :: key in moved ==> moved[key] in KeysOf(out) && SameFeature(key, moved[key])
  {
    forall key | key in moved ensures moved[key] in KeysOf(out) && SameFeature(key, moved[key]) {
      var k :| LastTaken(rows, taken, key, k) && moved[key] == KeyOf(out[k]);
      assert out[k] in out;
    }
  }

  predicate SameFeature(a: Key, b: Key) { a.role == b.role && a.feature == b.feature }

  /** A row of a folded group stands in the group it is folded into; every other row is as it was. */
  lemma FoldedTo(plan: map<Group, Group>, r: Row)
    ensures
      var group, to := Group(r.role, r.workspace, r.section), Moved(plan)(r);
      if group in plan then to == Row(r.role, plan[group].workspace, plan[group].section, r.feature) else to == r
  {
  }

  /** Of rows with one key the first is kept. */
  lemma {:induction false} FirstIsKept(rows: seq<Row>, k: nat)
    requires k < |rows| && forall j :: 0 <= j < k ==> KeyOf(rows[j]) != KeyOf(rows[k])
    ensures rows[k] in FirstOfEach(rows)
  {
    var m := |rows| - 1;
    if k < m {
      FirstIsKept(rows[..m], k);
    } else {
      CollisionsLoseNoKey(rows[..m]);
    }
  }

  /** Nothing but the given rows is kept. */
  lemma {:induction false} OnlyRows(rows: seq<Row>)
    ensures forall r :: r in FirstOfEach(rows) ==> r in rows
  {
    if rows != [] {
      OnlyRows(rows[..|rows| - 1]);
    }
  }

  /** After a consolidation the keys are distinct, every row's key where it was folded is there, and every key that
      moved was sent to its own row's new key: the same feature of the same role. The rows are the folded ones, the
      first of those with one key. */
  method Consolidate(rows: seq<Row>, plan: map<Group, Group>) returns (out: seq<Row>, moved: map<Key, Key>)
    ensures DistinctKeys(out) && KeysOf(out) == KeysOf(Each(rows, Moved(plan)))
    ensures out == FirstOfEach(Each(rows, Moved(plan)))
    ensures Sent(rows, Folded(rows, plan), Each(rows, Moved(plan)), moved)
    ensures forall key :: key in moved ==> moved[key] in KeysOf(out) && SameFeature(key, moved[key])
  {
    var changed: seq<Row>;
    var collisions;
    changed, moved := MoveGroups(rows, plan);
    out, collisions := DropCollisions(changed);
    CollisionsLoseNoKey(changed);
    SentToOut(rows, Folded(rows, plan), changed, moved);
  }

  // --- splitting a workspace ------------------------------------------------

  datatype Space = Space(role: string, workspace: string)

  /** A feature of a workspace of a role. */
  datatype Entry = Entry(space: Space, feature: string)

  function EntryOf(r: Row): Entry { Entry(Space(r.role, r.workspace), r.feature) }

  /** The category each feature of a workspace goes to. */
  type Categories = map<Space, map<string, string>>

  predicate HasCategory(plan: Categories, e: Entry) { e.space in plan && e.feature in plan[e.space] }

  predicate LastOfEntry(rows: seq<Row>, k: nat)
  {
    k < |rows| && forall j :: k < j < |rows| ==> EntryOf(rows[j]) != EntryOf(rows[k])
  }

  /** The rows that are given a category: of rows with one feature name in one workspace, the last. */
  function Placed(rows: seq<Row>, plan: Categories): set<nat>
  {
    set k | 0 <= k < |rows| && LastOfEntry(rows, k) && HasCategory(plan, EntryOf(rows[k]))
  }

  /** What becomes of row `k`. */
  function Categorised(rows: seq<Row>, plan: Categories, k: nat): Row
    requires k < |rows|
  {
    if k in Placed(rows, plan) then rows[k].(section := plan[EntryOf(rows[k]).space][rows[k].feature]) else rows[k]
  }

  ghost predicate Split(rows: seq<Row>, plan: Categories, out: seq<Row>)
  {
    |out| == |rows| && forall k :: 0 <= k < |rows| ==> out[k] == Categorised(rows, plan, k)
  }

  /** Every workspace to split is there, and every feature in it has a category. */
  ghost predicate Splits(rows: seq<Row>, plan: Categories)
  {
    && (forall w :: w in plan ==> exists r :: r in rows && EntryOf(r).space == w)
    && (forall r :: r in rows && EntryOf(r).space in plan ==> HasCategory(plan, EntryOf(r)))
  }

  /** The place of the last row of each entry. */
  ghost predicate LastPlaces(rows: seq<Row>, last: map<Entry, nat>)
  {
    && (forall e :: e in last ==> LastOfEntry(rows, last[e]) && EntryOf(rows[last[e]]) == e)
    && (forall k :: 0 <= k < |rows| ==> EntryOf(rows[k]) in last)
  }

  method FindPlaces(rows: seq<Row>, plan: Categories) returns (last: map<Entry, nat>, ok: bool)
    ensures LastPlaces(rows, last) && (ok <==> Splits(rows, plan))
  {
    var seen: set<Space> := {};
    last, ok := map[], true;
    for k := 0 to |rows|
      invariant LastPlaces(rows[..k], last)
      invariant seen == set r | r in rows[..k] :: EntryOf(r).space
      invariant ok <==> forall r :: r in rows[..k] && EntryOf(r).space in plan ==> HasCategory(plan, EntryOf(r))
    {
      var e := EntryOf(rows[k]);
      assert rows[..k + 1] == rows[..k] + [rows[k]];
      last, seen := last[e := k], seen + {e.space};
      ok := ok && (e.space !in plan || HasCategory(plan, e));
    }
    assert rows[..|rows|] == rows;
    ok := ok && plan.Keys <= seen;
  }

  lemma IsPlaced(rows: seq<Row>, plan: Categories, last: map<Entry, nat>, k: nat)
    requires LastPlaces(rows, last) && k < |rows|
    ensures k in Placed(rows, plan) <==> HasCategory(plan, EntryOf(rows[k])) && last[EntryOf(rows[k])] == k
  {
  }

  method GiveCategories(rows: seq<Row>, plan: Categories, last: map<Entry, nat>)
    returns (out: seq<Row>, moved: map<Key, Key>)
    requires LastPlaces(rows, last)
    ensures Split(rows, plan, out) && Sent(rows, Placed(rows, plan), out, moved)
  {
    out, moved := [], map[];
    for k := 0 to |rows|
      invariant |out| == k && Sent(rows[..k], Placed(rows, plan), out, moved)
      invariant forall j :: 0 <= j < k ==> out[j] == Categorised(rows, plan, j)
    {
      var row := rows[k];
      assert rows[..k + 1] == rows[..k] + [rows[k]];
      IsPlaced(rows, plan, last, k);
      SentFurther(rows[..k], Placed(rows, plan), out, moved, rows[k], Categorised(rows, plan, k));
      if HasCategory(plan, EntryOf(row)) && last[EntryOf(row)] == k {
        row := row.(section := plan[EntryOf(row).space][row.feature]);
        moved := moved[KeyOf(rows[k]) := KeyOf(row)];
      }
      out := out + [row];
    }
    assert rows[..|rows|] == rows;
  }

  /** Every feature of the workspaces split stands under its category, and every key that moved was sent to the key its
      own row has there; nothing is written when a workspace is not there or a feature has no category. */
  method SplitSections(rows: seq<Row>, plan: Categories) returns (ok: bool, out: seq<Row>, moved: map<Key, Key>)
    ensures ok <==> Splits(rows, plan)
    ensures ok ==> Split(rows, plan, out) && Sent(rows, Placed(rows, plan), out, moved)
    ensures !ok ==> out == rows && moved == map[]
    ensures forall key :: key in moved ==> moved[key] in KeysOf(out) && SameFeature(key, moved[key])
  {
    var last;
    last, ok := FindPlaces(rows, plan);
    out, moved := rows, map[];
    if ok {
      out, moved := GiveCategories(rows, plan, last);
      SentToOut(rows, Placed(rows, plan), out, moved);
    }
  }

  /** The last row for a feature of a workspace to be split stands under the feature's category; every other row is as
      it was. */
  lemma UnderItsCategory(rows: seq<Row>, plan: Categories, out: seq<Row>, k: nat)
    requires Splits(rows, plan) && Split(rows, plan, out) && k < |rows|
    ensures
      var r := rows[k];
      var last := forall j :: k < j < |rows| ==>
        rows[j].role != r.role || rows[j].workspace != r.workspace || rows[j].feature != r.feature;
      if Space(r.role, r.workspace) in plan && last
      then
        && r.feature in plan[Space(r.role, r.workspace)]
        && out[k] == Row(r.role, r.workspace, plan[Space(r.role, r.workspace)][r.feature], r.feature)
      else out[k] == r
  {
    var r := rows[k];
    assert r in rows && EntryOf(r) == Entry(Space(r.role, r.workspace), r.feature);
    assert out[k] == Categorised(rows, plan, k);
    assert forall j :: k < j < |rows| ==>
      (EntryOf(rows[j]) == EntryOf(r) <==>
       rows[j].role == r.role && rows[j].workspace == r.workspace && rows[j].feature == r.feature);
  }

  // --- deduplication --------------------------------------------------------

  datatype Name = Name(role: string, feature: string)

  function NameOf(r: Row): Name { Name(r.role, r.feature) }

  /** The last row of a name: later rows overwrite earlier ones in the index. */
  function Indexed(rows: seq<Row>, n: Name): Option<Row>
  {
    if rows == [] then None
    else if NameOf(rows[|rows| - 1]) == n then Some(rows[|rows| - 1])
    else Indexed(rows[..|rows| - 1], n)
  }

  function Surviving(redundant: map<Name, string>): Row -> bool { (r: Row) => NameOf(r) !in redundant }

  /** The row that stands in for a redundant one. */
  function Survivor(redundant: map<Name, string>, n: Name): Name
    requires n in redundant
  {
    Name(n.role, redundant[n])
  }

  predicate AllThere(rows: seq<Row>, redundant: map<Name, string>)
  {
    forall n :: n in redundant ==> Indexed(rows, n).Some? && Indexed(rows, Survivor(redundant, n)).Some?
  }

  /** The key a redundant row had, and the key it is sent to. */
  function GoneKey(rows: seq<Row>, n: Name): Key
    requires Indexed(rows, n).Some?
  {
    KeyOf(Indexed(rows, n).value)
  }

  /** Each redundant row's key is sent to its survivor's. */
  ghost predicate Rewrites(rows: seq<Row>, redundant: map<Name, string>, rewrites: map<Key, Key>)
    requires AllThere(rows, redundant)
  {
    && (forall n :: n in redundant ==>
          GoneKey(rows, n) in rewrites && rewrites[GoneKey(rows, n)] == GoneKey(rows, Survivor(redundant, n)))
    && (forall key :: key in rewrites ==> exists n :: n in redundant && key == GoneKey(rows, n))
  }

  method IndexRows(rows: seq<Row>) returns (index: map<Name, Row>)
    ensures IndexOf(rows, index)
    ensures forall n :: n in index ==> NameOf(index[n]) == n
  {
    index := map[];
    for k := 0 to |rows|
      invariant IndexOf(rows[..k], index)
      invariant forall n :: n in index ==> NameOf(index[n]) == n
    {
      assert rows[..k + 1][..k] == rows[..k];
      index := index[NameOf(rows[k]) := rows[k]];
    }
    assert rows[..|rows|] == rows;
  }

  datatype Deduplicated = Deduplicated(kept: seq<Row>, rewrites: map<Key, Key>)

  predicate InIndex(index: map<Name, Row>, redundant: map<Name, string>, n: Name)
    requires n in redundant
  {
    n in index && Survivor(redundant, n) in index
  }

  predicate SentTo(rewrites: map<Key, Key>, from: Key, to: Key) { from in rewrites && rewrites[from] == to }

  /** The names in `done` have their keys sent to their survivors', and nothing else is sent. */
  ghost predicate Sorted(index: map<Name, Row>, redundant: map<Name, string>, done: set<Name>, rewrites: map<Key, Key>)
    requires done <= redundant.Keys
  {
    && (forall n :: n in done ==>
        InIndex(index, redundant, n) && SentTo(rewrites, KeyOf(index[n]), KeyOf(index[Survivor(redundant, n)])))
    && (forall key :: key in rewrites ==> exists n :: n in done && n in index && key == KeyOf(index[n]))
  }

  lemma SortedFurther(index: map<Name, Row>, redundant: map<Name, string>, done: set<Name>, rewrites: map<Key, Key>,
                      n: Name)
    requires done <= redundant.Keys && Sorted(index, redundant, done, rewrites) && n in redundant
    requires InIndex(index, redundant, n)
    requires n !in done && forall x :: x in index ==> NameOf(index[x]) == x
    ensures Sorted(index, redundant, done + {n}, rewrites[KeyOf(index[n]) := KeyOf(index[Survivor(redundant, n)])])
  {
    var more := rewrites[KeyOf(index[n]) := KeyOf(index[Survivor(redundant, n)])];
    forall x | x in done ensures KeyOf(index[x]) != KeyOf(index[n]) {
      assert NameOf(index[x]) == x && NameOf(index[n]) == n;
    }
    forall key | key in more ensures exists x :: x in done + {n} && x in index && key == KeyOf(index[x]) {
      if key != KeyOf(index[n]) {
        var x :| x in done && x in index && key == KeyOf(index[x]);
        assert x in done + {n};
      } else {
        assert n in done + {n};
      }
    }
  }

  /** Each redundant key's new place, and how many redundant rows or survivors were not found. */
  method SortOut(index: map<Name, Row>, redundant: map<Name, string>) returns (rewrites: map<Key, Key>, problems: nat)
    requires forall n :: n in index ==> NameOf(index[n]) == n
    ensures problems == 0 <==> forall n :: n in redundant ==> InIndex(index, redundant, n)
    ensures problems == 0 ==> Sorted(index, redundant, redundant.Keys, rewrites)
  {
    rewrites, problems := map[], 0;
    var remaining := redundant.Keys;
    while remaining != {}
      invariant remaining <= redundant.Keys
      invariant problems == 0 ==> Sorted(index, redundant, redundant.Keys - remaining, rewrites)
      invariant problems > 0 ==> exists n :: n in redundant && !InIndex(index, redundant, n)
      decreases remaining
    {
      var n :| n in remaining;
      ghost var done := redundant.Keys - remaining;
      remaining := remaining - {n};
      assert redundant.Keys - remaining == done + {n};
      if n !in index || Survivor(redundant, n) !in index {
        problems := problems + 1;
      } else {
        if problems == 0 {
          SortedFurther(index, redundant, done, rewrites, n);
        }
        rewrites := rewrites[KeyOf(index[n]) := KeyOf(index[Survivor(redundant, n)])];
      }
    }
    assert redundant.Keys - {} == redundant.Keys;
  }

  method KeepSurviving(rows: seq<Row>, redundant: map<Name, string>) returns (kept: seq<Row>)
    ensures kept == Where(rows, Surviving(redundant))
  {
    kept := [];
    for k := 0 to |rows|
      invariant kept == Where(rows[..k], Surviving(redundant))
    {
      assert rows[..k + 1][..k] == rows[..k];
      if NameOf(rows[k]) !in redundant {
        kept := kept + [rows[k]];
      }
    }
    assert rows[..|rows|] == rows;
  }

  /** None where the script stops with its problems: a redundant row or its survivor is not in the sheet. */
  method Deduplicate(rows: seq<Row>, redundant: map<Name, string>) returns (d: Option<Deduplicated>)
    ensures d.Some? <==> AllThere(rows, redundant)
    ensures d.Some? ==> d.value.kept == Where(rows, Surviving(redundant)) && Rewrites(rows, redundant, d.value.rewrites)
  {
    var index := IndexRows(rows);
    var rewrites, problems := SortOut(index, redundant);
    IndexSays(rows, index, redundant);
    if problems > 0 {
      return None;
    }
    SortedRewrites(rows, index, redundant, rewrites);
    var kept := KeepSurviving(rows, redundant);
    return Some(Deduplicated(kept, rewrites));
  }

  ghost predicate IndexOf(rows: seq<Row>, index: map<Name, Row>)
  {
    forall n :: if n in index then Indexed(rows, n) == Some(index[n]) else Indexed(rows, n) == None
  }

  lemma IndexSays(rows: seq<Row>, index: map<Name, Row>, redundant: map<Name, string>)
    requires IndexOf(rows, index)
    ensures AllThere(rows, redundant) <==> forall n :: n in redundant ==> InIndex(index, redundant, n)
  {
    forall n | n in redundant
      ensures InIndex(index, redundant, n) <==> Indexed(rows, n).Some? && Indexed(rows, Survivor(redundant, n)).Some?
    {
    }
  }

  lemma SortedRewrites(rows: seq<Row>, index: map<Name, Row>, redundant: map<Name, string>, rewrites: map<Key, Key>)
    requires IndexOf(rows, index) && AllThere(rows, redundant) && Sorted(index, redundant, redundant.Keys, rewrites)
    ensures Rewrites(rows, redundant, rewrites)
  {
    forall n | n in redundant
      ensures GoneKey(rows, n) in rewrites && rewrites[GoneKey(rows, n)] == GoneKey(rows, Survivor(redundant, n))
    {
      assert InIndex(index, redundant, n);
    }
    forall key | key in rewrites ensures exists n :: n in redundant && key == GoneKey(rows, n) {
      var n :| n in redundant && n in index && key == KeyOf(index[n]);
      assert key == GoneKey(rows, n);
    }
  }

  lemma {:induction false} IndexedIs(rows: seq<Row>, n: Name)
    ensures Indexed(rows, n).Some? ==> Indexed(rows, n).value in rows && NameOf(Indexed(rows, n).value) == n
  {
    if rows != [] && NameOf(rows[|rows| - 1]) != n {
      IndexedIs(rows[..|rows| - 1], n);
    }
  }

  /** A survivor's key is kept exactly when the survivor is not itself redundant. */
  lemma SurvivorKept(rows: seq<Row>, redundant: map<Name, string>, n: Name)
    requires n in redundant && Indexed(rows, Survivor(redundant, n)).Some?
    ensures GoneKey(rows, Survivor(redundant, n)) in KeysOf(Where(rows, Surviving(redundant)))
      <==> Survivor(redundant, n) !in redundant
  {
    var kept := Where(rows, Surviving(redundant));
    WhereIn(rows, Surviving(redundant));
    IndexedIs(rows, Survivor(redundant, n));
    var r := Indexed(rows, Survivor(redundant, n)).value;
    if Survivor(redundant, n) !in redundant {
      assert r in kept;
    } else {
      forall x | x in kept ensures KeyOf(x) != KeyOf(r) {
        assert NameOf(x) !in redundant;
      }
    }
  }

  /** Every removed key is sent to a key that is kept exactly when no survivor is itself redundant. */
  lemma SentToKept(rows: seq<Row>, redundant: map<Name, string>, rewrites: map<Key, Key>)
    requires AllThere(rows, redundant) && Rewrites(rows, redundant, rewrites)
    ensures
      (forall key :: key in rewrites ==> rewrites[key] in KeysOf(Where(rows, Surviving(redundant))))
      <==> (forall n :: n in redundant ==> Survivor(redundant, n) !in redundant)
  {
    var kept := KeysOf(Where(rows, Surviving(redundant)));
    forall n | n in redundant ensures rewrites[GoneKey(rows, n)] in kept <==> Survivor(redundant, n) !in redundant {
      SurvivorKept(rows, redundant, n);
    }
    forall key | key in rewrites ensures exists n :: n in redundant && key == GoneKey(rows, n) {
    }
  }

  /** A survivor that is itself removed: its key is sent nowhere that is left. */
  lemma RemovedSurvivor(role: string, section: string, a: string, b: string, c: string)
    returns (rows: seq<Row>, redundant: map<Name, string>)
    requires a != b && b != c && a != c
    ensures AllThere(rows, redundant) && KeysOf(Where(rows, Surviving(redundant))) == {Key(role, section, c)}
    ensures Name(role, a) in redundant && GoneKey(rows, Survivor(redundant, Name(role, a))) == Key(role, section, b)
  {
    var x, y, z := Row(role, section, section, a), Row(role, section, section, b), Row(role, section, section, c);
    rows, redundant := [x, y, z], map[Name(role, a) := b, Name(role, b) := c];
    assert rows[..2] == [x, y] && rows[..2][..1] == [x] && rows[..2][..1][..0] == [];
    WhereIn(rows, Surviving(redundant));
    assert x in rows && y in rows && z in rows;
    assert Indexed(rows, NameOf(z)) == Some(z);
    assert Indexed(rows[..2], NameOf(y)) == Some(y);
    assert Indexed(rows[..2][..1], NameOf(x)) == Some(x);
  }
}
