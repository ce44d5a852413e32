/**
Building the catalogue from the sheet: every row must name a known role and a
known scope and give a key of its own, or nothing is written; the features come
out role by role, section by section.
*/
module CatalogBuild {
  import opened Tables
  import opened Regroup

  /** A row with its role and scope looked up; None where the name is not known. */
  datatype Raw = Raw(role: Option<string>, section: string, feature: string, scope: Option<string>)

  datatype Feature = Feature(role: string, section: string, feature: string, scope: string)
  datatype Key = Key(role: string, section: string, feature: string)

  function KeyOf(f: Feature): Key { Key(f.role, f.section, f.feature) }

  predicate Known(r: Raw) { r.role.Some? && r.scope.Some? }

  function Read(r: Raw): Feature
    requires Known(r)
  {
    Feature(r.role.value, r.section, r.feature, r.scope.value)
  }

  function ReadAll(rows: seq<Raw>): seq<Feature>
    requires forall k :: 0 <= k < |rows| ==> Known(rows[k])
  {
    seq(|rows|, k requires 0 <= k < |rows| => Read(rows[k]))
  }

  ghost predicate AllKnown(rows: seq<Raw>) { forall k :: 0 <= k < |rows| ==> Known(rows[k]) }

  ghost predicate DistinctKeys(fs: seq<Feature>) { forall j, k :: 0 <= j < k < |fs| ==> KeyOf(fs[j]) != KeyOf(fs[k]) }

  function KeysOf(fs: seq<Feature>): set<Key> { set f | f in fs :: KeyOf(f) }

  const ByRole: Feature -> string := (f: Feature) => f.role
  const BySection: Feature -> string := (f: Feature) => f.section

  function AsTheyStand(fs: seq<Feature>): seq<Feature> { fs }
  function Sections(fs: seq<Feature>): seq<Feature> { Group(fs, BySection, AsTheyStand) }

  function Wanted(keys: seq<string>): string -> bool { (k: string) => k in keys }

  /** The roles in the order of the switcher, then any it does not name. */
  function Switcher(order: seq<string>, roles: seq<string>): seq<string>
  {
    Where(order, Wanted(roles)) + Where(roles, Not(Wanted(order)))
  }

  function Ordered(fs: seq<Feature>, order: seq<string>): seq<Feature>
  {
    Joined(fs, ByRole, Sections, Switcher(order, Firsts(fs, ByRole)))
  }

  /** The feature has the row's own names. */
  predicate TakenFrom(r: Raw, f: Feature)
  {
    r.role == Some(f.role) && r.scope == Some(f.scope) && r.section == f.section && r.feature == f.feature
  }

  predicate SamePlace(a: Raw, b: Raw) { a.role == b.role && a.section == b.section && a.feature == b.feature }

  lemma DistinctPlaces(rows: seq<Raw>)
    requires AllKnown(rows)
    ensures DistinctKeys(ReadAll(rows)) <==> forall j, k :: 0 <= j < k < |rows| ==> !SamePlace(rows[j], rows[k])
  {
    forall j, k | 0 <= j < k < |rows|
      ensures KeyOf(ReadAll(rows)[j]) != KeyOf(ReadAll(rows)[k]) <==> !SamePlace(rows[j], rows[k])
    {
      assert ReadAll(rows)[j] == Read(rows[j]) && ReadAll(rows)[k] == Read(rows[k]);
    }
  }

  /** The rows read so far, and the problems met. */
  method ReadSheet(rows: seq<Raw>) returns (fs: seq<Feature>, problems: nat)
    ensures problems == 0 ==> |fs| == |rows| && forall k :: 0 <= k < |rows| ==> TakenFrom(rows[k], fs[k])
    ensures problems == 0 <==>
      && (forall k :: 0 <= k < |rows| ==> rows[k].role.Some? && rows[k].scope.Some?)
      && (forall j, k :: 0 <= j < k < |rows| ==> !SamePlace(rows[j], rows[k]))
    ensures problems == 0 <==> AllKnown(rows) && DistinctKeys(ReadAll(rows))
    ensures problems == 0 ==> fs == ReadAll(rows)
  {
    fs, problems := [], 0;
    var seen: set<Key> := {};
    for k := 0 to |rows|
      invariant seen == KeysOf(fs) && DistinctKeys(fs)
      invariant problems == 0 ==> AllKnown(rows[..k]) && fs == ReadAll(rows[..k])
      invariant problems > 0 ==> !(AllKnown(rows) && DistinctKeys(ReadAll(rows)))
    {
      var r := rows[k];
      assert rows[..k + 1] == rows[..k] + [r];
      if r.role == None || r.scope == None {
        problems := problems + 1;
      } else {
        var f := Feature(r.role.value, r.section, r.feature, r.scope.value);
        if KeyOf(f) in seen {
          if problems == 0 {
            KeyRepeated(rows, k, fs);
          }
          problems := problems + 1;
        } else {
          assert forall x :: x in fs + [f] <==> x in fs || x == f;
          forall j | 0 <= j < |fs| ensures KeyOf(fs[j]) != KeyOf(f) { assert fs[j] in fs; }
          seen := seen + {KeyOf(f)};
          fs := fs + [f];
        }
      }
    }
    assert rows[..|rows|] == rows;
    if AllKnown(rows) {
      DistinctPlaces(rows);
    }
  }

  lemma KeyRepeated(rows: seq<Raw>, k: nat, fs: seq<Feature>)
    requires k < |rows| && Known(rows[k]) && AllKnown(rows[..k]) && fs == ReadAll(rows[..k])
    requires KeyOf(Read(rows[k])) in KeysOf(fs)
    ensures AllKnown(rows) ==> !DistinctKeys(ReadAll(rows))
  {
    var f :| f in fs && KeyOf(f) == KeyOf(Read(rows[k]));
    var j :| 0 <= j < k && fs[j] == f;
    if AllKnown(rows) {
      assert ReadAll(rows)[j] == f && ReadAll(rows)[k] == Read(rows[k]);
    }
  }

  // --- every row is one feature ---------------------------------------------

  lemma {:induction false} WhereDistinct(keys: seq<string>, p: string -> bool)
    requires forall i, j :: 0 <= i < j < |keys| ==> keys[i] != keys[j]
    ensures forall i, j :: 0 <= i < j < |Where(keys, p)| ==> Where(keys, p)[i] != Where(keys, p)[j]
  {
    WherePairs(keys, p, (x: string, y: string) => x != y);
  }

  lemma SwitcherDistinct(order: seq<string>, roles: seq<string>)
    requires forall i, j :: 0 <= i < j < |order| ==> order[i] != order[j]
    requires forall i, j :: 0 <= i < j < |roles| ==> roles[i] != roles[j]
    ensures
      var s := Switcher(order, roles);
      (forall i, j :: 0 <= i < j < |s| ==> s[i] != s[j]) && forall k :: k in s <==> k in roles
  {
    WhereDistinct(order, Wanted(roles));
    WhereDistinct(roles, Not(Wanted(order)));
    WhereIn(order, Wanted(roles));
    WhereIn(roles, Not(Wanted(order)));
    var a, b := Where(order, Wanted(roles)), Where(roles, Not(Wanted(order)));
    forall i, j | 0 <= i < |a| && 0 <= j < |b| ensures a[i] != b[j] {
      assert a[i] in a && b[j] in b;
    }
  }

  ghost predicate Before(keys: seq<string>, a: string, b: string)
  {
    exists x, y :: 0 <= x < y < |keys| && keys[x] == a && keys[y] == b
  }

  /** The switcher's roles come first, in its order; the others follow, in the order of the sheet. */
  lemma SwitcherInOrder(order: seq<string>, roles: seq<string>, i: nat, j: nat)
    requires i < j < |Switcher(order, roles)|
    ensures
      var s := Switcher(order, roles);
      if s[j] in order then s[i] in order && Before(order, s[i], s[j])
      else s[i] in order || Before(roles, s[i], s[j])
  {
    var a, b := Where(order, Wanted(roles)), Where(roles, Not(Wanted(order)));
    WhereIn(order, Wanted(roles));
    WhereIn(roles, Not(Wanted(order)));
    if j < |a| {
      assert a[j] in a && a[i] in a;
      var x, y := WhereInOrder(order, Wanted(roles), i, j);
    } else {
      assert b[j - |a|] in b;
      if i < |a| {
        assert a[i] in a;
      } else {
        var x, y := WhereInOrder(roles, Not(Wanted(order)), i - |a|, j - |a|);
      }
    }
  }

  lemma SectionsSettle()
    ensures Settles(Sections)
  {
    GroupSettles(BySection, AsTheyStand);
    assert forall g :: Sections(g) == Grouping(BySection, AsTheyStand)(g);
    forall g: seq<Feature> ensures multiset(Sections(g)) == multiset(g) && Sections(Sections(g)) == Sections(g) {
      assert Grouping(BySection, AsTheyStand)(Grouping(BySection, AsTheyStand)(g))
        == Grouping(BySection, AsTheyStand)(g);
    }
  }

  /** Every row of an accepted sheet is one feature of the catalogue, under its own key, whatever order the roles
      take. */
  lemma EveryRowOnce(fs: seq<Feature>, order: seq<string>)
    requires forall i, j :: 0 <= i < j < |order| ==> order[i] != order[j]
    ensures multiset(Ordered(fs, order)) == multiset(fs)
  {
    var roles := Firsts(fs, ByRole);
    var keys := Switcher(order, roles);
    FirstsAre(fs, ByRole);
    SwitcherDistinct(order, roles);
    SectionsSettle();
    JoinedRows(fs, ByRole, Sections, keys);
    WhereEverything(fs, KeyIn(ByRole, keys));
  }

  /** Within a role and a section the features keep the order of the sheet. */
  lemma SheetOrderKept(fs: seq<Feature>, order: seq<string>, role: string, section: string)
    requires forall i, j :: 0 <= i < j < |order| ==> order[i] != order[j]
    ensures
      var here := (f: Feature) => f.role == role && f.section == section;
      Where(Ordered(fs, order), here) == Where(fs, here)
  {
    var here := (f: Feature) => f.role == role && f.section == section;
    var roles := Firsts(fs, ByRole);
    var keys := Switcher(order, roles);
    FirstsAre(fs, ByRole);
    SwitcherDistinct(order, roles);
    assert KeepsOrder(AsTheyStand, here);
    GroupKeepsOrder(BySection, AsTheyStand, here, section);
    assert forall g :: Sections(g) == Grouping(BySection, AsTheyStand)(g);
    assert KeepsOrder(Sections, here);
    JoinedKeeps(fs, ByRole, Sections, keys, here, role);
    if role !in keys {
      WhereNothing(fs, here);
    }
  }

  function OfRole(f: Feature): Feature -> bool { (x: Feature) => x.role == f.role }
  function OfSection(f: Feature): Feature -> bool { (x: Feature) => x.role == f.role && x.section == f.section }

  /** The roles of the switcher come first, in its order, and the others after them as they first appear in the sheet;
      the sections of a role stand as they first appear there. */
  lemma CatalogInOrder(fs: seq<Feature>, order: seq<string>, i: nat, j: nat)
    requires i < j < |Ordered(fs, order)| && forall m, n :: 0 <= m < n < |order| ==> order[m] != order[n]
    ensures
      var a, b := Ordered(fs, order)[i], Ordered(fs, order)[j];
      if a.role == b.role then a.section != b.section ==> Precedes(fs, OfSection(a), OfSection(b))
      else if b.role in order then a.role in order && Before(order, a.role, b.role)
      else a.role in order || Precedes(fs, OfRole(a), OfRole(b))
  {
    var a, b := Ordered(fs, order)[i], Ordered(fs, order)[j];
    var roles := Firsts(fs, ByRole);
    FirstsAre(fs, ByRole);
    SwitcherDistinct(order, roles);
    SectionsSettle();
    if a.role == b.role {
      var x, y := InOneGroup(fs, ByRole, Sections, Switcher(order, roles), i, j);
      SectionsInOrder(fs, a, b, x, y);
    } else {
      var x, y := JoinedInOrder(fs, ByRole, Sections, Switcher(order, roles), i, j);
      SwitcherInOrder(order, roles, x, y);
      if a.role !in order && b.role !in order {
        var m, n :| 0 <= m < n < |roles| && roles[m] == a.role && roles[n] == b.role;
        FirstsInOrder(fs, ByRole, m, n);
        SamePrecedes(fs, Has(ByRole, a.role), Has(ByRole, b.role), OfRole(a), OfRole(b));
      }
    }
  }

  lemma SectionsInOrder(fs: seq<Feature>, a: Feature, b: Feature, x: nat, y: nat)
    requires x < y < |Sections(Where(fs, Has(ByRole, a.role)))| && a.role == b.role
    requires Sections(Where(fs, Has(ByRole, a.role)))[x] == a && Sections(Where(fs, Has(ByRole, a.role)))[y] == b
    ensures a.section != b.section ==> Precedes(fs, OfSection(a), OfSection(b))
  {
    var some := Has(ByRole, a.role);
    if a.section != b.section {
      GroupInOrder(Where(fs, some), BySection, AsTheyStand, x, y);
      PrecedesAmong(fs, some, Has(BySection, a.section), Has(BySection, b.section), OfSection(a), OfSection(b));
    }
  }
}
