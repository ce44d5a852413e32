/**
Folding removed roles into the roles that survive. Each feature of a removed
role is dropped as the role's front door, found already covered, or added; and
its old key is sent to the key that now stands for it.
*/
module RoleMerge {
  import opened Tables
  import opened Sheet

  /** The role a removed role is folded into, and the workspace it is forced into. */
  datatype Target = Target(role: string, workspace: Option<string>)

  /** How a merge is planned: where each removed role goes, and the sections that are only a role's front door. */
  datatype Plan = Plan(targets: map<string, Target>, fronts: set<string>)

  datatype Merge = Merge(rows: seq<Row>, moved: map<Key, Key>, merged: nat, covered: nat, fronts: nat)

  function FindFeature(rows: seq<Row>, role: string, feature: string): Option<Row>
  {
    if rows == [] then None
    else
      var earlier := FindFeature(rows[..|rows| - 1], role, feature);
      var r := rows[|rows| - 1];
      if earlier.Some? then earlier else if r.role == role && r.feature == feature then Some(r) else None
  }

  function Landed(r: Row, t: Target): Row
  {
    r.(role := t.role, workspace := if t.workspace.Some? then t.workspace.value else r.workspace)
  }

  function MergeOne(m: Merge, r: Row, t: Target, fronts: set<string>): Merge
  {
    if r.section in fronts && t.workspace.Some? then m.(fronts := m.fronts + 1)
    else
      var there := FindFeature(m.rows, t.role, r.feature);
      if there.Some? then m.(moved := m.moved[KeyOf(r) := KeyOf(there.value)], covered := m.covered + 1)
      else
        var row := Landed(r, t);
        m.(rows := m.rows + [row], moved := m.moved[KeyOf(r) := KeyOf(row)], merged := m.merged + 1)
  }

  function MergeAll(survivors: seq<Row>, incoming: seq<Row>, plan: Plan): Merge
    requires forall k :: 0 <= k < |incoming| ==> incoming[k].role in plan.targets
  {
    if incoming == [] then Merge(survivors, map[], 0, 0, 0)
    else
      var r := incoming[|incoming| - 1];
      MergeOne(MergeAll(survivors, incoming[..|incoming| - 1], plan), r, plan.targets[r.role], plan.fronts)
  }

  function Has(rows: seq<Row>, role: string): bool { exists r :: r in rows && r.role == role }

  /** What each surviving role covers, by feature. */
  function Covers(rows: seq<Row>): set<(string, string)> { set r | r in rows :: (r.role, r.feature) }

  function Folded(plan: Plan): Row -> bool { (r: Row) => r.role in plan.targets }

  lemma FoldedInPlan(sheet: seq<Row>, plan: Plan)
    ensures forall k :: 0 <= k < |Where(sheet, Folded(plan))| ==> Where(sheet, Folded(plan))[k].role in plan.targets
  {
    WhereIn(sheet, Folded(plan));
    forall k | 0 <= k < |Where(sheet, Folded(plan))| ensures Where(sheet, Folded(plan))[k].role in plan.targets {
      assert Where(sheet, Folded(plan))[k] in Where(sheet, Folded(plan));
    }
  }

  method SplitSheet(sheet: seq<Row>, plan: Plan) returns (survivors: seq<Row>, incoming: seq<Row>)
    ensures survivors == Where(sheet, Not(Folded(plan))) && incoming == Where(sheet, Folded(plan))
    ensures forall k :: 0 <= k < |incoming| ==> incoming[k].role in plan.targets
  {
    survivors, incoming := [], [];
    for k := 0 to |sheet|
      invariant survivors == Where(sheet[..k], Not(Folded(plan))) && incoming == Where(sheet[..k], Folded(plan))
    {
      assert sheet[..k + 1][..k] == sheet[..k];
      if sheet[k].role in plan.targets {
        incoming := incoming + [sheet[k]];
      } else {
        survivors := survivors + [sheet[k]];
      }
    }
    assert sheet[..|sheet|] == sheet;
    FoldedInPlan(sheet, plan);
  }

  /** The row must be folded into a role that has rows of its own, or be dropped as a front door. */
  ghost predicate CanFold(survivors: seq<Row>, r: Row, plan: Plan)
    requires r.role in plan.targets
  {
    (r.section in plan.fronts && plan.targets[r.role].workspace.Some?) || Has(survivors, plan.targets[r.role].role)
  }

  /** None where the script stops: a row cannot be folded. */
  method MergeRoles(survivors: seq<Row>, incoming: seq<Row>, plan: Plan) returns (m: Option<Merge>)
    requires forall k :: 0 <= k < |incoming| ==> incoming[k].role in plan.targets
    ensures m.Some? ==> m.value == MergeAll(survivors, incoming, plan)
    ensures m.Some? <==> forall k :: 0 <= k < |incoming| ==> CanFold(survivors, incoming[k], plan)
  {
    var have := Covers(survivors);
    var out := Merge(survivors, map[], 0, 0, 0);
    for k := 0 to |incoming|
      invariant out == MergeAll(survivors, incoming[..k], plan) && have == Covers(out.rows)
      invariant forall j :: 0 <= j < k ==> CanFold(survivors, incoming[j], plan)
    {
      var r := incoming[k];
      var t := plan.targets[r.role];
      assert incoming[..k + 1][..k] == incoming[..k];
      FindsFeature(out.rows, t.role, r.feature);
      if r.section in plan.fronts && t.workspace.Some? {
        out := out.(fronts := out.fronts + 1);
      } else if !Has(survivors, t.role) {
        return None;
      } else if (t.role, r.feature) in have {
        var keep := FindFeature(out.rows, t.role, r.feature);
        out := out.(moved := out.moved[KeyOf(r) := KeyOf(keep.value)], covered := out.covered + 1);
      } else {
        var row := Landed(r, t);
        CoversMore(out.rows, row);
        have := have + {(t.role, r.feature)};
        out := out.(rows := out.rows + [row], moved := out.moved[KeyOf(r) := KeyOf(row)], merged := out.merged + 1);
      }
    }
    assert incoming[..|incoming|] == incoming;
    return Some(out);
  }

  lemma CoversMore(rows: seq<Row>, row: Row)
    ensures Covers(rows + [row]) == Covers(rows) + {(row.role, row.feature)}
  {
    assert forall x :: x in rows + [row] <==> x in rows || x == row;
  }

  lemma {:induction false} FindsFeature(rows: seq<Row>, role: string, feature: string)
    ensures FindFeature(rows, role, feature).Some? <==> (role, feature) in Covers(rows)
    ensures FindFeature(rows, role, feature).Some? ==>
      var r := FindFeature(rows, role, feature).value;
      r in rows && r.role == role && r.feature == feature
  {
    if rows != [] {
      var m := |rows| - 1;
      FindsFeature(rows[..m], role, feature);
      CoversMore(rows[..m], rows[m]);
      assert rows == rows[..m] + [rows[m]];
    }
  }

  // --- what a merge promises ------------------------------------------------

  ghost predicate FrontDoor(r: Row, plan: Plan)
    requires r.role in plan.targets
  {
    r.section in plan.fronts && plan.targets[r.role].workspace.Some?
  }

  ghost predicate Accounted(survivors: seq<Row>, incoming: seq<Row>, plan: Plan, m: Merge)
    requires forall k :: 0 <= k < |incoming| ==> incoming[k].role in plan.targets
  {
    && m.merged + m.covered + m.fronts == |incoming| && |m.rows| == |survivors| + m.merged && survivors <= m.rows
    && (forall key :: key in m.moved ==> m.moved[key] in KeysOf(m.rows))
    && (forall k :: 0 <= k < |incoming| && !FrontDoor(incoming[k], plan) ==>
          && KeyOf(incoming[k]) in m.moved && m.moved[KeyOf(incoming[k])].feature == incoming[k].feature
          && m.moved[KeyOf(incoming[k])].role == plan.targets[incoming[k].role].role)
    && DistinctKeys(m.rows)
  }

  lemma MergedKeyIsNew(rows: seq<Row>, row: Row)
    requires DistinctKeys(rows) && (row.role, row.feature) !in Covers(rows)
    ensures DistinctKeys(rows + [row])
  {
    forall k | 0 <= k < |rows| ensures KeyOf(rows[k]) != KeyOf(row) {
      assert rows[k] in rows;
    }
  }

  lemma MergeOneAccounted(survivors: seq<Row>, incoming: seq<Row>, plan: Plan, m: Merge, r: Row)
    requires (forall k :: 0 <= k < |incoming| ==> incoming[k].role in plan.targets) && r.role in plan.targets
    requires Accounted(survivors, incoming, plan, m)
    ensures Accounted(survivors, incoming + [r], plan, MergeOne(m, r, plan.targets[r.role], plan.fronts))
  {
    var t := plan.targets[r.role];
    var n := MergeOne(m, r, t, plan.fronts);
    FindsFeature(m.rows, t.role, r.feature);
    if !FrontDoor(r, plan) && FindFeature(m.rows, t.role, r.feature).None? {
      KeysOfMore(m.rows, Landed(r, t));
      MergedKeyIsNew(m.rows, Landed(r, t));
    }
    forall k | 0 <= k < |incoming| && !FrontDoor(incoming[k], plan)
      ensures KeyOf(incoming[k]) in n.moved && n.moved[KeyOf(incoming[k])].feature == incoming[k].feature
      ensures n.moved[KeyOf(incoming[k])].role == plan.targets[incoming[k].role].role
    {
      if KeyOf(incoming[k]) == KeyOf(r) {
        assert incoming[k].role == r.role && incoming[k].feature == r.feature;
      }
    }
  }

  /** The row an incoming row becomes: under the role it is folded into, in the workspace it is forced into or its own,
      in its own section and for its own feature. */
  ghost predicate Becomes(r: Row, row: Row, plan: Plan)
    requires r.role in plan.targets
  {
    var t := plan.targets[r.role];
    && row.role == t.role && row.section == r.section && row.feature == r.feature
    && row.workspace == (match t.workspace case Some(w) => w case None => r.workspace)
  }

  /** Every row beyond the survivors is what some incoming row became. */
  ghost predicate AllBecame(survivors: seq<Row>, incoming: seq<Row>, plan: Plan, rows: seq<Row>)
    requires forall k :: 0 <= k < |incoming| ==> incoming[k].role in plan.targets
  {
    && survivors <= rows
    && forall n :: |survivors| <= n < |rows| ==> exists k :: 0 <= k < |incoming| && Becomes(incoming[k], rows[n], plan)
  }

  function FrontDoors(incoming: seq<Row>, plan: Plan): nat
    requires forall k :: 0 <= k < |incoming| ==> incoming[k].role in plan.targets
  {
    |Where(incoming,
           (r: Row) => r.section in plan.fronts && r.role in plan.targets && plan.targets[r.role].workspace.Some?)|
  }

  lemma BecameFurther(survivors: seq<Row>, incoming: seq<Row>, plan: Plan, rows: seq<Row>, r: Row, row: Row)
    requires (forall k :: 0 <= k < |incoming| ==> incoming[k].role in plan.targets) && r.role in plan.targets
    requires AllBecame(survivors, incoming, plan, rows)
    ensures AllBecame(survivors, incoming + [r], plan, rows)
    ensures Becomes(r, row, plan) ==> AllBecame(survivors, incoming + [r], plan, rows + [row])
  {
    var more := incoming + [r];
    assert more[|incoming|] == r;
    forall n | |survivors| <= n < |rows| ensures exists k :: 0 <= k < |more| && Becomes(more[k], rows[n], plan) {
      var k :| 0 <= k < |incoming| && Becomes(incoming[k], rows[n], plan);
      assert more[k] == incoming[k];
    }
  }

  /** What is added is incoming rows, folded as planned, and only front doors are dropped as such. */
  lemma {:induction false} FoldedAsPlanned(survivors: seq<Row>, incoming: seq<Row>, plan: Plan, m: Merge)
    requires forall k :: 0 <= k < |incoming| ==> incoming[k].role in plan.targets
    requires m == MergeAll(survivors, incoming, plan)
    ensures AllBecame(survivors, incoming, plan, m.rows) && m.fronts == FrontDoors(incoming, plan)
  {
    if incoming != [] {
      var k := |incoming| - 1;
      var r, before := incoming[k], MergeAll(survivors, incoming[..k], plan);
      FoldedAsPlanned(survivors, incoming[..k], plan, before);
      BecameFurther(survivors, incoming[..k], plan, before.rows, r, Landed(r, plan.targets[r.role]));
      assert incoming == incoming[..k] + [r];
    }
  }

  /** Nothing is lost unstated: the three counts make up the incoming rows; every incoming row that is not a front door
      has its old key sent to a key of the output, for the same feature under the role it was folded into; every
      surviving row is still there; and the output's keys stay distinct. */
  lemma {:induction false} NothingLost(survivors: seq<Row>, incoming: seq<Row>, plan: Plan)
    requires (forall k :: 0 <= k < |incoming| ==> incoming[k].role in plan.targets) && DistinctKeys(survivors)
    ensures Accounted(survivors, incoming, plan, MergeAll(survivors, incoming, plan))
  {
    if incoming != [] {
      var m := |incoming| - 1;
      NothingLost(survivors, incoming[..m], plan);
      MergeOneAccounted(survivors, incoming[..m], plan, MergeAll(survivors, incoming[..m], plan), incoming[m]);
      assert incoming == incoming[..m] + [incoming[m]];
    }
  }

  // --- where a removed key is sent ------------------------------------------

  /** The key is that of the first row there is for the feature under the role. */
  ghost predicate FirstFor(rows: seq<Row>, role: string, feature: string, key: Key)
  {
    exists n :: 0 <= n < |rows| && KeyOf(rows[n]) == key && rows[n].role == role && rows[n].feature == feature
      && forall j :: 0 <= j < n ==> rows[j].role != role || rows[j].feature != feature
  }

  lemma {:induction false} FindsFirst(rows: seq<Row>, role: string, feature: string)
    requires FindFeature(rows, role, feature).Some?
    ensures FirstFor(rows, role, feature, KeyOf(FindFeature(rows, role, feature).value))
  {
    var m := |rows| - 1;
    assert rows == rows[..m] + [rows[m]];
    if FindFeature(rows[..m], role, feature).Some? {
      FindsFirst(rows[..m], role, feature);
      FirstStays(rows[..m], rows[m], role, feature, KeyOf(FindFeature(rows, role, feature).value));
    } else {
      FindsFeature(rows[..m], role, feature);
      forall j | 0 <= j < m ensures rows[j].role != role || rows[j].feature != feature {
        assert rows[..m][j] in rows[..m];
      }
    }
  }

  lemma FirstStays(rows: seq<Row>, more: Row, role: string, feature: string, key: Key)
    requires FirstFor(rows, role, feature, key)
    ensures FirstFor(rows + [more], role, feature, key)
  {
    var n :| 0 <= n < |rows| && KeyOf(rows[n]) == key && rows[n].role == role && rows[n].feature == feature
             && forall j :: 0 <= j < n ==> rows[j].role != role || rows[j].feature != feature;
    assert (rows + [more])[n] == rows[n];
  }

  lemma FirstAdded(rows: seq<Row>, row: Row)
    requires FindFeature(rows, row.role, row.feature).None?
    ensures FirstFor(rows + [row], row.role, row.feature, KeyOf(row))
  {
    FindsFeature(rows, row.role, row.feature);
    forall j | 0 <= j < |rows| ensures rows[j].role != row.role || rows[j].feature != row.feature {
      assert rows[j] in rows;
    }
    assert (rows + [row])[|rows|] == row;
  }

  /** The old key of every incoming row that is no front door is sent to the first row for its feature under the role
      it is folded into, and no other key is sent anywhere. */
  ghost predicate SentToFirst(incoming: seq<Row>, plan: Plan, m: Merge)
    requires forall k :: 0 <= k < |incoming| ==> incoming[k].role in plan.targets
  {
    && (forall k :: 0 <= k < |incoming| && !FrontDoor(incoming[k], plan) ==>
          && KeyOf(incoming[k]) in m.moved
          && FirstFor(m.rows, plan.targets[incoming[k].role].role, incoming[k].feature, m.moved[KeyOf(incoming[k])]))
    && (forall key :: key in m.moved ==>
          exists k :: 0 <= k < |incoming| && !FrontDoor(incoming[k], plan) && KeyOf(incoming[k]) == key)
  }

  lemma SentFurther(incoming: seq<Row>, plan: Plan, m: Merge, r: Row)
    requires (forall k :: 0 <= k < |incoming| ==> incoming[k].role in plan.targets) && r.role in plan.targets
    requires SentToFirst(incoming, plan, m)
    ensures SentToFirst(incoming + [r], plan, MergeOne(m, r, plan.targets[r.role], plan.fronts))
  {
    var t, more := plan.targets[r.role], incoming + [r];
    var n := MergeOne(m, r, t, plan.fronts);
    assert more[|incoming|] == r;
    if !FrontDoor(r, plan) {
      if FindFeature(m.rows, t.role, r.feature).Some? {
        FindsFirst(m.rows, t.role, r.feature);
      } else {
        FirstAdded(m.rows, Landed(r, t));
      }
    }
    forall k | 0 <= k < |more| && !FrontDoor(more[k], plan)
      ensures KeyOf(more[k]) in n.moved
      ensures FirstFor(n.rows, plan.targets[more[k].role].role, more[k].feature, n.moved[KeyOf(more[k])])
    {
      if KeyOf(more[k]) != KeyOf(r) && n.rows != m.rows {
        FirstStays(m.rows, Landed(r, t), plan.targets[more[k].role].role, more[k].feature, m.moved[KeyOf(more[k])]);
      }
    }
    forall key | key in n.moved
      ensures exists k :: 0 <= k < |more| && !FrontDoor(more[k], plan) && KeyOf(more[k]) == key
    {
      if key in m.moved {
        var k :| 0 <= k < |incoming| && !FrontDoor(incoming[k], plan) && KeyOf(incoming[k]) == key;
        assert more[k] == incoming[k];
      }
    }
  }

  lemma {:induction false} KeysSent(survivors: seq<Row>, incoming: seq<Row>, plan: Plan, m: Merge)
    requires forall k :: 0 <= k < |incoming| ==> incoming[k].role in plan.targets
    requires m == MergeAll(survivors, incoming, plan)
    ensures SentToFirst(incoming, plan, m)
  {
    if incoming != [] {
      var k := |incoming| - 1;
      var before := MergeAll(survivors, incoming[..k], plan);
      KeysSent(survivors, incoming[..k], plan, before);
      SentFurther(incoming[..k], plan, before, incoming[k]);
      assert incoming == incoming[..k] + [incoming[k]];
    }
  }
}
