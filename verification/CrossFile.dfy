/**
The sheet and the registry together: when every wired key names a row of the
sheet, each pass over the sheet and the rewiring that goes with it leave every
wired key naming a row of the sheet it wrote.
*/
module CrossFile {
  import opened Tables
  import opened Sheet
  import opened Registry
  import RoleMerge
  import SheetPasses

  ghost predicate AllNamed(lines: seq<Line>, rows: seq<Row>) { Keys(lines) <= KeysOf(rows) }

  function After(lines: seq<Line>, m: Move): seq<Line> { Rewire(lines, m, Keys(lines)).kept }

  ghost predicate ImageOfWired(lines: seq<Line>, m: Move, k: Key)
  {
    exists old' :: old' in Keys(lines) && old' in m.handled && old' in m.image && m.image[old'] == k
  }

  /** What is wired after a pass was wired and stays, or is the image of a key that was wired and handled. */
  lemma WiredAfter(lines: seq<Line>, m: Move)
    requires WiredOnce(lines)
    ensures forall k :: k in Keys(After(lines, m)) ==>
      (k in Keys(lines) && Stays(m, k)) || ImageOfWired(lines, m, k)
  {
    RegistryComesTo(lines, m);
  }

  /** A row's key that is not moved belongs to a row not taken up, which is as it was. */
  lemma UnmovedStays(rows: seq<Row>, taken: set<nat>, out: seq<Row>, moved: map<Key, Key>, key: Key)
    requires SheetPasses.Sent(rows, taken, out, moved) && key in KeysOf(rows) && key !in moved
    requires forall k :: 0 <= k < |rows| && k !in taken ==> out[k] == rows[k]
    ensures key in KeysOf(out)
  {
    var r :| r in rows && KeyOf(r) == key;
    var k :| 0 <= k < |rows| && rows[k] == r;
    assert out[k] in out;
  }

  /** Consolidation: every wired key names a row that was written. */
  lemma ConsolidatedNamed(rows: seq<Row>, plan: map<SheetPasses.Group, SheetPasses.Group>, moved: map<Key, Key>,
                          out: seq<Row>, lines: seq<Line>)
    requires WiredOnce(lines) && AllNamed(lines, rows)
    requires SheetPasses.Sent(rows, SheetPasses.Folded(rows, plan), Each(rows, SheetPasses.Moved(plan)), moved)
    requires KeysOf(out) == KeysOf(Each(rows, SheetPasses.Moved(plan)))
    ensures AllNamed(After(lines, Move(moved.Keys, moved, false)), out)
  {
    var m := Move(moved.Keys, moved, false);
    var changed := Each(rows, SheetPasses.Moved(plan));
    WiredAfter(lines, m);
    SheetPasses.SentToOut(rows, SheetPasses.Folded(rows, plan), changed, moved);
    forall k | k in Keys(After(lines, m)) ensures k in KeysOf(out) {
      if k in Keys(lines) && k !in moved {
        UnmovedStays(rows, SheetPasses.Folded(rows, plan), changed, moved, k);
      }
    }
  }

  /** Splitting rewrites every moved key where it stands, and names a row that was written. */
  lemma SplitNamed(rows: seq<Row>, plan: SheetPasses.Categories, out: seq<Row>, moved: map<Key, Key>, lines: seq<Line>)
    requires AllNamed(lines, rows) && SheetPasses.Split(rows, plan, out)
    requires SheetPasses.Sent(rows, SheetPasses.Placed(rows, plan), out, moved)
    ensures AllNamed(Each(lines, Rekeyed(moved)), out)
  {
    var after := Each(lines, Rekeyed(moved));
    SheetPasses.SentToOut(rows, SheetPasses.Placed(rows, plan), out, moved);
    forall l | l in after && l.key.Some? ensures l.key.value in KeysOf(out) {
      var k :| 0 <= k < |after| && after[k] == l;
      assert lines[k] in lines && lines[k].key.value in Keys(lines);
      if lines[k].key.value !in moved {
        UnmovedStays(rows, SheetPasses.Placed(rows, plan), out, moved, lines[k].key.value);
      }
    }
  }

  /** Deduplication, where no survivor is itself redundant and each redundant name has one key. */
  lemma DeduplicatedNamed(rows: seq<Row>, redundant: map<SheetPasses.Name, string>, rewrites: map<Key, Key>,
                          lines: seq<Line>)
    requires WiredOnce(lines) && AllNamed(lines, rows)
    requires SheetPasses.AllThere(rows, redundant) && SheetPasses.Rewrites(rows, redundant, rewrites)
    requires forall n :: n in redundant ==> SheetPasses.Survivor(redundant, n) !in redundant
    requires forall r :: r in rows && SheetPasses.NameOf(r) in redundant ==>
      KeyOf(r) == SheetPasses.GoneKey(rows, SheetPasses.NameOf(r))
    ensures AllNamed(After(lines, Move(rewrites.Keys, rewrites, true)), Where(rows, SheetPasses.Surviving(redundant)))
  {
    var m := Move(rewrites.Keys, rewrites, true);
    WiredAfter(lines, m);
    SheetPasses.SentToKept(rows, redundant, rewrites);
    WhereIn(rows, SheetPasses.Surviving(redundant));
    forall k | k in Keys(After(lines, m)) ensures k in KeysOf(Where(rows, SheetPasses.Surviving(redundant))) {
      if k in Keys(lines) && Stays(m, k) {
        var r :| r in rows && KeyOf(r) == k;
        assert r in Where(rows, SheetPasses.Surviving(redundant));
      }
    }
  }

  /** The keys a role merge handles: those of the roles that are removed. */
  function OfRemoved(lines: seq<Line>, plan: RoleMerge.Plan): set<Key>
  {
    set k | k in Keys(lines) && k.role in plan.targets
  }

  /** A role merge: every wired key names a row of a surviving role. */
  lemma MergedNamed(survivors: seq<Row>, incoming: seq<Row>, plan: RoleMerge.Plan, lines: seq<Line>)
    requires WiredOnce(lines) && AllNamed(lines, survivors + incoming) && DistinctKeys(survivors)
    requires forall k :: 0 <= k < |incoming| ==> incoming[k].role in plan.targets
    requires forall k :: 0 <= k < |survivors| ==> survivors[k].role !in plan.targets
    ensures
      var m := RoleMerge.MergeAll(survivors, incoming, plan);
      AllNamed(After(lines, Move(OfRemoved(lines, plan), m.moved, true)), m.rows)
  {
    var merged := RoleMerge.MergeAll(survivors, incoming, plan);
    var m := Move(OfRemoved(lines, plan), merged.moved, true);
    RoleMerge.NothingLost(survivors, incoming, plan);
    WiredAfter(lines, m);
    assert forall r :: r in incoming ==> r.role in plan.targets;
    forall k | k in Keys(After(lines, m)) ensures k in KeysOf(merged.rows) {
      if k in Keys(lines) && Stays(m, k) {
        var r :| r in survivors + incoming && KeyOf(r) == k;
        assert r in survivors && r in merged.rows;
      }
    }
  }
}
