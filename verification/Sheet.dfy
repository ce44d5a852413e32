/** The sheet of features: its rows, and the key by which a row is wired and granted. */
module Sheet {

  /** A row, its names as they appear in keys. */
  datatype Row = Row(role: string, workspace: string, section: string, feature: string)

  /** role.section.feature */
  datatype Key = Key(role: string, section: string, feature: string)

  function KeyOf(r: Row): Key { Key(r.role, r.section, r.feature) }
  function KeysOf(rows: seq<Row>): set<Key> { set r | r in rows :: KeyOf(r) }

  ghost predicate DistinctKeys(rows: seq<Row>)
  {
    forall j, k :: 0 <= j < k < |rows| ==> KeyOf(rows[j]) != KeyOf(rows[k])
  }

  lemma KeysOfMore(rows: seq<Row>, row: Row)
    ensures KeysOf(rows + [row]) == KeysOf(rows) + {KeyOf(row)}
  {
    assert forall x :: x in rows + [row] <==> x in rows || x == row;
  }

  lemma NewKeyDistinct(rows: seq<Row>, row: Row)
    requires DistinctKeys(rows) && KeyOf(row) !in KeysOf(rows)
    ensures DistinctKeys(rows + [row])
  {
    forall k | 0 <= k < |rows| ensures KeyOf(rows[k]) != KeyOf(row) {
      assert rows[k] in rows;
    }
  }
}
