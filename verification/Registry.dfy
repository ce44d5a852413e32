/**
Rewiring the registry after the catalogue's keys have moved. Each line that
wires a key which has moved is rewritten to the new key, unless the new key is
already wired: then the line is dropped.
*/
module Registry {
  import opened Tables
  import opened Sheet

  /** A line of the registry, and the key it wires if it wires one. */
  datatype Line = Line(key: Option<Key>, text: string)

  /** Which keys a pass handles and where each goes. `strict` drops a handled key whose image is wired even when the
      image is the key itself (the deduplication does; the consolidation does not). A handled key without image is
      dropped. */
  datatype Move = Move(handled: set<Key>, image: map<Key, Key>, strict: bool)

  function Keys(lines: seq<Line>): set<Key> { set l | l in lines && l.key.Some? :: l.key.value }

  predicate Handles(m: Move, l: Line) { l.key.Some? && l.key.value in m.handled }

  /** Whether a handled key is rewritten, given the keys wired so far. */
  predicate Rewritten(m: Move, key: Key, live: set<Key>)
  {
    key in m.image && (m.image[key] !in live || (!m.strict && m.image[key] == key))
  }

  datatype Pass = Pass(kept: seq<Line>, live: set<Key>)

  function Rewire(lines: seq<Line>, m: Move, live: set<Key>): Pass
  {
    if lines == [] then Pass([], live)
    else
      var p := Rewire(lines[..|lines| - 1], m, live);
      var l := lines[|lines| - 1];
      if !Handles(m, l) then p.(kept := p.kept + [l])
      else if Rewritten(m, l.key.value, p.live) then
        Pass(p.kept + [l.(key := Some(m.image[l.key.value]))], p.live + {m.image[l.key.value]})
      else p
  }

  method RewireRegistry(lines: seq<Line>, m: Move) returns (kept: seq<Line>, rewired: nat, dropped: nat)
    ensures kept == Rewire(lines, m, Keys(lines)).kept
    ensures |kept| + dropped == |lines| && rewired + dropped == |Where(lines, l => Handles(m, l))|
  {
    var live := Keys(lines);
    kept, rewired, dropped := [], 0, 0;
    for k := 0 to |lines|
      invariant Pass(kept, live) == Rewire(lines[..k], m, Keys(lines))
      invariant |kept| + dropped == k && rewired + dropped == |Where(lines[..k], l => Handles(m, l))|
    {
      assert lines[..k + 1][..k] == lines[..k];
      var l := lines[k];
      if l.key.Some? && l.key.value in m.handled {
        if l.key.value in m.image
          && (m.image[l.key.value] !in live || (!m.strict && m.image[l.key.value] == l.key.value)) {
          live := live + {m.image[l.key.value]};
          kept := kept + [l.(key := Some(m.image[l.key.value]))];
          rewired := rewired + 1;
        } else {
          dropped := dropped + 1;
        }
      } else {
        kept := kept + [l];
      }
    }
    assert lines[..|lines|] == lines;
  }

  /** What a line may become: itself, or itself under the key its own is sent to. */
  ghost predicate ComesFrom(m: Move, l: Line, x: Line)
  {
    && x.text == l.text
    && (x.key == l.key || (l.key.Some? && l.key.value in m.handled && l.key.value in m.image
                           && x.key == Some(m.image[l.key.value])))
  }

  /** Every line kept is a line there was, its text untouched; and a line whose key is not handled is kept. */
  lemma {:induction false} LinesComeFrom(lines: seq<Line>, m: Move, live: set<Key>)
    ensures forall x :: x in Rewire(lines, m, live).kept ==> exists l :: l in lines && ComesFrom(m, l, x)
    ensures forall l :: l in lines && (l.key.Some? ==> l.key.value !in m.handled) ==> l in Rewire(lines, m, live).kept
  {
    if lines != [] {
      var k := |lines| - 1;
      LinesComeFrom(lines[..k], m, live);
      forall x | x in Rewire(lines, m, live).kept ensures exists l :: l in lines && ComesFrom(m, l, x) {
        if l :| l in lines[..k] && ComesFrom(m, l, x) {
          assert l in lines;
        } else {
          assert ComesFrom(m, lines[k], x);
        }
      }
    }
  }

  // --- what the registry comes to -------------------------------------------

  ghost predicate WiredOnce(lines: seq<Line>)
  {
    forall j, k :: 0 <= j < k < |lines| && lines[j].key.Some? ==> lines[j].key != lines[k].key
  }

  predicate Stays(m: Move, key: Key) { key !in m.handled || (!m.strict && key in m.image && m.image[key] == key) }

  /** The keys a pass over the keys `old'` leaves wired, of which `seen` have been met. */
  ghost function Outcome(m: Move, seen: set<Key>, old': set<Key>): set<Key>
  {
    (set k | k in seen && Stays(m, k))
      + (set k | k in seen && k in m.handled && k in m.image && m.image[k] !in old' :: m.image[k])
  }

  lemma WiredMore(lines: seq<Line>, l: Line)
    ensures Keys(lines + [l]) == Keys(lines) + if l.key.Some? then {l.key.value} else {}
  {
    var more := lines + [l];
    assert forall x :: x in more <==> x in lines || x == l;
  }

  lemma OutcomeOfMore(m: Move, seen: set<Key>, key: Key, old': set<Key>)
    ensures Outcome(m, seen + {key}, old') == Outcome(m, seen, old') + (if Stays(m, key) then {key} else {})
      + if key in m.handled && key in m.image && m.image[key] !in old' then {m.image[key]} else {}
  {
  }

  /** The keys wired so far are those that stay and the new ones; what is known to be live is those with the old. */
  ghost predicate Wired(p: Pass, m: Move, seen: set<Key>, old': set<Key>)
  {
    && WiredOnce(p.kept) && Keys(p.kept) == Outcome(m, seen, old') && p.live == old' + Outcome(m, seen, old')
  }

  lemma WiredFurther(p: Pass, m: Move, seen: set<Key>, old': set<Key>, l: Line, q: Pass)
    requires Wired(p, m, seen, old') && seen <= old'
    requires l.key.Some? ==> l.key.value in old' && l.key.value !in seen
    requires q == if !Handles(m, l) then p.(kept := p.kept + [l])
                  else if Rewritten(m, l.key.value, p.live) then
                    Pass(p.kept + [l.(key := Some(m.image[l.key.value]))], p.live + {m.image[l.key.value]})
                  else p
    ensures Wired(q, m, if l.key.Some? then seen + {l.key.value} else seen, old')
  {
    if l.key.None? {
      WiredMore(p.kept, l);
    } else {
      var key := l.key.value;
      OutcomeOfMore(m, seen, key, old');
      if !Handles(m, l) {
        WiredMore(p.kept, l);
        assert key !in Outcome(m, seen, old');
        NewlyWired(p.kept, l);
      } else if Rewritten(m, key, p.live) {
        var l1 := l.(key := Some(m.image[key]));
        WiredMore(p.kept, l1);
        assert m.image[key] !in Outcome(m, seen, old');
        NewlyWired(p.kept, l1);
      }
    }
  }

  lemma NewlyWired(lines: seq<Line>, l: Line)
    requires WiredOnce(lines) && l.key.Some? && l.key.value !in Keys(lines)
    ensures WiredOnce(lines + [l])
  {
    forall k | 0 <= k < |lines| && lines[k].key.Some? ensures lines[k].key != l.key {
      assert lines[k] in lines;
    }
  }

  lemma NotMet(lines: seq<Line>, k: nat)
    requires WiredOnce(lines) && k < |lines| && lines[k].key.Some?
    ensures lines[k].key.value in Keys(lines) && lines[k].key.value !in Keys(lines[..k])
  {
    assert lines[k] in lines;
    forall l | l in lines[..k] && l.key.Some? ensures l.key != lines[k].key {
      var j :| 0 <= j < k && lines[j] == l;
    }
  }

  lemma {:induction false} PassComesTo(lines: seq<Line>, m: Move, n: nat, old': set<Key>)
    requires WiredOnce(lines) && old' == Keys(lines) && n <= |lines|
    ensures Wired(Rewire(lines[..n], m, old'), m, Keys(lines[..n]), old')
  {
    if n == 0 {
      assert Keys(lines[..0]) == {} && Outcome(m, {}, old') == {};
    } else {
      PassComesTo(lines, m, n - 1, old');
      assert lines[..n] == lines[..n - 1] + [lines[n - 1]] && lines[..n][..n - 1] == lines[..n - 1];
      var l := lines[n - 1];
      WiredMore(lines[..n - 1], l);
      if l.key.Some? {
        NotMet(lines, n - 1);
      }
      forall x | x in lines[..n - 1] ensures x in lines {
      }
      WiredFurther(Rewire(lines[..n - 1], m, old'), m, Keys(lines[..n - 1]), old', l, Rewire(lines[..n], m, old'));
    }
  }

  /** From a registry that wires each key once: each key is wired once again, and the keys wired are those that stay and
      the images that nothing wired before. */
  lemma RegistryComesTo(lines: seq<Line>, m: Move)
    requires WiredOnce(lines)
    ensures
      var kept := Rewire(lines, m, Keys(lines)).kept;
      WiredOnce(kept) && Keys(kept) == Outcome(m, Keys(lines), Keys(lines))
  {
    PassComesTo(lines, m, |lines|, Keys(lines));
    assert lines[..|lines|] == lines;
  }

  // --- the simple set form --------------------------------------------------

  /** The old keys less those handled, together with the images. */
  ghost function SetForm(m: Move, old': set<Key>): set<Key>
  {
    (old' - m.handled) + set k | k in old' && k in m.handled && k in m.image :: m.image[k]
  }

  /** No key is sent to a key that is itself wired and sent away. */
  ghost predicate NoChain(m: Move, old': set<Key>)
  {
    forall k :: k in old' && k in m.handled && k in m.image && m.image[k] in old' ==> Stays(m, m.image[k])
  }

  /** The rewired registry is the simple set form exactly when no key is sent to one that is itself sent away. */
  lemma SetFormWhenNoChain(lines: seq<Line>, m: Move)
    requires WiredOnce(lines)
    ensures Keys(Rewire(lines, m, Keys(lines)).kept) == SetForm(m, Keys(lines)) <==> NoChain(m, Keys(lines))
  {
    RegistryComesTo(lines, m);
    var old' := Keys(lines);
    var out, form := Outcome(m, old', old'), SetForm(m, old');
    if NoChain(m, old') {
      forall k ensures k in out <==> k in form {
      }
    } else {
      var k :| k in old' && k in m.handled && k in m.image && m.image[k] in old' && !Stays(m, m.image[k]);
      assert m.image[k] in form && m.image[k] !in out;
    }
  }

  /** A chain loses a screen: the first key's line is dropped because the second is still wired, and then the second
      moves. */
  lemma ChainLosesAScreen(a: Key, b: Key, c: Key, text: string)
    requires a != b && b != c && a != c
    ensures
      var m := Move({a, b}, map[a := b, b := c], false);
      var lines := [Line(Some(a), text), Line(Some(b), text)];
      Keys(Rewire(lines, m, Keys(lines)).kept) == {c} && SetForm(m, Keys(lines)) == {b, c}
  {
    var m := Move({a, b}, map[a := b, b := c], false);
    var lines := [Line(Some(a), text), Line(Some(b), text)];
    assert lines[0] in lines && lines[1] in lines;
    assert Keys(lines) == {a, b};
    RegistryComesTo(lines, m);
    assert Outcome(m, {a, b}, {a, b}) == {c};
  }

  /** When no image is a handled key, no handled key is left: merging the roles away leaves none of a removed role's. */
  lemma NoneLeft(lines: seq<Line>, m: Move)
    requires WiredOnce(lines) && forall k :: k in m.image ==> m.image[k] !in m.handled
    ensures Keys(Rewire(lines, m, Keys(lines)).kept) !! m.handled
    ensures Keys(Rewire(lines, m, Keys(lines)).kept) == SetForm(m, Keys(lines))
  {
    RegistryComesTo(lines, m);
    SetFormWhenNoChain(lines, m);
    assert NoChain(m, Keys(lines));
  }

  // --- without looking at what is wired -------------------------------------

  function Goes(moved: map<Key, Key>, key: Key): Key { if key in moved then moved[key] else key }

  /** Splitting a workspace rewrites every moved key where it stands. */
  function Rekeyed(moved: map<Key, Key>): Line -> Line
  {
    (l: Line) => if l.key.Some? then l.(key := Some(Goes(moved, l.key.value))) else l
  }

  method RekeyRegistry(lines: seq<Line>, moved: map<Key, Key>) returns (out: seq<Line>)
    ensures out == Each(lines, Rekeyed(moved))
  {
    out := [];
    for k := 0 to |lines|
      invariant out == Each(lines[..k], Rekeyed(moved))
    {
      if lines[k].key.Some? && lines[k].key.value in moved {
        out := out + [lines[k].(key := Some(moved[lines[k].key.value]))];
      } else {
        out := out + [lines[k]];
      }
    }
    assert lines[..|lines|] == lines;
  }

  /** Each key is then wired once exactly when no two wired keys go to the same place. */
  lemma RekeyedApart(lines: seq<Line>, moved: map<Key, Key>)
    requires WiredOnce(lines)
    ensures WiredOnce(Each(lines, Rekeyed(moved)))
      <==> forall a, b :: a in Keys(lines) && b in Keys(lines) && a != b ==> Goes(moved, a) != Goes(moved, b)
  {
    var out := Each(lines, Rekeyed(moved));
    if WiredOnce(out) {
      forall a, b | a in Keys(lines) && b in Keys(lines) && a != b ensures Goes(moved, a) != Goes(moved, b) {
        var j :| 0 <= j < |lines| && lines[j].key == Some(a);
        var k :| 0 <= k < |lines| && lines[k].key == Some(b);
        assert out[j].key == Some(Goes(moved, a)) && out[k].key == Some(Goes(moved, b));
        if j < k {
          assert out[j].key != out[k].key;
        } else {
          assert out[k].key != out[j].key;
        }
      }
    }
    if forall a, b :: a in Keys(lines) && b in Keys(lines) && a != b ==> Goes(moved, a) != Goes(moved, b) {
      forall j, k | 0 <= j < k < |lines| && out[j].key.Some? ensures out[j].key != out[k].key {
        assert lines[j] in lines && lines[k] in lines;
        if lines[k].key.Some? {
          assert lines[j].key.value in Keys(lines) && lines[k].key.value in Keys(lines);
        }
      }
    }
  }
}
