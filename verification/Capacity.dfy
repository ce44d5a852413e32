/**
Clerks filling the last places of an activity at once. Enrolling selects the
activity's row for update together with the count of places taken, then
inserts and commits. The intention is that the count is taken while the row
is held; as the statement is written the count is what had been committed
when the statement began, before any wait for the row.
*/
module Capacity {
  import opened Tables

  datatype Reading = UnderLock | AtStatement

  /** `seen` is the count the clerk will decide on. */
  datatype Clerk = Away | Asking(seen: nat) | Holding(seen: nat)

  datatype Desk = Desk(capacity: nat, count: nat, clerks: seq<Clerk>)

  /** What one clerk, or a child leaving, does next. */
  datatype Move = Ask(clerk: nat) | Lock(clerk: nat) | Decide(clerk: nat) | ChildLeaves

  predicate RowFree(d: Desk) { forall k :: 0 <= k < |d.clerks| ==> !d.clerks[k].Holding? }

  predicate Full(d: Desk, seen: nat) { d.capacity > 0 && seen >= d.capacity }

  predicate Enabled(d: Desk, m: Move)
  {
    match m
    case Ask(k) => k < |d.clerks| && d.clerks[k].Away?
    case Lock(k) => k < |d.clerks| && d.clerks[k].Asking? && RowFree(d)
    case Decide(k) => k < |d.clerks| && d.clerks[k].Holding?
    case ChildLeaves => d.count > 0
  }

  function Next(d: Desk, m: Move, r: Reading): Desk
    requires Enabled(d, m)
  {
    match m
    case Ask(k) => d.(clerks := d.clerks[k := Asking(d.count)])
    case Lock(k) => d.(clerks := d.clerks[k := Holding(if r.UnderLock? then d.count else d.clerks[k].seen)])
    case Decide(k) =>
      d.(clerks := d.clerks[k := Away], count := if Full(d, d.clerks[k].seen) then d.count else d.count + 1)
    case ChildLeaves => d.(count := d.count - 1)
  }

  /** The state after a run, or None when a move of it was not open. */
  function After(d: Desk, moves: seq<Move>, r: Reading): Option<Desk>
  {
    if moves == [] then Some(d)
    else
      var before :- After(d, moves[..|moves| - 1], r);
      var m := moves[|moves| - 1];
      if Enabled(before, m) then Some(Next(before, m, r)) else None
  }

  ghost predicate NobodyThere(d: Desk) { forall k :: 0 <= k < |d.clerks| ==> d.clerks[k].Away? }

  // --- counted while the row is held ----------------------------------------

  /** One clerk holds the row at most, and has seen every place taken since. */
  ghost predicate Fair(d: Desk)
  {
    && (forall j, k :: 0 <= j < k < |d.clerks| ==> !(d.clerks[j].Holding? && d.clerks[k].Holding?))
    && (forall k :: 0 <= k < |d.clerks| && d.clerks[k].Holding? ==> d.clerks[k].seen >= d.count)
  }

  ghost predicate WithinCapacity(d: Desk) { d.capacity > 0 ==> d.count <= d.capacity }

  lemma FairNext(d: Desk, m: Move)
    requires Fair(d) && Enabled(d, m)
    ensures Fair(Next(d, m, UnderLock)) && Next(d, m, UnderLock).capacity == d.capacity
    ensures Next(d, m, UnderLock).count > d.count ==> d.capacity == 0 || d.count < d.capacity
  {
  }

  /** With any number of clerks in any order, a run from a desk within its capacity stays within it. */
  lemma {:induction false} NeverOverfull(d: Desk, moves: seq<Move>, e: Desk)
    requires Fair(d) && WithinCapacity(d) && After(d, moves, UnderLock) == Some(e)
    ensures Fair(e) && WithinCapacity(e) && e.capacity == d.capacity
  {
    if moves != [] {
      var m := |moves| - 1;
      var before := After(d, moves[..m], UnderLock).value;
      NeverOverfull(d, moves[..m], before);
      FairNext(before, moves[m]);
    }
  }

  /** A clerk lets the child in exactly when the count it saw is below the capacity, or there is no limit. */
  lemma DecidesByWhatItSaw(d: Desk, k: nat, r: Reading)
    requires Enabled(d, Decide(k))
    ensures
      var e := Next(d, Decide(k), r);
      && e.count == d.count + (if d.capacity == 0 || d.clerks[k].seen < d.capacity then 1 else 0)
      && e.capacity == d.capacity && e.clerks == d.clerks[k := Away]
  {
  }

  /** Once the capacity is reached nobody is let in, whoever was already waiting. */
  lemma NobodyLetInWhenFull(d: Desk, moves: seq<Move>, e: Desk, m: Move)
    requires Fair(d) && WithinCapacity(d) && After(d, moves, UnderLock) == Some(e) && Enabled(e, m)
    requires Full(e, e.count)
    ensures Next(e, m, UnderLock).count <= e.count
  {
    NeverOverfull(d, moves, e);
    FairNext(e, m);
  }

  // --- counted when the statement begins ------------------------------------

  function Asks(n: nat): seq<Move> { seq(n, k requires 0 <= k < n => Ask(k)) }

  function Serves(n: nat): seq<Move>
  {
    if n == 0 then [] else Serves(n - 1) + [Lock(n - 1), Decide(n - 1)]
  }

  function Crowd(capacity: nat, count: nat, n: nat, asked: nat): Desk
  {
    Desk(capacity, count, seq(n, k requires 0 <= k < n => if k < asked then Asking(count) else Away))
  }

  lemma {:induction false} AllAsk(capacity: nat, count: nat, n: nat, asked: nat)
    requires asked <= n
    ensures After(Crowd(capacity, count, n, 0), Asks(asked), AtStatement) == Some(Crowd(capacity, count, n, asked))
  {
    if asked > 0 {
      AllAsk(capacity, count, n, asked - 1);
      assert Asks(asked)[..asked - 1] == Asks(asked - 1);
      var before := Crowd(capacity, count, n, asked - 1);
      assert before.clerks[asked - 1 := Asking(count)] == Crowd(capacity, count, n, asked).clerks;
    }
  }

  function Served(capacity: nat, count: nat, n: nat, served: nat): Desk
  {
    Desk(capacity, count + served, seq(n, k requires 0 <= k < n => if k < served then Away else Asking(count)))
  }

  lemma RunsJoin(d: Desk, first: seq<Move>, m: Move, r: Reading, e: Desk)
    requires After(d, first, r) == Some(e) && Enabled(e, m)
    ensures After(d, first + [m], r) == Some(Next(e, m, r))
  {
    assert (first + [m])[..|first|] == first;
  }

  lemma {:induction false} AllServed(start: Desk, asks: seq<Move>, capacity: nat, count: nat, n: nat, served: nat)
    requires count < capacity && served <= n && After(start, asks, AtStatement) == Some(Served(capacity, count, n, 0))
    ensures After(start, asks + Serves(served), AtStatement) == Some(Served(capacity, count, n, served))
  {
    if served == 0 {
      assert asks + Serves(0) == asks;
    } else {
      AllServed(start, asks, capacity, count, n, served - 1);
      OneServed(start, asks + Serves(served - 1), capacity, count, n, served - 1);
      TwoMore(asks, Serves(served - 1), Lock(served - 1), Decide(served - 1));
    }
  }

  lemma TwoMore(a: seq<Move>, b: seq<Move>, m: Move, n: Move)
    ensures a + (b + [m, n]) == a + b + [m] + [n]
  {
  }

  /** The next clerk takes the row and, by the count it saw, lets its child in. */
  lemma OneServed(start: Desk, moves: seq<Move>, capacity: nat, count: nat, n: nat, k: nat)
    requires count < capacity && k < n && After(start, moves, AtStatement) == Some(Served(capacity, count, n, k))
    ensures After(start, moves + [Lock(k)] + [Decide(k)], AtStatement) == Some(Served(capacity, count, n, k + 1))
  {
    var before := Served(capacity, count, n, k);
    var held := Next(before, Lock(k), AtStatement);
    RunsJoin(start, moves, Lock(k), AtStatement, before);
    RunsJoin(start, moves + [Lock(k)], Decide(k), AtStatement, held);
    assert before.clerks[k := Holding(count)][k := Away] == Served(capacity, count, n, k + 1).clerks;
  }

  /** As the statement is written, any number of clerks who ask while one place is left are all let in. */
  lemma CrowdLetIn(capacity: nat, n: nat) returns (moves: seq<Move>)
    requires capacity > 0
    ensures After(Crowd(capacity, capacity - 1, n, 0), moves, AtStatement).Some?
    ensures After(Crowd(capacity, capacity - 1, n, 0), moves, AtStatement).value.count == capacity - 1 + n
  {
    var start := Crowd(capacity, capacity - 1, n, 0);
    AllAsk(capacity, capacity - 1, n, n);
    assert Crowd(capacity, capacity - 1, n, n).clerks == Served(capacity, capacity - 1, n, 0).clerks;
    AllServed(start, Asks(n), capacity, capacity - 1, n, n);
    moves := Asks(n) + Serves(n);
  }

  /** At most one clerk is being served, and has missed no place taken since it asked. */
  ghost predicate Alone(d: Desk)
  {
    && (forall j, k :: 0 <= j < k < |d.clerks| ==> d.clerks[j].Away? || d.clerks[k].Away?)
    && (forall k :: 0 <= k < |d.clerks| && !d.clerks[k].Away? ==> d.clerks[k].seen >= d.count)
  }

  /** As written, a decision overfills the activity exactly when the clerk saw room and there is none left. */
  lemma OverfilledWhenStale(d: Desk, k: nat)
    requires WithinCapacity(d) && Enabled(d, Decide(k))
    ensures WithinCapacity(Next(d, Decide(k), AtStatement)) <==> (Full(d, d.count) ==> Full(d, d.clerks[k].seen))
  {
  }

  /** Nobody asks while another is still waiting or being answered. */
  ghost predicate OneAtATime(d: Desk, moves: seq<Move>)
  {
    forall k :: 0 <= k < |moves| && moves[k].Ask? && After(d, moves[..k], AtStatement).Some? ==>
      NobodyThere(After(d, moves[..k], AtStatement).value)
  }

  /** As written, it keeps to the capacity when nobody asks while another clerk is being served. */
  lemma {:induction false} OneAtATimeIsSafe(d: Desk, moves: seq<Move>, e: Desk)
    requires NobodyThere(d) && WithinCapacity(d) && OneAtATime(d, moves) && After(d, moves, AtStatement) == Some(e)
    ensures Alone(e) && WithinCapacity(e) && e.capacity == d.capacity
  {
    if moves != [] {
      var m := |moves| - 1;
      var before := After(d, moves[..m], AtStatement).value;
      assert forall k :: 0 <= k < m ==> moves[..m][..k] == moves[..k];
      OneAtATimeIsSafe(d, moves[..m], before);
      assert moves[m].Ask? ==> NobodyThere(before);
    }
  }
}
