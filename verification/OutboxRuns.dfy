/** How long a flush lasts, what its writes to the file lose, and what at-most-once depends on. */
module OutboxRuns {
  import opened Tables
  import opened Outbox

  // --- each flush ends ------------------------------------------------------

  predicate OfFlush(s: Step) { s.FlushSends? || s.FlushHears? || s.FlushHearsNothing? || s.FlushEnds? }

  function FlushSteps(steps: seq<Step>): nat
  {
    if steps == [] then 0 else FlushSteps(steps[..|steps| - 1]) + if OfFlush(steps[|steps| - 1]) then 1 else 0
  }

  /** How many more steps of its own the flush can take. */
  function Effort(w: World): nat
  {
    if w.flushes == [] then 0
    else
      var f := w.flushes[|w.flushes| - 1];
      2 * |f.rows| + if f.waiting.None? then 1 else 0
  }

  lemma EffortFalls(w: World, s: Step)
    requires Orderly(w) && Enabled(w, s) && (s.TimerFires? ==> w.flushing)
    ensures Effort(Next(w, s)) + (if OfFlush(s) then 1 else 0) <= Effort(w)
  {
  }

  /** No new flush is begun: the timer may fire, but only while a flush is running. */
  ghost predicate NoneBegun(w: World, steps: seq<Step>)
  {
    forall k :: 0 <= k < |steps| && steps[k].TimerFires? && Run(w, steps[..k]).Some? ==>
      Run(w, steps[..k]).value.flushing
  }

  /** Whatever the page, the timer and the server do meanwhile, a flush that read `n` rows takes at most `2n + 1` steps
      of its own. */
  lemma {:induction false} EachFlushEnds(w: World, steps: seq<Step>, v: World)
    requires Orderly(w) && Run(w, steps) == Some(v) && NoneBegun(w, steps)
    ensures FlushSteps(steps) + Effort(v) <= Effort(w)
  {
    if steps != [] {
      var m := |steps| - 1;
      var before := Run(w, steps[..m]).value;
      assert forall k :: 0 <= k < m ==> steps[..m][..k] == steps[..k];
      EachFlushEnds(w, steps[..m], before);
      OneOrderlyFlush(w, steps[..m], before);
      EffortFalls(before, steps[m]);
    }
  }

  /** A flush never waits but on the request of its front row: between requests it can always send or finish. */
  lemma NeverStuck(w: World)
    requires Orderly(w) && w.flushes != []
    ensures w.flushes[0].waiting == None ==> Enabled(w, FlushSends) || Enabled(w, FlushEnds)
    ensures w.flushes[0].waiting.Some? && w.flushes[0].waiting.value in w.sent ==>
      w.sent[w.flushes[0].waiting.value] == w.flushes[0].rows[0]
    ensures w.flushes[0].waiting.Some? && w.flushes[0].waiting.value in w.replies ==> Enabled(w, FlushHears)
  {
  }

  // --- what the file loses --------------------------------------------------

  /** An answer below 500 takes the row in front, and only that row, out of the file exactly when the file is still what
      the flush holds. Whatever the page wrote while the flush waited is overwritten. */
  lemma WhatTheFileLoses(w: World)
    requires Orderly(w) && Enabled(w, FlushHears) && w.replies[w.flushes[0].waiting.value].status < 500
    ensures Next(w, FlushHears).file == w.flushes[0].rows[1..]
    ensures
      (exists more :: w.file == [w.flushes[0].rows[0]] + more && Next(w, FlushHears).file == more)
        <==> w.file == w.flushes[0].rows
    ensures !w.rewritten ==> w.file == w.flushes[0].rows
  {
    var rows := w.flushes[0].rows;
    assert rows == [rows[0]] + rows[1..];
  }

  /** Only the page's rewrite and an answer below 500 change the file: a flush that ends, hears nothing or is answered
      500 or more leaves it, and so does everything the server does. */
  lemma WhoWritesTheFile(w: World, s: Step)
    requires Enabled(w, s) && !s.PageRewrites?
    requires s.FlushHears? ==> w.replies[Waiting(w).value.waiting.value].status >= 500
    ensures Next(w, s).file == w.file
  {
  }

  /** A flush of the run was answered below 500 for the row. */
  ghost predicate AnsweredFor(w: World, steps: seq<Step>, row: Row)
  {
    exists k :: 0 <= k < |steps| && DropsAt(w, steps, row, k)
  }

  ghost predicate DropsAt(w: World, steps: seq<Step>, row: Row, k: nat)
    requires k < |steps|
  {
    && steps[k] == FlushHears && Run(w, steps[..k]).Some?
    && var x := Run(w, steps[..k]).value;
    && Enabled(x, FlushHears) && Waiting(x).value.rows[0] == row
    && x.replies[Waiting(x).value.waiting.value].status < 500
  }

  ghost predicate Safe(w: World, steps: seq<Step>, rows: seq<Row>, v: World)
  {
    && OneFlush(v) && (v.flushes != [] ==> v.file == v.flushes[0].rows)
    && forall row :: row in rows ==> row in v.file || AnsweredFor(w, steps, row)
  }

  lemma AnsweredLater(w: World, steps: seq<Step>, s: Step, row: Row)
    requires AnsweredFor(w, steps, row)
    ensures AnsweredFor(w, steps + [s], row)
  {
    var k :| 0 <= k < |steps| && DropsAt(w, steps, row, k);
    assert (steps + [s])[..k] == steps[..k];
    assert DropsAt(w, steps + [s], row, k);
  }

  lemma HeardLeaves(w: World, v: World)
    requires OneFlush(w) && Enabled(w, FlushHears) && w.file == w.flushes[0].rows && v == Next(w, FlushHears)
    requires w.replies[Waiting(w).value.waiting.value].status < 500
    ensures w.file != [] && Waiting(w).value.rows[0] == w.file[0]
    ensures v.file == w.file[1..] && (v.flushes != [] ==> v.file == v.flushes[0].rows)
  {
  }

  lemma HeardSafe(w: World, steps: seq<Step>, rows: seq<Row>, before: World, v: World, more: seq<Step>)
    requires Safe(w, steps, rows, before) && Run(w, steps) == Some(before) && Enabled(before, FlushHears)
    requires before.replies[Waiting(before).value.waiting.value].status < 500
    requires v == Next(before, FlushHears) && more == steps + [FlushHears]
    ensures Safe(w, more, rows, v)
  {
    OneFlushNext(before, FlushHears);
    HeardLeaves(before, v);
    assert more[..|steps|] == steps;
    assert DropsAt(w, more, before.file[0], |steps|);
    forall row | row in rows ensures row in v.file || AnsweredFor(w, more, row) {
      if row !in before.file {
        AnsweredLater(w, steps, FlushHears, row);
      }
    }
  }

  lemma FlushKeepsFile(w: World, s: Step)
    requires OneFlush(w) && Enabled(w, s) && (w.flushes != [] ==> w.file == w.flushes[0].rows) && !s.PageRewrites?
    requires s.FlushHears? ==> w.replies[Waiting(w).value.waiting.value].status >= 500
    ensures Next(w, s).flushes != [] ==> Next(w, s).file == Next(w, s).flushes[0].rows
  {
  }

  lemma OtherwiseSafe(w: World, steps: seq<Step>, rows: seq<Row>, before: World, s: Step)
    requires Safe(w, steps, rows, before) && Enabled(before, s) && !s.PageRewrites?
    requires s.FlushHears? ==> before.replies[Waiting(before).value.waiting.value].status >= 500
    ensures Safe(w, steps + [s], rows, Next(before, s))
  {
    OneFlushNext(before, s);
    WhoWritesTheFile(before, s);
    FlushKeepsFile(before, s);
    forall row | row in rows ensures row in before.file || AnsweredFor(w, steps + [s], row) {
      if row !in before.file {
        AnsweredLater(w, steps, s, row);
      }
    }
  }

  /** Rows the page puts aside while no flush runs stay in the file, whatever the flusher, the network and the server
      do, until the page writes again: each is still there unless a flush was answered below 500 for it. */
  lemma {:induction false} NothingIsLost(w: World, rows: seq<Row>, steps: seq<Step>, v: World)
    requires OneFlush(w) && w.flushes == [] && w.file == rows && Run(w, steps) == Some(v)
    requires forall k :: 0 <= k < |steps| ==> !steps[k].PageRewrites?
    ensures Safe(w, steps, rows, v)
  {
    if steps != [] {
      var m := |steps| - 1;
      var before := Run(w, steps[..m]).value;
      NothingIsLost(w, rows, steps[..m], before);
      assert steps == steps[..m] + [steps[m]];
      if steps[m].FlushHears? && before.replies[Waiting(before).value.waiting.value].status < 500 {
        HeardSafe(w, steps[..m], rows, before, v, steps);
      } else {
        OtherwiseSafe(w, steps[..m], rows, before, steps[m]);
      }
    }
  }

  lemma Take(start: World, steps: seq<Step>, w: World, s: Step) returns (more: seq<Step>, v: World)
    requires Run(start, steps) == Some(w) && Enabled(w, s)
    ensures more == steps + [s] && v == Next(w, s) && Run(start, more) == Some(v)
  {
    more, v := steps + [s], Next(w, s);
    assert more[..|steps|] == steps;
  }

  lemma Aside(row: Row) returns (steps: seq<Step>, w: World)
    ensures steps == [PageRewrites([row])] && w == Empty.(file := [row], rewritten := true)
    ensures Run(Empty, steps) == Some(w)
  {
    steps, w := Take(Empty, [], Empty, PageRewrites([row]));
  }

  /** The page puts a row aside, and the flusher takes it up. */
  lemma TakenUp(row: Row) returns (steps: seq<Step>, w: World)
    ensures Run(Empty, steps) == Some(w) && steps == [PageRewrites([row]), TimerFires(true)]
    ensures w == Empty.(file := [row], flushing := true, flushes := [Flush([row], [row], None)])
  {
    var before: World;
    steps, before := Aside(row);
    steps, w := Take(Empty, steps, before, TimerFires(true));
    assert w.flushes == [Flush([row], [row], None)];
  }

  lemma SentByFlush(row: Row) returns (steps: seq<Step>, w: World)
    ensures Run(Empty, steps) == Some(w) && steps == [PageRewrites([row]), TimerFires(true), FlushSends]
    ensures w == Empty.(file := [row], flushing := true, flushes := [Flush([row], [row], Some(0))],
                        sent := map[0 := row], next := 1)
  {
    var before: World;
    steps, before := TakenUp(row);
    steps, w := Take(Empty, steps, before, FlushSends);
    assert w.flushes == [Flush([row], [row], Some(0))] && w.sent == map[0 := row];
  }

  lemma AnsweredMeanwhile(first: Row, second: Row) returns (steps: seq<Step>, w: World)
    ensures Run(Empty, steps) == Some(w)
    ensures steps
      == [PageRewrites([first]), TimerFires(true), FlushSends, PageRewrites([first, second]), Arrives(0),
          HandlerEnds(0, 200, true, true)]
    ensures w.flushes == [Flush([first], [first], Some(0))] && w.replies == map[0 := Reply(first, 200, true)]
    ensures w.effects == [first.key]
  {
    steps, w := SentByFlush(first);
    steps, w := Take(Empty, steps, w, PageRewrites([first, second]));
    steps, w := Take(Empty, steps, w, Arrives(0));
    assert w.working == map[0 := first] && w.store == map[first.key := Claimed(first.request)];
    steps, w := Take(Empty, steps, w, HandlerEnds(0, 200, true, true));
  }

  /** A write the page put aside while the flush waited is gone from the file once the answer comes. */
  lemma RewriteLost(first: Row, second: Row) returns (steps: seq<Step>, v: World)
    requires first != second
    ensures TidyEach(steps) && Run(Empty, steps) == Some(v)
    ensures PageRewrites([first, second]) in steps && v.file == [] && v.effects == [first.key]
  {
    var w: World;
    steps, w := AnsweredMeanwhile(first, second);
    steps, v := Take(Empty, steps, w, FlushHears);
    assert steps[3] == PageRewrites([first, second]);
  }

  /** No step of the run that the server does not count on, whatever state it is taken in. */
  predicate TidyEach(steps: seq<Step>)
  {
    forall k :: 0 <= k < |steps| ==>
      match steps[k]
      case HandlerEnds(_, status, took, recorded) => took ==> status < 500 && recorded
      case ClaimSwept(_) => false
      case ReceiptPurged(_) => false
      case _ => true
  }

  lemma AnsweredInFlight(row: Row) returns (steps: seq<Step>, w: World)
    ensures Run(Empty, steps) == Some(w)
    ensures steps == [PageRewrites([row]), TimerFires(true), FlushSends, PageSends(row), Arrives(1), Arrives(0)]
    ensures w.flushes == [Flush([row], [row], Some(0))] && w.replies == map[0 := Reply(row, 409, false)]
    ensures w.effects == []
    ensures w.working == map[1 := row] && w.store == map[row.key := Claimed(row.request)]
  {
    steps, w := SentByFlush(row);
    steps, w := Take(Empty, steps, w, PageSends(row));
    steps, w := Take(Empty, steps, w, Arrives(1));
    assert w.sent == map[0 := row] && w.working == map[1 := row] && w.store == map[row.key := Claimed(row.request)];
    steps, w := Take(Empty, steps, w, Arrives(0));
  }

  /** A row answered "still being processed" is dropped, though the attempt in progress may yet come to nothing. */
  lemma DroppedUnsettled(row: Row) returns (steps: seq<Step>, v: World)
    ensures TidyEach(steps) && Run(Empty, steps) == Some(v)
    ensures v.file == [] && v.flushes == [Flush([row], [], None)] && v.effects == [] && row.key !in v.store
  {
    var w: World;
    steps, w := AnsweredInFlight(row);
    steps, w := Take(Empty, steps, w, FlushHears);
    steps, v := Take(Empty, steps, w, HandlerEnds(1, 503, false, true));
  }

  // --- what a dropped row can count on --------------------------------------

  ghost predicate HasReceipt(w: World, r: Reply)
  {
    r.row.key in w.store && w.store[r.row.key] == Answered(r.row.request, r.status)
  }

  /** Every settled answer has its receipt in the store, until its key is retired. */
  ghost predicate Receipted(w: World)
  {
    && (forall id :: id in w.replies && w.replies[id].settled ==>
          HasReceipt(w, w.replies[id]) || w.replies[id].row.key in w.retired)
    && (forall key :: key in w.store && w.store[key].Answered? ==> w.store[key].status < 500)
  }

  ghost predicate SameRequest(w: World)
  {
    forall id :: id in w.working ==>
      w.working[id].key in w.store && w.store[w.working[id].key] == Claimed(w.working[id].request)
  }

  ghost predicate Kept(w: World) { Receipted(w) && SameRequest(w) && Accounted(w) && Posted(w) }

  lemma ArriveKept(w: World, id: nat)
    requires Kept(w) && id in w.sent
    ensures Receipted(Arrive(w, id)) && SameRequest(Arrive(w, id))
  {
  }

  lemma EndKept(w: World, id: nat, status: nat, took: bool, recorded: bool)
    requires Kept(w) && id in w.working
    ensures Receipted(End(w, id, status, took, recorded)) && SameRequest(End(w, id, status, took, recorded))
  {
    var row := w.working[id];
    assert w.store[row.key] == Claimed(row.request);
    assert forall other :: other in w.replies && w.replies[other].settled ==> w.replies[other].row.key != row.key;
  }

  /** A step that leaves the receipts, the answers and the work alone. */
  lemma QuietKept(w: World, v: World)
    requires Receipted(w) && SameRequest(w)
    requires v.replies == w.replies && v.store == w.store && v.retired == w.retired && v.working == w.working
    ensures Receipted(v) && SameRequest(v)
  {
  }

  predicate AtTheServer(s: Step) { s.TurnedAway? || s.HandlerKilled? || s.ClaimSwept? || s.ReceiptPurged? }

  lemma HeardQuiet(w: World, f: Flush, status: nat, v: World)
    requires w.flushes != [] && f.rows != [] && v == Heard(w, f, status)
    ensures v.replies == w.replies && v.store == w.store && v.retired == w.retired && v.working == w.working
  {
  }

  lemma QuietStep(w: World, s: Step, v: World)
    requires Enabled(w, s) && v == Next(w, s) && !s.Arrives? && !s.HandlerEnds? && !AtTheServer(s)
    ensures v.replies == w.replies && v.store == w.store && v.retired == w.retired && v.working == w.working
  {
    match s
    case FlushHears =>
      HeardQuiet(w, Waiting(w).value, w.replies[Waiting(w).value.waiting.value].status, v);
    case FlushSends =>
    case TimerFires(_) =>
    case _ =>
  }

  lemma ServerKept(w: World, s: Step, v: World)
    requires Kept(w) && Enabled(w, s) && Tidy(w, s) && AtTheServer(s) && v == Next(w, s)
    ensures Receipted(v) && SameRequest(v)
  {
  }

  lemma OthersKept(w: World, s: Step, v: World)
    requires Kept(w) && Enabled(w, s) && Tidy(w, s) && !s.Arrives? && !s.HandlerEnds? && v == Next(w, s)
    ensures Receipted(v) && SameRequest(v)
  {
    if AtTheServer(s) {
      ServerKept(w, s, v);
    } else {
      QuietStep(w, s, v);
      QuietKept(w, v);
    }
  }

  lemma ReceiptsNext(w: World, s: Step)
    requires Kept(w) && Enabled(w, s) && Tidy(w, s)
    ensures Receipted(Next(w, s)) && SameRequest(Next(w, s))
  {
    match s
    case Arrives(id) => ArriveKept(w, id);
    case HandlerEnds(id, status, took, recorded) => EndKept(w, id, status, took, recorded);
    case _ => OthersKept(w, s, Next(w, s));
  }

  lemma KeptNext(w: World, s: Step)
    requires Kept(w) && Enabled(w, s) && Tidy(w, s)
    ensures Kept(Next(w, s))
  {
    AccountedNext(w, s);
    PostedNext(w, s);
    ReceiptsNext(w, s);
  }

  /** Every settled answer a request has had is the receipt under its key, for as long as the key may be asked for. */
  lemma {:induction false} SettledForGood(w: World, steps: seq<Step>, v: World)
    requires Kept(w) && TidyRun(w, steps) && Run(w, steps) == Some(v)
    ensures Kept(v)
  {
    if steps != [] {
      var m := |steps| - 1;
      var before := Run(w, steps[..m]).value;
      assert forall k :: 0 <= k < m ==> steps[..m][..k] == steps[..k];
      SettledForGood(w, steps[..m], before);
      assert Tidy(before, steps[m]);
      KeptNext(before, steps[m]);
    }
  }

  /** A row that has had a settled answer is answered the same again, out of the store, and nothing is done for it; and
      while its first attempt is at work, or for another request under its key, it is answered 409. */
  lemma AskedAgain(w: World, id: nat, first: Reply)
    requires Kept(w) && id in w.sent && first.row.key == w.sent[id].key
    requires first.settled && first.row.key !in w.retired
    requires exists other :: other in w.replies && w.replies[other] == first
    ensures Enabled(w, Arrives(id)) && id in Next(w, Arrives(id)).replies
    ensures Next(w, Arrives(id)).working == w.working && Next(w, Arrives(id)).effects == w.effects
    ensures Next(w, Arrives(id)).replies[id]
         == if first.row.request == w.sent[id].request then Reply(w.sent[id], first.status, true)
            else Reply(w.sent[id], 409, false)
  {
  }

  lemma AskedMeanwhile(w: World, id: nat, other: nat)
    requires Kept(w) && id in w.sent && other in w.working && w.working[other].key == w.sent[id].key
    ensures Enabled(w, Arrives(id)) && id in Next(w, Arrives(id)).replies
    ensures Next(w, Arrives(id)).working == w.working && Next(w, Arrives(id)).effects == w.effects
    ensures Next(w, Arrives(id)).replies[id] == Reply(w.sent[id], 409, false)
  {
  }

  // --- each thing the server counts on is needed ----------------------------

  /** One request of the row is worked on, and a second is on its way. */
  lemma TwoRequests(row: Row) returns (steps: seq<Step>, w: World)
    ensures Run(Empty, steps) == Some(w)
    ensures w == World([], false, [], false, map[1 := row], map[], 2, map[row.key := Claimed(row.request)],
                       map[0 := row], [], {})
  {
    steps, w := Take(Empty, [], Empty, PageSends(row));
    steps, w := Take(Empty, steps, w, PageSends(row));
    assert w.sent == map[0 := row, 1 := row];
    steps, w := Take(Empty, steps, w, Arrives(0));
    assert w.sent == map[1 := row];
  }

  /** Once the key is free again, the request on its way takes effect again. */
  lemma TakesEffectAgain(row: Row, steps: seq<Step>, w: World) returns (more: seq<Step>, v: World)
    requires Run(Empty, steps) == Some(w) && 1 in w.sent && w.sent[1] == row && row.key !in w.store
    requires w.effects == [row.key]
    ensures Run(Empty, more) == Some(v) && v.effects == [row.key, row.key]
  {
    more, v := Take(Empty, steps, w, Arrives(1));
    more, v := Take(Empty, more, v, HandlerEnds(1, 200, true, true));
  }

  /** A handler that takes effect and answers 500 or more lets a retry take effect again. */
  lemma FailedButDone(row: Row, status: nat) returns (steps: seq<Step>, v: World)
    requires status >= 500
    ensures Run(Empty, steps) == Some(v) && v.effects == [row.key, row.key]
  {
    var w: World;
    steps, w := TwoRequests(row);
    steps, w := Take(Empty, steps, w, HandlerEnds(0, status, true, true));
    steps, v := TakesEffectAgain(row, steps, w);
  }

  /** So does one whose last word is not recorded, once its claim is swept. */
  lemma DoneNotRecorded(row: Row) returns (steps: seq<Step>, v: World)
    ensures Run(Empty, steps) == Some(v) && v.effects == [row.key, row.key]
  {
    var w: World;
    steps, w := TwoRequests(row);
    steps, w := Take(Empty, steps, w, HandlerEnds(0, 200, true, false));
    steps, w := Take(Empty, steps, w, ClaimSwept(row.key));
    steps, v := TakesEffectAgain(row, steps, w);
  }

  /** So does a receipt purged while its row may still come. */
  lemma PurgedTooSoon(row: Row) returns (steps: seq<Step>, v: World)
    ensures Run(Empty, steps) == Some(v) && v.effects == [row.key, row.key]
  {
    var w: World;
    steps, w := TwoRequests(row);
    steps, w := Take(Empty, steps, w, HandlerEnds(0, 200, true, true));
    steps, w := Take(Empty, steps, w, ReceiptPurged(row.key));
    steps, v := TakesEffectAgain(row, steps, w);
  }

  /** So does a claim swept while the first attempt is still at work. */
  lemma SweptAtWork(row: Row) returns (steps: seq<Step>, v: World)
    ensures Run(Empty, steps) == Some(v) && v.effects == [row.key, row.key]
  {
    var w: World;
    steps, w := TwoRequests(row);
    steps, w := Take(Empty, steps, w, ClaimSwept(row.key));
    steps, w := Take(Empty, steps, w, Arrives(1));
    assert w.working == map[0 := row, 1 := row];
    steps, w := Take(Empty, steps, w, HandlerEnds(0, 200, true, true));
    assert w.working == map[1 := row];
    steps, v := Take(Empty, steps, w, HandlerEnds(1, 200, true, true));
  }

  lemma TakeTidily(start: World, steps: seq<Step>, w: World, s: Step) returns (more: seq<Step>, v: World)
    requires Run(start, steps) == Some(w) && TidyRun(start, steps) && Enabled(w, s) && Tidy(w, s)
    ensures more == steps + [s] && v == Next(w, s) && Run(start, more) == Some(v) && TidyRun(start, more)
  {
    more, v := Take(start, steps, w, s);
    forall k | 0 <= k < |more| && Run(start, more[..k]).Some? ensures Tidy(Run(start, more[..k]).value, more[k]) {
      if k < |steps| {
        assert more[..k] == steps[..k];
      } else {
        assert more[..k] == steps;
      }
    }
  }

  /** A receipt may go once its row is done with: a tidy run that deletes the receipt of a write that took effect. */
  lemma PurgedInTime(row: Row) returns (steps: seq<Step>, v: World)
    ensures Run(Empty, steps) == Some(v) && TidyRun(Empty, steps)
    ensures ReceiptPurged(row.key) in steps && v.effects == [row.key] && row.key !in v.store
  {
    var w: World;
    steps, w := TakeTidily(Empty, [], Empty, PageSends(row));
    steps, w := TakeTidily(Empty, steps, w, Arrives(0));
    assert w.sent == map[] && w.working == map[0 := row];
    steps, w := TakeTidily(Empty, steps, w, HandlerEnds(0, 200, true, true));
    assert w.working == map[];
    steps, v := TakeTidily(Empty, steps, w, ReceiptPurged(row.key));
    assert steps[3] == ReceiptPurged(row.key);
  }
}
