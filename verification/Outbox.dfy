/**
The desktop outbox: a background flusher that sends the page's waiting writes,
a page that rewrites the same file and sends the same rows itself, a network
that loses requests and replies, and a server that keeps one receipt for each
idempotency key. Each step below is what one of them does between two waits.
*/
module Outbox {
  import opened Tables

  /** A waiting write: its key, minted once, and the request it names. */
  datatype Row = Row(key: nat, request: nat)

  /** One run of the flusher: the rows it read, those it still holds, and the request it waits on. */
  datatype Flush = Flush(took: seq<Row>, rows: seq<Row>, waiting: Option<nat>)

  datatype Receipt = Claimed(request: nat) | Answered(request: nat, status: nat)

  /** `settled` says the answer is a stored receipt, not a refusal given before or beside the work. */
  datatype Reply = Reply(row: Row, status: nat, settled: bool)

  datatype World = World(
    file: seq<Row>, flushing: bool, flushes: seq<Flush>, rewritten: bool,
    sent: map<nat, Row>, replies: map<nat, Reply>, next: nat,
    store: map<nat, Receipt>, working: map<nat, Row>, effects: seq<nat>, retired: set<nat>)

  datatype Step =
    | PageRewrites(rows: seq<Row>)
    | PageSends(row: Row)
    | TimerFires(hidden: bool)
    | FlushSends
    | FlushHears
    | FlushHearsNothing
    | FlushEnds
    | Arrives(id: nat)
    | TurnedAway(id: nat, status: nat)
    | HandlerEnds(id: nat, status: nat, took: bool, recorded: bool)
    | HandlerKilled(id: nat)
    | ClaimSwept(key: nat)
    | ReceiptPurged(key: nat)

  // --- the flusher ----------------------------------------------------------

  function Start(w: World, hidden: bool): World
  {
    if !hidden || w.flushing then w
    else w.(flushing := true, rewritten := false, flushes := w.flushes + [Flush(w.file, w.file, None)])
  }

  function Waiting(w: World): Option<Flush>
  {
    if w.flushes == [] then None else Some(w.flushes[|w.flushes| - 1])
  }

  function WithFlush(w: World, f: Flush): World
    requires w.flushes != []
  {
    w.(flushes := w.flushes[|w.flushes| - 1 := f])
  }

  function EndFlush(w: World): World
    requires w.flushes != []
  {
    w.(flushing := false, flushes := w.flushes[..|w.flushes| - 1])
  }

  /** The answer to the row in front: below 500 the row is dropped and what is left is written over the file. */
  function Heard(w: World, f: Flush, status: nat): World
    requires w.flushes != [] && f.rows != []
  {
    if status >= 500 then EndFlush(w)
    else WithFlush(w, f.(rows := f.rows[1..], waiting := None)).(file := f.rows[1..])
  }

  // --- the server -----------------------------------------------------------

  /** One request is answered from the store, told to wait, refused, or claimed and begun. */
  function Arrive(w: World, id: nat): World
    requires id in w.sent
  {
    var row := w.sent[id];
    if row.key !in w.store then
      w.(store := w.store[row.key := Claimed(row.request)], working := w.working[id := row], sent := w.sent - {id})
    else
      var known := w.store[row.key];
      var reply :=
        if known.request != row.request then Reply(row, 409, false)
        else if known.Claimed? then Reply(row, 409, false)
        else Reply(row, known.status, true);
      w.(replies := w.replies[id := reply], sent := w.sent - {id})
  }

  /** The handler ends: a settled answer is stored, one of 500 or more releases the claim. `recorded` is whether that
      last word reached the database. */
  function End(w: World, id: nat, status: nat, took: bool, recorded: bool): World
    requires id in w.working
  {
    var row := w.working[id];
    var done := w.(working := w.working - {id}, effects := if took then w.effects + [row.key] else w.effects,
                   replies := w.replies[id := Reply(row, status, recorded && status < 500)]);
    if !recorded then done
    else if status >= 500 then done.(store := w.store - {row.key})
    else if row.key in w.store then done.(store := w.store[row.key := Answered(w.store[row.key].request, status)])
    else done
  }

  // --- steps ----------------------------------------------------------------

  predicate Enabled(w: World, s: Step)
  {
    match s
    case PageRewrites(_) => true
    case PageSends(_) => true
    case TimerFires(_) => true
    case FlushSends => Waiting(w).Some? && Waiting(w).value.waiting == None && Waiting(w).value.rows != []
    case FlushHears =>
      && Waiting(w).Some? && Waiting(w).value.waiting.Some? && Waiting(w).value.rows != []
      && Waiting(w).value.waiting.value in w.replies
    case FlushHearsNothing => Waiting(w).Some? && Waiting(w).value.waiting.Some?
    case FlushEnds => Waiting(w).Some? && Waiting(w).value.waiting == None && Waiting(w).value.rows == []
    case Arrives(id) => id in w.sent
    case TurnedAway(id, status) => id in w.sent
    case HandlerEnds(id, _, _, _) => id in w.working
    case HandlerKilled(id) => id in w.working
    case ClaimSwept(key) => key in w.store && w.store[key].Claimed?
    case ReceiptPurged(key) => key in w.store && w.store[key].Answered?
  }

  function Next(w: World, s: Step): World
    requires Enabled(w, s)
  {
    match s
    case PageRewrites(rows) => w.(file := rows, rewritten := true)
    case PageSends(row) => w.(sent := w.sent[w.next := row], next := w.next + 1)
    case TimerFires(hidden) => Start(w, hidden)
    case FlushSends =>
      var f := Waiting(w).value;
      WithFlush(w, f.(waiting := Some(w.next))).(sent := w.sent[w.next := f.rows[0]], next := w.next + 1)
    case FlushHears => Heard(w, Waiting(w).value, w.replies[Waiting(w).value.waiting.value].status)
    case FlushHearsNothing => EndFlush(w)
    case FlushEnds => EndFlush(w)
    case Arrives(id) => Arrive(w, id)
    case TurnedAway(id, status) =>
      w.(replies := w.replies[id := Reply(w.sent[id], status, false)], sent := w.sent - {id})
    case HandlerEnds(id, status, took, recorded) => End(w, id, status, took, recorded)
    case HandlerKilled(id) => w.(working := w.working - {id})
    case ClaimSwept(key) => w.(store := w.store - {key})
    case ReceiptPurged(key) => w.(store := w.store - {key}, retired := w.retired + {key})
  }

  /** The world after a run, or None when a step of it could not be taken. */
  function Run(w: World, steps: seq<Step>): Option<World>
  {
    if steps == [] then Some(w)
    else
      var before :- Run(w, steps[..|steps| - 1]);
      var s := steps[|steps| - 1];
      if Enabled(before, s) then Some(Next(before, s)) else None
  }

  const Empty := World([], false, [], false, map[], map[], 0, map[], map[], [], {})

  // --- at most once ---------------------------------------------------------

  /** A request under the key is on its way or being worked on. */
  predicate Pending(w: World, key: nat)
  {
    || (exists id :: id in w.sent && w.sent[id].key == key)
    || (exists id :: id in w.working && w.working[id].key == key)
  }

  /** What the server counts on: a handler that answers 500 or more has done nothing, its last word is recorded, a claim
      is swept only when nobody works on it, and a receipt is purged only when no request of its key is pending and none
      is sent afterwards. */
  predicate Tidy(w: World, s: Step)
  {
    match s
    case PageSends(row) => row.key !in w.retired
    case FlushSends => Enabled(w, s) ==> Waiting(w).value.rows[0].key !in w.retired
    case HandlerEnds(_, status, took, recorded) => took ==> status < 500 && recorded
    case ClaimSwept(key) => forall id :: id in w.working ==> w.working[id].key != key
    case ReceiptPurged(key) => !Pending(w, key)
    case _ => true
  }

  ghost predicate TidyRun(w: World, steps: seq<Step>)
  {
    forall k :: 0 <= k < |steps| && Run(w, steps[..k]).Some? ==> Tidy(Run(w, steps[..k]).value, steps[k])
  }

  ghost predicate OnceEach(effects: seq<nat>) { forall j, k :: 0 <= j < k < |effects| ==> effects[j] != effects[k] }

  /** Whatever has taken effect has its receipt or will not be asked for again, and whatever is worked on is only
      claimed. */
  ghost predicate Accounted(w: World)
  {
    && OnceEach(w.effects)
    && (forall key :: key in w.effects ==> key in w.retired || (key in w.store && w.store[key].Answered?))
    && (forall id :: id in w.sent ==> w.sent[id].key !in w.retired)
    && (forall id :: id in w.working ==> w.working[id].key !in w.retired)
    && (forall id :: id in w.working ==> w.working[id].key in w.store && w.store[w.working[id].key].Claimed?)
    && (forall id, other :: id in w.working && other in w.working && id != other ==>
        w.working[id].key != w.working[other].key)
  }

  /** Request ids are drawn once: one that waits to be answered has no answer yet. */
  ghost predicate Posted(w: World)
  {
    && (forall id :: id in w.sent ==> id < w.next && id !in w.replies)
    && (forall id :: id in w.replies ==> id < w.next)
    && (forall id :: id in w.working ==> id < w.next && id !in w.sent && id !in w.replies)
  }

  lemma ArrivePosted(w: World, id: nat)
    requires Posted(w) && id in w.sent
    ensures Posted(Arrive(w, id))
  {
  }

  lemma EndPosted(w: World, id: nat, status: nat, took: bool, recorded: bool)
    requires Posted(w) && id in w.working
    ensures Posted(End(w, id, status, took, recorded))
  {
  }

  lemma PostedNext(w: World, s: Step)
    requires Posted(w) && Enabled(w, s)
    ensures Posted(Next(w, s))
  {
    match s
    case Arrives(id) => ArrivePosted(w, id);
    case HandlerEnds(id, status, took, recorded) => EndPosted(w, id, status, took, recorded);
    case _ =>
  }

  lemma ArriveAccounted(w: World, id: nat)
    requires Accounted(w) && Posted(w) && id in w.sent
    ensures Accounted(Arrive(w, id))
  {
  }

  lemma EndAccounted(w: World, id: nat, status: nat, took: bool, recorded: bool)
    requires Accounted(w) && id in w.working && (took ==> status < 500 && recorded)
    ensures Accounted(End(w, id, status, took, recorded))
  {
    assert w.working[id].key !in w.effects;
  }

  lemma PurgeAccounted(w: World, key: nat)
    requires Accounted(w) && key in w.store && w.store[key].Answered? && !Pending(w, key)
    ensures Accounted(Next(w, ReceiptPurged(key)))
  {
  }

  /** A step that leaves the server and the network alone. */
  lemma QuietAccounted(w: World, v: World)
    requires Accounted(w) && v.effects == w.effects && v.store == w.store && v.retired == w.retired
    requires v.sent == w.sent && v.working == w.working
    ensures Accounted(v)
  {
  }

  /** A request sent under a key that is not retired. */
  lemma SentAccounted(w: World, v: World, row: Row)
    requires Accounted(w) && row.key !in w.retired && v.sent == w.sent[w.next := row]
    requires v.effects == w.effects && v.store == w.store && v.retired == w.retired && v.working == w.working
    ensures Accounted(v)
  {
  }

  lemma DroppedAccounted(w: World, s: Step)
    requires Accounted(w) && Enabled(w, s) && Tidy(w, s) && (s.TurnedAway? || s.HandlerKilled? || s.ClaimSwept?)
    ensures Accounted(Next(w, s))
  {
  }

  lemma OthersAccounted(w: World, s: Step)
    requires Accounted(w) && Enabled(w, s) && Tidy(w, s) && !s.Arrives? && !s.HandlerEnds? && !s.ReceiptPurged?
    ensures Accounted(Next(w, s))
  {
    if s.PageSends? {
      SentAccounted(w, Next(w, s), s.row);
    } else if s.FlushSends? {
      SentAccounted(w, Next(w, s), Waiting(w).value.rows[0]);
    } else if s.TurnedAway? || s.HandlerKilled? || s.ClaimSwept? {
      DroppedAccounted(w, s);
    } else {
      QuietAccounted(w, Next(w, s));
    }
  }

  lemma AccountedNext(w: World, s: Step)
    requires Accounted(w) && Posted(w) && Enabled(w, s) && Tidy(w, s)
    ensures Accounted(Next(w, s))
  {
    match s
    case Arrives(id) => ArriveAccounted(w, id);
    case HandlerEnds(id, status, took, recorded) => EndAccounted(w, id, status, took, recorded);
    case ReceiptPurged(key) => PurgeAccounted(w, key);
    case _ => OthersAccounted(w, s);
  }

  /** In every interleaving each key takes effect on the server at most once. */
  lemma {:induction false} AtMostOnce(w: World, steps: seq<Step>, v: World)
    requires Accounted(w) && Posted(w) && TidyRun(w, steps) && Run(w, steps) == Some(v)
    ensures Accounted(v) && Posted(v)
  {
    if steps != [] {
      var m := |steps| - 1;
      var before := Run(w, steps[..m]).value;
      assert forall k :: 0 <= k < m ==> steps[..m][..k] == steps[..k];
      AtMostOnce(w, steps[..m], before);
      assert Tidy(before, steps[m]);
      AccountedNext(before, steps[m]);
      PostedNext(before, steps[m]);
    }
  }

  // --- one flush at a time, and what it drops -------------------------------

  /** The rows a flush no longer holds are the first it read, each of them answered below 500 by the server. */
  ghost predicate DropsAnsweredPrefix(w: World, f: Flush)
  {
    && |f.rows| <= |f.took| && f.rows == f.took[|f.took| - |f.rows|..]
    && (forall k :: 0 <= k < |f.took| - |f.rows| ==> AnsweredBelow500(w, f.took[k]))
  }

  ghost predicate AnsweredBelow500(w: World, row: Row)
  {
    exists id :: id in w.replies && w.replies[id].row == row && w.replies[id].status < 500
  }

  ghost predicate WaitsForFront(w: World, f: Flush)
  {
    f.waiting.Some? ==>
      && f.rows != [] && f.waiting.value < w.next
      && (f.waiting.value in w.sent ==> w.sent[f.waiting.value] == f.rows[0])
      && (f.waiting.value in w.replies ==> w.replies[f.waiting.value].row == f.rows[0])
      && (f.waiting.value in w.working ==> w.working[f.waiting.value] == f.rows[0])
  }

  ghost predicate OneFlush(w: World)
  {
    && |w.flushes| <= 1 && (w.flushing <==> |w.flushes| == 1)
    && (w.flushes != [] && !w.rewritten ==> w.file == w.flushes[0].rows)
  }

  ghost predicate Orderly(w: World)
  {
    && OneFlush(w) && Posted(w)
    && (w.flushes != [] ==> DropsAnsweredPrefix(w, w.flushes[0]) && WaitsForFront(w, w.flushes[0]))
  }

  lemma AnsweredStays(w: World, v: World, f: Flush)
    requires DropsAnsweredPrefix(w, f)
    requires forall id :: id in w.replies ==> id in v.replies && v.replies[id] == w.replies[id]
    ensures DropsAnsweredPrefix(v, f)
  {
    forall k | 0 <= k < |f.took| - |f.rows| ensures AnsweredBelow500(v, f.took[k]) {
      assert AnsweredBelow500(w, f.took[k]);
      var id :| id in w.replies && w.replies[id].row == f.took[k] && w.replies[id].status < 500;
      assert id in v.replies;
    }
  }

  lemma HearsDropsFront(w: World, f: Flush)
    requires DropsAnsweredPrefix(w, f) && f.rows != [] && AnsweredBelow500(w, f.rows[0])
    ensures DropsAnsweredPrefix(w, f.(rows := f.rows[1..], waiting := None))
  {
  }

  lemma OneFlushNext(w: World, s: Step)
    requires OneFlush(w) && Enabled(w, s)
    ensures OneFlush(Next(w, s))
  {
  }

  lemma RepliesStay(w: World, s: Step)
    requires Posted(w) && Enabled(w, s)
    ensures forall id :: id in w.replies ==> id in Next(w, s).replies && Next(w, s).replies[id] == w.replies[id]
  {
  }

  /** Nobody else's step changes what the flush holds, or answers its request with another row's answer. */
  lemma WaitsOn(w: World, s: Step)
    requires Posted(w) && OneFlush(w) && w.flushes != [] && WaitsForFront(w, w.flushes[0]) && Enabled(w, s)
    requires !s.FlushSends? && !s.FlushHears? && !s.FlushHearsNothing? && !s.FlushEnds?
    ensures Next(w, s).flushes == w.flushes && WaitsForFront(Next(w, s), w.flushes[0])
  {
  }

  lemma FlushStepOrderly(w: World, s: Step)
    requires Orderly(w) && w.flushes != [] && Enabled(w, s)
    requires s.FlushSends? || s.FlushHears? || s.FlushHearsNothing? || s.FlushEnds?
    ensures
      var v := Next(w, s);
      v.flushes != [] ==> DropsAnsweredPrefix(v, v.flushes[0]) && WaitsForFront(v, v.flushes[0])
  {
    var f, v := w.flushes[0], Next(w, s);
    if s.FlushHears? && w.replies[f.waiting.value].status < 500 {
      HearsDropsFront(w, f);
      AnsweredStays(w, v, f.(rows := f.rows[1..], waiting := None));
    } else if s.FlushSends? {
      AnsweredStays(w, v, f);
      AnsweredStays(v, v, f);
      assert v.flushes[0] == f.(waiting := Some(w.next));
      assert DropsAnsweredPrefix(v, v.flushes[0]);
    }
  }

  lemma OrderlyNext(w: World, s: Step)
    requires Orderly(w) && Enabled(w, s)
    ensures Orderly(Next(w, s))
  {
    OneFlushNext(w, s);
    PostedNext(w, s);
    if w.flushes == [] {
      StartOrderly(w, s);
    } else if s.FlushSends? || s.FlushHears? || s.FlushHearsNothing? || s.FlushEnds? {
      FlushStepOrderly(w, s);
    } else {
      WaitsOn(w, s);
      RepliesStay(w, s);
      AnsweredStays(w, Next(w, s), w.flushes[0]);
    }
  }

  lemma StartOrderly(w: World, s: Step)
    requires OneFlush(w) && w.flushes == [] && Enabled(w, s)
    ensures
      var v := Next(w, s);
      v.flushes != [] ==> DropsAnsweredPrefix(v, v.flushes[0]) && WaitsForFront(v, v.flushes[0])
  {
  }

  /** In every interleaving at most one flush runs, and the rows it has dropped are the first of those it read, in
      order, each answered below 500. */
  lemma {:induction false} OneOrderlyFlush(w: World, steps: seq<Step>, v: World)
    requires Orderly(w) && Run(w, steps) == Some(v)
    ensures Orderly(v)
  {
    if steps != [] {
      var m := |steps| - 1;
      OneOrderlyFlush(w, steps[..m], Run(w, steps[..m]).value);
      OrderlyNext(Run(w, steps[..m]).value, steps[m]);
    }
  }
}
