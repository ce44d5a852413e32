/**
The flusher's side of the desktop bridge, as the main process keeps it: the
file, the flag that lets one flush run at a time, and the rows a flush still
holds. Each method is what runs between two waits.
*/
module Bridge {
  import opened Tables
  import opened Outbox

  class Shell {
    var file: seq<Row>
    var flushing: bool
    var rows: seq<Row>
    var sending: Option<nat>
    ghost var took: seq<Row>
    ghost var rewritten: bool

    /** The world as these fields see it, everything else being `w`'s. */
    ghost function In(w: World): World
      reads this
    {
      w.(file := file, flushing := flushing, rewritten := rewritten,
         flushes := if flushing then [Flush(took, rows, sending)] else [])
    }

    constructor (waiting: seq<Row>)
      ensures !flushing && file == waiting
    {
      file, flushing, rows, sending, took, rewritten := waiting, false, [], None, [], false;
    }

    /** The page's rows, only those under /api/ kept, written over whatever is there. */
    method OutboxChanged(waiting: seq<Row>)
      modifies this
      ensures forall w: World :: In(w) == Next(old(In(w)), PageRewrites(waiting))
      ensures file == waiting && flushing == old(flushing) && rows == old(rows)
    {
      file := waiting;
      rewritten := true;
    }

    /** The timer: nothing while the window shows, or while a flush is running. */
    method Tick(hidden: bool)
      modifies this
      ensures forall w: World :: In(w) == Next(old(In(w)), TimerFires(hidden))
      ensures file == old(file) && (flushing <==> old(flushing) || hidden)
      ensures flushing && !old(flushing) ==> rows == file && sending == None
      ensures old(flushing) ==> rows == old(rows) && sending == old(sending)
    {
      if !hidden || flushing {
        return;
      }
      flushing := true;
      rows, sending, took, rewritten := file, None, file, false;
    }

    /** The top of the loop: the row in front is sent under request `id`, or the flush is over. */
    method Loop(id: nat) returns (send: Option<Row>)
      requires flushing && sending == None
      modifies this
      ensures send == if old(rows) == [] then None else Some(old(rows)[0])
      ensures file == old(file)
      ensures send.None? ==> forall w: World :: In(w) == Next(old(In(w)), FlushEnds)
      ensures send.Some? ==> forall w: World :: w.next == id ==>
        In(w).(sent := w.sent[id := send.value], next := id + 1) == Next(old(In(w)), FlushSends)
    {
      if rows == [] {
        flushing := false;
        return None;
      }
      sending := Some(id);
      return Some(rows[0]);
    }

    /** The request is answered: 500 or more stops the flush, anything else drops the row and writes what is left. */
    method Answered(status: nat)
      requires flushing && sending.Some? && rows != []
      modifies this
      ensures forall w: World :: old(sending).value in w.replies && w.replies[old(sending).value].status == status ==>
        In(w) == Next(old(In(w)), FlushHears)
      ensures flushing <==> status < 500
      ensures file == if status < 500 then old(rows)[1..] else old(file)
      ensures flushing ==> sending == None && rows == old(rows)[1..]
    {
      if status >= 500 {
        flushing := false;
        return;
      }
      rows := rows[1..];
      sending := None;
      file := rows;
    }

    /** The request is not answered. */
    method Failed()
      requires flushing && sending.Some?
      modifies this
      ensures forall w: World :: In(w) == Next(old(In(w)), FlushHearsNothing)
      ensures !flushing && file == old(file)
    {
      flushing := false;
    }
  }
}
