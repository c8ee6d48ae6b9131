/**
 struct blk_flush_queue and the functions that update it in place, each proved to be the step of the machine it
 implements. The BUG_ONs of the C code are assertions or preconditions here, so they never fire.
 */
module FlushQueueObject {
  import opened Lists
  import opened Flush
  import opened FlushLists
  import opened FlushOnce

  /** Walking the rest of the list from here ends where flush_end_io ends. */
  ghost predicate OnTrack(q: Queue, r: int, walk: seq<Id>, ok: bool, c: Clock, end: Queue) {
    && Walking(q, r, walk)
    && (forall id :: id in walk ==> id in q.rqs)
    && CompleteAll(q, walk, ok, c) == end
  }

  lemma StartOfWalk(q: Queue, ok: bool, c: Clock) returns (end: Queue)
    requires Consistent(q) && q.pendingIdx != q.runningIdx
    ensures forall id :: id in q.queue[q.runningIdx] ==> id in q.rqs
    ensures end == FlushEnd(q, ok, c) && Consistent(end)
    ensures OnTrack(Flushed(q, ok), q.runningIdx, q.queue[q.runningIdx], ok, c, end)
  {
    FlushEndKeeps(q, ok, c);
    StartsWalking(q, ok);
    end := FlushEnd(q, ok, c);
  }

  lemma WalkTurn(q: Queue, r: int, walk: seq<Id>, ok: bool, c: Clock, end: Queue) returns (next: Queue)
    requires OnTrack(q, r, walk, ok, c, end) && walk != []
    ensures walk[0] in q.rqs && Flushing(q.rqs[walk[0]].completed)
    ensures next == Flush.CompleteSeq(q, walk[0], MaskOf(CurSeq(q.rqs[walk[0]].completed)), ok, c)
    ensures OnTrack(next, r, walk[1..], ok, c, end)
  {
    next := Flush.CompleteSeq(q, walk[0], MaskOf(CurSeq(q.rqs[walk[0]].completed)), ok, c);
    WalkStep(q, r, walk, ok, c);
    RqsKept(q, walk[0], MaskOf(CurSeq(q.rqs[walk[0]].completed)), ok, c);
  }

  class FlushQueue {
    var flushQueue: seq<seq<Id>>
    var flushDataInFlight: seq<Id>
    var flushPendingIdx: int
    var flushRunningIdx: int
    var flushPendingSince: nat
    var rqs: map<Id, Rq>
    var direct: set<Id>
    var trace: seq<Event>

    ghost function View(): Queue
      reads this
    {
      Queue(flushQueue, flushDataInFlight, flushPendingIdx, flushRunningIdx, flushPendingSince, rqs, direct, trace)
    }

    /** blk_alloc_flush_queue */
    constructor ()
      ensures View() == Empty && Consistent(View())
    {
      flushQueue, flushDataInFlight := [[], []], [];
      flushPendingIdx, flushRunningIdx, flushPendingSince := 0, 0, 0;
      rqs, direct, trace := map[], {}, [];
    }

    /** blk_kick_flush: C1, then C2 and C3, then issue and toggle. */
    method KickFlush(c: Clock) returns (kicked: bool)
      requires Shape(View())
      modifies this
      ensures View() == Kick(old(View()), c)
      ensures kicked <==> flushPendingIdx != old(flushPendingIdx)
    {
      var pending := flushQueue[flushPendingIdx];
      if flushPendingIdx != flushRunningIdx || pending == [] {
        return false;
      }
      if flushDataInFlight != [] && c.jiffies < flushPendingSince + 5 * c.hz {
        return false;
      }
      flushPendingIdx := 1 - flushPendingIdx;
      trace := trace + [FlushIssued];
      return true;
    }

    method UnlinkRq(id: Id)
      requires Shape(View())
      modifies this`flushQueue, this`flushDataInFlight
      ensures View() == Unlink(old(View()), id)
    {
      flushQueue := [Remove(flushQueue[0], id), Remove(flushQueue[1], id)];
      flushDataInFlight := Remove(flushDataInFlight, id);
    }

    method EndBio(id: Id, ok: bool)
      requires id in rqs
      modifies this`rqs, this`trace
      ensures View() == Flush.EndBio(old(View()), id, ok)
    {
      var r := rqs[id];
      if r.bio {
        rqs := rqs[id := r.(bio := false)];
        if !r.flushSeq {
          trace := trace + [Ended(id, ok)];
        }
      }
    }

    /** blk_flush_complete_seq */
    method CompleteSeq(id: Id, done: Mask, ok: bool, c: Clock) returns (queued: bool)
      requires Shape(View()) && id in rqs
      requires !Overlap(rqs[id].completed, done)
      modifies this
      ensures View() == Flush.CompleteSeq(old(View()), id, done, ok, c)
    {
      rqs := rqs[id := rqs[id].(completed := Or(rqs[id].completed, done))];
      var next := if ok then CurSeq(rqs[id].completed) else Done;
      match next {
        case Data =>
          UnlinkRq(id);
          flushDataInFlight := flushDataInFlight + [id];
          trace := trace + [DataIssued(id, false)];
        case Done =>
          UnlinkRq(id);
          rqs := rqs[id := rqs[id].(bio := true, flushSeq := false)];
          EndBio(id, ok);
        case _ =>
          if flushQueue[flushPendingIdx] == [] {
            flushPendingSince := c.jiffies;
          }
          UnlinkRq(id);
          flushQueue := flushQueue[flushPendingIdx := flushQueue[flushPendingIdx] + [id]];
          trace := trace + [QueuedFor(id)];
      }
      var kicked := KickFlush(c);
      queued := kicked || next == Data;
    }

    /** One turn of the loop of flush_end_io. */
    method FinishFlushStep(id: Id, ok: bool, c: Clock, ghost next: Queue)
      requires Shape(View()) && id in rqs && Flushing(rqs[id].completed)
      requires next == Flush.CompleteSeq(View(), id, MaskOf(CurSeq(rqs[id].completed)), ok, c)
      modifies this
      ensures View() == next
    {
      var step := CurSeq(rqs[id].completed);
      assert step == PreFlush || step == PostFlush;
      var _ := CompleteSeq(id, MaskOf(step), ok, c);
    }

    /** The loop of flush_end_io. */
    method WalkRunning(list: seq<Id>, ok: bool, c: Clock, ghost r: int, ghost end: Queue)
      requires OnTrack(View(), r, list, ok, c, end)
      modifies this
      ensures View() == end
    {
      var running := list;
      ghost var q := View();
      while running != []
        invariant q == View() && OnTrack(q, r, running, ok, c, end)
        decreases |running|
      {
        q := WalkTurn(q, r, running, ok, c, end);
        FinishFlushStep(running[0], ok, c, q);
        running := running[1..];
      }
    }

    /** The start of flush_end_io. */
    method SwapLists(ok: bool)
      modifies this`flushRunningIdx, this`trace
      ensures View() == Flushed(old(View()), ok)
    {
      flushRunningIdx := 1 - flushRunningIdx;
      trace := trace + [FlushDone(ok)];
    }

    /** flush_end_io */
    method FlushEndIo(ok: bool, c: Clock)
      requires Consistent(View()) && flushPendingIdx != flushRunningIdx
      modifies this
      ensures forall id :: id in old(flushQueue[flushRunningIdx]) ==> id in old(rqs)
      ensures View() == FlushEnd(old(View()), ok, c)
      ensures Consistent(View())
    {
      ghost var end := StartOfWalk(View(), ok, c);
      ghost var r := flushRunningIdx;
      var running := flushQueue[flushRunningIdx];
      SwapLists(ok);
      WalkRunning(running, ok, c, r, end);
    }

    /** The driver is through with the data of a sequenced request. */
    method FlushDataEndIo(id: Id, ok: bool, stable: bool, c: Clock)
      requires Consistent(View()) && id in flushDataInFlight
      modifies this
      ensures id in old(rqs) && View() == DataEnd(old(View()), id, ok, stable, c)
      ensures Consistent(View())
    {
      DataEndKeeps(View(), id, ok, stable, c);
      assert Placed(View(), id);
      trace := trace + [WriteDone(Own(id), ok, stable)];
      EndBio(id, ok);
      var _ := CompleteSeq(id, MaskOf(Data), ok, c);
    }

    /** blk_insert_flush */
    method InsertFlush(id: Id, req: Request, fflags: DeviceFlags, c: Clock)
      requires Consistent(View()) && id !in rqs && (req.fua ==> req.hasData)
      modifies this
      ensures View() == Insert(old(View()), id, req, fflags, c)
      ensures Consistent(View())
    {
      InsertKeeps(View(), id, req, fflags, c);
      var policy := Policy(fflags, req);
      rqs := rqs[id := NewRq(req, fflags, policy.pre || policy.post)];
      trace := trace + [Inserted(id, req)];
      if !policy.pre && !policy.data && !policy.post {
        EndBio(id, true);
        return;
      }
      if policy.data && !policy.pre && !policy.post {
        direct := direct + {id};
        trace := trace + [DataIssued(id, true)];
        return;
      }
      var _ := CompleteSeq(id, Complement(policy), true, c);
    }
  }
}
