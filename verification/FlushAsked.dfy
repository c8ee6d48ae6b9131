/**
 No needless flush: in every run on a device with given flags, a request waits for a flush at most once for each flush step
 that the device needs for what the request asks, and the device is sent REQ_FUA only if it honours it.
 */
module FlushAsked {
  import opened Lists
  import opened Flush
  import opened FlushLists

  function One(b: bool): nat { if b then 1 else 0 }

  /** The flushes a request needs: one before its data if it asks for REQ_FLUSH and the device has a cache to flush, and one
      after if it asks for REQ_FUA and the device has a cache and does not honour REQ_FUA itself. */
  function Needed(f: DeviceFlags, req: Request): nat { One(f.flush && req.flush) + One(f.flush && req.fua && !f.fua) }

  /** How often a request was queued for a flush. */
  ghost function Waits(tr: seq<Event>, id: Id): nat {
    if tr == [] then 0 else Waits(tr[..|tr| - 1], id) + One(tr[|tr| - 1] == QueuedFor(id))
  }

  lemma WaitsLog(tr: seq<Event>, e: Event, id: Id)
    ensures Waits(tr + [e], id) == Waits(tr, id) + One(e == QueuedFor(id))
  {
    assert (tr + [e])[..|tr|] == tr;
  }

  /** The flush steps it has not taken yet. */
  function Left(r: Rq): nat { if r.flushSeq then One(!r.completed.pre) + One(!r.completed.post) else 0 }

  /** What a request has waited for and may still wait for is what it needs; `queued` says that the wait for its current step
      is counted already. */
  ghost predicate Within(f: DeviceFlags, r: Rq, waits: nat, queued: bool) {
    waits + Left(r) <= Needed(f, r.req) + One(queued) && r.fua == (r.req.fua && f.fua)
  }

  /** Everybody but x. */
  ghost predicate OthersAsked(q: Queue, f: DeviceFlags, x: Id) {
    && Shape(q)
    && (forall id :: id in q.rqs && id != x ==> Within(f, q.rqs[id], Waits(q.trace, id), q.rqs[id].flushSeq && Flushing(q.rqs[id].completed)))
    && (forall id :: id !in q.rqs && id != x ==> Waits(q.trace, id) == 0)
  }

  ghost predicate Asked(q: Queue, f: DeviceFlags) {
    && Shape(q)
    && (forall id :: id in q.rqs ==> Within(f, q.rqs[id], Waits(q.trace, id), q.rqs[id].flushSeq && Flushing(q.rqs[id].completed)))
    && (forall id :: id !in q.rqs ==> Waits(q.trace, id) == 0)
  }

  /** One request changes and one event is logged. */
  lemma OthersKept(q: Queue, n: Queue, f: DeviceFlags, x: Id, e: Event)
    requires OthersAsked(q, f, x) && Shape(n) && n.trace == q.trace + [e] && (e.QueuedFor? ==> e.id == x)
    requires forall id :: id != x ==> (id in n.rqs <==> id in q.rqs) && (id in q.rqs ==> n.rqs[id] == q.rqs[id])
    ensures OthersAsked(n, f, x) && Waits(n.trace, x) == Waits(q.trace, x) + One(e == QueuedFor(x))
  {
    forall id ensures Waits(n.trace, id) == Waits(q.trace, id) + One(e == QueuedFor(id)) {
      WaitsLog(q.trace, e, id);
    }
  }

  lemma AllAsked(q: Queue, f: DeviceFlags, x: Id)
    requires OthersAsked(q, f, x)
    requires if x in q.rqs then Within(f, q.rqs[x], Waits(q.trace, x), q.rqs[x].flushSeq && Flushing(q.rqs[x].completed)) else Waits(q.trace, x) == 0
    ensures Asked(q, f)
  {
  }

  /** The step that was current is recorded, so the wait for it is used up. */
  lemma AdvanceAsked(q: Queue, f: DeviceFlags, id: Id, ok: bool, c: Clock)
    requires OthersAsked(q, f, id) && id in q.rqs && q.rqs[id].flushSeq && Within(f, q.rqs[id], Waits(q.trace, id), false)
    ensures Asked(Advance(q, id, ok, c), f)
  {
    var n := Advance(q, id, ok, c);
    match if ok then CurSeq(q.rqs[id].completed) else Done {
      case PreFlush => OthersKept(q, n, f, id, QueuedFor(id));
      case PostFlush => OthersKept(q, n, f, id, QueuedFor(id));
      case Data => OthersKept(q, n, f, id, DataIssued(id, false));
      case Done => OthersKept(q, n, f, id, Ended(id, ok));
    }
    AllAsked(n, f, id);
  }

  lemma LogAsked(q: Queue, n: Queue, f: DeviceFlags, e: Event)
    requires Asked(q, f) && Shape(n) && n.rqs == q.rqs && n.trace == q.trace + [e] && !e.QueuedFor?
    ensures Asked(n, f)
  {
    forall id ensures Waits(n.trace, id) == Waits(q.trace, id) {
      WaitsLog(q.trace, e, id);
    }
  }

  lemma KickAsked(q: Queue, f: DeviceFlags, c: Clock)
    requires Asked(q, f)
    ensures Asked(Kick(q, c), f)
  {
    if Kick(q, c) != q {
      LogAsked(q, Kick(q, c), f, FlushIssued);
    }
  }

  lemma CompleteSeqAsked(q: Queue, f: DeviceFlags, id: Id, done: Mask, ok: bool, c: Clock)
    requires OthersAsked(q, f, id) && id in q.rqs && q.rqs[id].flushSeq && Within(f, Record(q, id, done).rqs[id], Waits(q.trace, id), false)
    ensures Asked(CompleteSeq(q, id, done, ok, c), f)
  {
    var k := Record(q, id, done);
    AdvanceAsked(k, f, id, ok, c);
    KickAsked(Advance(k, id, ok, c), f, c);
  }

  lemma StepUsed(f: DeviceFlags, r: Rq, waits: nat)
    requires r.flushSeq && Within(f, r, waits, Flushing(r.completed))
    ensures Within(f, r.(completed := Or(r.completed, MaskOf(CurSeq(r.completed)))), waits, false)
  {
  }

  lemma {:induction false} WalkAsked(q: Queue, f: DeviceFlags, r: int, walk: seq<Id>, ok: bool, c: Clock)
    requires Walking(q, r, walk) && Asked(q, f) && forall id :: id in walk ==> id in q.rqs
    ensures Asked(CompleteAll(q, walk, ok, c), f)
    decreases |walk|
  {
    if walk != [] {
      var id := walk[0];
      var done := MaskOf(CurSeq(q.rqs[id].completed));
      WalkHead(q, r, walk);
      StepUsed(f, q.rqs[id], Waits(q.trace, id));
      CompleteSeqAsked(q, f, id, done, ok, c);
      WalkStep(q, r, walk, ok, c);
      OneRecorded(q, id, done, ok, c);
      WalkAsked(CompleteSeq(q, id, done, ok, c), f, r, walk[1..], ok, c);
    }
  }

  lemma BioAsked(q: Queue, f: DeviceFlags, id: Id)
    requires Asked(q, f) && id in q.rqs
    ensures Asked(q.(rqs := q.rqs[id := q.rqs[id].(bio := false)]), f)
  {
    var n := q.(rqs := q.rqs[id := q.rqs[id].(bio := false)]);
    forall x | x in n.rqs ensures Within(f, n.rqs[x], Waits(n.trace, x), n.rqs[x].flushSeq && Flushing(n.rqs[x].completed)) {
      assert Within(f, q.rqs[x], Waits(q.trace, x), q.rqs[x].flushSeq && Flushing(q.rqs[x].completed));
    }
  }

  lemma EndBioAsked(q: Queue, f: DeviceFlags, id: Id, ok: bool)
    requires Asked(q, f) && id in q.rqs
    ensures Asked(EndBio(q, id, ok), f)
  {
    if q.rqs[id].bio {
      BioAsked(q, f, id);
      var q1 := q.(rqs := q.rqs[id := q.rqs[id].(bio := false)]);
      LogAsked(q1, Log(q1, Ended(id, ok)), f, Ended(id, ok));
    }
  }

  lemma InsertAsked(q: Queue, f: DeviceFlags, id: Id, req: Request, c: Clock)
    requires Asked(q, f) && id !in q.rqs
    ensures Asked(Insert(q, id, req, f, c), f)
  {
    var p := Policy(f, req);
    var q1 := Log(q.(rqs := q.rqs[id := NewRq(req, f, p.pre || p.post)]), Inserted(id, req));
    OthersKept(q, q1, f, id, Inserted(id, req));
    if p.pre || p.post {
      CompleteSeqAsked(q1, f, id, Complement(p), true, c);
    } else {
      AllAsked(q1, f, id);
      if p.data {
        LogAsked(q1, Log(q1.(direct := q1.direct + {id}), DataIssued(id, true)), f, DataIssued(id, true));
      } else {
        EndBioAsked(q1, f, id, true);
      }
    }
  }

  lemma WriteAsked(q: Queue, f: DeviceFlags, id: Id, ok: bool, stable: bool)
    requires Asked(q, f) && id in q.rqs
    ensures Asked(EndBio(Log(q, WriteDone(Own(id), ok, stable)), id, ok), f)
  {
    LogAsked(q, Log(q, WriteDone(Own(id), ok, stable)), f, WriteDone(Own(id), ok, stable));
    EndBioAsked(Log(q, WriteDone(Own(id), ok, stable)), f, id, ok);
  }

  lemma DataEndAsked(q: Queue, f: DeviceFlags, id: Id, ok: bool, stable: bool, c: Clock)
    requires Consistent(q) && Asked(q, f) && id in q.data && id in q.rqs
    ensures Asked(DataEnd(q, id, ok, stable, c), f)
  {
    assert Placed(q, id);
    WriteAsked(q, f, id, ok, stable);
    var q1 := EndBio(Log(q, WriteDone(Own(id), ok, stable)), id, ok);
    assert Within(f, q1.rqs[id], Waits(q1.trace, id), false);
    CompleteSeqAsked(q1, f, id, MaskOf(Data), ok, c);
  }

  lemma ApplyAsked(q: Queue, f: DeviceFlags, cache: bool, op: Op, c: Clock)
    requires Consistent(q) && Asked(q, f) && (op.OpInsert? ==> op.flags == f)
    ensures Asked(Apply(q, cache, op, c), f)
  {
    if Enabled(q, cache, op) {
      match op {
        case OpInsert(id, req, _) => InsertAsked(q, f, id, req, c);
        case OpDataEnd(id, ok, stable) => DataEndAsked(q, f, id, ok, stable, c);
        case OpFlushEnd(ok) =>
          LogAsked(q, Flushed(q, ok), f, FlushDone(ok));
          StartsWalking(q, ok);
          WalkAsked(Flushed(q, ok), f, q.runningIdx, q.queue[q.runningIdx], ok, c);
        case OpDirectEnd(id, ok, stable) => WriteAsked(q.(direct := q.direct - {id}), f, id, ok, stable);
        case OpOtherWrite(n, ok, stable) => LogAsked(q, Log(q, WriteDone(Other(n), ok, stable)), f, WriteDone(Other(n), ok, stable));
      }
    }
  }

  /** All requests are for one device. */
  ghost predicate OneDevice(ops: seq<(Op, Clock)>, f: DeviceFlags) {
    forall i :: 0 <= i < |ops| && ops[i].0.OpInsert? ==> ops[i].0.flags == f
  }

  lemma {:induction false} RunsAsked(cache: bool, ops: seq<(Op, Clock)>, f: DeviceFlags)
    requires OneDevice(ops, f)
    ensures Asked(Exec(cache, ops), f)
    decreases |ops|
  {
    if ops != [] {
      var n := |ops| - 1;
      RunsAsked(cache, ops[..n], f);
      RunsConsistent(cache, ops[..n]);
      ApplyAsked(Exec(cache, ops[..n]), f, cache, ops[n].0, ops[n].1);
    }
  }

  /** In every run a request is queued for a flush at most as often as it needs one, and the driver sees REQ_FUA exactly if
      the request asks for it and the device honours it. */
  lemma NoNeedlessFlush(cache: bool, ops: seq<(Op, Clock)>, f: DeviceFlags, id: Id)
    requires OneDevice(ops, f) && id in Exec(cache, ops).rqs
    ensures var q := Exec(cache, ops);
            Waits(q.trace, id) <= Needed(f, q.rqs[id].req) && q.rqs[id].fua == (q.rqs[id].req.fua && f.fua)
  {
    RunsAsked(cache, ops, f);
    var q := Exec(cache, ops);
    if q.rqs[id].flushSeq && Flushing(q.rqs[id].completed) {
      assert Left(q.rqs[id]) >= 1;
    }
  }
}
