/**
 A flush helps only requests that were waiting when it was issued: in every run, a PREFLUSH or POSTFLUSH step is completed
 only at the end of a flush that was issued after the request was queued for that step.
 */
module FlushOrder {
  import opened Lists
  import opened Flush
  import opened FlushLists

  /** Where in the trace each request was last queued for a flush, and where the flush in flight was issued. */
  datatype Times = Times(queued: map<Id, nat>, issued: int)

  ghost function Note(t: Times, e: Event, at: nat): Times {
    match e
    case QueuedFor(id) => t.(queued := t.queued[id := at])
    case FlushIssued => t.(issued := at)
    case FlushDone(_) => t.(issued := -1)
    case _ => t
  }

  ghost function Noted(tr: seq<Event>): Times {
    if tr == [] then Times(map[], -1) else Note(Noted(tr[..|tr| - 1]), tr[|tr| - 1], |tr| - 1)
  }

  lemma NotedLog(tr: seq<Event>, e: Event)
    ensures Noted(tr + [e]) == Note(Noted(tr), e, |tr|)
  {
    assert (tr + [e])[..|tr|] == tr;
  }

  /* ---- what is noted is in the trace ---- */

  lemma {:induction false} QueuedAt(tr: seq<Event>, id: Id)
    requires id in Noted(tr).queued
    ensures var a := Noted(tr).queued[id];
            a < |tr| && tr[a] == QueuedFor(id) && forall k :: a < k < |tr| ==> tr[k] != QueuedFor(id)
  {
    var n := |tr| - 1;
    if tr[n] != QueuedFor(id) {
      QueuedAt(tr[..n], id);
    }
  }

  lemma {:induction false} IssuedAt(tr: seq<Event>)
    ensures var f := Noted(tr).issued;
            -1 <= f < |tr| && (f >= 0 ==> tr[f] == FlushIssued && forall k :: f < k < |tr| ==> !tr[k].FlushIssued? && !tr[k].FlushDone?)
  {
    var n := |tr| - 1;
    if tr != [] && !tr[n].FlushIssued? && !tr[n].FlushDone? {
      IssuedAt(tr[..n]);
    }
  }

  /* ---- the invariant ---- */

  /** Everyone who waits for a flush is noted, and everyone the flush in flight is for was queued before its issue. */
  ghost predicate InTime(q: Queue, t: Times) {
    && Shape(q)
    && (forall id :: OnFlushList(q, id) ==> id in t.queued)
    && (q.pendingIdx != q.runningIdx ==>
        t.issued >= 0 && forall id :: id in q.queue[q.runningIdx] ==> id in t.queued && t.queued[id] < t.issued)
  }

  ghost predicate Timely(q: Queue) { InTime(q, Noted(q.trace)) }

  /** Events about anything but queueing and flushes change nothing here, and neither does leaving the lists. */
  lemma LogTimely(q: Queue, e: Event)
    requires Timely(q) && !e.QueuedFor? && !e.FlushIssued? && !e.FlushDone?
    ensures Timely(Log(q, e))
  {
    NotedLog(q.trace, e);
  }

  lemma UnlinkTimely(q: Queue, id: Id)
    requires Timely(q)
    ensures Timely(Unlink(q, id))
  {
  }

  lemma QueueTimely(q: Queue, id: Id, c: Clock)
    requires Timely(q)
    ensures Timely(QueueForFlush(q, id, c))
  {
    NotedLog(q.trace, QueuedFor(id));
  }

  lemma EndBioTimely(q: Queue, id: Id, ok: bool)
    requires Timely(q) && id in q.rqs
    ensures Timely(EndBio(q, id, ok))
  {
    NotedLog(q.trace, Ended(id, ok));
  }

  lemma FinishTimely(q: Queue, id: Id, ok: bool)
    requires Timely(q) && id in q.rqs
    ensures Timely(Finish(q, id, ok))
  {
    var u := Unlink(q, id);
    UnlinkTimely(q, id);
    EndBioTimely(u.(rqs := u.rqs[id := u.rqs[id].(bio := true, flushSeq := false)]), id, ok);
  }

  lemma AdvanceTimely(q: Queue, id: Id, ok: bool, c: Clock)
    requires Timely(q) && id in q.rqs
    ensures Timely(Advance(q, id, ok, c))
  {
    match if ok then CurSeq(q.rqs[id].completed) else Done {
      case PreFlush => QueueTimely(q, id, c);
      case PostFlush => QueueTimely(q, id, c);
      case Data =>
        var u := Unlink(q, id);
        UnlinkTimely(q, id);
        LogTimely(u.(data := u.data + [id]), DataIssued(id, false));
      case Done => FinishTimely(q, id, ok);
    }
  }

  /** The flush that is issued now is for requests that were queued before now. */
  lemma KickTimely(q: Queue, c: Clock)
    requires Timely(q)
    ensures Timely(Kick(q, c))
  {
    NotedLog(q.trace, FlushIssued);
    forall id | id in Noted(q.trace).queued ensures Noted(q.trace).queued[id] < |q.trace| {
      QueuedAt(q.trace, id);
    }
  }

  lemma CompleteSeqTimely(q: Queue, id: Id, done: Mask, ok: bool, c: Clock)
    requires Timely(q) && id in q.rqs
    ensures Timely(CompleteSeq(q, id, done, ok, c))
  {
    var k := Record(q, id, done);
    AdvanceTimely(k, id, ok, c);
    KickTimely(Advance(k, id, ok, c), c);
  }

  lemma {:induction false} CompleteAllTimely(q: Queue, walk: seq<Id>, ok: bool, c: Clock)
    requires Timely(q) && forall id :: id in walk ==> id in q.rqs
    ensures Timely(CompleteAll(q, walk, ok, c))
    decreases |walk|
  {
    if walk != [] {
      var done := MaskOf(CurSeq(q.rqs[walk[0]].completed));
      CompleteSeqTimely(q, walk[0], done, ok, c);
      OneRecorded(q, walk[0], done, ok, c);
      CompleteAllTimely(CompleteSeq(q, walk[0], done, ok, c), walk[1..], ok, c);
    }
  }

  lemma FlushedTimely(q: Queue, ok: bool)
    requires Timely(q) && q.pendingIdx != q.runningIdx
    ensures Timely(Flushed(q, ok))
  {
    NotedLog(q.trace, FlushDone(ok));
  }

  lemma InsertTimely(q: Queue, id: Id, req: Request, f: DeviceFlags, c: Clock)
    requires Timely(q)
    ensures Timely(Insert(q, id, req, f, c))
  {
    var p := Policy(f, req);
    var q0 := q.(rqs := q.rqs[id := NewRq(req, f, p.pre || p.post)]);
    var q1 := Log(q0, Inserted(id, req));
    LogTimely(q0, Inserted(id, req));
    if !p.pre && !p.data && !p.post {
      EndBioTimely(q1, id, true);
    } else if p.data && !p.pre && !p.post {
      LogTimely(q1.(direct := q1.direct + {id}), DataIssued(id, true));
    } else {
      CompleteSeqTimely(q1, id, Complement(p), true, c);
    }
  }

  lemma WriteTimely(q: Queue, id: Id, ok: bool, stable: bool)
    requires Timely(q) && id in q.rqs
    ensures Timely(EndBio(Log(q, WriteDone(Own(id), ok, stable)), id, ok))
  {
    LogTimely(q, WriteDone(Own(id), ok, stable));
    EndBioTimely(Log(q, WriteDone(Own(id), ok, stable)), id, ok);
  }

  lemma ApplyTimely(q: Queue, cache: bool, op: Op, c: Clock)
    requires Timely(q)
    ensures Timely(Apply(q, cache, op, c))
  {
    if Enabled(q, cache, op) {
      match op {
        case OpInsert(id, req, f) => InsertTimely(q, id, req, f, c);
        case OpDataEnd(id, ok, stable) =>
          WriteTimely(q, id, ok, stable);
          CompleteSeqTimely(EndBio(Log(q, WriteDone(Own(id), ok, stable)), id, ok), id, MaskOf(Data), ok, c);
        case OpFlushEnd(ok) =>
          FlushedTimely(q, ok);
          CompleteAllTimely(Flushed(q, ok), q.queue[q.runningIdx], ok, c);
        case OpDirectEnd(id, ok, stable) => WriteTimely(q.(direct := q.direct - {id}), id, ok, stable);
        case OpOtherWrite(n, ok, stable) => LogTimely(q, WriteDone(Other(n), ok, stable));
      }
    }
  }

  lemma {:induction false} RunsTimely(cache: bool, ops: seq<(Op, Clock)>)
    ensures Timely(Exec(cache, ops))
  {
    if ops != [] {
      var last := ops[|ops| - 1];
      RunsTimely(cache, ops[..|ops| - 1]);
      ApplyTimely(Exec(cache, ops[..|ops| - 1]), cache, last.0, last.1);
    }
  }

  /* ---- who completes a flush step ---- */

  lemma {:induction false} WalkedOnly(q: Queue, walk: seq<Id>, ok: bool, c: Clock, id: Id)
    requires Shape(q) && (forall x :: x in walk ==> x in q.rqs) && id in q.rqs && id !in walk
    ensures id in CompleteAll(q, walk, ok, c).rqs && CompleteAll(q, walk, ok, c).rqs[id] == q.rqs[id]
    decreases |walk|
  {
    if walk != [] {
      var done := MaskOf(CurSeq(q.rqs[walk[0]].completed));
      OneRecorded(q, walk[0], done, ok, c);
      WalkedOnly(CompleteSeq(q, walk[0], done, ok, c), walk[1..], ok, c, id);
    }
  }

  /** A step takes a flush step of a request off its list of things to do. */
  ghost predicate Completes(q: Queue, n: Queue, id: Id) {
    && id in q.rqs && id in n.rqs
    && ((!q.rqs[id].completed.pre && n.rqs[id].completed.pre) || (!q.rqs[id].completed.post && n.rqs[id].completed.post))
  }

  /** Only the end of a flush does, and only for requests on its list. */
  lemma OnlyFlushes(q: Queue, cache: bool, op: Op, c: Clock, id: Id)
    requires Shape(q) && Completes(q, Apply(q, cache, op, c), id)
    ensures op.OpFlushEnd? && q.pendingIdx != q.runningIdx && id in q.queue[q.runningIdx]
  {
    match op {
      case OpInsert(x, req, f) => InsertKeepsOthers(q, x, req, f, c, id);
      case OpDataEnd(x, ok, stable) =>
        if x in q.rqs {
          DataKeepsFlushes(q, x, ok, stable, c, id);
        }
      case OpFlushEnd(ok) =>
        if id !in q.queue[q.runningIdx] && Enabled(q, cache, op) {
          WalkedOnly(Flushed(q, ok), q.queue[q.runningIdx], ok, c, id);
        }
      case OpDirectEnd(x, ok, stable) =>
      case OpOtherWrite(n, ok, stable) =>
    }
  }

  lemma DataKeepsFlushes(q: Queue, x: Id, ok: bool, stable: bool, c: Clock, id: Id)
    requires Shape(q) && id in q.rqs && x in q.rqs
    ensures !Completes(q, DataEnd(q, x, ok, stable, c), id)
  {
    OneRecorded(EndBio(Log(q, WriteDone(Own(x), ok, stable)), x, ok), x, MaskOf(Data), ok, c);
  }

  lemma InsertKeepsOthers(q: Queue, x: Id, req: Request, f: DeviceFlags, c: Clock, id: Id)
    requires Shape(q) && id in q.rqs && x != id
    ensures id in Insert(q, x, req, f, c).rqs && Insert(q, x, req, f, c).rqs[id] == q.rqs[id]
  {
    var p := Policy(f, req);
    var q1 := Log(q.(rqs := q.rqs[x := NewRq(req, f, p.pre || p.post)]), Inserted(x, req));
    OneRecorded(q1, x, Complement(p), true, c);
  }

  /** In every run: what completes a PREFLUSH or POSTFLUSH step of a request is the end of a flush, issued at f, after the
      request was last queued for a flush, at a. */
  lemma FlushAfterQueueing(cache: bool, ops: seq<(Op, Clock)>, op: Op, c: Clock, id: Id) returns (a: nat, f: nat)
    requires Completes(Exec(cache, ops), Apply(Exec(cache, ops), cache, op, c), id)
    ensures var tr := Exec(cache, ops).trace;
            && op.OpFlushEnd? && a < f < |tr| && tr[a] == QueuedFor(id) && tr[f] == FlushIssued
            && (forall k :: a < k < |tr| ==> tr[k] != QueuedFor(id))
            && (forall k :: f < k < |tr| ==> !tr[k].FlushIssued? && !tr[k].FlushDone?)
  {
    var q := Exec(cache, ops);
    OnlyFlushes(q, cache, op, c, id);
    RunsTimely(cache, ops);
    QueuedAt(q.trace, id);
    IssuedAt(q.trace);
    a, f := Noted(q.trace).queued[id], Noted(q.trace).issued;
  }
}
