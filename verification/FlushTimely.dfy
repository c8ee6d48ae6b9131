/**
 When a flush is issued (C1 to C3 of block/blk-flush.c). The events of a run are stamped with the clock of their step, and
 who waits, since when, and who executes DATA is read off them: a flush is issued only if nobody executes DATA or somebody
 has waited for five seconds, and whenever the machine moves on and none is issued, neither is the case.
 */
module FlushTimely {
  import opened Lists
  import opened Flush
  import opened FlushLists

  /** An event and when it happened. */
  datatype Timed = Timed(e: Event, c: Clock)

  /** What the events say: who waits for the next flush and since when, whether a flush is in flight, and who executes DATA
      as a step of the machine. */
  datatype Watch = Watch(waiting: seq<(Id, nat)>, inFlight: bool, executing: set<Id>)

  ghost function Look(w: Watch, x: Timed): Watch {
    match x.e
    case QueuedFor(id) => w.(waiting := w.waiting + [(id, x.c.jiffies)])
    case FlushIssued => w.(waiting := [], inFlight := true)
    case FlushDone(_) => w.(inFlight := false)
    case DataIssued(id, direct) => if direct then w else w.(executing := w.executing + {id})
    case WriteDone(v, _, _) => if v.Own? then w.(executing := w.executing - {v.id}) else w
    case _ => w
  }

  ghost function Watched(tt: seq<Timed>): Watch {
    if tt == [] then Watch([], false, {}) else Look(Watched(tt[..|tt| - 1]), tt[|tt| - 1])
  }

  lemma WatchedLog(tt: seq<Timed>, x: Timed)
    ensures Watched(tt + [x]) == Look(Watched(tt), x)
  {
    assert (tt + [x])[..|tt|] == tt;
  }

  /** Somebody has waited for five seconds. */
  ghost predicate Overdue(w: Watch, c: Clock) {
    exists i :: 0 <= i < |w.waiting| && w.waiting[i].1 + 5 * c.hz <= c.jiffies
  }

  /** A flush may be issued. */
  ghost predicate Due(w: Watch, c: Clock) {
    !w.inFlight && w.waiting != [] && (w.executing == {} || Overdue(w, c))
  }

  /** Every flush was issued when it was due. */
  ghost predicate Justified(tt: seq<Timed>) {
    tt != [] ==> Justified(tt[..|tt| - 1]) && (tt[|tt| - 1].e == FlushIssued ==> Due(Watched(tt[..|tt| - 1]), tt[|tt| - 1].c))
  }

  lemma JustifiedLog(tt: seq<Timed>, x: Timed)
    requires Justified(tt) && (x.e == FlushIssued ==> Due(Watched(tt), x.c))
    ensures Justified(tt + [x])
  {
    assert (tt + [x])[..|tt|] == tt;
  }

  lemma {:induction false} JustifiedAt(tt: seq<Timed>, k: nat)
    requires Justified(tt) && k < |tt| && tt[k].e == FlushIssued
    ensures Due(Watched(tt[..k]), tt[k].c)
    decreases |tt|
  {
    var n := |tt| - 1;
    if k < n {
      JustifiedAt(tt[..n], k);
      assert tt[..n][..k] == tt[..k];
    }
  }

  /* ---- stamping ---- */

  /** The events of `tr` that are not stamped yet happened at c. */
  ghost function Stamp(tt: seq<Timed>, tr: seq<Event>, c: Clock): seq<Timed>
    decreases |tr|
  {
    if |tr| <= |tt| then tt else Stamp(tt, tr[..|tr| - 1], c) + [Timed(tr[|tr| - 1], c)]
  }

  lemma StampLog(tt: seq<Timed>, tr: seq<Event>, e: Event, c: Clock)
    requires |tt| <= |tr|
    ensures Stamp(tt, tr + [e], c) == Stamp(tt, tr, c) + [Timed(e, c)]
  {
    assert (tr + [e])[..|tr|] == tr;
  }

  /** `tt` is the trace with times. */
  ghost predicate Labels(tt: seq<Timed>, tr: seq<Event>) {
    |tt| == |tr| && forall k :: 0 <= k < |tr| ==> tt[k].e == tr[k]
  }

  ghost function History(cache: bool, ops: seq<(Op, Clock)>): seq<Timed> {
    if ops == [] then []
    else Stamp(History(cache, ops[..|ops| - 1]), Exec(cache, ops).trace, ops[|ops| - 1].1)
  }

  /** A clock that never runs backwards. */
  ghost predicate Monotone(ops: seq<(Op, Clock)>) {
    forall i, j :: 0 <= i < j < |ops| ==> ops[i].1.jiffies <= ops[j].1.jiffies
  }

  /** When the last step was taken. */
  ghost function Now(ops: seq<(Op, Clock)>): nat { if ops == [] then 0 else ops[|ops| - 1].1.jiffies }

  lemma MonotoneBefore(ops: seq<(Op, Clock)>, before: seq<(Op, Clock)>)
    requires ops != [] && Monotone(ops) && before == ops[..|ops| - 1]
    ensures Monotone(before) && Now(before) <= Now(ops)
  {
  }

  /* ---- the events and the lists agree ---- */

  ghost function Ids(w: seq<(Id, nat)>): (s: seq<Id>)
    ensures |s| == |w|
  {
    if w == [] then [] else Ids(w[..|w| - 1]) + [w[|w| - 1].0]
  }

  lemma IdsLog(w: seq<(Id, nat)>, x: (Id, nat))
    ensures Ids(w + [x]) == Ids(w) + [x.0]
  {
    assert (w + [x])[..|w|] == w;
  }

  /** The pending list; list r, which flush_end_io walks, is not one even if it is about to take that role. */
  ghost function Pending(q: Queue, r: int): seq<Id>
    requires Shape(q)
  {
    if q.pendingIdx == r then [] else q.queue[q.pendingIdx]
  }

  /** Since when the pending list is not empty. */
  ghost predicate Since(waiting: seq<(Id, nat)>, since: nat, now: nat) {
    && (waiting != [] ==> waiting[0].1 == since)
    && forall i :: 0 <= i < |waiting| ==> since <= waiting[i].1 <= now
  }

  ghost predicate Agree(q: Queue, w: Watch, now: nat, gone: set<Id>, r: int) {
    && Shape(q)
    && (w.inFlight <==> q.pendingIdx != q.runningIdx)
    && Ids(w.waiting) == Pending(q, r)
    && Since(w.waiting, q.pendingSince, now)
    && (forall id :: id in w.executing <==> id in q.data && id !in gone)
  }

  /** The run so far, stamped `tt` up to the step at c that is under way. */
  ghost predicate Seen(q: Queue, tt: seq<Timed>, c: Clock, gone: set<Id>, r: int) {
    && |tt| <= |q.trace| && Labels(Stamp(tt, q.trace, c), q.trace)
    && Agree(q, Watched(Stamp(tt, q.trace, c)), c.jiffies, gone, r)
    && Justified(Stamp(tt, q.trace, c))
  }

  /** No flush is overdue. */
  ghost predicate Prompt(q: Queue, tt: seq<Timed>, c: Clock) { !Due(Watched(Stamp(tt, q.trace, c)), c) }

  /** Logging one event. */
  lemma LogSeen(q: Queue, n: Queue, e: Event, tt: seq<Timed>, c: Clock, gone: set<Id>, r: int)
    requires |tt| <= |q.trace| && Labels(Stamp(tt, q.trace, c), q.trace) && Justified(Stamp(tt, q.trace, c))
    requires n.trace == q.trace + [e]
    requires e == FlushIssued ==> Due(Watched(Stamp(tt, q.trace, c)), c)
    requires Agree(n, Look(Watched(Stamp(tt, q.trace, c)), Timed(e, c)), c.jiffies, gone, r)
    ensures Seen(n, tt, c, gone, r)
  {
    var s := Stamp(tt, q.trace, c);
    StampLog(tt, q.trace, e, c);
    WatchedLog(s, Timed(e, c));
    JustifiedLog(s, Timed(e, c));
  }

  /* ---- the steps of the machine ---- */

  lemma QueueSeen(q: Queue, id: Id, tt: seq<Timed>, c: Clock, gone: set<Id>)
    requires Seen(q, tt, c, gone, -1) && !OnFlushList(q, id) && gone <= {id} && (id in q.data ==> id in gone)
    ensures Seen(QueueForFlush(q, id, c), tt, c, {}, -1)
  {
    var w := Watched(Stamp(tt, q.trace, c));
    IdsLog(w.waiting, (id, c.jiffies));
    LogSeen(q, QueueForFlush(q, id, c), QueuedFor(id), tt, c, {}, -1);
  }

  lemma UnlinkedPending(q: Queue, id: Id, r: int)
    requires Shape(q) && id !in Pending(q, r)
    ensures Pending(Unlink(q, id), r) == Pending(q, r)
  {
  }

  lemma IssueSeen(q: Queue, id: Id, tt: seq<Timed>, c: Clock, gone: set<Id>, r: int)
    requires Seen(q, tt, c, gone, r) && id !in Pending(q, r) && gone <= {id}
    ensures Seen(IssueData(q, id), tt, c, {}, r)
  {
    UnlinkedPending(q, id, r);
    LogSeen(q, IssueData(q, id), DataIssued(id, false), tt, c, {}, r);
  }

  lemma FinishSeen(q: Queue, id: Id, ok: bool, tt: seq<Timed>, c: Clock, gone: set<Id>, r: int)
    requires Seen(q, tt, c, gone, r) && id !in Pending(q, r) && gone <= {id} && id in q.rqs && (id in q.data ==> id in gone)
    ensures Seen(Finish(q, id, ok), tt, c, {}, r)
  {
    UnlinkedPending(q, id, r);
    LogSeen(q, Finish(q, id, ok), Ended(id, ok), tt, c, {}, r);
  }

  /** Nobody leaves the pending list but by a flush: `id` is not on it. */
  lemma AdvanceSeen(q: Queue, id: Id, ok: bool, tt: seq<Timed>, c: Clock, gone: set<Id>, r: int)
    requires Seen(q, tt, c, gone, r) && id in q.rqs && id !in Pending(q, r) && gone <= {id} && (id in q.data ==> id in gone)
    requires ok && Flushing(q.rqs[id].completed) ==> r == -1 && !OnFlushList(q, id)
    ensures Seen(Advance(q, id, ok, c), tt, c, {}, r)
  {
    match if ok then CurSeq(q.rqs[id].completed) else Done {
      case PreFlush => QueueSeen(q, id, tt, c, gone);
      case PostFlush => QueueSeen(q, id, tt, c, gone);
      case Data => IssueSeen(q, id, tt, c, gone, r);
      case Done => FinishSeen(q, id, ok, tt, c, gone, r);
    }
  }

  lemma KickDue(q: Queue, tt: seq<Timed>, c: Clock, r: int)
    requires Seen(q, tt, c, {}, r) && r != q.runningIdx
    ensures Kick(q, c) != q <==> Due(Watched(Stamp(tt, q.trace, c)), c)
  {
    var w := Watched(Stamp(tt, q.trace, c));
    if q.data != [] {
      assert q.data[0] in w.executing;
    }
    assert w.waiting != [] ==> (Overdue(w, c) <==> q.pendingSince + 5 * c.hz <= c.jiffies);
  }

  /** A kick issues a flush exactly if one is due, and afterwards none is. */
  lemma KickSeen(q: Queue, tt: seq<Timed>, c: Clock, r: int)
    requires Seen(q, tt, c, {}, r) && r != q.runningIdx
    requires q.pendingIdx == q.runningIdx ==> r == 1 - q.pendingIdx || q.queue[1 - q.pendingIdx] == []
    ensures Seen(Kick(q, c), tt, c, {}, r) && Prompt(Kick(q, c), tt, c)
  {
    KickDue(q, tt, c, r);
    if Kick(q, c) != q {
      LogSeen(q, Kick(q, c), FlushIssued, tt, c, {}, r);
    }
  }

  /** A change of the requests alone is not seen. */
  lemma RqsUnseen(q: Queue, n: Queue, tt: seq<Timed>, c: Clock, gone: set<Id>, r: int)
    requires Seen(q, tt, c, gone, r) && n == q.(rqs := n.rqs, direct := n.direct)
    ensures Seen(n, tt, c, gone, r)
  {
  }

  lemma CompleteSeqSeen(q: Queue, id: Id, done: Mask, ok: bool, tt: seq<Timed>, c: Clock, gone: set<Id>)
    requires Seen(q, tt, c, gone, -1) && Buffers(q) && id in q.rqs && !OnFlushList(q, id) && gone <= {id} && (id in q.data ==> id in gone)
    ensures Seen(CompleteSeq(q, id, done, ok, c), tt, c, {}, -1) && Prompt(CompleteSeq(q, id, done, ok, c), tt, c)
  {
    var k := Record(q, id, done);
    RqsUnseen(q, k, tt, c, gone, -1);
    AdvanceSeen(k, id, ok, tt, c, gone, -1);
    AdvanceBuffers(k, id, ok, c);
    KickSeen(Advance(k, id, ok, c), tt, c, -1);
  }

  /** The same on the walk of flush_end_io over list r. */
  lemma WalkStepSeen(q: Queue, r: int, walk: seq<Id>, ok: bool, tt: seq<Timed>, c: Clock)
    requires Walking(q, r, walk) && walk != [] && walk[0] in q.rqs && Seen(q, tt, c, {}, r)
    ensures var n := CompleteSeq(q, walk[0], MaskOf(CurSeq(q.rqs[walk[0]].completed)), ok, c);
            Seen(n, tt, c, {}, r) && Prompt(n, tt, c)
  {
    WalkHead(q, r, walk);
    var id := walk[0];
    assert id in q.queue[r] && Placed(q, id);
    var k := Record(q, id, MaskOf(CurSeq(q.rqs[id].completed)));
    RqsUnseen(q, k, tt, c, {}, r);
    AdvanceSeen(k, id, ok, tt, c, {}, r);
    KickSeen(Advance(k, id, ok, c), tt, c, r);
  }

  lemma {:induction false} WalkSeen(q: Queue, r: int, walk: seq<Id>, ok: bool, tt: seq<Timed>, c: Clock)
    requires Walking(q, r, walk) && Seen(q, tt, c, {}, r) && (walk == [] ==> Prompt(q, tt, c))
    requires forall id :: id in walk ==> id in q.rqs
    ensures Seen(CompleteAll(q, walk, ok, c), tt, c, {}, r) && Prompt(CompleteAll(q, walk, ok, c), tt, c)
    decreases |walk|
  {
    if walk != [] {
      var done := MaskOf(CurSeq(q.rqs[walk[0]].completed));
      WalkStep(q, r, walk, ok, c);
      WalkStepSeen(q, r, walk, ok, tt, c);
      OneRecorded(q, walk[0], done, ok, c);
      WalkSeen(CompleteSeq(q, walk[0], done, ok, c), r, walk[1..], ok, tt, c);
    }
  }

  lemma FlushEndSeen(q: Queue, ok: bool, tt: seq<Timed>, c: Clock)
    requires Consistent(q) && Seen(q, tt, c, {}, -1) && q.pendingIdx != q.runningIdx
    requires forall id :: id in q.queue[q.runningIdx] ==> id in q.rqs
    ensures Seen(FlushEnd(q, ok, c), tt, c, {}, -1) && Prompt(FlushEnd(q, ok, c), tt, c)
  {
    var r, walk := q.runningIdx, q.queue[q.runningIdx];
    var q1 := Flushed(q, ok);
    LogSeen(q, q1, FlushDone(ok), tt, c, {}, r);
    StartsWalking(q, ok);
    WalkSeen(q1, r, walk, ok, tt, c);
    WalkAll(q1, r, walk, ok, c);
  }

  lemma DataDoneSeen(q: Queue, id: Id, ok: bool, stable: bool, tt: seq<Timed>, c: Clock)
    requires Seen(q, tt, c, {}, -1)
    ensures Seen(Log(q, WriteDone(Own(id), ok, stable)), tt, c, {id}, -1)
  {
    LogSeen(q, Log(q, WriteDone(Own(id), ok, stable)), WriteDone(Own(id), ok, stable), tt, c, {id}, -1);
  }

  lemma DataEndSeen(q: Queue, id: Id, ok: bool, stable: bool, tt: seq<Timed>, c: Clock)
    requires Consistent(q) && Seen(q, tt, c, {}, -1) && id in q.data && id in q.rqs
    ensures Seen(DataEnd(q, id, ok, stable, c), tt, c, {}, -1) && Prompt(DataEnd(q, id, ok, stable, c), tt, c)
  {
    DataDoneSeen(q, id, ok, stable, tt, c);
    DataDonePlaced(q, id, ok, stable);
    var q1 := Log(q, WriteDone(Own(id), ok, stable));
    assert Placed(q, id);
    RqsUnseen(q1, EndBio(q1, id, ok), tt, c, {id}, -1);
    CompleteSeqSeen(EndBio(q1, id, ok), id, MaskOf(Data), ok, tt, c, {id});
  }

  /** An event that says nothing here. */
  ghost predicate Plain(e: Event) {
    e.Inserted? || e.Ended? || (e.DataIssued? && e.direct) || (e.WriteDone? && e.w.Other?)
  }

  lemma PlainLogSeen(q: Queue, e: Event, tt: seq<Timed>, c: Clock)
    requires Seen(q, tt, c, {}, -1) && Plain(e)
    ensures Seen(Log(q, e), tt, c, {}, -1)
  {
    LogSeen(q, Log(q, e), e, tt, c, {}, -1);
  }

  lemma EndBioSeen(q: Queue, id: Id, ok: bool, tt: seq<Timed>, c: Clock)
    requires Seen(q, tt, c, {}, -1) && id in q.rqs
    ensures Seen(EndBio(q, id, ok), tt, c, {}, -1)
  {
    var q1 := q.(rqs := q.rqs[id := q.rqs[id].(bio := false)]);
    RqsUnseen(q, q1, tt, c, {}, -1);
    PlainLogSeen(q1, Ended(id, ok), tt, c);
  }

  lemma InsertSeen(q: Queue, id: Id, req: Request, f: DeviceFlags, tt: seq<Timed>, c: Clock)
    requires Consistent(q) && Seen(q, tt, c, {}, -1) && id !in q.rqs
    ensures Seen(Insert(q, id, req, f, c), tt, c, {}, -1)
    ensures Policy(f, req).pre || Policy(f, req).post ==> Prompt(Insert(q, id, req, f, c), tt, c)
  {
    var p := Policy(f, req);
    var q0 := q.(rqs := q.rqs[id := NewRq(req, f, p.pre || p.post)]);
    var q1 := Log(q0, Inserted(id, req));
    RqsUnseen(q, q0, tt, c, {}, -1);
    PlainLogSeen(q0, Inserted(id, req), tt, c);
    if p.pre || p.post {
      CompleteSeqSeen(q1, id, Complement(p), true, tt, c, {});
    } else if p.data {
      var q2 := q1.(direct := q1.direct + {id});
      RqsUnseen(q1, q2, tt, c, {}, -1);
      PlainLogSeen(q2, DataIssued(id, true), tt, c);
    } else {
      EndBioSeen(q1, id, true, tt, c);
    }
  }

  lemma DirectEndSeen(q: Queue, id: Id, ok: bool, stable: bool, tt: seq<Timed>, c: Clock)
    requires Consistent(q) && Seen(q, tt, c, {}, -1) && id in q.direct && id in q.rqs
    ensures Seen(DirectEnd(q, id, ok, stable), tt, c, {}, -1)
  {
    assert Placed(q, id);
    var q0 := q.(direct := q.direct - {id});
    var e := WriteDone(Own(id), ok, stable);
    RqsUnseen(q, q0, tt, c, {}, -1);
    LogSeen(q0, Log(q0, e), e, tt, c, {}, -1);
    EndBioSeen(Log(q0, e), id, ok, tt, c);
  }

  /** The step goes through blk_flush_complete_seq. */
  ghost predicate MovesOn(q: Queue, cache: bool, op: Op)
    requires Shape(q)
  {
    && Enabled(q, cache, op)
    && match op
    case OpInsert(_, req, f) => Policy(f, req).pre || Policy(f, req).post
    case OpDataEnd(_, _, _) => true
    case OpFlushEnd(_) => true
    case OpDirectEnd(_, _, _) => false
    case OpOtherWrite(_, _, _) => false
  }

  lemma ApplySeen(q: Queue, cache: bool, op: Op, tt: seq<Timed>, c: Clock)
    requires Consistent(q) && Seen(q, tt, c, {}, -1)
    ensures Seen(Apply(q, cache, op, c), tt, c, {}, -1)
    ensures MovesOn(q, cache, op) ==> Prompt(Apply(q, cache, op, c), tt, c)
  {
    if Enabled(q, cache, op) {
      match op {
        case OpInsert(id, req, f) => InsertSeen(q, id, req, f, tt, c);
        case OpDataEnd(id, ok, stable) => DataEndSeen(q, id, ok, stable, tt, c);
        case OpFlushEnd(ok) => FlushEndSeen(q, ok, tt, c);
        case OpDirectEnd(id, ok, stable) => DirectEndSeen(q, id, ok, stable, tt, c);
        case OpOtherWrite(n, ok, stable) => PlainLogSeen(q, WriteDone(Other(n), ok, stable), tt, c);
      }
    }
  }

  /* ---- runs ---- */

  ghost predicate Kept(q: Queue, tt: seq<Timed>, now: nat) {
    Labels(tt, q.trace) && Agree(q, Watched(tt), now, {}, -1) && Justified(tt)
  }

  lemma StepKept(q: Queue, cache: bool, op: Op, tt: seq<Timed>, now: nat, c: Clock)
    requires Consistent(q) && Kept(q, tt, now) && now <= c.jiffies
    ensures var n := Apply(q, cache, op, c);
            Kept(n, Stamp(tt, n.trace, c), c.jiffies) && (MovesOn(q, cache, op) ==> Prompt(n, tt, c))
  {
    ApplySeen(q, cache, op, tt, c);
  }

  lemma RunStep(cache: bool, ops: seq<(Op, Clock)>, before: seq<(Op, Clock)>, op: Op, c: Clock)
    requires ops == before + [(op, c)] && Now(before) <= c.jiffies && Kept(Exec(cache, before), History(cache, before), Now(before))
    ensures Kept(Exec(cache, ops), History(cache, ops), c.jiffies)
    ensures MovesOn(Exec(cache, before), cache, op) ==> !Due(Watched(History(cache, ops)), c)
  {
    RunsConsistent(cache, before);
    StepKept(Exec(cache, before), cache, op, History(cache, before), Now(before), c);
    assert ops[..|before|] == before;
  }

  /** In every run the stamped events are the trace, and what they say of who waits, what is in flight and who executes DATA
      is so. */
  lemma {:induction false} RunsKept(cache: bool, ops: seq<(Op, Clock)>)
    requires Monotone(ops)
    ensures Kept(Exec(cache, ops), History(cache, ops), Now(ops))
    decreases |ops|
  {
    if ops != [] {
      var before, last := ops[..|ops| - 1], ops[|ops| - 1];
      MonotoneBefore(ops, before);
      RunsKept(cache, before);
      RunStep(cache, ops, before, last.0, last.1);
    }
  }

  /** In every run, after every step of the machine: if somebody waits for a flush and none is in flight, then somebody
      executes DATA, and nobody has waited for five seconds. */
  lemma NeverOverdue(cache: bool, ops: seq<(Op, Clock)>)
    requires ops != [] && Monotone(ops) && MovesOn(Exec(cache, ops[..|ops| - 1]), cache, ops[|ops| - 1].0)
    ensures var w, c := Watched(History(cache, ops)), ops[|ops| - 1].1;
            !w.inFlight && w.waiting != [] ==>
              w.executing != {} && forall i :: 0 <= i < |w.waiting| ==> c.jiffies < w.waiting[i].1 + 5 * c.hz
  {
    var before, last := ops[..|ops| - 1], ops[|ops| - 1];
    MonotoneBefore(ops, before);
    RunsKept(cache, before);
    RunStep(cache, ops, before, last.0, last.1);
  }

  /** And a flush is issued only when somebody waits, none is in flight, and nobody executes DATA or somebody has waited for
      five seconds. */
  lemma NeverEarly(cache: bool, ops: seq<(Op, Clock)>, k: nat)
    requires Monotone(ops) && k < |Exec(cache, ops).trace| && Exec(cache, ops).trace[k] == FlushIssued
    ensures var h := History(cache, ops);
            && Labels(h, Exec(cache, ops).trace)
            && var w, c := Watched(h[..k]), h[k].c;
               && !w.inFlight && w.waiting != []
               && (w.executing == {} || exists i :: 0 <= i < |w.waiting| && w.waiting[i].1 + 5 * c.hz <= c.jiffies)
  {
    RunsKept(cache, ops);
    JustifiedAt(History(cache, ops), k);
  }
}
