/**
 FLUSH/FUA sequencing (block/blk-flush.c).

 A REQ_FLUSH/REQ_FUA request runs through optional PREFLUSH, DATA and POSTFLUSH steps. The flush steps of many
 requests share one device flush through two lists that swap roles. This module gives the state, the steps of the
 machine as functions on that state, and the trace of what the outside world sees;
 FlushDurability.Disk gives the trace its meaning.
 */
module Flush {
  import opened Lists

  type Id = nat

  /** The clock at one step; HZ is a build-time setting, so it is left free. */
  datatype Clock = Clock(jiffies: nat, hz: nat)

  /** q->flush_flags: whether the device asks for cache flushes, and whether it honours REQ_FUA itself. */
  datatype DeviceFlags = DeviceFlags(flush: bool, fua: bool)

  /** What the submitter asked for. */
  datatype Request = Request(hasData: bool, flush: bool, fua: bool)

  /** A mask of REQ_FSEQ_PREFLUSH, REQ_FSEQ_DATA and REQ_FSEQ_POSTFLUSH. */
  datatype Mask = Mask(pre: bool, data: bool, post: bool)

  datatype Step = PreFlush | Data | PostFlush | Done

  /** A submitted request: flush.seq, the REQ_FLUSH_SEQ and REQ_FUA flags as the driver sees them, and whether
      rq->bio is still attached. */
  datatype Rq = Rq(req: Request, completed: Mask, flushSeq: bool, fua: bool, bio: bool)

  /** A write that can reach the device: the data of a request handled here, or any other write. */
  datatype Write = Own(id: Id) | Other(n: nat)

  /** QueuedFor says that a request starts to wait for a flush; `direct` data is that of a request outside the machine. */
  datatype Event =
    | Inserted(id: Id, req: Request)
    | QueuedFor(id: Id)
    | DataIssued(id: Id, direct: bool)
    | WriteDone(w: Write, ok: bool, stable: bool)
    | FlushIssued
    | FlushDone(ok: bool)
    | Ended(id: Id, ok: bool)

  /** struct blk_flush_queue, the requests it refers to, the requests executing outside the machine, and the trace. */
  datatype Queue = Queue(
    queue: seq<seq<Id>>,
    data: seq<Id>,
    pendingIdx: int,
    runningIdx: int,
    pendingSince: nat,
    rqs: map<Id, Rq>,
    direct: set<Id>,
    trace: seq<Event>)

  const Empty := Queue([[], []], [], 0, 0, 0, map[], {}, [])

  /* ---- the pure helpers of the C file ---- */

  function Policy(f: DeviceFlags, r: Request): Mask {
    Mask(f.flush && r.flush, r.hasData, f.flush && !f.fua && r.fua)
  }

  function Complement(m: Mask): Mask { Mask(!m.pre, !m.data, !m.post) }

  function Or(a: Mask, b: Mask): Mask { Mask(a.pre || b.pre, a.data || b.data, a.post || b.post) }

  predicate Overlap(a: Mask, b: Mask) { (a.pre && b.pre) || (a.data && b.data) || (a.post && b.post) }

  /** 1 << ffz(rq->flush.seq) */
  function CurSeq(m: Mask): Step {
    if !m.pre then PreFlush else if !m.data then Data else if !m.post then PostFlush else Done
  }

  function MaskOf(s: Step): Mask { Mask(s == PreFlush, s == Data, s == PostFlush) }

  /* ---- the steps of the machine ---- */

  ghost predicate Shape(q: Queue) {
    |q.queue| == 2 && 0 <= q.pendingIdx < 2 && 0 <= q.runningIdx < 2
  }

  function Log(q: Queue, e: Event): Queue { q.(trace := q.trace + [e]) }

  /** list_del of rq->flush.list from whichever list holds it. */
  function Unlink(q: Queue, id: Id): Queue
    requires Shape(q)
  {
    q.(queue := [Remove(q.queue[0], id), Remove(q.queue[1], id)], data := Remove(q.data, id))
  }

  /** blk_kick_flush */
  function Kick(q: Queue, c: Clock): (r: Queue)
    requires Shape(q)
    ensures Shape(r)
  {
    if q.pendingIdx != q.runningIdx || q.queue[q.pendingIdx] == [] then q
    else if q.data != [] && c.jiffies < q.pendingSince + 5 * c.hz then q
    else Log(q.(pendingIdx := 1 - q.pendingIdx), FlushIssued)
  }

  /** The bio's share of ending a request: req_bio_endio keeps quiet while REQ_FLUSH_SEQ is set. */
  function EndBio(q: Queue, id: Id, ok: bool): Queue
    requires id in q.rqs
  {
    var r := q.rqs[id];
    if !r.bio then q
    else
      var q1 := q.(rqs := q.rqs[id := r.(bio := false)]);
      if r.flushSeq then q1 else Log(q1, Ended(id, ok))
  }

  function QueueForFlush(q: Queue, id: Id, c: Clock): (r: Queue)
    requires Shape(q)
    ensures Shape(r)
  {
    var since := if q.queue[q.pendingIdx] == [] then c.jiffies else q.pendingSince;
    var u := Unlink(q, id);
    Log(u.(queue := u.queue[u.pendingIdx := u.queue[u.pendingIdx] + [id]], pendingSince := since), QueuedFor(id))
  }

  function IssueData(q: Queue, id: Id): (r: Queue)
    requires Shape(q)
    ensures Shape(r)
  {
    var u := Unlink(q, id);
    Log(u.(data := u.data + [id]), DataIssued(id, false))
  }

  /** The REQ_FSEQ_DONE arm: blk_flush_restore_request, then the request ends for its submitter. */
  function Finish(q: Queue, id: Id, ok: bool): (r: Queue)
    requires Shape(q) && id in q.rqs
    ensures Shape(r)
  {
    var u := Unlink(q, id);
    EndBio(u.(rqs := u.rqs[id := u.rqs[id].(bio := true, flushSeq := false)]), id, ok)
  }

  function Record(q: Queue, id: Id, done: Mask): (r: Queue)
    requires id in q.rqs
  {
    q.(rqs := q.rqs[id := q.rqs[id].(completed := Or(q.rqs[id].completed, done))])
  }

  /** The switch of blk_flush_complete_seq. */
  function Advance(q: Queue, id: Id, ok: bool, c: Clock): (r: Queue)
    requires Shape(q) && id in q.rqs
    ensures Shape(r)
  {
    match if ok then CurSeq(q.rqs[id].completed) else Done
    case PreFlush => QueueForFlush(q, id, c)
    case PostFlush => QueueForFlush(q, id, c)
    case Data => IssueData(q, id)
    case Done => Finish(q, id, ok)
  }

  /** blk_flush_complete_seq */
  function CompleteSeq(q: Queue, id: Id, done: Mask, ok: bool, c: Clock): (r: Queue)
    requires Shape(q) && id in q.rqs
    ensures Shape(r)
  {
    Kick(Advance(Record(q, id, done), id, ok, c), c)
  }

  /** The loop of flush_end_io over the list that was running. */
  function CompleteAll(q: Queue, walk: seq<Id>, ok: bool, c: Clock): (r: Queue)
    requires Shape(q)
    requires forall id :: id in walk ==> id in q.rqs
    ensures Shape(r)
    decreases |walk|
  {
    if walk == [] then q
    else
      var done := MaskOf(CurSeq(q.rqs[walk[0]].completed));
      CompleteAll(CompleteSeq(q, walk[0], done, ok, c), walk[1..], ok, c)
  }

  /** The start of flush_end_io: the flush is over and the lists swap roles. */
  function Flushed(q: Queue, ok: bool): Queue { Log(q.(runningIdx := 1 - q.runningIdx), FlushDone(ok)) }

  /** flush_end_io */
  function FlushEnd(q: Queue, ok: bool, c: Clock): (r: Queue)
    requires Shape(q)
    requires forall id :: id in q.queue[q.runningIdx] ==> id in q.rqs
    ensures Shape(r)
  {
    CompleteAll(Flushed(q, ok), q.queue[q.runningIdx], ok, c)
  }

  /** The driver completes the data of a sequenced request: blk_update_request, then flush_data_end_io. */
  function DataEnd(q: Queue, id: Id, ok: bool, stable: bool, c: Clock): (r: Queue)
    requires Shape(q) && id in q.rqs
    ensures Shape(r)
  {
    CompleteSeq(EndBio(Log(q, WriteDone(Own(id), ok, stable)), id, ok), id, MaskOf(Data), ok, c)
  }

  /** A request as blk_insert_flush leaves it: REQ_FUA stays only for a device that honours it, and REQ_FLUSH_SEQ is
      set if the request goes through the machine. */
  function NewRq(req: Request, f: DeviceFlags, flushSeq: bool): Rq {
    Rq(req, Mask(false, false, false), flushSeq, req.fua && f.fua, true)
  }

  /** blk_insert_flush */
  function Insert(q: Queue, id: Id, req: Request, f: DeviceFlags, c: Clock): (r: Queue)
    requires Shape(q)
    ensures Shape(r)
  {
    var p := Policy(f, req);
    var q1 := Log(q.(rqs := q.rqs[id := NewRq(req, f, p.pre || p.post)]), Inserted(id, req));
    if !p.pre && !p.data && !p.post then EndBio(q1, id, true)
    else if p.data && !p.pre && !p.post then Log(q1.(direct := q1.direct + {id}), DataIssued(id, true))
    else CompleteSeq(q1, id, Complement(p), true, c)
  }

  /** A request queued for normal execution completes. */
  function DirectEnd(q: Queue, id: Id, ok: bool, stable: bool): (r: Queue)
    requires id in q.rqs
  {
    EndBio(Log(q.(direct := q.direct - {id}), WriteDone(Own(id), ok, stable)), id, ok)
  }

  /* ---- runs ---- */

  datatype Op =
    | OpInsert(id: Id, req: Request, flags: DeviceFlags)
    | OpDataEnd(id: Id, ok: bool, stable: bool)
    | OpFlushEnd(ok: bool)
    | OpDirectEnd(id: Id, ok: bool, stable: bool)
    | OpOtherWrite(n: nat, ok: bool, stable: bool)

  /** When the environment can take a step. `cache` says that the device has a volatile write-back cache. A device
      with one advertises it, a write sent with REQ_FUA or to a device without one is stable on completion, and a
      request without data does not carry REQ_FUA. */
  ghost predicate Enabled(q: Queue, cache: bool, op: Op)
    requires Shape(q)
  {
    match op
    case OpInsert(id, req, f) => id !in q.rqs && (req.fua ==> req.hasData) && (cache ==> f.flush)
    case OpDataEnd(id, ok, stable) => id in q.data && id in q.rqs && (ok && (q.rqs[id].fua || !cache) ==> stable)
    case OpFlushEnd(ok) => q.pendingIdx != q.runningIdx && (forall id :: id in q.queue[q.runningIdx] ==> id in q.rqs)
    case OpDirectEnd(id, ok, stable) => id in q.direct && id in q.rqs && (ok && (q.rqs[id].fua || !cache) ==> stable)
    case OpOtherWrite(n, ok, stable) => ok && !cache ==> stable
  }

  ghost function Apply(q: Queue, cache: bool, op: Op, c: Clock): (r: Queue)
    requires Shape(q)
    ensures Shape(r)
  {
    if !Enabled(q, cache, op) then q
    else match op
      case OpInsert(id, req, f) => Insert(q, id, req, f, c)
      case OpDataEnd(id, ok, stable) => DataEnd(q, id, ok, stable, c)
      case OpFlushEnd(ok) => FlushEnd(q, ok, c)
      case OpDirectEnd(id, ok, stable) => DirectEnd(q, id, ok, stable)
      case OpOtherWrite(n, ok, stable) => Log(q, WriteDone(Other(n), ok, stable))
  }

  /** Any sequence of attempted steps; a step the environment cannot take changes nothing. */
  ghost function Exec(cache: bool, ops: seq<(Op, Clock)>): (q: Queue)
    ensures Shape(q)
  {
    if ops == [] then Empty
    else
      var last := ops[|ops| - 1];
      Apply(Exec(cache, ops[..|ops| - 1]), cache, last.0, last.1)
  }
}
