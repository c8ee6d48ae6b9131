/**
 What the flush machine is for: durability. The trace of a run is replayed on a device whose flush makes durable every
 write completed before the flush was issued. In every run the data of a REQ_FLUSH request is issued only after all
 writes completed before its insertion are durable, and a REQ_FUA request ends well only with its own data durable.
 */
module FlushDurability {
  import opened Lists
  import opened Flush
  import opened FlushLists
  import opened FlushOnce

  /** The device: writes reported complete, writes the flush in flight covers, writes on stable storage. */
  datatype Disk = Disk(completed: set<Write>, covered: set<Write>, durable: set<Write>)

  /** A request as it was inserted: what it asked for, and the writes completed before. */
  datatype Entry = Entry(req: Request, before: set<Write>)

  /** What an observer of the trace knows. */
  datatype View = View(disk: Disk, asked: map<Id, Entry>)

  ghost function Effect(d: Disk, e: Event): Disk {
    match e
    case WriteDone(w, true, stable) =>
      d.(completed := d.completed + {w}, durable := if stable then d.durable + {w} else d.durable)
    case FlushIssued => d.(covered := d.completed)
    case FlushDone(true) => d.(durable := d.durable + d.covered)
    case _ => d
  }

  ghost function See(v: View, e: Event): View {
    if e.Inserted? then v.(asked := v.asked[e.id := Entry(e.req, v.disk.completed)])
    else v.(disk := Effect(v.disk, e))
  }

  ghost function Seen(tr: seq<Event>): View {
    if tr == [] then View(Disk({}, {}, {}), map[]) else See(Seen(tr[..|tr| - 1]), tr[|tr| - 1])
  }

  /** What each event promises, given what was seen before it. */
  ghost predicate Keeps(v: View, e: Event) {
    match e
    case DataIssued(id, _) => id in v.asked && (v.asked[id].req.flush ==> v.asked[id].before <= v.disk.durable)
    case Ended(id, true) =>
      && id in v.asked
      && (v.asked[id].req.flush ==> v.asked[id].before <= v.disk.durable)
      && (v.asked[id].req.hasData ==> Own(id) in v.disk.completed)
      && (v.asked[id].req.fua ==> Own(id) in v.disk.durable)
    case _ => true
  }

  ghost predicate Kept(tr: seq<Event>) {
    tr != [] ==> Kept(tr[..|tr| - 1]) && Keeps(Seen(tr[..|tr| - 1]), tr[|tr| - 1])
  }

  lemma SeenLog(tr: seq<Event>, e: Event)
    ensures Seen(tr + [e]) == See(Seen(tr), e)
    ensures Kept(tr + [e]) <==> Kept(tr) && Keeps(Seen(tr), e)
  {
    assert (tr + [e])[..|tr|] == tr;
  }

  /* ---- the invariant ---- */

  /** What the completed steps of one request have achieved. */
  ghost predicate RqSafe(v: View, cache: bool, r: Rq, direct: bool, id: Id)
    requires id in v.asked
  {
    var d, b := v.disk, v.asked[id].before;
    && r.req == v.asked[id].req
    && b <= d.completed
    && (r.flushSeq ==>
        && (r.completed.pre && r.req.flush ==> b <= d.durable)
        && (r.req.hasData && r.completed.data ==> Own(id) in d.completed)
        && (r.req.fua ==> r.req.hasData)
        && (r.req.fua && r.completed.post ==>
            if r.completed.data then Own(id) in d.durable else r.fua || !cache))
    && (direct ==>
        && r.bio && !r.flushSeq && r.req.hasData
        && (r.req.flush ==> b <= d.durable)
        && (r.req.fua ==> r.fua || !cache))
  }

  /** A request on the running list is waiting for a flush that was issued after it was queued. */
  ghost predicate Covered(v: View, r: Rq, id: Id)
    requires id in v.asked
  {
    && (!r.completed.pre ==> v.asked[id].before <= v.disk.covered)
    && (r.completed.pre && r.req.hasData ==> Own(id) in v.disk.covered)
  }

  /** The queue is in step with what was seen, requests in `skip` apart. */
  ghost predicate InStep(q: Queue, v: View, cache: bool, skip: set<Id>) {
    && Shape(q)
    && (!cache ==> v.disk.completed <= v.disk.durable)
    && (forall id :: id in q.rqs ==> id in v.asked && v.asked[id].req == q.rqs[id].req)
    && (forall id :: id in q.rqs && id !in skip ==> RqSafe(v, cache, q.rqs[id], id in q.direct, id))
    && (q.pendingIdx != q.runningIdx ==>
        forall id :: id in q.queue[q.runningIdx] && id in q.rqs ==> Covered(v, q.rqs[id], id))
  }

  ghost predicate SafeBut(q: Queue, cache: bool, skip: set<Id>) {
    Kept(q.trace) && InStep(q, Seen(q.trace), cache, skip)
  }

  ghost predicate Safe(q: Queue, cache: bool) { SafeBut(q, cache, {}) }

  /** Nothing but a flush or an insertion of its own takes anything away from a request. */
  lemma RqSafeAfter(v: View, cache: bool, e: Event, r: Rq, direct: bool, id: Id)
    requires id in v.asked && RqSafe(v, cache, r, direct, id) && !e.Inserted?
    ensures RqSafe(See(v, e), cache, r, direct, id)
  {
  }

  /** An event that issues no flush and inserts nothing keeps the queue in step. */
  lemma EventInStep(q: Queue, v: View, cache: bool, skip: set<Id>, e: Event)
    requires InStep(q, v, cache, skip) && !e.FlushIssued? && !e.Inserted?
    requires e.WriteDone? && e.ok && !cache ==> e.stable
    ensures InStep(q, See(v, e), cache, skip)
  {
    forall id | id in q.rqs && id !in skip ensures RqSafe(See(v, e), cache, q.rqs[id], id in q.direct, id) {
      RqSafeAfter(v, cache, e, q.rqs[id], id in q.direct, id);
    }
  }

  lemma LoggedInStep(q: Queue, v: View, cache: bool, skip: set<Id>, e: Event)
    requires InStep(q, v, cache, skip)
    ensures InStep(Log(q, e), v, cache, skip)
  {
  }

  lemma LogSafe(q: Queue, cache: bool, skip: set<Id>, e: Event)
    requires SafeBut(q, cache, skip) && Keeps(Seen(q.trace), e) && !e.FlushIssued? && !e.Inserted?
    requires e.WriteDone? && e.ok && !cache ==> e.stable
    ensures SafeBut(Log(q, e), cache, skip) && Seen(Log(q, e).trace) == See(Seen(q.trace), e)
  {
    SeenLog(q.trace, e);
    EventInStep(q, Seen(q.trace), cache, skip, e);
    LoggedInStep(q, See(Seen(q.trace), e), cache, skip, e);
  }

  /** Moving one request between lists, or changing only that request, leaves the others in step. */
  lemma OneMoves(q: Queue, k: Queue, v: View, cache: bool, x: Id)
    requires InStep(q, v, cache, {x}) && Shape(k)
    requires k.pendingIdx == q.pendingIdx && k.runningIdx == q.runningIdx
    requires forall i :: i != x ==> (i in k.direct <==> i in q.direct)
    requires x in q.rqs && x in k.rqs && k.rqs == q.rqs[x := k.rqs[x]] && k.rqs[x].req == q.rqs[x].req
    requires q.pendingIdx != q.runningIdx ==>
               x !in k.queue[k.runningIdx] && forall id :: id in k.queue[k.runningIdx] ==> id in q.queue[q.runningIdx]
    ensures InStep(k, v, cache, {x})
  {
    forall id | id in k.rqs && id !in {x} ensures RqSafe(v, cache, k.rqs[id], id in k.direct, id) {
      assert RqSafe(v, cache, q.rqs[id], id in q.direct, id);
    }
  }

  lemma NoneSkipped(q: Queue, v: View, cache: bool, x: Id)
    requires InStep(q, v, cache, {x})
    requires x in q.rqs && RqSafe(v, cache, q.rqs[x], x in q.direct, x)
    ensures InStep(q, v, cache, {})
  {
  }

  lemma Skipping(q: Queue, v: View, cache: bool, x: Id)
    requires InStep(q, v, cache, {})
    ensures InStep(q, v, cache, {x})
    ensures x in q.rqs ==> x in v.asked && RqSafe(v, cache, q.rqs[x], x in q.direct, x)
  {
  }

  /* ---- one request moves on ---- */

  /** Between steps of one request: the others are in step and it is on no list a flush in flight serves. */
  ghost predicate Leaving(q: Queue, cache: bool, id: Id) {
    && SafeBut(q, cache, {id})
    && id in q.rqs && q.rqs[id].flushSeq && id !in q.direct
    && Seen(q.trace).asked[id].before <= Seen(q.trace).disk.completed
    && (q.pendingIdx != q.runningIdx ==> id !in q.queue[q.runningIdx])
  }

  /** The request in flight, as it is now, would be safe. */
  ghost predicate Fine(q: Queue, cache: bool, id: Id) {
    id in q.rqs && id in Seen(q.trace).asked && RqSafe(Seen(q.trace), cache, q.rqs[id], id in q.direct, id)
  }

  lemma QueueForFlushSafe(q: Queue, cache: bool, id: Id, c: Clock)
    requires Leaving(q, cache, id) && Fine(q, cache, id)
    ensures Safe(QueueForFlush(q, id, c), cache)
  {
    var a := QueueForFlush(q, id, c).(trace := q.trace);
    OneMoves(q, a, Seen(q.trace), cache, id);
    NoneSkipped(a, Seen(q.trace), cache, id);
    LogSafe(a, cache, {}, QueuedFor(id));
  }

  lemma IssueDataSafe(q: Queue, cache: bool, id: Id)
    requires Leaving(q, cache, id) && Fine(q, cache, id) && q.rqs[id].completed.pre
    ensures Safe(IssueData(q, id), cache)
  {
    var u := Unlink(q, id);
    var m := u.(data := u.data + [id]);
    OneMoves(q, m, Seen(q.trace), cache, id);
    NoneSkipped(m, Seen(q.trace), cache, id);
    LogSafe(m, cache, {}, DataIssued(id, false));
  }

  ghost function Finished(q: Queue, id: Id): (m: Queue)
    requires Shape(q) && id in q.rqs
    ensures Shape(m)
  {
    var u := Unlink(q, id);
    u.(rqs := u.rqs[id := u.rqs[id].(bio := false, flushSeq := false)])
  }

  lemma FinishEnds(q: Queue, id: Id, ok: bool)
    requires Shape(q) && id in q.rqs
    ensures Finish(q, id, ok) == Log(Finished(q, id), Ended(id, ok))
  {
    var u := Unlink(q, id);
    var r := u.rqs[id].(bio := true, flushSeq := false);
    assert u.rqs[id := r][id := r.(bio := false)] == Finished(q, id).rqs;
  }

  lemma FinishSafe(q: Queue, cache: bool, id: Id, ok: bool)
    requires Leaving(q, cache, id)
    requires ok ==> Fine(q, cache, id) && CurSeq(q.rqs[id].completed) == Done
    ensures Safe(Finish(q, id, ok), cache)
  {
    var m := Finished(q, id);
    OneMoves(q, m, Seen(q.trace), cache, id);
    NoneSkipped(m, Seen(q.trace), cache, id);
    LogSafe(m, cache, {}, Ended(id, ok));
    FinishEnds(q, id, ok);
  }

  lemma AdvanceSafe(q: Queue, cache: bool, id: Id, ok: bool, c: Clock)
    requires Leaving(q, cache, id)
    requires ok ==> Fine(q, cache, id)
    ensures Safe(Advance(q, id, ok, c), cache)
  {
    match if ok then CurSeq(q.rqs[id].completed) else Done {
      case PreFlush => QueueForFlushSafe(q, cache, id, c);
      case PostFlush => QueueForFlushSafe(q, cache, id, c);
      case Data => IssueDataSafe(q, cache, id);
      case Done => FinishSafe(q, cache, id, ok);
    }
  }

  /** A flush covers, when it is issued, a request that waits for one. */
  lemma CoveredNow(v: View, cache: bool, r: Rq, direct: bool, id: Id)
    requires id in v.asked && RqSafe(v, cache, r, direct, id) && r.flushSeq && Flushing(r.completed)
    ensures Covered(See(v, FlushIssued), r, id)
  {
  }

  lemma KickInStep(q: Queue, v: View, cache: bool)
    requires InStep(q, v, cache, {}) && AllPlaced(q) && q.pendingIdx == q.runningIdx
    ensures InStep(q.(pendingIdx := 1 - q.pendingIdx), See(v, FlushIssued), cache, {})
  {
    var v' := See(v, FlushIssued);
    forall id | id in q.rqs ensures RqSafe(v', cache, q.rqs[id], id in q.direct, id) {
      RqSafeAfter(v, cache, FlushIssued, q.rqs[id], id in q.direct, id);
    }
    forall id | id in q.queue[q.runningIdx] && id in q.rqs ensures Covered(v', q.rqs[id], id) {
      assert OnFlushList(q, id) && Placed(q, id);
      CoveredNow(v, cache, q.rqs[id], id in q.direct, id);
    }
  }

  /** A flush that is issued covers every request on the list it takes. */
  lemma KickSafe(q: Queue, cache: bool, c: Clock)
    requires Safe(q, cache) && AllPlaced(q)
    ensures Safe(Kick(q, c), cache)
  {
    if Kick(q, c) != q {
      KickInStep(q, Seen(q.trace), cache);
      SeenLog(q.trace, FlushIssued);
      LoggedInStep(q.(pendingIdx := 1 - q.pendingIdx), See(Seen(q.trace), FlushIssued), cache, {}, FlushIssued);
    }
  }

  /** A step that is recorded as complete is safe once its effect is. */
  lemma CompleteSeqSafe(q: Queue, cache: bool, id: Id, done: Mask, ok: bool, c: Clock)
    requires PlacedExcept(q, id) && Leaving(q, cache, id)
    requires Ordered(q.rqs[id].req, Or(q.rqs[id].completed, done))
    requires ok ==> Fine(Record(q, id, done), cache, id)
    ensures Safe(CompleteSeq(q, id, done, ok, c), cache)
  {
    var k := Record(q, id, done);
    RecordLeaves(q, cache, id, done);
    AdvanceSafe(k, cache, id, ok, c);
    RecordKeeps(q, id, done);
    AdvancePlaces(k, id, ok, c);
    KickSafe(Advance(k, id, ok, c), cache, c);
  }

  lemma RecordLeaves(q: Queue, cache: bool, id: Id, done: Mask)
    requires Leaving(q, cache, id)
    ensures Leaving(Record(q, id, done), cache, id)
  {
    OneMoves(q, Record(q, id, done), Seen(q.trace), cache, id);
  }

  /* ---- the end of a flush ---- */

  /** The flush that ended has done its work for everyone still on the walked list. */
  ghost predicate Served(q: Queue, v: View, walk: seq<Id>) {
    forall id :: id in walk && id in q.rqs && id in v.asked ==>
      && (!q.rqs[id].completed.pre ==> v.asked[id].before <= v.disk.durable)
      && (q.rqs[id].completed.pre && q.rqs[id].req.hasData ==> Own(id) in v.disk.durable)
  }

  /** No step of the machine takes back what is durable, changes an insertion, or touches another request. */
  lemma AdvanceGrows(q: Queue, id: Id, ok: bool, c: Clock)
    requires Shape(q) && id in q.rqs
    ensures var a := Advance(q, id, ok, c);
            && Seen(a.trace).disk.durable == Seen(q.trace).disk.durable
            && Seen(a.trace).asked == Seen(q.trace).asked
            && a.rqs == q.rqs[id := a.rqs[id]]
  {
    FinishEnds(q, id, ok);
    SeenLog(q.trace, QueuedFor(id));
    SeenLog(q.trace, DataIssued(id, false));
    SeenLog(q.trace, Ended(id, ok));
  }

  lemma CompleteSeqGrows(q: Queue, id: Id, done: Mask, ok: bool, c: Clock)
    requires Shape(q) && id in q.rqs
    ensures var n := CompleteSeq(q, id, done, ok, c);
            && Seen(n.trace).disk.durable == Seen(q.trace).disk.durable
            && Seen(n.trace).asked == Seen(q.trace).asked
            && id in n.rqs && n.rqs == q.rqs[id := n.rqs[id]]
  {
    var k := Record(q, id, done);
    AdvanceGrows(k, id, ok, c);
    KickGrows(Advance(k, id, ok, c), c);
  }

  lemma KickGrows(q: Queue, c: Clock)
    requires Shape(q)
    ensures var n := Kick(q, c);
            && Seen(n.trace).disk.durable == Seen(q.trace).disk.durable
            && Seen(n.trace).asked == Seen(q.trace).asked && n.rqs == q.rqs
  {
    SeenLog(q.trace, FlushIssued);
  }

  lemma ServedStep(q: Queue, id: Id, done: Mask, walk: seq<Id>, ok: bool, c: Clock)
    requires Shape(q) && id in q.rqs && id !in walk && Served(q, Seen(q.trace), walk)
    ensures var n := CompleteSeq(q, id, done, ok, c); Served(n, Seen(n.trace), walk)
  {
    CompleteSeqGrows(q, id, done, ok, c);
  }

  /** The head of the walked list leaves it, and what the flush did makes the step it waited for complete. */
  lemma WalkHeadSafe(q: Queue, cache: bool, r: int, walk: seq<Id>, ok: bool, c: Clock)
    requires Walking(q, r, walk) && Safe(q, cache) && (ok ==> Served(q, Seen(q.trace), walk))
    requires walk != [] && walk[0] in q.rqs
    ensures Safe(CompleteSeq(q, walk[0], MaskOf(CurSeq(q.rqs[walk[0]].completed)), ok, c), cache)
  {
    var id := walk[0];
    WalkHead(q, r, walk);
    Skipping(q, Seen(q.trace), cache, id);
    var done := MaskOf(CurSeq(q.rqs[id].completed));
    if ok {
      ServedIsFine(q, cache, id, done);
    }
    CompleteSeqSafe(q, cache, id, done, ok, c);
  }

  lemma ServedIsFine(q: Queue, cache: bool, id: Id, done: Mask)
    requires id in q.rqs && Fine(q, cache, id) && id !in q.direct && q.rqs[id].flushSeq && Flushing(q.rqs[id].completed)
    requires done == MaskOf(CurSeq(q.rqs[id].completed)) && Served(q, Seen(q.trace), [id])
    requires Ordered(q.rqs[id].req, q.rqs[id].completed)
    ensures Fine(Record(q, id, done), cache, id)
  {
    assert id in [id];
  }

  lemma RestServed(q: Queue, r: int, walk: seq<Id>, c: Clock)
    requires Walking(q, r, walk) && walk != [] && walk[0] in q.rqs && Served(q, Seen(q.trace), walk)
    ensures var n := CompleteSeq(q, walk[0], MaskOf(CurSeq(q.rqs[walk[0]].completed)), true, c);
            Served(n, Seen(n.trace), walk[1..])
  {
    assert walk[0] !in walk[1..] by {
      assert NoDup(q.queue[r]);
    }
    ServedStep(q, walk[0], MaskOf(CurSeq(q.rqs[walk[0]].completed)), walk[1..], true, c);
  }

  lemma WalkTurn(q: Queue, cache: bool, r: int, walk: seq<Id>, ok: bool, c: Clock)
    requires Walking(q, r, walk) && Safe(q, cache) && (ok ==> Served(q, Seen(q.trace), walk))
    requires walk != [] && walk[0] in q.rqs
    ensures var n := CompleteSeq(q, walk[0], MaskOf(CurSeq(q.rqs[walk[0]].completed)), ok, c);
            Walking(n, r, walk[1..]) && Safe(n, cache) && (ok ==> Served(n, Seen(n.trace), walk[1..]))
  {
    WalkHeadSafe(q, cache, r, walk, ok, c);
    WalkStep(q, r, walk, ok, c);
    if ok {
      RestServed(q, r, walk, c);
    }
  }

  lemma {:induction false} WalkSafe(q: Queue, cache: bool, r: int, walk: seq<Id>, ok: bool, c: Clock)
    requires Walking(q, r, walk) && Safe(q, cache) && (ok ==> Served(q, Seen(q.trace), walk))
    requires forall id :: id in walk ==> id in q.rqs
    ensures Safe(CompleteAll(q, walk, ok, c), cache)
    decreases |walk|
  {
    if walk != [] {
      var done := MaskOf(CurSeq(q.rqs[walk[0]].completed));
      WalkTurn(q, cache, r, walk, ok, c);
      RqsKept(q, walk[0], done, ok, c);
      WalkSafe(CompleteSeq(q, walk[0], done, ok, c), cache, r, walk[1..], ok, c);
    }
  }

  lemma FlushDoneInStep(q: Queue, v: View, cache: bool, ok: bool)
    requires InStep(q, v, cache, {}) && q.pendingIdx != q.runningIdx
    ensures var q1, v1 := q.(runningIdx := 1 - q.runningIdx), See(v, FlushDone(ok));
            InStep(q1, v1, cache, {}) && (ok ==> Served(q1, v1, q.queue[q.runningIdx]))
  {
    EventInStep(q, v, cache, {}, FlushDone(ok));
  }

  /** FlushDone persists what the flush covered, that is, what every request on its list was waiting for. */
  lemma FlushDoneServes(q: Queue, cache: bool, ok: bool)
    requires Safe(q, cache) && q.pendingIdx != q.runningIdx
    ensures var q1 := Flushed(q, ok);
            Safe(q1, cache) && (ok ==> Served(q1, Seen(q1.trace), q.queue[q.runningIdx]))
  {
    SeenLog(q.trace, FlushDone(ok));
    FlushDoneInStep(q, Seen(q.trace), cache, ok);
    LoggedInStep(q.(runningIdx := 1 - q.runningIdx), See(Seen(q.trace), FlushDone(ok)), cache, {}, FlushDone(ok));
  }

  lemma FlushEndSafe(q: Queue, cache: bool, ok: bool, c: Clock)
    requires Consistent(q) && Safe(q, cache) && q.pendingIdx != q.runningIdx
    requires forall id :: id in q.queue[q.runningIdx] ==> id in q.rqs
    ensures Safe(FlushEnd(q, ok, c), cache)
  {
    StartsWalking(q, ok);
    FlushDoneServes(q, cache, ok);
    WalkSafe(Flushed(q, ok), cache, q.runningIdx, q.queue[q.runningIdx], ok, c);
  }

  /* ---- data completes ---- */

  /** Once its data is written, the DATA step of a request is complete in fact. */
  lemma DataIsFine(v: View, cache: bool, r: Rq, id: Id, ok: bool, stable: bool)
    requires id in v.asked && RqSafe(v, cache, r, false, id) && r.flushSeq && CurSeq(r.completed) == Data
    requires ok && (r.fua || !cache) ==> stable
    requires ok
    ensures RqSafe(See(v, WriteDone(Own(id), ok, stable)), cache,
                   r.(bio := false, completed := Or(r.completed, MaskOf(Data))), false, id)
  {
  }

  lemma DataDoneSafe(q: Queue, cache: bool, id: Id, ok: bool, stable: bool)
    requires Safe(q, cache) && id in q.rqs && q.rqs[id].flushSeq && id !in q.direct && !OnFlushList(q, id)
    requires CurSeq(q.rqs[id].completed) == Data && (ok && (q.rqs[id].fua || !cache) ==> stable)
    ensures var q2 := EndBio(Log(q, WriteDone(Own(id), ok, stable)), id, ok);
            Leaving(q2, cache, id) && (ok ==> Fine(Record(q2, id, MaskOf(Data)), cache, id))
  {
    var e, v := WriteDone(Own(id), ok, stable), Seen(q.trace);
    Skipping(q, v, cache, id);
    LogSafe(q, cache, {id}, e);
    RqSafeAfter(v, cache, e, q.rqs[id], false, id);
    var q1 := Log(q, e);
    OneMoves(q1, EndBio(q1, id, ok), See(v, e), cache, id);
    if ok {
      DataIsFine(v, cache, q.rqs[id], id, ok, stable);
    }
  }

  lemma DataEndSafe(q: Queue, cache: bool, id: Id, ok: bool, stable: bool, c: Clock)
    requires Consistent(q) && Safe(q, cache) && Enabled(q, cache, OpDataEnd(id, ok, stable))
    ensures Safe(DataEnd(q, id, ok, stable, c), cache)
  {
    assert Placed(q, id);
    DataDoneSafe(q, cache, id, ok, stable);
    DataDonePlaced(q, id, ok, stable);
    CompleteSeqSafe(EndBio(Log(q, WriteDone(Own(id), ok, stable)), id, ok), cache, id, MaskOf(Data), ok, c);
  }

  lemma DirectIsFine(v: View, cache: bool, r: Rq, id: Id, ok: bool, stable: bool)
    requires id in v.asked && RqSafe(v, cache, r, true, id) && (ok && (r.fua || !cache) ==> stable)
    ensures var v1 := See(v, WriteDone(Own(id), ok, stable));
            RqSafe(v1, cache, r.(bio := false), false, id) && Keeps(v1, Ended(id, ok))
  {
  }

  lemma DirectEndSafe(q: Queue, cache: bool, id: Id, ok: bool, stable: bool)
    requires Safe(q, cache) && id in q.rqs && id in q.direct && !OnFlushList(q, id)
    requires ok && (q.rqs[id].fua || !cache) ==> stable
    ensures Safe(DirectEnd(q, id, ok, stable), cache)
  {
    var e, v := WriteDone(Own(id), ok, stable), Seen(q.trace);
    Skipping(q, v, cache, id);
    LogSafe(q, cache, {id}, e);
    var q1 := Log(q, e);
    var q2 := q1.(direct := q1.direct - {id}, rqs := q1.rqs[id := q1.rqs[id].(bio := false)]);
    OneMoves(q1, q2, See(v, e), cache, id);
    DirectIsFine(v, cache, q.rqs[id], id, ok, stable);
    NoneSkipped(q2, See(v, e), cache, id);
    LogSafe(q2, cache, {}, Ended(id, ok));
    assert DirectEnd(q, id, ok, stable) == Log(q2, Ended(id, ok));
  }

  /* ---- insertion ---- */

  ghost function InsertedInto(q: Queue, id: Id, req: Request, f: DeviceFlags, flushSeq: bool): Queue {
    Log(q.(rqs := q.rqs[id := NewRq(req, f, flushSeq)]), Inserted(id, req))
  }

  lemma InsertedInStep(q: Queue, v: View, cache: bool, id: Id, req: Request, f: DeviceFlags, flushSeq: bool)
    requires InStep(q, v, cache, {}) && id !in q.rqs && !OnFlushList(q, id)
    ensures InStep(InsertedInto(q, id, req, f, flushSeq), See(v, Inserted(id, req)), cache, {id})
  {
    var q1, v1 := InsertedInto(q, id, req, f, flushSeq), See(v, Inserted(id, req));
    forall i | i in q1.rqs && i !in {id} ensures RqSafe(v1, cache, q1.rqs[i], i in q1.direct, i) {
      assert RqSafe(v, cache, q.rqs[i], i in q.direct, i);
    }
  }

  lemma InsertedSafe(q: Queue, cache: bool, id: Id, req: Request, f: DeviceFlags, flushSeq: bool)
    requires Safe(q, cache) && id !in q.rqs && !OnFlushList(q, id)
    ensures var q1 := InsertedInto(q, id, req, f, flushSeq);
            SafeBut(q1, cache, {id}) && Seen(q1.trace) == See(Seen(q.trace), Inserted(id, req))
  {
    SeenLog(q.trace, Inserted(id, req));
    InsertedInStep(q, Seen(q.trace), cache, id, req, f, flushSeq);
  }

  lemma OnNoList(q: Queue, id: Id)
    requires Consistent(q) && id !in q.rqs
    ensures !OnFlushList(q, id) && id !in q.data && id !in q.direct
  {
  }

  /** The steps a new request does not need count as complete: without a cache nothing has to be flushed. */
  lemma NewIsFine(v: View, cache: bool, id: Id, req: Request, f: DeviceFlags)
    requires (req.fua ==> req.hasData) && (cache ==> f.flush) && (!cache ==> v.disk.completed <= v.disk.durable)
    requires Policy(f, req).pre || Policy(f, req).post
    ensures RqSafe(See(v, Inserted(id, req)), cache,
                   NewRq(req, f, true).(completed := Or(NewRq(req, f, true).completed, Complement(Policy(f, req)))), false, id)
  {
  }

  lemma InsertSequencedSafe(q: Queue, cache: bool, id: Id, req: Request, f: DeviceFlags, c: Clock)
    requires Consistent(q) && Safe(q, cache) && Enabled(q, cache, OpInsert(id, req, f))
    requires Policy(f, req).pre || Policy(f, req).post
    ensures Safe(Insert(q, id, req, f, c), cache)
  {
    OnNoList(q, id);
    InsertedSafe(q, cache, id, req, f, true);
    InsertedPlaced(q, id, req, f);
    NewIsFine(Seen(q.trace), cache, id, req, f);
    CompleteSeqSafe(InsertedInto(q, id, req, f, true), cache, id, Complement(Policy(f, req)), true, c);
  }

  lemma InsertDirectSafe(q: Queue, cache: bool, id: Id, req: Request, f: DeviceFlags, c: Clock)
    requires Consistent(q) && Safe(q, cache) && Enabled(q, cache, OpInsert(id, req, f))
    requires !Policy(f, req).pre && !Policy(f, req).post && Policy(f, req).data
    ensures Safe(Insert(q, id, req, f, c), cache)
  {
    OnNoList(q, id);
    InsertedSafe(q, cache, id, req, f, false);
    var q1 := InsertedInto(q, id, req, f, false);
    var q2 := q1.(direct := q1.direct + {id});
    OneMoves(q1, q2, Seen(q1.trace), cache, id);
    NoneSkipped(q2, Seen(q1.trace), cache, id);
    LogSafe(q2, cache, {}, DataIssued(id, true));
  }

  lemma InsertNothingSafe(q: Queue, cache: bool, id: Id, req: Request, f: DeviceFlags, c: Clock)
    requires Consistent(q) && Safe(q, cache) && Enabled(q, cache, OpInsert(id, req, f))
    requires !Policy(f, req).pre && !Policy(f, req).post && !Policy(f, req).data
    ensures Safe(Insert(q, id, req, f, c), cache)
  {
    OnNoList(q, id);
    InsertedSafe(q, cache, id, req, f, false);
    var q1 := InsertedInto(q, id, req, f, false);
    var q2 := q1.(rqs := q1.rqs[id := q1.rqs[id].(bio := false)]);
    OneMoves(q1, q2, Seen(q1.trace), cache, id);
    NoneSkipped(q2, Seen(q1.trace), cache, id);
    LogSafe(q2, cache, {}, Ended(id, true));
  }

  /* ---- every run ---- */

  lemma ApplySafe(q: Queue, cache: bool, op: Op, c: Clock)
    requires Consistent(q) && Safe(q, cache)
    ensures Safe(Apply(q, cache, op, c), cache)
  {
    if Enabled(q, cache, op) {
      match op {
        case OpInsert(id, req, f) =>
          var p := Policy(f, req);
          if p.pre || p.post {
            InsertSequencedSafe(q, cache, id, req, f, c);
          } else if p.data {
            InsertDirectSafe(q, cache, id, req, f, c);
          } else {
            InsertNothingSafe(q, cache, id, req, f, c);
          }
        case OpDataEnd(id, ok, stable) => DataEndSafe(q, cache, id, ok, stable, c);
        case OpFlushEnd(ok) => FlushEndSafe(q, cache, ok, c);
        case OpDirectEnd(id, ok, stable) =>
          assert Placed(q, id);
          Skipping(q, Seen(q.trace), cache, id);
          DirectEndSafe(q, cache, id, ok, stable);
        case OpOtherWrite(n, ok, stable) => LogSafe(q, cache, {}, WriteDone(Other(n), ok, stable));
      }
    }
  }

  lemma {:induction false} RunsSafe(cache: bool, ops: seq<(Op, Clock)>)
    ensures Safe(Exec(cache, ops), cache)
  {
    if ops != [] {
      var last := ops[|ops| - 1];
      RunsSafe(cache, ops[..|ops| - 1]);
      RunsConsistent(cache, ops[..|ops| - 1]);
      ApplySafe(Exec(cache, ops[..|ops| - 1]), cache, last.0, last.1);
    }
  }

  /* ---- the theorems, on positions of the trace ---- */

  lemma {:induction false} KeptAt(tr: seq<Event>, i: nat)
    requires Kept(tr) && i < |tr|
    ensures Keeps(Seen(tr[..i]), tr[i])
    decreases |tr|
  {
    if i < |tr| - 1 {
      KeptAt(tr[..|tr| - 1], i);
      assert tr[..|tr| - 1][..i] == tr[..i];
    }
  }

  /** An entry tells what was complete at some insertion. */
  lemma {:induction false} AskedAt(tr: seq<Event>, id: Id) returns (j: nat)
    requires id in Seen(tr).asked
    ensures j < |tr| && Seen(tr).asked[id].before == Seen(tr[..j]).disk.completed
    ensures tr[j] == Inserted(id, Seen(tr).asked[id].req)
  {
    var n := |tr| - 1;
    if tr[n].Inserted? && tr[n].id == id {
      j := n;
    } else {
      j := AskedAt(tr[..n], id);
      assert tr[..n][..j] == tr[..j];
    }
  }

  lemma OneInsertion(tr: seq<Event>, k: nat, j: nat)
    requires OnceTrace(tr) && k < |tr| && j < |tr| && tr[k].Inserted? && tr[j].Inserted? && tr[k].id == tr[j].id
    ensures k == j
  {
    var lo, hi := if k < j then k else j, if k < j then j else k;
    if lo < hi {
      assert tr[..hi][lo] == Inserted(tr[lo].id, tr[lo].req);
      FirstTimeAt(tr, hi);
    }
  }

  /** An entry of a prefix is the one insertion there is. */
  lemma AskedOnce(tr: seq<Event>, j: nat, i: nat, id: Id, req: Request)
    requires OnceTrace(tr) && j < |tr| && i < |tr| && tr[j] == Inserted(id, req) && id in Seen(tr[..i]).asked
    ensures j < i && Seen(tr[..i]).asked[id] == Entry(req, Seen(tr[..j]).disk.completed)
  {
    var k := AskedAt(tr[..i], id);
    assert tr[..i][k] == tr[k];
    OneInsertion(tr, k, j);
    assert tr[..i][..j] == tr[..j];
  }

  /** In every run, at the point where the data of a REQ_FLUSH request is issued, every write that had completed when
      the request was inserted is durable. */
  lemma DataWaitsForPreflush(cache: bool, ops: seq<(Op, Clock)>, j: nat, i: nat, id: Id, req: Request, direct: bool)
    requires var tr := Exec(cache, ops).trace;
             j < |tr| && i < |tr| && tr[j] == Inserted(id, req) && req.flush && tr[i] == DataIssued(id, direct)
    ensures var tr := Exec(cache, ops).trace;
            j < i && Seen(tr[..j]).disk.completed <= Seen(tr[..i]).disk.durable
  {
    RunsSafe(cache, ops);
    RunsOnce(cache, ops);
    IssueWaits(Exec(cache, ops).trace, j, i, id, req, direct);
  }

  lemma IssueWaits(tr: seq<Event>, j: nat, i: nat, id: Id, req: Request, direct: bool)
    requires Kept(tr) && OnceTrace(tr)
    requires j < |tr| && i < |tr| && tr[j] == Inserted(id, req) && req.flush && tr[i] == DataIssued(id, direct)
    ensures j < i && Seen(tr[..j]).disk.completed <= Seen(tr[..i]).disk.durable
  {
    KeptAt(tr, i);
    AskedOnce(tr, j, i, id, req);
  }

  /** In every run, a request that ends without error has its data written; all writes completed before it was
      inserted are durable if it asked for REQ_FLUSH, and its own data is durable if it asked for REQ_FUA. */
  lemma EndsDurable(cache: bool, ops: seq<(Op, Clock)>, j: nat, i: nat, id: Id, req: Request)
    requires var tr := Exec(cache, ops).trace;
             j < |tr| && i < |tr| && tr[j] == Inserted(id, req) && tr[i] == Ended(id, true)
    ensures var tr := Exec(cache, ops).trace;
            && j < i
            && (req.flush ==> Seen(tr[..j]).disk.completed <= Seen(tr[..i]).disk.durable)
            && (req.hasData ==> Own(id) in Seen(tr[..i]).disk.completed)
            && (req.fua ==> Own(id) in Seen(tr[..i]).disk.durable)
  {
    RunsSafe(cache, ops);
    RunsOnce(cache, ops);
    EndWaits(Exec(cache, ops).trace, j, i, id, req);
  }

  lemma EndWaits(tr: seq<Event>, j: nat, i: nat, id: Id, req: Request)
    requires Kept(tr) && OnceTrace(tr)
    requires j < |tr| && i < |tr| && tr[j] == Inserted(id, req) && tr[i] == Ended(id, true)
    ensures j < i
    ensures req.flush ==> Seen(tr[..j]).disk.completed <= Seen(tr[..i]).disk.durable
    ensures req.hasData ==> Own(id) in Seen(tr[..i]).disk.completed
    ensures req.fua ==> Own(id) in Seen(tr[..i]).disk.durable
  {
    KeptAt(tr, i);
    AskedOnce(tr, j, i, id, req);
  }
}
