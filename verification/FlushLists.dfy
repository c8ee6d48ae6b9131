/**
 Bookkeeping of the flush machine: every unfinished sequenced request sits on exactly the list its current step calls
 for, the two flush lists play the roles their indices say, and a waiting flush never waits for nothing.
 */
module FlushLists {
  import opened Lists
  import opened Flush

  ghost predicate OnFlushList(q: Queue, id: Id)
    requires Shape(q)
  {
    id in q.queue[0] || id in q.queue[1]
  }

  predicate Flushing(m: Mask) { CurSeq(m) == PreFlush || CurSeq(m) == PostFlush }

  /** The request is where its current step says, and nowhere else. */
  ghost predicate Placed(q: Queue, id: Id)
    requires Shape(q) && id in q.rqs
  {
    var r := q.rqs[id];
    && (OnFlushList(q, id) <==> r.flushSeq && Flushing(r.completed))
    && !(id in q.queue[0] && id in q.queue[1])
    && (id in q.data <==> r.flushSeq && CurSeq(r.completed) == Data)
    && (r.flushSeq ==> Live(q, id))
  }

  /** Without data there is nothing after PREFLUSH; with data, DATA does not come before PREFLUSH. */
  ghost predicate Ordered(req: Request, m: Mask) {
    (!req.hasData ==> m.data && m.post) && (req.hasData && !m.pre ==> !m.data)
  }

  /** A request still in the machine has a step left. */
  ghost predicate Live(q: Queue, id: Id)
    requires id in q.rqs
  {
    var r := q.rqs[id];
    && CurSeq(r.completed) != Done
    && id !in q.direct
    && Ordered(r.req, r.completed)
  }

  ghost predicate PlacedExcept(q: Queue, x: Id) {
    && Shape(q)
    && NoDup(q.queue[0]) && NoDup(q.queue[1]) && NoDup(q.data)
    && (forall id :: OnFlushList(q, id) || id in q.data || id in q.direct ==> id in q.rqs)
    && (forall id :: id in q.rqs && id != x ==> Placed(q, id))
  }

  ghost predicate AllPlaced(q: Queue) {
    && Shape(q)
    && NoDup(q.queue[0]) && NoDup(q.queue[1]) && NoDup(q.data)
    && (forall id :: OnFlushList(q, id) || id in q.data || id in q.direct ==> id in q.rqs)
    && (forall id :: id in q.rqs ==> Placed(q, id))
  }

  /** The double buffering: a flush is in flight iff the indices differ, and then its list is not empty. */
  ghost predicate Buffers(q: Queue)
    requires Shape(q)
  {
    if q.pendingIdx == q.runningIdx then q.queue[1 - q.pendingIdx] == [] else q.queue[q.runningIdx] != []
  }

  /** A waiting list with no flush in flight waits for a request that executes DATA. */
  ghost predicate NoStall(q: Queue)
    requires Shape(q)
  {
    q.pendingIdx == q.runningIdx && q.queue[q.pendingIdx] != [] ==> q.data != []
  }

  ghost predicate Consistent(q: Queue) {
    AllPlaced(q) && Buffers(q) && NoStall(q)
  }

  /** Inside flush_end_io: the rest of the walked list is list `r`, and it is the pending list or the idle one. */
  ghost predicate Walking(q: Queue, r: int, walk: seq<Id>) {
    && AllPlaced(q)
    && 0 <= r < 2
    && q.runningIdx == 1 - r
    && q.queue[r] == walk
    && (q.pendingIdx == r ==> q.queue[1 - r] != [])
  }

  lemma AdvancePlaces(q: Queue, id: Id, ok: bool, c: Clock)
    requires PlacedExcept(q, id) && id in q.rqs
    requires q.rqs[id].flushSeq && id !in q.direct
    requires Ordered(q.rqs[id].req, q.rqs[id].completed)
    ensures AllPlaced(Advance(q, id, ok, c))
  {
    var a := Advance(q, id, ok, c);
    var u := Unlink(q, id);
    NoDupSnoc(u.queue[u.pendingIdx], id);
    NoDupSnoc(u.data, id);
    forall i | i in a.rqs ensures Placed(a, i) {
      if i != id {
        assert Placed(q, i);
      }
    }
  }

  lemma KickKeeps(q: Queue, c: Clock)
    requires AllPlaced(q)
    ensures AllPlaced(Kick(q, c)) && NoStall(Kick(q, c))
  {
    var k := Kick(q, c);
    forall i | i in k.rqs ensures Placed(k, i) {
      assert Placed(q, i);
    }
  }

  lemma RecordKeeps(q: Queue, id: Id, done: Mask)
    requires PlacedExcept(q, id) && id in q.rqs
    ensures PlacedExcept(Record(q, id, done), id)
  {
    var k := Record(q, id, done);
    forall i | i in k.rqs && i != id ensures Placed(k, i) {
      assert Placed(q, i);
    }
  }

  lemma CompleteSeqKeeps(q: Queue, id: Id, done: Mask, ok: bool, c: Clock)
    requires PlacedExcept(q, id) && id in q.rqs
    requires q.rqs[id].flushSeq && id !in q.direct
    requires Ordered(q.rqs[id].req, Or(q.rqs[id].completed, done))
    ensures AllPlaced(CompleteSeq(q, id, done, ok, c)) && NoStall(CompleteSeq(q, id, done, ok, c))
  {
    RecordKeeps(q, id, done);
    AdvancePlaces(Record(q, id, done), id, ok, c);
    KickKeeps(Advance(Record(q, id, done), id, ok, c), c);
  }

  /** A request whose next step is no flush leaves the flush lists, and a kick moves no list. */
  lemma LeavesFlushLists(q: Queue, id: Id, ok: bool, c: Clock)
    requires Shape(q) && id in q.rqs
    requires !ok || !Flushing(q.rqs[id].completed)
    ensures var n := Kick(Advance(q, id, ok, c), c);
            && n.queue == [Remove(q.queue[0], id), Remove(q.queue[1], id)]
            && n.runningIdx == q.runningIdx
            && (n.pendingIdx == q.pendingIdx || (q.pendingIdx == q.runningIdx && n.queue[q.pendingIdx] != []))
  {
  }

  lemma AdvanceRecords(q: Queue, id: Id, ok: bool, c: Clock)
    requires Shape(q) && id in q.rqs
    ensures var n := Advance(q, id, ok, c).rqs;
            && id in n && n == q.rqs[id := n[id]]
            && n[id].completed == q.rqs[id].completed && (n[id].flushSeq ==> q.rqs[id].flushSeq)
  {
  }

  lemma KickRecords(q: Queue, c: Clock)
    requires Shape(q)
    ensures Kick(q, c).rqs == q.rqs
  {
  }

  /** A step of the machine records the step of one request, and puts no request back into the machine. */
  lemma OneRecorded(q: Queue, id: Id, done: Mask, ok: bool, c: Clock)
    requires Shape(q) && id in q.rqs
    ensures var n := CompleteSeq(q, id, done, ok, c);
            && id in n.rqs && n.rqs == q.rqs[id := n.rqs[id]]
            && n.rqs[id].completed == Or(q.rqs[id].completed, done) && (n.rqs[id].flushSeq ==> q.rqs[id].flushSeq)
  {
    var k := Record(q, id, done);
    AdvanceRecords(k, id, ok, c);
    KickRecords(Advance(k, id, ok, c), c);
  }

  /** The head of the walked list is on no other list, and its next step is no flush. */
  lemma WalkHead(q: Queue, r: int, walk: seq<Id>)
    requires Walking(q, r, walk) && walk != []
    ensures walk[0] in q.rqs && walk[0] !in q.direct && walk[0] !in q.queue[1 - r]
    ensures var k := q.rqs[walk[0]];
            var after := Or(k.completed, MaskOf(CurSeq(k.completed)));
            k.flushSeq && Flushing(k.completed) && Ordered(k.req, after) && !Flushing(after)
  {
    assert walk[0] in q.queue[r];
    assert Placed(q, walk[0]);
  }

  lemma WalkOn(q: Queue, n: Queue, r: int, walk: seq<Id>)
    requires Walking(q, r, walk) && walk != [] && walk[0] !in q.queue[1 - r]
    requires AllPlaced(n) && n.queue == [Remove(q.queue[0], walk[0]), Remove(q.queue[1], walk[0])]
    requires n.runningIdx == q.runningIdx
    requires n.pendingIdx == q.pendingIdx || (q.pendingIdx == q.runningIdx && n.queue[q.pendingIdx] != [])
    ensures Walking(n, r, walk[1..])
  {
    RemoveHead(walk);
  }

  /** One turn of the loop of flush_end_io takes the head off the walked list and puts nothing back on a flush list,
      so walking a snapshot of the list is the same as walking the list. */
  lemma WalkStep(q: Queue, r: int, walk: seq<Id>, ok: bool, c: Clock)
    requires Walking(q, r, walk) && walk != []
    ensures walk[0] in q.rqs
    ensures Flushing(q.rqs[walk[0]].completed)
    ensures var n := CompleteSeq(q, walk[0], MaskOf(CurSeq(q.rqs[walk[0]].completed)), ok, c);
            Walking(n, r, walk[1..]) && NoStall(n)
  {
    WalkHead(q, r, walk);
    var done := MaskOf(CurSeq(q.rqs[walk[0]].completed));
    CompleteSeqKeeps(q, walk[0], done, ok, c);
    LeavesFlushLists(Record(q, walk[0], done), walk[0], ok, c);
    WalkOn(q, CompleteSeq(q, walk[0], done, ok, c), r, walk);
  }

  lemma {:induction false} WalkAll(q: Queue, r: int, walk: seq<Id>, ok: bool, c: Clock)
    requires Walking(q, r, walk)
    requires walk == [] ==> NoStall(q)
    ensures forall id :: id in walk ==> id in q.rqs
    ensures Walking(CompleteAll(q, walk, ok, c), r, []) && NoStall(CompleteAll(q, walk, ok, c))
    decreases |walk|
  {
    forall id | id in walk ensures id in q.rqs {
      assert id in q.queue[r];
    }
    if walk != [] {
      WalkStep(q, r, walk, ok, c);
      WalkAll(CompleteSeq(q, walk[0], MaskOf(CurSeq(q.rqs[walk[0]].completed)), ok, c), r, walk[1..], ok, c);
    }
  }

  lemma WalkedIsConsistent(q: Queue, r: int)
    requires Walking(q, r, []) && NoStall(q)
    ensures Consistent(q)
  {
  }

  lemma StartsWalking(q: Queue, ok: bool)
    requires Consistent(q) && q.pendingIdx != q.runningIdx
    ensures Walking(Flushed(q, ok), q.runningIdx, q.queue[q.runningIdx])
  {
    var q1 := Flushed(q, ok);
    forall i | i in q1.rqs ensures Placed(q1, i) {
      assert Placed(q, i);
    }
  }

  lemma FlushEndKeeps(q: Queue, ok: bool, c: Clock)
    requires Consistent(q) && q.pendingIdx != q.runningIdx
    ensures forall id :: id in q.queue[q.runningIdx] ==> id in q.rqs
    ensures Consistent(FlushEnd(q, ok, c))
  {
    var q1 := Flushed(q, ok);
    StartsWalking(q, ok);
    var r, walk := q.runningIdx, q.queue[q.runningIdx];
    WalkAll(q1, r, walk, ok, c);
    WalkedIsConsistent(CompleteAll(q1, walk, ok, c), r);
  }

  lemma AdvanceBuffers(q: Queue, id: Id, ok: bool, c: Clock)
    requires Shape(q) && Buffers(q) && id in q.rqs && !OnFlushList(q, id)
    ensures Buffers(Advance(q, id, ok, c))
  {
  }

  lemma KickBuffers(q: Queue, c: Clock)
    requires Shape(q) && Buffers(q)
    ensures Buffers(Kick(q, c))
  {
  }

  lemma BuffersKept(q: Queue, id: Id, done: Mask, ok: bool, c: Clock)
    requires PlacedExcept(q, id) && Buffers(q) && id in q.rqs && !OnFlushList(q, id)
    ensures Buffers(CompleteSeq(q, id, done, ok, c))
  {
    var q1 := Record(q, id, done);
    AdvanceBuffers(q1, id, ok, c);
    KickBuffers(Advance(q1, id, ok, c), c);
  }

  lemma EndBioPlaced(q: Queue, id: Id, ok: bool)
    requires AllPlaced(q) && id in q.rqs
    ensures AllPlaced(EndBio(q, id, ok))
  {
    var k := EndBio(q, id, ok);
    forall i | i in k.rqs ensures Placed(k, i) {
      assert Placed(q, i);
    }
  }

  lemma DataDonePlaced(q: Queue, id: Id, ok: bool, stable: bool)
    requires Consistent(q) && id in q.data
    ensures id in q.rqs
    ensures var q2 := EndBio(Log(q, WriteDone(Own(id), ok, stable)), id, ok);
            && PlacedExcept(q2, id) && Buffers(q2) && !OnFlushList(q2, id)
            && id !in q2.direct && q2.rqs[id].flushSeq
            && Ordered(q2.rqs[id].req, Or(q2.rqs[id].completed, MaskOf(Data)))
  {
    assert Placed(q, id);
    var q1 := Log(q, WriteDone(Own(id), ok, stable));
    forall i | i in q1.rqs ensures Placed(q1, i) {
      assert Placed(q, i);
    }
    EndBioPlaced(q1, id, ok);
  }

  lemma DataEndKeeps(q: Queue, id: Id, ok: bool, stable: bool, c: Clock)
    requires Consistent(q) && id in q.data
    ensures id in q.rqs
    ensures Consistent(DataEnd(q, id, ok, stable, c))
  {
    DataDonePlaced(q, id, ok, stable);
    var q2 := EndBio(Log(q, WriteDone(Own(id), ok, stable)), id, ok);
    CompleteSeqKeeps(q2, id, MaskOf(Data), ok, c);
    BuffersKept(q2, id, MaskOf(Data), ok, c);
  }

  lemma InsertedPlaced(q: Queue, id: Id, req: Request, f: DeviceFlags)
    requires Consistent(q) && id !in q.rqs && (req.fua ==> req.hasData)
    ensures var p := Policy(f, req);
            var q1 := Log(q.(rqs := q.rqs[id := NewRq(req, f, p.pre || p.post)]), Inserted(id, req));
            && PlacedExcept(q1, id) && Buffers(q1) && NoStall(q1) && !OnFlushList(q1, id) && id !in q1.data && id !in q1.direct
            && Ordered(req, Or(q1.rqs[id].completed, Complement(p)))
  {
    var p := Policy(f, req);
    var q1 := Log(q.(rqs := q.rqs[id := NewRq(req, f, p.pre || p.post)]), Inserted(id, req));
    forall i | i in q1.rqs && i != id ensures Placed(q1, i) {
      assert Placed(q, i);
    }
  }

  lemma InsertKeeps(q: Queue, id: Id, req: Request, f: DeviceFlags, c: Clock)
    requires Consistent(q) && id !in q.rqs && (req.fua ==> req.hasData)
    ensures Consistent(Insert(q, id, req, f, c))
  {
    var p := Policy(f, req);
    InsertedPlaced(q, id, req, f);
    var q1 := Log(q.(rqs := q.rqs[id := NewRq(req, f, p.pre || p.post)]), Inserted(id, req));
    if p.pre || p.post {
      CompleteSeqKeeps(q1, id, Complement(p), true, c);
      BuffersKept(q1, id, Complement(p), true, c);
    } else if p.data {
      var k := Log(q1.(direct := q1.direct + {id}), DataIssued(id, true));
      forall i | i in k.rqs ensures Placed(k, i) {
        assert i != id ==> Placed(q1, i);
      }
    } else {
      assert Placed(q1, id);
      EndBioPlaced(q1, id, true);
    }
  }

  lemma DirectEndKeeps(q: Queue, id: Id, ok: bool, stable: bool)
    requires Consistent(q) && id in q.direct
    ensures id in q.rqs
    ensures Consistent(DirectEnd(q, id, ok, stable))
  {
    var q1 := Log(q.(direct := q.direct - {id}), WriteDone(Own(id), ok, stable));
    forall i | i in q1.rqs ensures Placed(q1, i) {
      assert Placed(q, i);
    }
    EndBioPlaced(q1, id, ok);
  }

  lemma ApplyKeeps(q: Queue, cache: bool, op: Op, c: Clock)
    requires Consistent(q)
    ensures Consistent(Apply(q, cache, op, c))
  {
    if Enabled(q, cache, op) {
      match op {
        case OpInsert(id, req, f) => InsertKeeps(q, id, req, f, c);
        case OpDataEnd(id, ok, stable) => DataEndKeeps(q, id, ok, stable, c);
        case OpFlushEnd(ok) => FlushEndKeeps(q, ok, c);
        case OpDirectEnd(id, ok, stable) => DirectEndKeeps(q, id, ok, stable);
        case OpOtherWrite(n, ok, stable) =>
          var k := Log(q, WriteDone(Other(n), ok, stable));
          forall i | i in k.rqs ensures Placed(k, i) {
            assert Placed(q, i);
          }
      }
    }
  }

  /** In every run: a flush is in flight iff the indices differ, each unfinished request is on exactly the list of its
      current step, and flushes never stall. */
  lemma {:induction false} RunsConsistent(cache: bool, ops: seq<(Op, Clock)>)
    ensures Consistent(Exec(cache, ops))
  {
    if ops != [] {
      var last := ops[|ops| - 1];
      RunsConsistent(cache, ops[..|ops| - 1]);
      ApplyKeeps(Exec(cache, ops[..|ops| - 1]), cache, last.0, last.1);
    }
  }
}
