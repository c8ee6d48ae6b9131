/**
 The submitter of a request hears of it exactly once. A sequenced request with data is completed twice, once for DATA
 and once for the whole sequence; only the second completion ends the bio.
 */
module FlushOnce {
  import opened Lists
  import opened Flush
  import opened FlushLists

  ghost predicate HasEnded(tr: seq<Event>, id: Id) { Ended(id, true) in tr || Ended(id, false) in tr }

  ghost predicate WasInserted(tr: seq<Event>, id: Id) { exists req :: Inserted(id, req) in tr }

  /** Requests are inserted once, and end once, after they were inserted. */
  ghost predicate FirstTime(tr: seq<Event>, e: Event) {
    match e
    case Inserted(id, _) => !WasInserted(tr, id)
    case Ended(id, _) => WasInserted(tr, id) && !HasEnded(tr, id)
    case DataIssued(id, _) => WasInserted(tr, id) && !HasEnded(tr, id)
    case _ => true
  }

  ghost predicate OnceTrace(tr: seq<Event>) {
    tr != [] ==> OnceTrace(tr[..|tr| - 1]) && FirstTime(tr[..|tr| - 1], tr[|tr| - 1])
  }

  /** The machine and the driver are through with the request. */
  ghost predicate Settled(q: Queue, id: Id) {
    id in q.rqs && !q.rqs[id].flushSeq && id !in q.direct
  }

  ghost predicate Once(q: Queue) {
    && Shape(q)
    && OnceTrace(q.trace)
    && (forall id, req :: Inserted(id, req) in q.trace <==> Has(q, id, req))
    && (forall id :: HasEnded(q.trace, id) <==> Settled(q, id))
    && (forall id :: id in q.direct ==> id in q.rqs && q.rqs[id].bio && !q.rqs[id].flushSeq)
  }

  ghost predicate Has(q: Queue, id: Id, req: Request) { id in q.rqs && q.rqs[id].req == req }

  ghost predicate DirectBios(q: Queue) {
    forall id :: id in q.direct ==> id in q.rqs && q.rqs[id].bio && !q.rqs[id].flushSeq
  }

  /** A change that logs one event keeps the invariant if the request settles exactly when it ends. */
  lemma OnceFrom(q: Queue, k: Queue, e: Event)
    requires Once(q) && Shape(k) && k.trace == q.trace + [e] && FirstTime(q.trace, e) && DirectBios(k)
    requires forall id, req :: Has(k, id, req) <==> Has(q, id, req) || e == Inserted(id, req)
    requires forall id :: Settled(k, id) <==> Settled(q, id) || (e.Ended? && e.id == id)
    ensures Once(k)
  {
    assert k.trace[..|q.trace|] == q.trace;
    forall id ensures HasEnded(k.trace, id) <==> Settled(k, id) {
      assert HasEnded(q.trace, id) <==> Settled(q, id);
    }
  }

  lemma OnceSame(q: Queue, k: Queue)
    requires Once(q) && Shape(k) && k.trace == q.trace && DirectBios(k)
    requires forall id, req :: Has(k, id, req) <==> Has(q, id, req)
    requires forall id :: Settled(k, id) <==> Settled(q, id)
    ensures Once(k)
  {
    forall id ensures HasEnded(k.trace, id) <==> Settled(k, id) {
      assert HasEnded(q.trace, id) <==> Settled(q, id);
    }
  }

  lemma Unsettled(q: Queue, id: Id)
    requires Once(q) && id in q.rqs && !Settled(q, id)
    ensures WasInserted(q.trace, id) && !HasEnded(q.trace, id)
  {
    assert Has(q, id, q.rqs[id].req);
  }

  lemma AdvanceOnce(q: Queue, id: Id, ok: bool, c: Clock)
    requires Once(q) && id in q.rqs && q.rqs[id].flushSeq && id !in q.direct
    ensures Once(Advance(q, id, ok, c))
  {
    var a := Advance(q, id, ok, c);
    Unsettled(q, id);
    match if ok then CurSeq(q.rqs[id].completed) else Done {
      case PreFlush => OnceFrom(q, a, QueuedFor(id));
      case PostFlush => OnceFrom(q, a, QueuedFor(id));
      case Data => OnceFrom(q, a, DataIssued(id, false));
      case Done => OnceFrom(q, a, Ended(id, ok));
    }
  }

  lemma CompleteSeqOnce(q: Queue, id: Id, done: Mask, ok: bool, c: Clock)
    requires Once(q) && id in q.rqs && q.rqs[id].flushSeq && id !in q.direct
    ensures Once(CompleteSeq(q, id, done, ok, c))
  {
    var k := Record(q, id, done);
    OnceSame(q, k);
    AdvanceOnce(k, id, ok, c);
    KickOnce(Advance(k, id, ok, c), c);
  }

  lemma KickOnce(q: Queue, c: Clock)
    requires Once(q)
    ensures Once(Kick(q, c))
  {
    if Kick(q, c) != q {
      OnceFrom(q, Kick(q, c), FlushIssued);
    }
  }

  lemma {:induction false} WalkOnce(q: Queue, r: int, walk: seq<Id>, ok: bool, c: Clock)
    requires Walking(q, r, walk) && Once(q)
    requires forall id :: id in walk ==> id in q.rqs
    ensures Once(CompleteAll(q, walk, ok, c))
    decreases |walk|
  {
    if walk != [] {
      var id := walk[0];
      var done := MaskOf(CurSeq(q.rqs[id].completed));
      WalkStep(q, r, walk, ok, c);
      assert id in q.queue[r] && Placed(q, id);
      CompleteSeqOnce(q, id, done, ok, c);
      RqsKept(q, id, done, ok, c);
      WalkOnce(CompleteSeq(q, id, done, ok, c), r, walk[1..], ok, c);
    }
  }

  lemma RqsKept(q: Queue, id: Id, done: Mask, ok: bool, c: Clock)
    requires Shape(q) && id in q.rqs
    ensures CompleteSeq(q, id, done, ok, c).rqs.Keys == q.rqs.Keys
  {
    OneRecorded(q, id, done, ok, c);
  }

  lemma FlushEndOnce(q: Queue, ok: bool, c: Clock)
    requires Consistent(q) && Once(q) && q.pendingIdx != q.runningIdx
    requires forall id :: id in q.queue[q.runningIdx] ==> id in q.rqs
    ensures Once(FlushEnd(q, ok, c))
  {
    var q1 := Flushed(q, ok);
    OnceFrom(q, q1, FlushDone(ok));
    StartsWalking(q, ok);
    WalkOnce(q1, q.runningIdx, q.queue[q.runningIdx], ok, c);
  }

  lemma ApplyOnce(q: Queue, cache: bool, op: Op, c: Clock)
    requires Consistent(q) && Once(q)
    ensures Once(Apply(q, cache, op, c))
  {
    if Enabled(q, cache, op) {
      match op {
        case OpInsert(id, req, f) => InsertOnce(q, id, req, f, c);
        case OpDataEnd(id, ok, stable) => DataEndOnce(q, id, ok, stable, c);
        case OpFlushEnd(ok) => FlushEndOnce(q, ok, c);
        case OpDirectEnd(id, ok, stable) => DirectEndOnce(q, id, ok, stable);
        case OpOtherWrite(n, ok, stable) =>
          OnceFrom(q, Log(q, WriteDone(Other(n), ok, stable)), WriteDone(Other(n), ok, stable));
      }
    }
  }

  lemma DataEndOnce(q: Queue, id: Id, ok: bool, stable: bool, c: Clock)
    requires Consistent(q) && Once(q) && id in q.data
    ensures id in q.rqs && Once(DataEnd(q, id, ok, stable, c))
  {
    assert Placed(q, id);
    var e := WriteDone(Own(id), ok, stable);
    OnceFrom(q, EndBio(Log(q, e), id, ok), e);
    CompleteSeqOnce(EndBio(Log(q, e), id, ok), id, MaskOf(Data), ok, c);
  }

  lemma InsertOnce(q: Queue, id: Id, req: Request, f: DeviceFlags, c: Clock)
    requires Consistent(q) && Once(q) && id !in q.rqs
    ensures Once(Insert(q, id, req, f, c))
  {
    assert id !in q.direct;
    var p := Policy(f, req);
    var q1 := Log(q.(rqs := q.rqs[id := NewRq(req, f, p.pre || p.post)]), Inserted(id, req));
    if p.pre || p.post {
      InsertedOnce(q, q1, id, req);
      CompleteSeqOnce(q1, id, Complement(p), true, c);
    } else {
      var q2 := q1.(direct := q1.direct + {id});
      InsertedOnce(q, q2, id, req);
      DirectOnce(q2, id);
      assert q2.direct - {id} == q1.direct;
    }
  }

  /** A request queued for normal execution is issued, or ends at once. */
  lemma DirectOnce(q: Queue, id: Id)
    requires Once(q) && id in q.direct && q.rqs[id].bio && !q.rqs[id].flushSeq
    ensures Once(Log(q, DataIssued(id, true)))
    ensures Once(EndBio(q.(direct := q.direct - {id}), id, true))
  {
    Unsettled(q, id);
    OnceFrom(q, Log(q, DataIssued(id, true)), DataIssued(id, true));
    OnceFrom(q, EndBio(q.(direct := q.direct - {id}), id, true), Ended(id, true));
  }

  lemma InsertedOnce(q: Queue, k: Queue, id: Id, req: Request)
    requires Once(q) && id !in q.rqs && id !in q.direct && Shape(k)
    requires k.trace == q.trace + [Inserted(id, req)]
    requires id in k.rqs && k.rqs == q.rqs[id := k.rqs[id]] && k.rqs[id].req == req
    requires k.direct == (if k.rqs[id].flushSeq then q.direct else q.direct + {id}) && k.rqs[id].bio
    ensures Once(k)
  {
    forall r ensures Inserted(id, r) !in q.trace {
      assert !Has(q, id, r);
    }
    OnceFrom(q, k, Inserted(id, req));
  }

  lemma DirectEndOnce(q: Queue, id: Id, ok: bool, stable: bool)
    requires Once(q) && id in q.direct
    ensures id in q.rqs && Once(DirectEnd(q, id, ok, stable))
  {
    var e := WriteDone(Own(id), ok, stable);
    var q1 := Log(q, e);
    OnceFrom(q, q1, e);
    Unsettled(q1, id);
    OnceFrom(q1, DirectEnd(q, id, ok, stable), Ended(id, ok));
  }

  lemma {:induction false} RunsOnce(cache: bool, ops: seq<(Op, Clock)>)
    ensures Once(Exec(cache, ops))
  {
    if ops != [] {
      var last := ops[|ops| - 1];
      RunsOnce(cache, ops[..|ops| - 1]);
      RunsConsistent(cache, ops[..|ops| - 1]);
      ApplyOnce(Exec(cache, ops[..|ops| - 1]), cache, last.0, last.1);
    }
  }

  lemma {:induction false} FirstTimeAt(tr: seq<Event>, i: nat)
    requires OnceTrace(tr) && i < |tr|
    ensures FirstTime(tr[..i], tr[i])
    decreases |tr|
  {
    if i < |tr| - 1 {
      FirstTimeAt(tr[..|tr| - 1], i);
      assert tr[..|tr| - 1][..i] == tr[..i];
    }
  }

  /** In every run each request ends at most once, and it has ended exactly when it is off every list. */
  lemma EndsExactlyOnce(cache: bool, ops: seq<(Op, Clock)>)
    ensures var q := Exec(cache, ops);
            && (forall i, j :: 0 <= i < j < |q.trace| && q.trace[i].Ended? && q.trace[j].Ended? ==>
                  q.trace[i].id != q.trace[j].id)
            && (forall id :: id in q.rqs ==>
                  (HasEnded(q.trace, id) <==> !OnFlushList(q, id) && id !in q.data && id !in q.direct))
  {
    var q := Exec(cache, ops);
    RunsOnce(cache, ops);
    RunsConsistent(cache, ops);
    forall i, j | 0 <= i < j < |q.trace| && q.trace[i].Ended? && q.trace[j].Ended?
      ensures q.trace[i].id != q.trace[j].id
    {
      assert q.trace[..j][i] == q.trace[i];
      FirstTimeAt(q.trace, j);
    }
    forall id | id in q.rqs
      ensures HasEnded(q.trace, id) <==> !OnFlushList(q, id) && id !in q.data && id !in q.direct
    {
      assert Placed(q, id);
    }
  }
}
