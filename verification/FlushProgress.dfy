/**
 Flushes never stall: while a sequenced request is unfinished some issued work is outstanding, and each completion of
 issued work leaves strictly less to do, so once issued work completes every sequenced request finishes.
 */
module FlushProgress {
  import opened Lists
  import opened Flush
  import opened FlushLists
  import opened FlushOnce

  predicate StepDone(m: Mask, s: Step) {
    match s case PreFlush => m.pre case Data => m.data case PostFlush => m.post case Done => true
  }

  /** The steps that unfinished requests still have to take. */
  ghost function Todo(q: Queue): set<(Id, Step)> {
    set id, s | id in q.rqs && s in {PreFlush, Data, PostFlush} && q.rqs[id].flushSeq && !StepDone(q.rqs[id].completed, s)
      :: (id, s)
  }

  lemma SubsetSmaller<T>(a: set<T>, b: set<T>, x: T)
    requires a <= b && x in b && x !in a
    ensures |a| < |b|
  {
    assert |a + {x}| == |a| + 1;
    CardLe(a + {x}, b);
  }

  lemma TodoShrinks(q: Queue, n: Queue, id: Id, s: Step)
    requires id in q.rqs && id in n.rqs && n.rqs == q.rqs[id := n.rqs[id]]
    requires n.rqs[id].completed == Or(q.rqs[id].completed, MaskOf(s)) && (n.rqs[id].flushSeq ==> q.rqs[id].flushSeq)
    ensures Todo(n) <= Todo(q) && (id, s) !in Todo(n)
  {
  }

  lemma CompleteSeqShrinks(q: Queue, id: Id, s: Step, ok: bool, c: Clock)
    requires Shape(q) && id in q.rqs
    ensures Todo(CompleteSeq(q, id, MaskOf(s), ok, c)) <= Todo(q)
    ensures (id, s) !in Todo(CompleteSeq(q, id, MaskOf(s), ok, c))
  {
    OneRecorded(q, id, MaskOf(s), ok, c);
    TodoShrinks(q, CompleteSeq(q, id, MaskOf(s), ok, c), id, s);
  }

  lemma HeadShrinks(q: Queue, r: int, walk: seq<Id>, ok: bool, c: Clock)
    requires Walking(q, r, walk) && walk != []
    ensures walk[0] in q.rqs
    ensures var s := CurSeq(q.rqs[walk[0]].completed);
            var n := CompleteSeq(q, walk[0], MaskOf(s), ok, c);
            && Walking(n, r, walk[1..]) && n.rqs.Keys == q.rqs.Keys
            && Todo(n) <= Todo(q) && (walk[0], s) in Todo(q) && (walk[0], s) !in Todo(n)
  {
    WalkStep(q, r, walk, ok, c);
    WalkHead(q, r, walk);
    var s := CurSeq(q.rqs[walk[0]].completed);
    RqsKept(q, walk[0], MaskOf(s), ok, c);
    CompleteSeqShrinks(q, walk[0], s, ok, c);
  }

  lemma {:induction false} WalkShrinks(q: Queue, r: int, walk: seq<Id>, ok: bool, c: Clock)
    requires Walking(q, r, walk)
    requires forall id :: id in walk ==> id in q.rqs
    ensures Todo(CompleteAll(q, walk, ok, c)) <= Todo(q)
    ensures walk != [] ==> |Todo(CompleteAll(q, walk, ok, c))| < |Todo(q)|
    decreases |walk|
  {
    if walk != [] {
      var s := CurSeq(q.rqs[walk[0]].completed);
      var n := CompleteSeq(q, walk[0], MaskOf(s), ok, c);
      HeadShrinks(q, r, walk, ok, c);
      WalkShrinks(n, r, walk[1..], ok, c);
      SubsetSmaller(Todo(CompleteAll(n, walk[1..], ok, c)), Todo(q), (walk[0], s));
    }
  }

  ghost predicate IsCompletion(op: Op) { op.OpDataEnd? || op.OpFlushEnd? }

  lemma DataEndShrinks(q: Queue, id: Id, ok: bool, stable: bool, c: Clock)
    requires Consistent(q) && id in q.data
    ensures id in q.rqs && |Todo(DataEnd(q, id, ok, stable, c))| < |Todo(q)|
  {
    assert Placed(q, id);
    var k := EndBio(Log(q, WriteDone(Own(id), ok, stable)), id, ok);
    assert Todo(k) == Todo(q);
    CompleteSeqShrinks(k, id, Data, ok, c);
    SubsetSmaller(Todo(DataEnd(q, id, ok, stable, c)), Todo(q), (id, Data));
  }

  lemma TodoSame(q: Queue, k: Queue)
    requires k.rqs == q.rqs
    ensures Todo(k) == Todo(q)
  {
  }

  lemma WalkedLess(q: Queue, q1: Queue, r: int, walk: seq<Id>, ok: bool, c: Clock)
    requires Walking(q1, r, walk) && walk != [] && q1.rqs == q.rqs
    requires forall id :: id in walk ==> id in q1.rqs
    ensures |Todo(CompleteAll(q1, walk, ok, c))| < |Todo(q)|
  {
    TodoSame(q, q1);
    WalkShrinks(q1, r, walk, ok, c);
  }

  lemma FlushEndShrinks(q: Queue, ok: bool, c: Clock)
    requires Consistent(q) && q.pendingIdx != q.runningIdx
    requires forall id :: id in q.queue[q.runningIdx] ==> id in q.rqs
    ensures |Todo(FlushEnd(q, ok, c))| < |Todo(q)|
  {
    var q1 := Flushed(q, ok);
    StartsWalking(q, ok);
    WalkedLess(q, q1, q.runningIdx, q.queue[q.runningIdx], ok, c);
  }

  /** Completing issued work of the machine, well or with an error, leaves less to do. */
  lemma CompletionShrinks(q: Queue, cache: bool, op: Op, c: Clock)
    requires Consistent(q) && Enabled(q, cache, op) && IsCompletion(op)
    ensures |Todo(Apply(q, cache, op, c))| < |Todo(q)|
  {
    match op {
      case OpDataEnd(id, ok, stable) => DataEndShrinks(q, id, ok, stable, c);
      case OpFlushEnd(ok) => FlushEndShrinks(q, ok, c);
      case _ =>
    }
  }

  /** With no data and no flush outstanding, no request is left in the machine. */
  lemma QuietMeansEmpty(q: Queue, id: Id)
    requires Consistent(q) && q.data == [] && q.pendingIdx == q.runningIdx && id in q.rqs
    ensures !q.rqs[id].flushSeq && !OnFlushList(q, id)
  {
    assert Placed(q, id);
  }

  /** The steps `more`, taken from `q`. */
  ghost function After(q: Queue, cache: bool, more: seq<(Op, Clock)>): (r: Queue)
    requires Shape(q)
    ensures Shape(r)
    decreases |more|
  {
    if more == [] then q else After(Apply(q, cache, more[0].0, more[0].1), cache, more[1..])
  }

  /** All of `more` are completions of work that is outstanding when they come. */
  ghost predicate Completions(q: Queue, cache: bool, more: seq<(Op, Clock)>)
    requires Shape(q)
    decreases |more|
  {
    more != [] ==>
      && IsCompletion(more[0].0) && Enabled(q, cache, more[0].0)
      && Completions(Apply(q, cache, more[0].0, more[0].1), cache, more[1..])
  }

  lemma {:induction false} CompletionsBounded(q: Queue, cache: bool, more: seq<(Op, Clock)>)
    requires Consistent(q) && Completions(q, cache, more)
    ensures |more| + |Todo(After(q, cache, more))| <= |Todo(q)|
    decreases |more|
  {
    if more != [] {
      CompletionShrinks(q, cache, more[0].0, more[0].1);
      ApplyKeeps(q, cache, more[0].0, more[0].1);
      CompletionsBounded(Apply(q, cache, more[0].0, more[0].1), cache, more[1..]);
    }
  }

  lemma {:induction false} ExecAfter(cache: bool, ops: seq<(Op, Clock)>, more: seq<(Op, Clock)>)
    ensures Exec(cache, ops + more) == After(Exec(cache, ops), cache, more)
    decreases |more|
  {
    if more == [] {
      assert ops + more == ops;
    } else {
      assert ops + more == ops + [more[0]] + more[1..];
      assert (ops + [more[0]])[..|ops|] == ops;
      ExecAfter(cache, ops + [more[0]], more[1..]);
    }
  }

  /** When nothing can complete, everything has ended but plain requests at the driver. */
  lemma QuietMeansEnded(cache: bool, ops: seq<(Op, Clock)>, id: Id)
    requires forall op :: IsCompletion(op) ==> !Enabled(Exec(cache, ops), cache, op)
    requires id in Exec(cache, ops).rqs
    ensures HasEnded(Exec(cache, ops).trace, id) || id in Exec(cache, ops).direct
  {
    var e := Exec(cache, ops);
    RunsConsistent(cache, ops);
    EndsExactlyOnce(cache, ops);
    NothingOutstanding(e, cache);
    QuietMeansEmpty(e, id);
  }

  lemma NothingOutstanding(q: Queue, cache: bool)
    requires Consistent(q) && forall op :: IsCompletion(op) ==> !Enabled(q, cache, op)
    ensures q.data == [] && q.pendingIdx == q.runningIdx
  {
    assert !Enabled(q, cache, OpFlushEnd(true));
    if q.data != [] {
      assert q.data[0] in q.data;
      assert Enabled(q, cache, OpDataEnd(q.data[0], true, true));
    }
  }

  /** After any run, issued work completes at most as often as there are steps to take; and when nothing is left to
      complete, every request that was ever inserted has ended or is a plain request still at the driver. */
  lemma EveryRequestFinishes(cache: bool, ops: seq<(Op, Clock)>, more: seq<(Op, Clock)>)
    requires Completions(Exec(cache, ops), cache, more)
    ensures |more| <= |Todo(Exec(cache, ops))| && Exec(cache, ops + more) == After(Exec(cache, ops), cache, more)
    ensures var e := Exec(cache, ops + more);
            (forall op :: IsCompletion(op) ==> !Enabled(e, cache, op)) ==>
              forall id :: id in e.rqs ==> HasEnded(e.trace, id) || id in e.direct
  {
    RunsConsistent(cache, ops);
    ExecAfter(cache, ops, more);
    CompletionsBounded(Exec(cache, ops), cache, more);
    var e := Exec(cache, ops + more);
    if forall op :: IsCompletion(op) ==> !Enabled(e, cache, op) {
      forall id | id in e.rqs ensures HasEnded(e.trace, id) || id in e.direct {
        QuietMeansEnded(cache, ops + more, id);
      }
    }
  }

  /* ---- how requests end ---- */

  /** The one event of a step of the machine that ends a request. */
  lemma AdvanceEnds(q: Queue, id: Id, ok: bool, c: Clock, e: Event)
    requires Shape(q) && id in q.rqs && e.Ended? && e in Advance(q, id, ok, c).trace && e !in q.trace
    ensures e == Ended(id, ok)
  {
  }

  lemma CompleteSeqEnds(q: Queue, id: Id, done: Mask, ok: bool, c: Clock, e: Event)
    requires Shape(q) && id in q.rqs && e.Ended? && e in CompleteSeq(q, id, done, ok, c).trace && e !in q.trace
    ensures e == Ended(id, ok)
  {
    AdvanceEnds(Record(q, id, done), id, ok, c, e);
  }

  lemma {:induction false} CompleteAllEnds(q: Queue, walk: seq<Id>, ok: bool, c: Clock, e: Event)
    requires Shape(q) && (forall id :: id in walk ==> id in q.rqs) && e.Ended?
    requires e in CompleteAll(q, walk, ok, c).trace && e !in q.trace
    ensures e.id in walk && e.ok == ok
    decreases |walk|
  {
    if walk != [] {
      var done := MaskOf(CurSeq(q.rqs[walk[0]].completed));
      var n := CompleteSeq(q, walk[0], done, ok, c);
      OneRecorded(q, walk[0], done, ok, c);
      if e in n.trace {
        CompleteSeqEnds(q, walk[0], done, ok, c, e);
      } else {
        CompleteAllEnds(n, walk[1..], ok, c, e);
      }
    }
  }

  /** The step reports a failure of request id: of its own data, or of a flush. */
  ghost predicate Fails(op: Op, id: Id) {
    match op
    case OpDataEnd(x, ok, _) => x == id && !ok
    case OpDirectEnd(x, ok, _) => x == id && !ok
    case OpFlushEnd(ok) => !ok
    case _ => false
  }

  lemma InsertEnds(q: Queue, id: Id, req: Request, f: DeviceFlags, c: Clock, e: Event)
    requires Shape(q) && e.Ended? && e in Insert(q, id, req, f, c).trace && e !in q.trace
    ensures e == Ended(id, true)
  {
    var p := Policy(f, req);
    var q1 := Log(q.(rqs := q.rqs[id := NewRq(req, f, p.pre || p.post)]), Inserted(id, req));
    if p.pre || p.post {
      CompleteSeqEnds(q1, id, Complement(p), true, c, e);
    }
  }

  lemma DataEndEnds(q: Queue, id: Id, ok: bool, stable: bool, c: Clock, e: Event)
    requires Shape(q) && id in q.rqs && e.Ended? && e in DataEnd(q, id, ok, stable, c).trace && e !in q.trace
    ensures e == Ended(id, ok)
  {
    var q1 := EndBio(Log(q, WriteDone(Own(id), ok, stable)), id, ok);
    if e !in q1.trace {
      CompleteSeqEnds(q1, id, MaskOf(Data), ok, c, e);
    }
  }

  /** A request ends with an error only in a step that reports one: of its own data, or of a flush it was waiting for. */
  lemma BadEnd(q: Queue, cache: bool, op: Op, c: Clock, id: Id)
    requires Shape(q) && Ended(id, false) in Apply(q, cache, op, c).trace && Ended(id, false) !in q.trace
    ensures Fails(op, id) && (op.OpFlushEnd? ==> id in q.queue[q.runningIdx])
  {
    var e := Ended(id, false);
    match op {
      case OpInsert(x, req, f) => InsertEnds(q, x, req, f, c, e);
      case OpDataEnd(x, ok, stable) => DataEndEnds(q, x, ok, stable, c, e);
      case OpFlushEnd(ok) => CompleteAllEnds(Flushed(q, ok), q.queue[q.runningIdx], ok, c, e);
      case OpDirectEnd(x, ok, stable) =>
      case OpOtherWrite(n, ok, stable) =>
    }
  }

  /** So in every run a request whose steps all succeed does not end with an error: a bad end has a step that failed. */
  lemma {:induction false} BadEndHasCause(cache: bool, ops: seq<(Op, Clock)>, id: Id) returns (i: nat)
    requires Ended(id, false) in Exec(cache, ops).trace
    ensures i < |ops| && Fails(ops[i].0, id)
    decreases |ops|
  {
    var n := |ops| - 1;
    if Ended(id, false) in Exec(cache, ops[..n]).trace {
      i := BadEndHasCause(cache, ops[..n], id);
    } else {
      BadEnd(Exec(cache, ops[..n]), cache, ops[n].0, ops[n].1, id);
      i := n;
    }
  }
}
