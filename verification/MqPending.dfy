/**
 The pending bitmap of blk-mq (block/blk-mq.c) as interleaved steps. Inserters hold the lock of a software queue while
 they add and mark; flushers clear a bit first and take the lock only to splice; the CPU-offline handler of any hardware
 queue moves requests away. Whether a request can be stranded depends on exactly one thing: which handler clears a bit.
 */
module MqPending {

  type Rq = nat

  /** Software queues with their hardware queue and index_hw. */
  datatype Ctxs = Ctxs(hw: seq<nat>, index: seq<nat>)

  /** What the holder of a software queue's lock has done so far. */
  datatype Lock =
    | Free
    | Added
    | ToSet
    | Marked
    | Taken(handler: nat)

  /** What a flusher is about: it has seen a bit, or cleared one and not yet spliced. */
  datatype Flusher = Idle | Seen(c: nat) | Cleared(c: nat)

  datatype State = State(lists: seq<seq<Rq>>, bits: set<(nat, nat)>, locks: seq<Lock>, flushers: seq<Flusher>)

  datatype Op =
    | Add(c: nat, rqs: seq<Rq>, atHead: bool)
    | Test(c: nat)
    | Set(c: nat)
    | Unlock(c: nat)
    | Find(f: nat, c: nat)
    | Clear(f: nat)
    | Splice(f: nat)
    | OfflineTake(handler: nat, c: nat)
    | OfflineClear(c: nat)

  function Slot(m: Ctxs, c: nat): (nat, nat)
    requires c < |m.hw| && c < |m.index|
  {
    (m.hw[c], m.index[c])
  }

  /** Every software queue has a slot of its own. */
  ghost predicate Valid(m: Ctxs) {
    |m.hw| == |m.index| && forall a, b :: 0 <= a < b < |m.hw| ==> Slot(m, a) != Slot(m, b)
  }

  ghost predicate Sized(m: Ctxs, s: State) { |s.lists| == |s.locks| == |m.hw| == |m.index| }

  ghost predicate Enabled(m: Ctxs, s: State, op: Op)
    requires Sized(m, s)
  {
    match op
    case Add(c, rqs, _) => c < |m.hw| && s.locks[c] == Free && rqs != []
    case Test(c) => c < |m.hw| && s.locks[c] == Added
    case Set(c) => c < |m.hw| && s.locks[c] == ToSet
    case Unlock(c) => c < |m.hw| && s.locks[c] == Marked
    case Find(f, c) => f < |s.flushers| && s.flushers[f] == Idle && c < |m.hw| && Slot(m, c) in s.bits
    case Clear(f) => f < |s.flushers| && s.flushers[f].Seen? && s.flushers[f].c < |m.hw|
    case Splice(f) => f < |s.flushers| && s.flushers[f].Cleared? && s.flushers[f].c < |m.hw| && s.locks[s.flushers[f].c] == Free
    case OfflineTake(handler, c) => c < |m.hw| && s.locks[c] == Free && s.lists[c] != []
    case OfflineClear(c) => c < |m.hw| && s.locks[c].Taken?
  }

  /** One atomic step. The requests the offline handler took come back through Add on another software queue. */
  ghost function Apply(m: Ctxs, s: State, op: Op): (r: State)
    requires Sized(m, s)
    ensures Sized(m, r) && |r.flushers| == |s.flushers|
  {
    if !Enabled(m, s, op) then s
    else match op
      case Add(c, rqs, atHead) =>
        s.(lists := s.lists[c := if atHead then rqs + s.lists[c] else s.lists[c] + rqs], locks := s.locks[c := Added])
      case Test(c) => s.(locks := s.locks[c := if Slot(m, c) in s.bits then Marked else ToSet])
      case Set(c) => s.(bits := s.bits + {Slot(m, c)}, locks := s.locks[c := Marked])
      case Unlock(c) => s.(locks := s.locks[c := Free])
      case Find(f, c) => s.(flushers := s.flushers[f := Seen(c)])
      case Clear(f) =>
        s.(bits := s.bits - {Slot(m, s.flushers[f].c)}, flushers := s.flushers[f := Cleared(s.flushers[f].c)])
      case Splice(f) => s.(lists := s.lists[s.flushers[f].c := []], flushers := s.flushers[f := Idle])
      case OfflineTake(handler, c) => s.(lists := s.lists[c := []], locks := s.locks[c := Taken(handler)])
      case OfflineClear(c) => s.(bits := s.bits - {(s.locks[c].handler, m.index[c])}, locks := s.locks[c := Free])
  }

  ghost predicate BeingFlushed(s: State, c: nat) { exists f :: 0 <= f < |s.flushers| && s.flushers[f] == Cleared(c) }

  /** The requests of c will be found: its bit is set, or a flusher that cleared it has yet to splice. */
  ghost predicate Findable(m: Ctxs, s: State, c: nat)
    requires Sized(m, s) && c < |m.hw|
  {
    s.lists[c] == [] || Slot(m, c) in s.bits || BeingFlushed(s, c)
  }

  /** A software queue nobody holds has requests nobody will find. */
  ghost predicate Stranded(m: Ctxs, s: State, c: nat)
    requires Sized(m, s) && c < |m.hw|
  {
    s.locks[c] == Free && !Findable(m, s, c)
  }

  /** The bit the handler of a hardware queue clears for c is the one of c, or nobody's. */
  ghost predicate ClearsOwnBit(m: Ctxs, handler: nat, c: nat)
    requires |m.hw| == |m.index| && c < |m.hw|
  {
    forall e :: 0 <= e < |m.hw| && e != c ==> Slot(m, e) != (handler, m.index[c])
  }

  /* ---- if every handler clears only its own bit ---- */

  ghost predicate CtxOk(m: Ctxs, s: State, c: nat)
    requires Sized(m, s) && c < |m.hw|
  {
    match s.locks[c]
    case Added => true
    case ToSet => true
    case Taken(handler) => s.lists[c] == [] && ClearsOwnBit(m, handler, c)
    case _ => Findable(m, s, c)
  }

  ghost predicate Ok(m: Ctxs, s: State) {
    Valid(m) && Sized(m, s) && forall c :: 0 <= c < |m.hw| ==> CtxOk(m, s, c)
  }

  ghost predicate OpOk(m: Ctxs, op: Op)
    requires |m.hw| == |m.index|
  {
    op.OfflineTake? && op.c < |m.hw| ==> ClearsOwnBit(m, op.handler, op.c)
  }

  /** A software queue the step has nothing to do with. */
  lemma OtherOk(m: Ctxs, s: State, r: State, c: nat)
    requires Sized(m, s) && Sized(m, r) && c < |m.hw| && CtxOk(m, s, c)
    requires r.lists[c] == s.lists[c] && r.locks[c] == s.locks[c] && (Slot(m, c) in s.bits ==> Slot(m, c) in r.bits)
    requires BeingFlushed(s, c) ==> BeingFlushed(r, c)
    ensures CtxOk(m, r, c)
  {
  }

  lemma StillFlushed(s: State, r: State, c: nat, f: nat)
    requires |r.flushers| == |s.flushers| && f < |s.flushers| && (s.flushers[f] == Cleared(c) ==> r.flushers[f] == Cleared(c))
    requires forall g :: 0 <= g < |s.flushers| && g != f ==> r.flushers[g] == s.flushers[g]
    ensures BeingFlushed(s, c) ==> BeingFlushed(r, c)
  {
    if BeingFlushed(s, c) {
      var g :| 0 <= g < |s.flushers| && s.flushers[g] == Cleared(c);
      assert r.flushers[g] == Cleared(c);
    }
  }

  lemma LockStepOk(m: Ctxs, s: State, op: Op, c: nat)
    requires Ok(m, s) && Enabled(m, s, op) && OpOk(m, op) && c < |m.hw|
    requires op.Add? || op.Test? || op.Set? || op.Unlock? || op.OfflineTake?
    ensures CtxOk(m, Apply(m, s, op), c)
  {
    assert CtxOk(m, s, c);
    if op.c != c {
      OtherOk(m, s, Apply(m, s, op), c);
    }
  }

  lemma ClearOk(m: Ctxs, s: State, f: nat, c: nat)
    requires Ok(m, s) && Enabled(m, s, Clear(f)) && c < |m.hw|
    ensures CtxOk(m, Apply(m, s, Clear(f)), c)
  {
    var r := Apply(m, s, Clear(f));
    assert CtxOk(m, s, c);
    var e := s.flushers[f].c;
    if e == c {
      assert r.flushers[f] == Cleared(c);
    } else {
      assert Slot(m, e) != Slot(m, c);
      StillFlushed(s, r, c, f);
      OtherOk(m, s, r, c);
    }
  }

  lemma SpliceOk(m: Ctxs, s: State, f: nat, c: nat)
    requires Ok(m, s) && Enabled(m, s, Splice(f)) && c < |m.hw|
    ensures CtxOk(m, Apply(m, s, Splice(f)), c)
  {
    var r := Apply(m, s, Splice(f));
    assert CtxOk(m, s, c);
    if s.flushers[f].c != c {
      StillFlushed(s, r, c, f);
      OtherOk(m, s, r, c);
    }
  }

  lemma OfflineClearOk(m: Ctxs, s: State, e: nat, c: nat)
    requires Ok(m, s) && Enabled(m, s, OfflineClear(e)) && c < |m.hw|
    ensures CtxOk(m, Apply(m, s, OfflineClear(e)), c)
  {
    assert CtxOk(m, s, c) && CtxOk(m, s, e);
    if c != e {
      assert Slot(m, c) != (s.locks[e].handler, m.index[e]);
      OtherOk(m, s, Apply(m, s, OfflineClear(e)), c);
    }
  }

  lemma FindOk(m: Ctxs, s: State, f: nat, e: nat, c: nat)
    requires Ok(m, s) && Enabled(m, s, Find(f, e)) && c < |m.hw|
    ensures CtxOk(m, Apply(m, s, Find(f, e)), c)
  {
    assert CtxOk(m, s, c);
    StillFlushed(s, Apply(m, s, Find(f, e)), c, f);
    OtherOk(m, s, Apply(m, s, Find(f, e)), c);
  }

  lemma ApplyOk(m: Ctxs, s: State, op: Op)
    requires Ok(m, s) && OpOk(m, op)
    ensures Ok(m, Apply(m, s, op))
  {
    var r := Apply(m, s, op);
    if Enabled(m, s, op) {
      forall c | 0 <= c < |m.hw| ensures CtxOk(m, r, c) {
        match op {
          case Clear(f) => ClearOk(m, s, f, c);
          case Splice(f) => SpliceOk(m, s, f, c);
          case Find(f, e) => FindOk(m, s, f, e, c);
          case OfflineClear(e) => OfflineClearOk(m, s, e, c);
          case _ => LockStepOk(m, s, op, c);
        }
      }
    }
  }

  ghost function Start(m: Ctxs, nrFlushers: nat): State {
    State(seq(|m.hw|, i => []), {}, seq(|m.hw|, i => Free), seq(nrFlushers, i => Idle))
  }

  ghost function Run(m: Ctxs, nrFlushers: nat, ops: seq<Op>): (s: State)
    requires |m.hw| == |m.index|
    ensures Sized(m, s)
  {
    if ops == [] then Start(m, nrFlushers) else Apply(m, Run(m, nrFlushers, ops[..|ops| - 1]), ops[|ops| - 1])
  }

  lemma {:induction false} RunsOk(m: Ctxs, nrFlushers: nat, ops: seq<Op>)
    requires Valid(m) && forall i :: 0 <= i < |ops| ==> OpOk(m, ops[i])
    ensures Ok(m, Run(m, nrFlushers, ops))
  {
    if ops != [] {
      RunsOk(m, nrFlushers, ops[..|ops| - 1]);
      ApplyOk(m, Run(m, nrFlushers, ops[..|ops| - 1]), ops[|ops| - 1]);
    }
  }

  /* ---- if some handler clears the bit of another software queue ---- */

  lemma Snoc(m: Ctxs, n: nat, ops: seq<Op>, op: Op)
    requires |m.hw| == |m.index|
    ensures Run(m, n, ops + [op]) == Apply(m, Run(m, n, ops), op)
  {
    assert (ops + [op])[..|ops|] == ops;
  }

  /** An insertion with nobody else about. */
  lemma InsertAlone(m: Ctxs, n: nat, ops: seq<Op>, c: nat, rq: Rq)
    requires |m.hw| == |m.index| && c < |m.hw|
    requires var s := Run(m, n, ops); s.locks[c] == Free && Slot(m, c) !in s.bits
    ensures var s := Run(m, n, ops);
            Run(m, n, ops + [Add(c, [rq], false)] + [Test(c)] + [Set(c)] + [Unlock(c)])
              == s.(lists := s.lists[c := s.lists[c] + [rq]], bits := s.bits + {Slot(m, c)})
  {
    var s := Run(m, n, ops);
    Snoc(m, n, ops, Add(c, [rq], false));
    Snoc(m, n, ops + [Add(c, [rq], false)], Test(c));
    Snoc(m, n, ops + [Add(c, [rq], false)] + [Test(c)], Set(c));
    Snoc(m, n, ops + [Add(c, [rq], false)] + [Test(c)] + [Set(c)], Unlock(c));
    assert s.locks[c := Added][c := ToSet][c := Marked][c := Free] == s.locks;
  }

  /** The run that strands e: a request for e, a request for c, and the offline handler of e's hardware queue for c. */
  ghost function StrandingRun(handler: nat, c: nat, e: nat): seq<Op> {
    [] + [Add(e, [1], false)] + [Test(e)] + [Set(e)] + [Unlock(e)] + [Add(c, [2], false)] + [Test(c)] + [Set(c)] + [Unlock(c)]
      + [OfflineTake(handler, c)] + [OfflineClear(c)]
  }

  lemma StrandsOther(m: Ctxs, n: nat, handler: nat, c: nat, e: nat)
    requires Valid(m) && c < |m.hw| && e < |m.hw| && c != e && Slot(m, e) == (handler, m.index[c])
    ensures Stranded(m, Run(m, n, StrandingRun(handler, c, e)), e)
  {
    var inserted := [] + [Add(e, [1], false)] + [Test(e)] + [Set(e)] + [Unlock(e)];
    InsertAlone(m, n, [], e, 1);
    assert Slot(m, c) != Slot(m, e);
    InsertAlone(m, n, inserted, c, 2);
    var both := inserted + [Add(c, [2], false)] + [Test(c)] + [Set(c)] + [Unlock(c)];
    Snoc(m, n, both, OfflineTake(handler, c));
    Snoc(m, n, both + [OfflineTake(handler, c)], OfflineClear(c));
  }

  /** All offline handlers that run in `ops`, with the software queue of the dead CPU, are among `calls`. */
  ghost predicate HandlersIn(ops: seq<Op>, calls: set<(nat, nat)>) {
    forall i :: 0 <= i < |ops| && ops[i].OfflineTake? ==> (ops[i].handler, ops[i].c) in calls
  }

  ghost predicate NeverStranded(m: Ctxs, n: nat, calls: set<(nat, nat)>)
    requires |m.hw| == |m.index|
  {
    forall ops, c :: HandlersIn(ops, calls) && 0 <= c < |m.hw| ==> !Stranded(m, Run(m, n, ops), c)
  }

  /** No run strands a request if and only if no offline handler that is called clears the bit of another software queue.
      blk_mq_hctx_cpu_offline is called for every hardware queue, not only for the one the dead CPU was mapped to. */
  lemma NeverStrandedIff(m: Ctxs, n: nat, calls: set<(nat, nat)>)
    requires Valid(m) && forall call :: call in calls ==> call.1 < |m.hw|
    ensures NeverStranded(m, n, calls) <==> forall call :: call in calls ==> ClearsOwnBit(m, call.0, call.1)
  {
    if NeverStranded(m, n, calls) {
      forall call | call in calls ensures ClearsOwnBit(m, call.0, call.1) {
        forall e | 0 <= e < |m.hw| && e != call.1 ensures Slot(m, e) != (call.0, m.index[call.1]) {
          if Slot(m, e) == (call.0, m.index[call.1]) {
            StrandsOther(m, n, call.0, call.1, e);
            assert HandlersIn(StrandingRun(call.0, call.1, e), calls);
          }
        }
      }
    }
    if forall call :: call in calls ==> ClearsOwnBit(m, call.0, call.1) {
      forall ops, c | HandlersIn(ops, calls) && 0 <= c < |m.hw| ensures !Stranded(m, Run(m, n, ops), c) {
        forall i | 0 <= i < |ops| ensures OpOk(m, ops[i]) {
        }
        RunsOk(m, n, ops);
        assert CtxOk(m, Run(m, n, ops), c);
      }
    }
  }

  /** In particular, a handler that is called only for its own hardware queue strands nothing. */
  lemma OwnHandlerIsSafe(m: Ctxs, c: nat)
    requires Valid(m) && c < |m.hw|
    ensures ClearsOwnBit(m, m.hw[c], c)
  {
    forall e | 0 <= e < |m.hw| && e != c ensures Slot(m, e) != (m.hw[c], m.index[c]) {
      assert Slot(m, e) != Slot(m, c);
    }
  }

  /* ---- a flush on its own ---- */

  /** The requests of the marked slots below n, in slot order. */
  function Marks(ctxs: seq<nat>, bits: set<nat>, lists: seq<seq<Rq>>, n: nat): seq<Rq>
    requires n <= |ctxs| && forall i :: 0 <= i < |ctxs| ==> ctxs[i] < |lists|
  {
    if n == 0 then []
    else Marks(ctxs, bits, lists, n - 1) + (if n - 1 in bits then lists[ctxs[n - 1]] else [])
  }

  /** flush_busy_ctxs of one hardware queue with nobody else about: every marked software queue is emptied, in order, and
      no mark is left. */
  method FlushBusyCtxs(ctxs: seq<nat>, pending: set<nat>, rqLists: seq<seq<Rq>>)
    returns (bits: set<nat>, lists: seq<seq<Rq>>, list: seq<Rq>)
    requires forall i :: 0 <= i < |ctxs| ==> ctxs[i] < |rqLists|
    requires forall i, j :: 0 <= i < j < |ctxs| ==> ctxs[i] != ctxs[j]
    ensures list == Marks(ctxs, pending, rqLists, |ctxs|)
    ensures |lists| == |rqLists| && forall i :: 0 <= i < |ctxs| ==> i !in bits
    ensures forall i :: 0 <= i < |ctxs| ==> lists[ctxs[i]] == if i in pending then [] else rqLists[ctxs[i]]
    ensures forall c :: 0 <= c < |lists| && c !in ctxs ==> lists[c] == rqLists[c]
  {
    bits, lists, list := pending, rqLists, [];
    var i := 0;
    while i < |ctxs|
      invariant i <= |ctxs| && |lists| == |rqLists| && list == Marks(ctxs, pending, rqLists, i)
      invariant forall k :: 0 <= k < i ==> k !in bits && lists[ctxs[k]] == if k in pending then [] else rqLists[ctxs[k]]
      invariant forall k :: i <= k < |ctxs| ==> (k in bits <==> k in pending) && lists[ctxs[k]] == rqLists[ctxs[k]]
      invariant forall c :: 0 <= c < |lists| && c !in ctxs ==> lists[c] == rqLists[c]
    {
      if i in bits {
        bits := bits - {i};
        list := list + lists[ctxs[i]];
        lists := lists[ctxs[i] := []];
      }
      i := i + 1;
    }
  }
}
