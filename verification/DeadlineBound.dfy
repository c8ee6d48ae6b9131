/**
 Bounded starvation: an expired request is dispatched, itself or inside the request that absorbed it, within a bounded
 number of dispatch calls, whatever is inserted or merged meanwhile.
 */
module DeadlineBound {
  import opened Arith
  import opened Lists
  import opened Deadline
  import opened DeadlineOrder
  import opened DeadlineDelay

  /** Request `h` of direction `d` carries `x`. */
  ghost predicate Holds(s: Sched, d: Dir, x: Id, h: Id) { h in s.At(d).rqs && x in s.At(d).rqs[h].parts }

  ghost predicate Out(s: Sched, x: Id) { exists i :: 0 <= i < |s.dispatched| && x in s.dispatched[i].parts }

  /** `h` has expired, and expires before anything inserted from now on. */
  ghost predicate Urgent(c: Config, s: Sched, d: Dir, h: Id, now: nat)
    requires h in s.At(d).rqs
  {
    s.At(d).rqs[h].fifoTime <= now && s.At(d).rqs[h].fifoTime < now + c.Expire(d)
  }

  /** Dispatch calls between two FIFO selections of direction d, at most. */
  ghost function Round(c: Config, d: Dir): nat {
    if d == Read then Times(2, c.Batch()) else Times(c.writesStarved + 1, c.Batch())
  }

  ghost predicate Batching(s: Sched) { s.read.next.Some? || s.write.next.Some? }

  /** What is left of the current batch. */
  ghost function Left(c: Config, s: Sched): nat {
    if Batching(s) && s.batching < c.fifoBatch then c.fifoBatch - s.batching else 0
  }

  /** Batches of the other direction that can come first. */
  ghost function Ahead(c: Config, s: Sched, d: Dir): nat {
    if d == Read then (if s.starved >= c.writesStarved then c.Batch() else 0)
    else if s.starved <= c.writesStarved then Times(c.writesStarved - s.starved, c.Batch()) else 0
  }

  /** An upper bound on the dispatch calls until `h` is dispatched. */
  ghost function Potential(c: Config, s: Sched, d: Dir, h: Id): nat
    requires h in s.At(d).rqs
  {
    Times(Delay(s.At(d), h), Round(c, d)) + Left(c, s) + Ahead(c, s, d) + 1
  }

  lemma AheadBound(c: Config, s: Sched, d: Dir)
    requires s.starved <= c.writesStarved
    ensures Ahead(c, s, d) + c.Batch() <= Round(c, d)
  {
    TimesMono(c.writesStarved - s.starved, c.writesStarved, c.Batch());
    assert Times(1, c.Batch()) == c.Batch();
  }

  lemma PotentialBound(c: Config, s: Sched, d: Dir, h: Id)
    requires s.starved <= c.writesStarved && h in s.At(d).rqs && (Batching(s) ==> s.batching >= 1)
    ensures Potential(c, s, d, h) <= Times(Delay(s.At(d), h) + 1, Round(c, d))
  {
    AheadBound(c, s, d);
  }

  /* ---- inserts and merges ---- */

  lemma LeftLe(c: Config, s: Sched, s': Sched)
    requires s'.batching == s.batching && (Batching(s') ==> Batching(s))
    ensures Left(c, s') <= Left(c, s)
  {
  }

  lemma PotentialLe(c: Config, s: Sched, s': Sched, d: Dir, h: Id, h': Id)
    requires h in s.At(d).rqs && h' in s'.At(d).rqs
    requires s'.batching == s.batching && s'.starved == s.starved && (Batching(s') ==> Batching(s))
    requires Delay(s'.At(d), h') <= Delay(s.At(d), h)
    ensures Potential(c, s', d, h') <= Potential(c, s, d, h)
  {
    LeftLe(c, s, s');
    TimesMono(Delay(s'.At(d), h'), Delay(s.At(d), h), Round(c, d));
  }

  /** In s', request h' carries what h did in s, and expires no later. */
  ghost predicate Carries(s: Sched, s': Sched, d: Dir, h: Id, h': Id) {
    && h in s.At(d).rqs && h' in s'.At(d).rqs
    && s.At(d).rqs[h].parts <= s'.At(d).rqs[h'].parts && s'.At(d).rqs[h'].fifoTime <= s.At(d).rqs[h].fifoTime
  }

  lemma CarriesOn(c: Config, s: Sched, s': Sched, d: Dir, x: Id, h: Id, h': Id, now: nat)
    requires Holds(s, d, x, h) && Urgent(c, s, d, h, now) && Carries(s, s', d, h, h')
    ensures Holds(s', d, x, h') && Urgent(c, s', d, h', now)
  {
  }

  lemma LaneAfterNext(l: Lane, op: Op, latest: nat)
    requires Linked(l) && LaneEnabled(l, op)
    ensures LaneAfter(l, op, latest).next.Some? ==> l.next.Some?
  {
  }

  lemma LaneStep(c: Config, s: Sched, d: Dir, h: Id, op: Op, latest: nat) returns (h': Id)
    requires h in s.At(d).rqs && !op.Go?
    requires LaneOk(s.At(op.d), latest) && LaneEnabled(s.At(op.d), op)
    requires op.d == d ==> s.At(d).rqs[h].fifoTime < latest
    ensures var s' := s.With(op.d, LaneAfter(s.At(op.d), op, latest));
            Carries(s, s', d, h, h') && Potential(c, s', d, h') <= Potential(c, s, d, h)
  {
    h' := h;
    LaneAfterNext(s.At(op.d), op, latest);
    if op.d == d {
      h' := DelayAfter(s.At(d), op, latest, h);
    }
    PotentialLe(c, s, s.With(op.d, LaneAfter(s.At(op.d), op, latest)), d, h, h');
  }

  lemma GoodLane(c: Config, s: Sched, d: Dir, now: nat)
    requires Good(c, s, now)
    ensures LaneOk(s.At(d), now + c.Expire(d)) && s.starved <= c.writesStarved
  {
  }

  lemma LaneServes(c: Config, s: Sched, s': Sched, d: Dir, x: Id, h: Id, op: Op, latest: nat, now: nat) returns (h': Id)
    requires !op.Go? && LaneOk(s.At(op.d), latest) && LaneEnabled(s.At(op.d), op)
    requires s' == s.With(op.d, LaneAfter(s.At(op.d), op, latest))
    requires Holds(s, d, x, h) && Urgent(c, s, d, h, now) && (op.d == d ==> s.At(d).rqs[h].fifoTime < latest)
    ensures && Holds(s', d, x, h') && Urgent(c, s', d, h', now) && s'.dispatched == s.dispatched
            && Potential(c, s', d, h') <= Potential(c, s, d, h)
  {
    h' := LaneStep(c, s, d, h, op, latest);
    CarriesOn(c, s, s', d, x, h, h', now);
  }

  lemma NotEnabled(c: Config, s: Sched, op: Op, now: nat)
    requires !Enabled(s, op)
    ensures Apply(c, s, op, now) == s
  {
  }

  /** An insert or merge never puts the request further back. */
  lemma QuietStep(c: Config, s: Sched, d: Dir, x: Id, h: Id, op: Op, now: nat) returns (h': Id)
    requires !op.Go? && LaneOk(s.At(op.d), now + c.Expire(op.d))
    requires Holds(s, d, x, h) && Urgent(c, s, d, h, now)
    ensures var s' := Apply(c, s, op, now);
            && Holds(s', d, x, h') && Urgent(c, s', d, h', now) && s'.dispatched == s.dispatched
            && Potential(c, s', d, h') <= Potential(c, s, d, h)
  {
    if Enabled(s, op) {
      ApplyIsLaneAfter(c, s, op, now);
      h' := LaneServes(c, s, Apply(c, s, op, now), d, x, h, op, now + c.Expire(op.d), now);
    } else {
      NotEnabled(c, s, op, now);
      h' := h;
    }
  }

  /* ---- dispatches ---- */

  lemma Moved(s: Sched, d: Dir, id: Id, d': Dir, h: Id)
    requires id in s.At(d).rqs && h in s.At(d').rqs && (d == d' ==> id != h)
    ensures var s' := MoveRequest(s, d, id);
            && h in s'.At(d').rqs && s'.At(d').rqs[h] == s.At(d').rqs[h]
            && s'.batching == s.batching && s'.starved == s.starved
            && Delay(s'.At(d'), h) <= Delay(s.At(d'), h)
  {
    var l := s.At(d');
    if d == d' {
      var l1 := l.(next := Latter(l.sort, id));
      DelayRemove(l1, id, h);
      SameDelay(l, l1, h);
    } else {
      SameDelay(l, l.(next := None), h);
    }
  }

  lemma SameDelay(l: Lane, r: Lane, h: Id)
    requires h in l.rqs && r.fifo == l.fifo && r.rqs == l.rqs
    ensures Delay(r, h) == Delay(l, h)
  {
  }

  /** A new batch of the request's own direction takes the oldest request. */
  lemma OldestFirst(c: Config, s: Sched, d: Dir, h: Id, now: nat)
    requires Good(c, s, now) && h in s.At(d).rqs && Urgent(c, s, d, h, now)
    ensures s.At(d).fifo != [] && s.At(d).fifo[0] in s.At(d).rqs
    ensures FindRequest(s.At(d), now) == s.At(d).fifo[0]
  {
    var l := s.At(d);
    assert h in l.fifo;
    assert l.fifo[0] in l.fifo;
    assert FifoTimes(l.rqs)[l.fifo[0]] <= FifoTimes(l.rqs)[h];
  }

  lemma LeftBound(c: Config, s: Sched, b: nat)
    requires s.batching == b
    ensures Left(c, s) <= if b < c.fifoBatch then c.fifoBatch - b else 0
  {
  }

  /** While a batch runs, each call uses up one of its dispatches. */
  lemma BatchStep(c: Config, s: Sched, d: Dir, h: Id, d': Dir, id: Id)
    requires h in s.At(d).rqs && id in s.At(d').rqs && (d', id) != (d, h)
    requires Batching(s) && s.batching < c.fifoBatch
    ensures var s' := MoveRequest(s.(batching := s.batching + 1), d', id);
            h in s'.At(d).rqs && s'.At(d).rqs[h] == s.At(d).rqs[h] && Potential(c, s', d, h) < Potential(c, s, d, h)
  {
    var s1 := s.(batching := s.batching + 1);
    var s' := MoveRequest(s1, d', id);
    Moved(s1, d', id, d, h);
    LeftBound(c, s', s.batching + 1);
    TimesMono(Delay(s'.At(d), h), Delay(s.At(d), h), Round(c, d));
  }

  /** The oldest request of the same direction goes out: the request is delayed by one less. */
  lemma OldestGoes(s: Sched, d: Dir, h: Id, latest: nat)
    requires LaneOk(s.At(d), latest) && h in s.At(d).rqs && s.At(d).fifo != [] && s.At(d).fifo[0] != h
    requires s.At(d).fifo[0] in s.At(d).rqs
    ensures var s' := MoveRequest(s, d, s.At(d).fifo[0]);
            && h in s'.At(d).rqs && s'.At(d).rqs[h] == s.At(d).rqs[h]
            && Delay(s'.At(d), h) < Delay(s.At(d), h)
  {
    var l := s.At(d);
    var l1 := l.(next := Latter(l.sort, l.fifo[0]));
    NextOk(l, Latter(l.sort, l.fifo[0]), latest);
    SameDelay(l, l1, h);
    DelayOldest(l1, latest, h);
  }

  /** A batch of the same direction starts with it. */
  lemma OwnBatch(c: Config, s: Sched, d: Dir, h: Id, latest: nat, starved: nat)
    requires LaneOk(s.At(d), latest) && h in s.At(d).rqs && s.At(d).fifo != [] && s.At(d).fifo[0] != h
    requires starved <= c.writesStarved && s.At(d).fifo[0] in s.At(d).rqs
    ensures var s' := MoveRequest(s.(batching := 1, starved := starved), d, s.At(d).fifo[0]);
            h in s'.At(d).rqs && s'.At(d).rqs[h] == s.At(d).rqs[h] && Potential(c, s', d, h) < Potential(c, s, d, h)
  {
    var s1 := s.(batching := 1, starved := starved);
    OldestGoes(s1, d, h, latest);
    OwnDrops(c, s, MoveRequest(s1, d, s.At(d).fifo[0]), d, h);
  }

  lemma OwnDrops(c: Config, s: Sched, s': Sched, d: Dir, h: Id)
    requires h in s.At(d).rqs && h in s'.At(d).rqs && Delay(s'.At(d), h) < Delay(s.At(d), h)
    requires s'.batching == 1 && s'.starved <= c.writesStarved
    ensures Potential(c, s', d, h) < Potential(c, s, d, h)
  {
    AheadBound(c, s', d);
    LeftBound(c, s', 1);
    TimesMono(Delay(s'.At(d), h) + 1, Delay(s.At(d), h), Round(c, d));
  }

  /** A batch of the other direction starts: it was counted for. */
  lemma OtherBatch(c: Config, s: Sched, d: Dir, h: Id, d': Dir, id: Id, starved: nat)
    requires h in s.At(d).rqs && d' != d && id in s.At(d').rqs
    requires starved <= c.writesStarved && s.starved <= c.writesStarved
    requires if d == Read then s.starved >= c.writesStarved >= 1 && starved == 0 else starved == s.starved + 1
    ensures var s' := MoveRequest(s.(batching := 1, starved := starved), d', id);
            h in s'.At(d).rqs && s'.At(d).rqs[h] == s.At(d).rqs[h] && Potential(c, s', d, h) < Potential(c, s, d, h)
  {
    var s1 := s.(batching := 1, starved := starved);
    Moved(s1, d', id, d, h);
    TimesMono(Delay(MoveRequest(s1, d', id).At(d), h), Delay(s.At(d), h), Round(c, d));
  }

  /** One dispatch call: the request goes out, or its potential drops. */
  lemma GoStep(c: Config, s: Sched, d: Dir, h: Id, now: nat)
    requires Good(c, s, now) && h in s.At(d).rqs && Urgent(c, s, d, h, now)
    requires d == Read ==> c.writesStarved >= 1
    ensures var s' := Dispatch(c, s, now);
            || s'.dispatched == s.dispatched + [s.At(d).rqs[h]]
            || (h in s'.At(d).rqs && s'.At(d).rqs[h] == s.At(d).rqs[h] && Potential(c, s', d, h) < Potential(c, s, d, h))
  {
    if Continuing(s).Some? && s.batching < c.fifoBatch {
      ContinueStep(c, s, d, h, now);
    } else {
      SelectStep(c, s, d, h, now);
    }
  }

  lemma ContinueIs(c: Config, s: Sched, now: nat)
    requires Linked(s.read) && Linked(s.write) && Continuing(s).Some? && s.batching < c.fifoBatch
    ensures var (d, id) := Continuing(s).value;
            id in s.At(d).rqs && Batching(s) && Dispatch(c, s, now) == MoveRequest(s.(batching := s.batching + 1), d, id)
  {
  }

  lemma ContinueStep(c: Config, s: Sched, d: Dir, h: Id, now: nat)
    requires Linked(s.read) && Linked(s.write) && h in s.At(d).rqs
    requires Continuing(s).Some? && s.batching < c.fifoBatch
    ensures var s' := Dispatch(c, s, now);
            || s'.dispatched == s.dispatched + [s.At(d).rqs[h]]
            || (h in s'.At(d).rqs && s'.At(d).rqs[h] == s.At(d).rqs[h] && Potential(c, s', d, h) < Potential(c, s, d, h))
  {
    var go := Continuing(s).value;
    ContinueIs(c, s, now);
    if go != (d, h) {
      BatchStep(c, s, d, h, go.0, go.1);
    }
  }

  lemma SelectStep(c: Config, s: Sched, d: Dir, h: Id, now: nat)
    requires Good(c, s, now) && h in s.At(d).rqs && Urgent(c, s, d, h, now)
    requires d == Read ==> c.writesStarved >= 1
    requires !(Continuing(s).Some? && s.batching < c.fifoBatch)
    ensures var s' := Dispatch(c, s, now);
            || s'.dispatched == s.dispatched + [s.At(d).rqs[h]]
            || (h in s'.At(d).rqs && s'.At(d).rqs[h] == s.At(d).rqs[h] && Potential(c, s', d, h) < Potential(c, s, d, h))
  {
    OldestFirst(c, s, d, h, now);
    var (dir, starved) := Select(c, s);
    if dir == Some(d) {
      if s.At(d).fifo[0] != h {
        GoodLane(c, s, d, now);
        OwnBatch(c, s, d, h, now + c.Expire(d), starved);
      }
    } else {
      var d' := dir.value;
      FoundIsQueued(c, s, d', now);
      OtherBatch(c, s, d, h, d', FindRequest(s.At(d'), now), starved);
    }
  }

  lemma FoundIsQueued(c: Config, s: Sched, d: Dir, now: nat)
    requires Good(c, s, now) && s.At(d).fifo != []
    ensures s.At(d).fifo[0] in s.At(d).rqs && FindRequest(s.At(d), now) in s.At(d).rqs
  {
    assert s.At(d).fifo[0] in s.At(d).fifo;
  }

  lemma SentOut(s: Sched, s': Sched, x: Id, h: Id, d: Dir)
    requires Holds(s, d, x, h)
    ensures s'.dispatched == s.dispatched + [s.At(d).rqs[h]] ==> Out(s', x)
  {
    if s'.dispatched == s.dispatched + [s.At(d).rqs[h]] {
      assert x in s'.dispatched[|s.dispatched|].parts;
    }
  }

  /* ---- runs ---- */

  /** A run: each operation comes some time after the one before. */
  ghost function Run(c: Config, s: Sched, now: nat, ops: seq<(nat, Op)>): Sched
    decreases |ops|
  {
    if ops == [] then s
    else
      var t := now + ops[0].0;
      Run(c, Apply(c, s, ops[0].1, t), t, ops[1..])
  }

  /** When it is over. */
  ghost function End(now: nat, ops: seq<(nat, Op)>): nat
    decreases |ops|
  {
    if ops == [] then now else End(now + ops[0].0, ops[1..])
  }

  lemma RunHead(c: Config, s: Sched, now: nat, ops: seq<(nat, Op)>)
    requires ops != []
    ensures Run(c, s, now, ops) == Run(c, Apply(c, s, ops[0].1, now + ops[0].0), now + ops[0].0, ops[1..])
    ensures Calls(ops) == Cost(ops[0].1) + Calls(ops[1..])
  {
  }

  /** Every state a run from the empty scheduler reaches is good. */
  lemma {:induction false} RunsGood(c: Config, s: Sched, now: nat, ops: seq<(nat, Op)>)
    requires Good(c, s, now)
    ensures Good(c, Run(c, s, now, ops), End(now, ops))
    ensures Good(c, Init, now)
    decreases |ops|
  {
    if ops != [] {
      var t := now + ops[0].0;
      Later(c, s, now, t);
      ApplyOk(c, s, ops[0].1, t);
      RunsGood(c, Apply(c, s, ops[0].1, t), t, ops[1..]);
    }
  }

  function Calls(ops: seq<(nat, Op)>): nat {
    if ops == [] then 0 else (if ops[0].1.Go? then 1 else 0) + Calls(ops[1..])
  }

  lemma DispatchedGrows(c: Config, s: Sched, op: Op, now: nat)
    ensures s.dispatched <= Apply(c, s, op, now).dispatched
  {
  }

  lemma OutStays(c: Config, s: Sched, op: Op, now: nat, x: Id)
    requires Out(s, x)
    ensures Out(Apply(c, s, op, now), x)
  {
    DispatchedGrows(c, s, op, now);
    var i :| 0 <= i < |s.dispatched| && x in s.dispatched[i].parts;
    assert x in Apply(c, s, op, now).dispatched[i].parts;
  }

  ghost function Cost(op: Op): nat { if op.Go? then 1 else 0 }

  /** x is out, or carried by h, which is owed at most `budget` more dispatch calls. */
  ghost predicate Served(c: Config, s: Sched, now: nat, d: Dir, x: Id, h: Id, budget: nat) {
    Out(s, x) || (Holds(s, d, x, h) && Urgent(c, s, d, h, now) && Potential(c, s, d, h) <= budget)
  }

  lemma GoServes(c: Config, s: Sched, d: Dir, x: Id, h: Id, now: nat, budget: nat)
    requires Good(c, s, now) && Holds(s, d, x, h) && Urgent(c, s, d, h, now) && Potential(c, s, d, h) <= budget
    requires d == Read ==> c.writesStarved >= 1
    ensures 1 <= budget && Served(c, Dispatch(c, s, now), now, d, x, h, budget - 1)
  {
    GoStep(c, s, d, h, now);
    SentOut(s, Dispatch(c, s, now), x, h, d);
  }

  lemma OpStep(c: Config, s: Sched, d: Dir, x: Id, h: Id, op: Op, now: nat, budget: nat) returns (h': Id)
    requires Good(c, s, now) && Holds(s, d, x, h) && Urgent(c, s, d, h, now) && Potential(c, s, d, h) <= budget
    requires d == Read ==> c.writesStarved >= 1
    ensures Cost(op) <= budget && Served(c, Apply(c, s, op, now), now, d, x, h', budget - Cost(op))
  {
    if op.Go? {
      h' := h;
      GoServes(c, s, d, x, h, now, budget);
    } else {
      GoodLane(c, s, op.d, now);
      h' := QuietStep(c, s, d, x, h, op, now);
    }
  }

  lemma TurnStep(c: Config, s: Sched, now: nat, t: nat, op: Op, d: Dir, x: Id, h: Id, budget: nat) returns (h': Id)
    requires Good(c, s, now) && now <= t && Served(c, s, now, d, x, h, budget) && !Out(s, x)
    requires d == Read ==> c.writesStarved >= 1
    ensures Cost(op) <= budget && Good(c, Apply(c, s, op, t), t)
    ensures Served(c, Apply(c, s, op, t), t, d, x, h', budget - Cost(op))
  {
    Later(c, s, now, t);
    ApplyOk(c, s, op, t);
    h' := OpStep(c, s, d, x, h, op, t, budget);
  }

  /** x is carried by a request that is owed at most `budget` more dispatch calls. */
  ghost predicate Owed(c: Config, s: Sched, now: nat, d: Dir, x: Id, budget: nat) {
    Good(c, s, now) && exists h :: Holds(s, d, x, h) && Urgent(c, s, d, h, now) && Potential(c, s, d, h) <= budget
  }

  lemma OwedStep(c: Config, s: Sched, now: nat, t: nat, op: Op, d: Dir, x: Id, budget: nat)
    requires Owed(c, s, now, d, x, budget) && now <= t && !Out(s, x)
    requires d == Read ==> c.writesStarved >= 1
    ensures 1 <= budget && (Out(Apply(c, s, op, t), x) || Owed(c, Apply(c, s, op, t), t, d, x, budget - Cost(op)))
  {
    var h :| Holds(s, d, x, h) && Urgent(c, s, d, h, now) && Potential(c, s, d, h) <= budget;
    var h' := TurnStep(c, s, now, t, op, d, x, h, budget);
  }

  /** One turn of a run leaves a run that is a turn shorter, and is paid for. */
  lemma FirstTurn(c: Config, s: Sched, now: nat, ops: seq<(nat, Op)>, d: Dir, x: Id, budget: nat)
    returns (s': Sched, t: nat, left: nat)
    requires Owed(c, s, now, d, x, budget) && !Out(s, x) && ops != [] && Calls(ops) >= budget
    requires d == Read ==> c.writesStarved >= 1
    ensures Run(c, s, now, ops) == Run(c, s', t, ops[1..])
    ensures (Out(s', x) || Owed(c, s', t, d, x, left)) && Calls(ops[1..]) >= left
  {
    s', t := AfterFirst(c, s, now, ops);
    NotYet(c, s, now, d, x, budget);
    left := budget - Cost(ops[0].1);
    OwedAfter(c, s, now, t, ops[0].1, d, x, budget, s', left);
  }

  lemma AfterFirst(c: Config, s: Sched, now: nat, ops: seq<(nat, Op)>) returns (s': Sched, t: nat)
    requires ops != []
    ensures t == now + ops[0].0 && s' == Apply(c, s, ops[0].1, t)
    ensures Run(c, s, now, ops) == Run(c, s', t, ops[1..]) && Calls(ops) == Cost(ops[0].1) + Calls(ops[1..])
  {
    t := now + ops[0].0;
    s' := Apply(c, s, ops[0].1, t);
    RunHead(c, s, now, ops);
  }

  lemma OwedAfter(c: Config, s: Sched, now: nat, t: nat, op: Op, d: Dir, x: Id, budget: nat, s': Sched, left: nat)
    requires Owed(c, s, now, d, x, budget) && now <= t && !Out(s, x) && s' == Apply(c, s, op, t) && left + Cost(op) == budget
    requires d == Read ==> c.writesStarved >= 1
    ensures Out(s', x) || Owed(c, s', t, d, x, left)
  {
    OwedStep(c, s, now, t, op, d, x, budget);
  }

  lemma NotYet(c: Config, s: Sched, now: nat, d: Dir, x: Id, budget: nat)
    requires Owed(c, s, now, d, x, budget)
    ensures budget >= 1
  {
  }

  lemma {:induction false} RunOut(c: Config, s: Sched, now: nat, ops: seq<(nat, Op)>, x: Id)
    requires Out(s, x)
    ensures Out(Run(c, s, now, ops), x)
    decreases |ops|
  {
    if ops != [] {
      var s', t := AfterFirst(c, s, now, ops);
      OutStays(c, s, ops[0].1, t, x);
      RunOut(c, s', t, ops[1..], x);
    }
  }

  lemma {:induction false} OutInTime(c: Config, s: Sched, now: nat, ops: seq<(nat, Op)>, d: Dir, x: Id, budget: nat)
    requires Out(s, x) || Owed(c, s, now, d, x, budget)
    requires d == Read ==> c.writesStarved >= 1
    requires Calls(ops) >= budget
    ensures Out(Run(c, s, now, ops), x)
    decreases |ops|
  {
    if Out(s, x) {
      RunOut(c, s, now, ops, x);
    } else {
      NotYet(c, s, now, d, x, budget);
      var s', t, left := FirstTurn(c, s, now, ops, d, x, budget);
      OutInTime(c, s', t, ops[1..], d, x, left);
    }
  }

  /** With B = max(1, fifo_batch) and W = writes_starved, how many dispatch calls k requests that go first can cost. */
  ghost function Bound(c: Config, d: Dir, k: nat): nat {
    (k + 1) * (if d == Read then 2 * c.Batch() else (c.writesStarved + 1) * c.Batch())
  }

  lemma BoundIs(c: Config, d: Dir, k: nat)
    ensures Times(k + 1, Round(c, d)) == Bound(c, d, k)
  {
    TimesIsMul(2, c.Batch());
    TimesIsMul(c.writesStarved + 1, c.Batch());
    TimesIsMul(k + 1, Round(c, d));
  }

  /** The dispatch bound: an expired request that k requests can delay goes out within (k + 1) * 2 * B dispatch calls if it
      is a read and W >= 1, and within (k + 1) * (W + 1) * B if it is a write, in any run from any reachable state. */
  lemma DispatchBound(c: Config, s: Sched, now: nat, ops: seq<(nat, Op)>, d: Dir, x: Id, h: Id)
    requires Good(c, s, now) && Holds(s, d, x, h) && Urgent(c, s, d, h, now)
    requires d == Read ==> c.writesStarved >= 1
    requires Calls(ops) >= Bound(c, d, Delay(s.At(d), h))
    ensures Out(Run(c, s, now, ops), x)
  {
    PotentialBound(c, s, d, h);
    BoundIs(c, d, Delay(s.At(d), h));
    OutInTime(c, s, now, ops, d, x, Potential(c, s, d, h));
  }

  /** The same in terms of the FIFO: k is the place of the request, and if more than one request behind it has the same
      deadline, all of those but one count as well. With at most one the place alone bounds the wait. */
  lemma PlaceBound(c: Config, s: Sched, now: nat, ops: seq<(nat, Op)>, d: Dir, x: Id, k: nat)
    requires Good(c, s, now) && k < |s.At(d).fifo| && Holds(s, d, x, s.At(d).fifo[k]) && Urgent(c, s, d, s.At(d).fifo[k], now)
    requires d == Read ==> c.writesStarved >= 1
    requires Calls(ops) >= Bound(c, d, k + Less(|TiesBehind(s.At(d), k)|))
    ensures Out(Run(c, s, now, ops), x)
  {
    GoodLane(c, s, d, now);
    DelayIs(s.At(d), now + c.Expire(d), k);
    DispatchBound(c, s, now, ops, d, x, s.At(d).fifo[k]);
  }
}
