/**
 The sector order of the deadline scheduler: while nothing has expired, dispatches of one direction sweep the disk upwards.
 What each of them must send is said in terms of the sectors that are queued, without next_rq or the sorted list.
 */
module DeadlineSweep {
  import opened Lists
  import opened Deadline
  import opened DeadlineOrder
  import opened DeadlineBound

  /** `o` is a request of least sector at or above p, and none lies between p and it; None if nothing is above p. */
  ghost predicate Follows(rqs: map<Id, Rq>, p: nat, o: Option<Id>) {
    match o
    case None => forall y :: y in rqs ==> rqs[y].sector <= p
    case Some(n) => n in rqs && p <= rqs[n].sector && forall y :: y in rqs ==> rqs[y].sector <= p || rqs[n].sector <= rqs[y].sector
  }

  /** The same of a list and its keys. */
  ghost predicate Next(s: seq<Id>, key: map<Id, nat>, id: Id, o: Option<Id>)
    requires id in key && forall i :: i in s ==> i in key
  {
    match o
    case None => forall y :: y in s ==> key[y] <= key[id]
    case Some(n) => n in s && n != id && key[id] <= key[n] && forall y :: y in s && y != id ==> key[y] <= key[id] || key[n] <= key[y]
  }

  lemma {:induction false} LatterIsNext(s: seq<Id>, key: map<Id, nat>, id: Id)
    requires SortedBy(s, key) && NoDup(s) && id in s && (forall i :: i in s ==> i in key)
    ensures Next(s, key, id, Latter(s, id))
  {
    if |s| >= 2 {
      if s[0] == id {
        assert s[1] in s[1..];
        forall y | y in s && y != id ensures key[s[1]] <= key[y] {
          assert y in s[1..];
          assert y == s[1] || y in s[1..][1..];
        }
      } else {
        assert id in s[1..];
        LatterIsNext(s[1..], key, id);
        forall y | y in s ensures y == s[0] || y in s[1..] {
        }
      }
    }
  }

  lemma LatterFollows(l: Lane, id: Id, latest: nat)
    requires LaneOk(l, latest) && id in l.rqs
    ensures Follows(l.rqs - {id}, l.rqs[id].sector, Latter(l.sort, id))
  {
    var key := Sectors(l.rqs);
    LatterIsNext(l.sort, key, id);
    forall y | y in l.rqs ensures y in l.sort && key[y] == l.rqs[y].sector {
    }
  }

  /* ---- a dispatch ---- */

  ghost function Opposite(d: Dir): Dir { if d == Read then Write else Read }

  /** From s to s' request x of direction d has been sent to the device. */
  ghost predicate Sends(s: Sched, s': Sched, d: Dir, x: Id) {
    && x in s.At(d).rqs && s'.dispatched == s.dispatched + [s.At(d).rqs[x]]
    && s'.At(d).rqs == s.At(d).rqs - {x} && s'.At(Opposite(d)).rqs == s.At(Opposite(d)).rqs
  }

  lemma SameSend(rqs: map<Id, Rq>, x: Id, y: Id)
    requires x in rqs && y in rqs && rqs - {x} == rqs - {y}
    ensures x == y
  {
    assert x !in rqs - {x};
    assert x != y ==> x in rqs - {y};
  }

  lemma OtherLane(s: Sched, d: Dir, d': Dir, x': Id)
    requires x' in s.At(d').rqs
    ensures d != d' ==> MoveRequest(s, d', x').At(d).rqs == s.At(d).rqs
    ensures d == d' ==> MoveRequest(s, d', x').At(d).rqs == s.At(d).rqs - {x'}
  {
  }

  lemma MoveSends(s: Sched, d: Dir, x: Id, d': Dir, x': Id)
    requires x' in s.At(d').rqs && Sends(s, MoveRequest(s, d', x'), d, x)
    ensures d == d' && x == x'
  {
    OtherLane(s, d, d', x');
    if d == d' {
      SameSend(s.At(d).rqs, x, x');
    }
  }

  /** What a dispatch sends: a batch that goes on sends next_rq; a new one the oldest request of its direction if that has
      expired or there is no next_rq, and else next_rq. */
  lemma SendIs(c: Config, s: Sched, now: nat, d: Dir, x: Id) returns (s1: Sched)
    requires Good(c, s, now) && Sends(s, Dispatch(c, s, now), d, x)
    ensures s1 == s.(batching := s1.batching, starved := s1.starved) && s1.batching >= 1 && Dispatch(c, s, now) == MoveRequest(s1, d, x)
    ensures s.At(d).fifo != [] && s.At(d).fifo[0] in s.At(d).rqs
    ensures var next := s.At(d).next;
            x == if next.Some? && (s.batching < c.fifoBatch || s.At(d).rqs[s.At(d).fifo[0]].fifoTime > now) then next.value
                 else s.At(d).fifo[0]
  {
    assert x in s.At(d).fifo;
    assert s.At(d).fifo[0] in s.At(d).fifo;
    var go := Continuing(s);
    if go.Some? && s.batching < c.fifoBatch {
      s1 := s.(batching := s.batching + 1);
      MoveSends(s1, d, x, go.value.0, go.value.1);
    } else {
      var (dir, starved) := Select(c, s);
      s1 := s.(batching := 1, starved := starved);
      assert dir.Some?;
      FoundIsQueued(c, s, dir.value, now);
      MoveSends(s1, d, x, dir.value, FindRequest(s.At(dir.value), now));
    }
  }

  /** Afterwards next_rq is a request that follows the one sent, of those queued. */
  lemma SendSetsNext(c: Config, s: Sched, now: nat, d: Dir, x: Id)
    requires Good(c, s, now) && Sends(s, Dispatch(c, s, now), d, x)
    ensures var s' := Dispatch(c, s, now);
            Follows(s'.At(d).rqs, s.At(d).rqs[x].sector, s'.At(d).next) && s'.At(Opposite(d)).next == None
  {
    var s1 := SendIs(c, s, now, d, x);
    GoodLane(c, s, d, now);
    LatterFollows(s.At(d), x, now + c.Expire(d));
    LatterIsOther(s.At(d), x);
  }

  lemma LatterIsOther(l: Lane, x: Id)
    requires NoDup(l.sort)
    ensures RemoveRequest(l.(next := Latter(l.sort, x)), x).next == Latter(l.sort, x)
  {
  }

  /* ---- between two dispatches ---- */

  /** The step takes request g of direction d away by merging it into another. */
  ghost predicate Absorbs(op: Op, d: Dir, g: Id) { op.Merge? && op.d == d && op.next == g }

  lemma LaneKeepsNext(l: Lane, op: Op, latest: nat)
    requires LaneOk(l, latest) && LaneEnabled(l, op) && (l.next.Some? ==> !(op.Merge? && op.next == l.next.value))
    ensures LaneAfter(l, op, latest).next == l.next
  {
  }

  /** Inserting requests, growing them at the front or back, and merging others away does not change what is sent next. */
  lemma QuietKeepsNext(c: Config, s: Sched, op: Op, now: nat, d: Dir)
    requires Good(c, s, now) && !op.Go? && (s.At(d).next.Some? ==> !Absorbs(op, d, s.At(d).next.value))
    ensures var s' := Apply(c, s, op, now); s'.At(d).next == s.At(d).next && s'.batching == s.batching
  {
    if Enabled(s, op) {
      ApplyIsLaneAfter(c, s, op, now);
      if op.d == d {
        GoodLane(c, s, d, now);
        LaneKeepsNext(s.At(d), op, now + c.Expire(d));
      }
    }
  }

  lemma FollowsSame(a: map<Id, Rq>, b: map<Id, Rq>, p: nat, o: Option<Id>)
    requires Follows(a, p, o) && (forall y :: y in a <==> y in b) && (forall y :: y in a ==> a[y].sector == b[y].sector)
    ensures Follows(b, p, o)
  {
  }

  lemma MergedSectors(l: Lane, req: Id, g: Id)
    requires req in l.rqs && g in l.rqs && req != g
    ensures var r := MergedRequests(l, req, g);
            && (forall y :: y in l.rqs - {g} <==> y in r.rqs)
            && (forall y :: y in l.rqs - {g} ==> (l.rqs - {g})[y].sector == r.rqs[y].sector)
            && r.next == if l.next == Some(g) then Latter(l.sort, g) else l.next
  {
  }

  lemma MergeFollows(l: Lane, req: Id, g: Id, latest: nat)
    requires LaneOk(l, latest) && req in l.rqs && l.next == Some(g) && g in l.rqs && req != g
    ensures var r := MergedRequests(l, req, g); Follows(r.rqs, l.rqs[g].sector, r.next)
  {
    LatterFollows(l, g, latest);
    MergedSectors(l, req, g);
    var r := MergedRequests(l, req, g);
    FollowsSame(l.rqs - {g}, r.rqs, l.rqs[g].sector, r.next);
  }

  /** If the request that would be sent next is merged away, the one that follows it takes its place. */
  lemma AbsorbedNext(c: Config, s: Sched, op: Op, now: nat, d: Dir, g: Id)
    requires Good(c, s, now) && s.At(d).next == Some(g) && Absorbs(op, d, g) && Enabled(s, op)
    ensures g in s.At(d).rqs
    ensures var l := Apply(c, s, op, now).At(d); Follows(l.rqs, s.At(d).rqs[g].sector, l.next)
  {
    GoodLane(c, s, d, now);
    MergeFollows(s.At(d), op.id, g, now + c.Expire(d));
  }

  ghost predicate Quiet(ops: seq<(nat, Op)>) { forall i :: 0 <= i < |ops| ==> !ops[i].1.Go? }

  ghost predicate Spared(ops: seq<(nat, Op)>, d: Dir, g: Option<Id>) {
    g.Some? ==> forall i :: 0 <= i < |ops| ==> !Absorbs(ops[i].1, d, g.value)
  }

  lemma QuietRest(ops: seq<(nat, Op)>, d: Dir, g: Option<Id>)
    requires ops != [] && Quiet(ops) && Spared(ops, d, g)
    ensures !ops[0].1.Go? && (g.Some? ==> !Absorbs(ops[0].1, d, g.value)) && Quiet(ops[1..]) && Spared(ops[1..], d, g)
  {
  }

  lemma QuietTurn(c: Config, s: Sched, now: nat, t: nat, op: Op, d: Dir)
    requires Good(c, s, now) && now <= t && !op.Go? && (s.At(d).next.Some? ==> !Absorbs(op, d, s.At(d).next.value))
    ensures var s' := Apply(c, s, op, t); Good(c, s', t) && s'.At(d).next == s.At(d).next && s'.batching == s.batching
  {
    Later(c, s, now, t);
    ApplyOk(c, s, op, t);
    QuietKeepsNext(c, s, op, t, d);
  }

  lemma {:induction false} QuietRun(c: Config, s: Sched, now: nat, ops: seq<(nat, Op)>, d: Dir, g: Option<Id>)
    requires Good(c, s, now) && Quiet(ops) && Spared(ops, d, g) && s.At(d).next == g
    ensures Run(c, s, now, ops).At(d).next == g && Run(c, s, now, ops).batching == s.batching
    decreases |ops|
  {
    if ops != [] {
      QuietRest(ops, d, g);
      var s', t := AfterFirst(c, s, now, ops);
      QuietTurn(c, s, now, t, ops[0].1, d);
      QuietRun(c, s', t, ops[1..], d, g);
    }
  }

  lemma GoIs(c: Config, s: Sched, now: nat)
    requires Good(c, s, now)
    ensures Apply(c, s, Go, now) == Dispatch(c, s, now) && Good(c, Dispatch(c, s, now), now)
  {
    DispatchOk(c, s, now);
  }

  /** The sweep: request x0 of direction d is sent, then requests are inserted and merged, and then request x of the same
      direction is sent. There is a request g that followed x0 among those queued when x0 was sent, or None, such that, if
      it has not been merged away: x is g if the batch goes on or the oldest request has not expired; and x is the oldest
      request if there was none to follow, or if a new batch starts and the oldest has expired. */
  lemma SweepsOn(c: Config, s: Sched, now: nat, d: Dir, x0: Id, ops: seq<(nat, Op)>, x: Id) returns (g: Option<Id>)
    requires Good(c, s, now) && Sends(s, Apply(c, s, Go, now), d, x0) && Quiet(ops)
    requires var s2, t := Run(c, Apply(c, s, Go, now), now, ops), End(now, ops); Sends(s2, Apply(c, s2, Go, t), d, x)
    ensures Follows(Apply(c, s, Go, now).At(d).rqs, s.At(d).rqs[x0].sector, g)
    ensures var s2, t := Run(c, Apply(c, s, Go, now), now, ops), End(now, ops);
            Spared(ops, d, g) ==>
              && s2.At(d).fifo != [] && s2.At(d).fifo[0] in s2.At(d).rqs
              && var oldest := s2.At(d).fifo[0];
                 x == if g.Some? && (s2.batching < c.fifoBatch || s2.At(d).rqs[oldest].fifoTime > t) then g.value else oldest
  {
    GoIs(c, s, now);
    var s1 := Apply(c, s, Go, now);
    SendSetsNext(c, s, now, d, x0);
    g := s1.At(d).next;
    var s2, t := Run(c, s1, now, ops), End(now, ops);
    RunsGood(c, s1, now, ops);
    GoIs(c, s2, t);
    if Spared(ops, d, g) {
      QuietRun(c, s1, now, ops, d, g);
      var m := SendIs(c, s2, t, d, x);
    }
  }

  /* ---- ascending batches ---- */

  /** What would be sent next is not below what was sent last. */
  ghost predicate Upward(s: Sched, d: Dir) {
    s.At(d).next.Some? ==>
      s.At(d).next.value in s.At(d).rqs && s.dispatched != [] &&
      s.dispatched[|s.dispatched| - 1].sector <= s.At(d).rqs[s.At(d).next.value].sector
  }

  /** A front merge does not pull the request that would be sent next below the one sent last. */
  ghost predicate Gentle(s: Sched, op: Op) {
    op.Front? && op.id in s.At(op.d).rqs && s.At(op.d).next == Some(op.id) && s.dispatched != [] ==>
      s.dispatched[|s.dispatched| - 1].sector + op.grow <= s.At(op.d).rqs[op.id].sector
  }

  lemma KeptSector(l: Lane, op: Op, latest: nat, g: Id)
    requires Linked(l) && LaneEnabled(l, op) && g in l.rqs && !(op.Merge? && op.next == g)
    ensures var r := LaneAfter(l, op, latest);
            g in r.rqs && r.rqs[g].sector == if op.Front? && op.id == g then l.rqs[g].sector - op.grow else l.rqs[g].sector
  {
  }

  lemma QuietDispatched(c: Config, s: Sched, op: Op, now: nat)
    requires !op.Go?
    ensures Apply(c, s, op, now).dispatched == s.dispatched
  {
  }

  lemma UpwardFrom(s: Sched, d: Dir, p: nat)
    requires Follows(s.At(d).rqs, p, s.At(d).next) && s.dispatched != [] && s.dispatched[|s.dispatched| - 1].sector <= p
    ensures Upward(s, d)
  {
  }

  /** The same lane, or one in which the next request is the same and not below the last one sent. */
  lemma UpwardAt(s: Sched, s': Sched, d: Dir, g: Id)
    requires Upward(s, d) && s.At(d).next == Some(g) && s'.dispatched == s.dispatched
    requires var l := s'.At(d); l.next == Some(g) && g in l.rqs && s.dispatched[|s.dispatched| - 1].sector <= l.rqs[g].sector
    ensures Upward(s', d)
  {
  }

  lemma OneLane(c: Config, s: Sched, op: Op, now: nat, d: Dir)
    requires !op.Go? && Linked(s.At(d))
    ensures !Enabled(s, op) || op.d != d ==> Apply(c, s, op, now).At(d) == s.At(d)
    ensures Enabled(s, op) && op.d == d ==>
              LaneEnabled(s.At(d), op) && Apply(c, s, op, now).At(d) == LaneAfter(s.At(d), op, now + c.Expire(d))
  {
    if Enabled(s, op) {
      ApplyIsLaneAfter(c, s, op, now);
    }
  }

  lemma KeptUpward(c: Config, s: Sched, op: Op, now: nat, d: Dir, g: Id)
    requires Good(c, s, now) && !op.Go? && Gentle(s, op) && Upward(s, d) && s.At(d).next == Some(g) && op.d == d
    requires Enabled(s, op) && !Absorbs(op, d, g)
    ensures Upward(Apply(c, s, op, now), d)
  {
    GoodLane(c, s, d, now);
    OneLane(c, s, op, now, d);
    LaneKeepsNext(s.At(d), op, now + c.Expire(d));
    KeptSector(s.At(d), op, now + c.Expire(d), g);
    QuietDispatched(c, s, op, now);
    UpwardAt(s, Apply(c, s, op, now), d, g);
  }

  lemma OtherUpward(c: Config, s: Sched, op: Op, now: nat, d: Dir)
    requires Linked(s.At(d)) && Upward(s, d) && !op.Go? && (!Enabled(s, op) || op.d != d)
    ensures Upward(Apply(c, s, op, now), d)
  {
    OneLane(c, s, op, now, d);
    QuietDispatched(c, s, op, now);
  }

  lemma AbsorbedUpward(c: Config, s: Sched, op: Op, now: nat, d: Dir, g: Id)
    requires Good(c, s, now) && Upward(s, d) && s.At(d).next == Some(g) && Absorbs(op, d, g) && Enabled(s, op)
    ensures Upward(Apply(c, s, op, now), d)
  {
    AbsorbedNext(c, s, op, now, d, g);
    QuietDispatched(c, s, op, now);
    UpwardFrom(Apply(c, s, op, now), d, s.At(d).rqs[g].sector);
  }

  lemma QuietUpward(c: Config, s: Sched, op: Op, now: nat, d: Dir)
    requires Good(c, s, now) && !op.Go? && Gentle(s, op) && Upward(s, d)
    ensures Upward(Apply(c, s, op, now), d)
  {
    if !Enabled(s, op) || op.d != d {
      OtherUpward(c, s, op, now, d);
    } else if s.At(d).next == None {
      QuietKeepsNext(c, s, op, now, d);
    } else if Absorbs(op, d, s.At(d).next.value) {
      AbsorbedUpward(c, s, op, now, d, s.At(d).next.value);
    } else {
      KeptUpward(c, s, op, now, d, s.At(d).next.value);
    }
  }

  lemma MoveIsSend(s: Sched, s1: Sched, d: Dir, x: Id)
    requires x in s.At(d).rqs && s1 == s.(batching := s1.batching, starved := s1.starved)
    ensures Sends(s, MoveRequest(s1, d, x), d, x)
  {
  }

  /** A dispatch that finds nothing leaves everything as it is. */
  lemma SendsOrNot(c: Config, s: Sched, now: nat) returns (d: Dir, x: Id)
    requires Good(c, s, now)
    ensures var s' := Dispatch(c, s, now); s' == s.(starved := s'.starved) || Sends(s, s', d, x)
  {
    d, x := Read, 0;
    var go := Continuing(s);
    if go.Some? && s.batching < c.fifoBatch {
      d, x := go.value.0, go.value.1;
      MoveIsSend(s, s.(batching := s.batching + 1), d, x);
    } else if Select(c, s).0.Some? {
      d := Select(c, s).0.value;
      FoundIsQueued(c, s, d, now);
      x := FindRequest(s.At(d), now);
      MoveIsSend(s, s.(batching := 1, starved := Select(c, s).1), d, x);
    }
  }

  lemma GoUpward(c: Config, s: Sched, now: nat, d: Dir)
    requires Good(c, s, now) && Upward(s, d)
    ensures Upward(Dispatch(c, s, now), d)
  {
    var d', x := SendsOrNot(c, s, now);
    var s' := Dispatch(c, s, now);
    if Sends(s, s', d', x) {
      SendSetsNext(c, s, now, d', x);
      if d == d' {
        UpwardFrom(s', d, s.At(d).rqs[x].sector);
      } else {
        assert s'.At(d).next == None;
      }
    }
  }

  ghost predicate GentleRun(c: Config, s: Sched, now: nat, ops: seq<(nat, Op)>)
    decreases |ops|
  {
    ops != [] ==>
      var t := now + ops[0].0; Gentle(s, ops[0].1) && GentleRun(c, Apply(c, s, ops[0].1, t), t, ops[1..])
  }

  lemma GentleRest(c: Config, s: Sched, now: nat, ops: seq<(nat, Op)>, s': Sched, t: nat)
    requires ops != [] && GentleRun(c, s, now, ops) && t == now + ops[0].0 && s' == Apply(c, s, ops[0].1, t)
    ensures Gentle(s, ops[0].1) && GentleRun(c, s', t, ops[1..])
  {
  }

  lemma StepUpward(c: Config, s: Sched, now: nat, t: nat, op: Op, d: Dir)
    requires Good(c, s, now) && now <= t && Gentle(s, op) && Upward(s, d)
    ensures Good(c, Apply(c, s, op, t), t) && Upward(Apply(c, s, op, t), d)
  {
    Later(c, s, now, t);
    ApplyOk(c, s, op, t);
    if op.Go? {
      GoIs(c, s, t);
      GoUpward(c, s, t, d);
    } else {
      QuietUpward(c, s, op, t, d);
    }
  }

  lemma {:induction false} RunsUpward(c: Config, s: Sched, now: nat, ops: seq<(nat, Op)>, d: Dir)
    requires Good(c, s, now) && Upward(s, d) && GentleRun(c, s, now, ops)
    ensures Upward(Run(c, s, now, ops), d)
    decreases |ops|
  {
    if ops != [] {
      var s', t := AfterFirst(c, s, now, ops);
      GentleRest(c, s, now, ops, s', t);
      StepUpward(c, s, now, t, ops[0].1, d);
      RunsUpward(c, s', t, ops[1..], d);
    }
  }

  /** In every run from the empty scheduler in which no front merge pulls the next request below the last one sent: a dispatch
      that goes on with a batch sends a request at or above the one before. */
  lemma BatchAscends(c: Config, now: nat, ops: seq<(nat, Op)>, t: nat)
    requires GentleRun(c, Init, now, ops) && End(now, ops) <= t
    requires var s := Run(c, Init, now, ops); Continuing(s).Some? && s.batching < c.fifoBatch
    ensures var s := Run(c, Init, now, ops);
            var s' := Apply(c, s, Go, t);
            var n := |s.dispatched|;
            && |s'.dispatched| == n + 1 && s'.dispatched[..n] == s.dispatched
            && n > 0 && s.dispatched[n - 1].sector <= s'.dispatched[n].sector
  {
    var s := Run(c, Init, now, ops);
    RunsGood(c, Init, now, ops);
    Later(c, s, End(now, ops), t);
    GoIs(c, s, t);
    var (d, x) := Continuing(s).value;
    RunsUpward(c, Init, now, ops, d);
    ContinueIs(c, s, t);
  }

  lemma FrontMovesNext(c: Config, s: Sched, now: nat, d: Dir, g: Id, grow: nat)
    requires Good(c, s, now) && s.At(d).next == Some(g) && g in s.At(d).rqs && grow <= s.At(d).rqs[g].sector
    ensures var r := Apply(c, s, Front(d, g, grow), now);
            && r.At(d).next == Some(g) && g in r.At(d).rqs && r.At(d).rqs[g].sector == s.At(d).rqs[g].sector - grow
            && r.At(Opposite(d)) == s.At(Opposite(d)) && r.batching == s.batching && r.dispatched == s.dispatched
  {
    GoodLane(c, s, d, now);
    OneLane(c, s, Front(d, g, grow), now, d);
    KeptSector(s.At(d), Front(d, g, grow), now + c.Expire(d), g);
  }

  /** And where a front merge does pull it below, the batch does not ascend: after the merge, the dispatch that goes on with
      the batch sends a request at or above the one before if and only if the merge was gentle. */
  lemma AscendsIffGentle(c: Config, s: Sched, now: nat, d: Dir, g: Id, grow: nat)
    requires Good(c, s, now) && Continuing(s) == Some((d, g)) && s.batching < c.fifoBatch && s.dispatched != []
    requires g in s.At(d).rqs && grow <= s.At(d).rqs[g].sector
    ensures var r := Apply(c, Apply(c, s, Front(d, g, grow), now), Go, now);
            var n := |s.dispatched|;
            && |r.dispatched| == n + 1
            && (s.dispatched[n - 1].sector <= r.dispatched[n].sector <==> Gentle(s, Front(d, g, grow)))
  {
    var s1 := Apply(c, s, Front(d, g, grow), now);
    FrontMovesNext(c, s, now, d, g, grow);
    ApplyOk(c, s, Front(d, g, grow), now);
    GoIs(c, s1, now);
    ContinueIs(c, s1, now);
  }
}
