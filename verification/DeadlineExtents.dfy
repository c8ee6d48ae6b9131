/**
 What the deadline scheduler (block/deadline-iosched.c) does to extents: over any run of inserts, merges and dispatches, every
 sector is covered by as many requests, queued or dispatched, as it was asked for. No sector is lost and none is doubled.
 */
module DeadlineExtents {
  import opened Lists
  import opened Deadline
  import opened DeadlineOrder
  import opened DeadlineBound

  /** 1 if the extent of n sectors from `from` on holds sector x. */
  function Has(from: nat, n: nat, x: nat): nat { if from <= x < from + n then 1 else 0 }

  ghost function At(rqs: map<Id, Rq>, i: Id, x: nat): nat {
    if i in rqs then Has(rqs[i].sector, rqs[i].sectors, x) else 0
  }

  /** How many of the requests on a list hold sector x. */
  ghost function Listed(s: seq<Id>, rqs: map<Id, Rq>, x: nat): nat {
    if s == [] then 0 else At(rqs, s[0], x) + Listed(s[1..], rqs, x)
  }

  ghost function Gone(s: seq<Rq>, x: nat): nat {
    if s == [] then 0 else Gone(s[..|s| - 1], x) + Has(s[|s| - 1].sector, s[|s| - 1].sectors, x)
  }

  /** How many requests, queued or dispatched, hold sector x. */
  ghost function Covering(s: Sched, x: nat): nat {
    Listed(s.read.fifo, s.read.rqs, x) + Listed(s.write.fifo, s.write.rqs, x) + Gone(s.dispatched, x)
  }

  /* ---- lists ---- */

  lemma {:induction false} ListedSame(s: seq<Id>, a: map<Id, Rq>, b: map<Id, Rq>, x: nat)
    requires forall i :: i in s ==> At(a, i, x) == At(b, i, x)
    ensures Listed(s, a, x) == Listed(s, b, x)
  {
    if s != [] {
      ListedSame(s[1..], a, b, x);
    }
  }

  lemma {:induction false} ListedSnoc(s: seq<Id>, id: Id, rqs: map<Id, Rq>, x: nat)
    ensures Listed(s + [id], rqs, x) == Listed(s, rqs, x) + At(rqs, id, x)
  {
    if s == [] {
      assert s + [id] == [id];
    } else {
      assert (s + [id])[1..] == s[1..] + [id];
      ListedSnoc(s[1..], id, rqs, x);
    }
  }

  lemma {:induction false} ListedRemove(s: seq<Id>, id: Id, rqs: map<Id, Rq>, x: nat)
    requires NoDup(s) && id in s
    ensures Listed(s, rqs, x) == Listed(Remove(s, id), rqs, x) + At(rqs, id, x)
  {
    if s[0] == id {
      RemoveHead(s);
    } else {
      ListedRemove(s[1..], id, rqs, x);
      assert Remove(s, id)[1..] == Remove(s[1..], id);
    }
  }

  lemma {:induction false} ListedInsert(s: seq<Id>, a: Id, b: Id, rqs: map<Id, Rq>, x: nat)
    requires a in s
    ensures Listed(InsertAfter(s, a, b), rqs, x) == Listed(s, rqs, x) + At(rqs, b, x)
  {
    var r := InsertAfter(s, a, b);
    if s[0] == a {
      assert r[1..] == [b] + s[1..];
      assert r[1..][1..] == s[1..];
    } else {
      ListedInsert(s[1..], a, b, rqs, x);
      assert r[1..] == InsertAfter(s[1..], a, b);
    }
  }

  /** A request on the list changes. */
  lemma ListedUpdate(s: seq<Id>, id: Id, rqs: map<Id, Rq>, rq: Rq, x: nat)
    requires NoDup(s) && id in s
    ensures Listed(s, rqs[id := rq], x) + At(rqs, id, x) == Listed(s, rqs, x) + Has(rq.sector, rq.sectors, x)
  {
    ListedRemove(s, id, rqs, x);
    ListedRemove(s, id, rqs[id := rq], x);
    ListedSame(Remove(s, id), rqs, rqs[id := rq], x);
  }

  /* ---- one lane ---- */

  ghost function Held(l: Lane, x: nat): nat { Listed(l.fifo, l.rqs, x) }

  lemma RemoveHeld(l: Lane, id: Id, latest: nat, x: nat)
    requires LaneOk(l, latest) && id in l.rqs
    ensures Held(RemoveRequest(l, id), x) + At(l.rqs, id, x) == Held(l, x)
  {
    ListedRemove(l.fifo, id, l.rqs, x);
    ListedSame(Remove(l.fifo, id), l.rqs, l.rqs - {id}, x);
  }

  /** Moving a request behind another keeps what the list holds. */
  lemma MovedHeld(s: seq<Id>, req: Id, next: Id, rqs: map<Id, Rq>, x: nat)
    requires NoDup(s) && req in s && next in s && req != next
    ensures Listed(InsertAfter(Remove(s, req), next, req), rqs, x) == Listed(s, rqs, x)
  {
    ListedRemove(s, req, rqs, x);
    ListedInsert(Remove(s, req), next, req, rqs, x);
  }

  /** req comes to hold what next holds too. */
  lemma AbsorbHeld(l: Lane, req: Id, next: Id, latest: nat, x: nat)
    requires LaneOk(l, latest) && req in l.rqs && next in l.rqs && req != next
    requires l.rqs[next].sector == l.rqs[req].sector + l.rqs[req].sectors
    ensures Held(Absorb(l, req, next), x) == Held(l, x) + At(l.rqs, next, x)
  {
    var r := Absorb(l, req, next);
    ListedUpdate(l.fifo, req, l.rqs, r.rqs[req], x);
    if l.rqs[next].fifoTime < l.rqs[req].fifoTime {
      MovedHeld(l.fifo, req, next, r.rqs, x);
    }
  }

  lemma MergeHeld(l: Lane, req: Id, next: Id, latest: nat, x: nat)
    requires LaneOk(l, latest) && req in l.rqs && next in l.rqs && req != next
    requires l.rqs[next].sector == l.rqs[req].sector + l.rqs[req].sectors
    ensures Held(MergedRequests(l, req, next), x) == Held(l, x)
  {
    AbsorbHeld(l, req, next, latest, x);
    AbsorbOk(l, req, next, latest);
    RemoveHeld(Absorb(l, req, next), next, latest, x);
  }

  /** 1 if what an operation asks for holds sector x: the extent of a new request, or what a bio adds at either end. */
  ghost function Asks(l: Lane, op: Op, x: nat): nat
    requires LaneEnabled(l, op)
  {
    match op
    case Add(_, _, sector, sectors) => Has(sector, sectors, x)
    case Front(_, id, grow) => Has(l.rqs[id].sector - grow, grow, x)
    case Back(_, id, grow) => Has(l.rqs[id].sector + l.rqs[id].sectors, grow, x)
    case Merge(_, _, _) => 0
  }

  /** Two requests are merged only if one starts where the other ends. */
  ghost predicate Adjacent(l: Lane, op: Op)
    requires LaneEnabled(l, op)
  {
    op.Merge? ==> l.rqs[op.next].sector == l.rqs[op.id].sector + l.rqs[op.id].sectors
  }

  lemma LaneAfterHeld(l: Lane, op: Op, latest: nat, x: nat)
    requires LaneOk(l, latest) && LaneEnabled(l, op) && Adjacent(l, op)
    ensures Held(LaneAfter(l, op, latest), x) == Held(l, x) + Asks(l, op, x)
  {
    var r := LaneAfter(l, op, latest);
    match op {
      case Add(_, id, _, _) =>
        ListedSame(l.fifo, l.rqs, r.rqs, x);
        ListedSnoc(l.fifo, id, r.rqs, x);
      case Front(_, id, _) => ListedUpdate(l.fifo, id, l.rqs, r.rqs[id], x);
      case Back(_, id, _) => ListedUpdate(l.fifo, id, l.rqs, r.rqs[id], x);
      case Merge(_, id, next) => MergeHeld(l, id, next, latest, x);
    }
  }

  /* ---- the scheduler ---- */

  lemma WithHeld(s: Sched, d: Dir, l: Lane, x: nat)
    ensures Covering(s.With(d, l), x) + Held(s.At(d), x) == Covering(s, x) + Held(l, x)
  {
  }

  lemma GoneSnoc(s: seq<Rq>, rq: Rq, x: nat)
    ensures Gone(s + [rq], x) == Gone(s, x) + Has(rq.sector, rq.sectors, x)
  {
    assert (s + [rq])[..|s|] == s;
  }

  lemma NextRemoveHeld(l: Lane, id: Id, next: Option<Id>, latest: nat, x: nat)
    requires LaneOk(l, latest) && id in l.rqs && (next.Some? ==> next.value in l.rqs)
    ensures Held(RemoveRequest(l.(next := next), id), x) + At(l.rqs, id, x) == Held(l, x)
  {
    NextOk(l, next, latest);
    RemoveHeld(l.(next := next), id, latest, x);
  }

  lemma MoveHeld(s: Sched, d: Dir, id: Id, latest: nat, x: nat)
    requires LaneOk(s.At(d), latest) && id in s.At(d).rqs
    ensures Covering(MoveRequest(s, d, id), x) == Covering(s, x)
  {
    var s1 := s.(read := s.read.(next := None), write := s.write.(next := None));
    var next := Latter(s.At(d).sort, id);
    NextRemoveHeld(s.At(d), id, next, latest, x);
    WithHeld(s1, d, RemoveRequest(s.At(d).(next := next), id), x);
    GoneSnoc(s.dispatched, s.At(d).rqs[id], x);
  }

  lemma SendHeld(s: Sched, d: Dir, id: Id, batching: nat, starved: nat, latest: nat, x: nat)
    requires LaneOk(s.At(d), latest) && id in s.At(d).rqs
    ensures Covering(MoveRequest(s.(batching := batching, starved := starved), d, id), x) == Covering(s, x)
  {
    MoveHeld(s.(batching := batching, starved := starved), d, id, latest, x);
  }

  lemma NewBatchHeld(c: Config, s: Sched, now: nat, x: nat)
    requires Good(c, s, now) && !(Continuing(s).Some? && s.batching < c.fifoBatch)
    ensures Covering(Dispatch(c, s, now), x) == Covering(s, x)
  {
    var (dir, starved) := Select(c, s);
    if dir.Some? {
      var d := dir.value;
      assert s.At(d).fifo[0] in s.At(d).fifo;
      SendHeld(s, d, FindRequest(s.At(d), now), 1, starved, now + c.Expire(d), x);
    }
  }

  lemma DispatchHeld(c: Config, s: Sched, now: nat, x: nat)
    requires Good(c, s, now)
    ensures Covering(Dispatch(c, s, now), x) == Covering(s, x)
  {
    var go := Continuing(s);
    if go.Some? && s.batching < c.fifoBatch {
      SendHeld(s, go.value.0, go.value.1, s.batching + 1, s.starved, now + c.Expire(go.value.0), x);
    } else {
      NewBatchHeld(c, s, now, x);
    }
  }

  ghost predicate Fitting(s: Sched, op: Op) { Enabled(s, op) && !op.Go? ==> Adjacent(s.At(op.d), op) }

  ghost function Wants(s: Sched, op: Op, x: nat): nat { if Enabled(s, op) && !op.Go? then Asks(s.At(op.d), op, x) else 0 }

  lemma InsertCovers(c: Config, s: Sched, op: Op, now: nat, x: nat)
    requires Enabled(s, op) && !op.Go? && LaneOk(s.At(op.d), now + c.Expire(op.d)) && Fitting(s, op)
    ensures Covering(Apply(c, s, op, now), x) == Covering(s, x) + Wants(s, op, x)
  {
    var l, latest := s.At(op.d), now + c.Expire(op.d);
    ApplyIsLaneAfter(c, s, op, now);
    LaneAfterHeld(l, op, latest, x);
    WithHeld(s, op.d, LaneAfter(l, op, latest), x);
  }

  lemma ApplyCovers(c: Config, s: Sched, op: Op, now: nat, x: nat)
    requires Good(c, s, now) && Fitting(s, op)
    ensures Covering(Apply(c, s, op, now), x) == Covering(s, x) + Wants(s, op, x)
  {
    if Enabled(s, op) {
      if op.Go? {
        DispatchHeld(c, s, now, x);
      } else {
        InsertCovers(c, s, op, now, x);
      }
    }
  }

  lemma StepCovers(c: Config, s: Sched, op: Op, now: nat, t: nat, x: nat) returns (r: Sched)
    requires Good(c, s, now) && now <= t && Fitting(s, op)
    ensures r == Apply(c, s, op, t) && Good(c, r, t) && Covering(r, x) == Covering(s, x) + Wants(s, op, x)
  {
    r := Apply(c, s, op, t);
    Later(c, s, now, t);
    ApplyOk(c, s, op, t);
    ApplyCovers(c, s, op, t, x);
  }

  ghost predicate FittingRun(c: Config, s: Sched, now: nat, ops: seq<(nat, Op)>)
    decreases |ops|
  {
    ops != [] ==>
      var t := now + ops[0].0;
      Fitting(s, ops[0].1) && FittingRun(c, Apply(c, s, ops[0].1, t), t, ops[1..])
  }

  /** How often a run asks for sector x. */
  ghost function Asked(c: Config, s: Sched, now: nat, ops: seq<(nat, Op)>, x: nat): nat
    decreases |ops|
  {
    if ops == [] then 0
    else
      var t := now + ops[0].0;
      Wants(s, ops[0].1, x) + Asked(c, Apply(c, s, ops[0].1, t), t, ops[1..], x)
  }

  lemma FittingHead(c: Config, s: Sched, now: nat, ops: seq<(nat, Op)>)
    requires ops != [] && FittingRun(c, s, now, ops)
    ensures Fitting(s, ops[0].1) && FittingRun(c, Apply(c, s, ops[0].1, now + ops[0].0), now + ops[0].0, ops[1..])
  {
  }

  lemma AskedHead(c: Config, s: Sched, now: nat, ops: seq<(nat, Op)>, x: nat)
    requires ops != []
    ensures Asked(c, s, now, ops, x)
         == Wants(s, ops[0].1, x) + Asked(c, Apply(c, s, ops[0].1, now + ops[0].0), now + ops[0].0, ops[1..], x)
  {
  }

  lemma {:induction false} RunCovers(c: Config, s: Sched, now: nat, ops: seq<(nat, Op)>, x: nat)
    requires Good(c, s, now) && FittingRun(c, s, now, ops)
    ensures Covering(Run(c, s, now, ops), x) == Covering(s, x) + Asked(c, s, now, ops, x)
    decreases |ops|
  {
    if ops != [] {
      var t := now + ops[0].0;
      FittingHead(c, s, now, ops);
      var r := StepCovers(c, s, ops[0].1, now, t, x);
      AskedHead(c, s, now, ops, x);
      RunHead(c, s, now, ops);
      RunCovers(c, r, t, ops[1..], x);
    }
  }

  /** In every run, every sector is held by exactly as many requests, queued or dispatched, as it was asked for; once nothing is
      queued, it has been dispatched exactly that often. */
  lemma SectorsConserved(c: Config, now: nat, ops: seq<(nat, Op)>, x: nat)
    requires FittingRun(c, Init, now, ops)
    ensures var r := Run(c, Init, now, ops);
            && Covering(r, x) == Asked(c, Init, now, ops, x)
            && (r.read.fifo == [] && r.write.fifo == [] ==> Gone(r.dispatched, x) == Asked(c, Init, now, ops, x))
  {
    RunCovers(c, Init, now, ops, x);
  }
}
