/**
 An expiry time of 0. A request that is due in the jiffy in which it is inserted can be moved back behind others of that
 jiffy for as long as the jiffy lasts; whether the wait of an expired request is bounded at all is decided by the settings.
 */
module DeadlineZero {
  import opened Lists
  import opened Deadline
  import opened DeadlineOrder
  import opened DeadlineDelay
  import opened DeadlineBound
  import opened DeadlineLimits

  /** An expired request is urgent unless it expires in this very jiffy and the setting is 0. */
  lemma UrgentIff(c: Config, s: Sched, d: Dir, h: Id, now: nat)
    requires h in s.At(d).rqs && s.At(d).rqs[h].fifoTime <= now
    ensures Urgent(c, s, d, h, now) <==> c.Expire(d) > 0 || s.At(d).rqs[h].fifoTime < now
  {
  }

  /* ---- one turn: the request that carries x is absorbed by a newer one, behind another that goes first ---- */

  /** The requests of a turn: `held` carries what is waited for, `first` goes out, and `later` absorbs `held`. */
  datatype Turn = Turn(held: Id, first: Id, later: Id, rq: Rq, top: nat) {
    ghost predicate Valid() {
      held != first && held != later && first != later && 1 <= rq.sector <= top && rq.fifoTime == 0
    }

    ghost function First(): Rq { Rq(top, 1, 0, {first}) }

    ghost function Later(): Rq
      requires Valid()
    {
      Rq(rq.sector - 1, 1, 0, {later})
    }

    ghost function Both(): Rq
      requires Valid()
    {
      Rq(rq.sector - 1, 1 + rq.sectors, 0, {later} + rq.parts)
    }

    ghost function Lane0(): Lane { Lane([held], [held], None, map[held := rq]) }

    ghost function Lane1(): Lane { Lane([held] + [first], [held] + [first], None, map[held := rq][first := First()]) }

    ghost function Lane2(): Lane
      requires Valid()
    {
      Lane([held] + [first] + [later], [later] + ([held] + [first]), None, map[held := rq][first := First()][later := Later()])
    }

    ghost function Lane3(): Lane
      requires Valid()
    {
      Lane([first, later], [later, first], None, map[first := First(), later := Both()])
    }

    ghost function Lane4(): Lane
      requires Valid()
    {
      Lane([later], [later], None, map[later := Both()])
    }
  }

  lemma FirstArrives(t: Turn)
    requires t.Valid()
    ensures Linked(t.Lane0()) && t.first !in t.Lane0().rqs && AddRequest(t.Lane0(), t.first, t.First()) == t.Lane1()
  {
    var rqs := t.Lane0().rqs[t.first := t.First()];
    assert [t.held][1..] == [];
    assert InsertSorted([], rqs, t.first) == [t.first];
  }

  lemma LaterArrives(t: Turn)
    requires t.Valid()
    ensures Linked(t.Lane1()) && t.later !in t.Lane1().rqs && AddRequest(t.Lane1(), t.later, t.Later()) == t.Lane2()
  {
  }

  lemma AbsorbIs(t: Turn)
    requires t.Valid()
    ensures Linked(t.Lane2()) && t.later in t.Lane2().rqs && t.held in t.Lane2().rqs
    ensures Absorb(t.Lane2(), t.later, t.held) == t.Lane2().(rqs := t.Lane2().rqs[t.later := t.Both()])
  {
  }

  lemma AbsorbedRqs(t: Turn)
    requires t.Valid()
    ensures t.Lane2().rqs[t.later := t.Both()] - {t.held} == t.Lane3().rqs
  {
  }

  lemma LaterAbsorbs(t: Turn)
    requires t.Valid()
    ensures Linked(t.Lane2()) && t.later in t.Lane2().rqs && t.held in t.Lane2().rqs
    ensures MergedRequests(t.Lane2(), t.later, t.held) == t.Lane3()
  {
    AbsorbLists(t.held, t.first, t.later);
    AbsorbIs(t);
    AbsorbedRqs(t);
  }

  lemma FirstLeaves(t: Turn)
    requires t.Valid()
    ensures Linked(t.Lane3()) && Latter(t.Lane3().sort, t.first) == None
    ensures RemoveRequest(t.Lane3(), t.first) == t.Lane4()
  {
    TakeLast([t.later, t.first], t.first);
    assert [t.first, t.later][1..] == [t.later] && NoDup([t.first, t.later]);
    RemoveHead([t.first, t.later]);
    assert t.Lane3().rqs - {t.first} == t.Lane4().rqs;
  }

  /* ---- turns of a run ---- */

  /** Requests of direction d alone. */
  ghost function Alone(d: Dir, l: Lane, batching: nat, log: seq<Rq>): Sched {
    Init.With(d, l).(batching := batching, dispatched := log)
  }

  /** A dispatch call that starts a batch with the oldest request, the last in sector order. */
  lemma OldestGoes(c: Config, d: Dir, l: Lane, batching: nat, log: seq<Rq>, now: nat)
    requires Linked(l) && l.fifo != [] && l.next == None && Latter(l.sort, l.fifo[0]) == None
    ensures l.fifo[0] in l.rqs
    ensures Apply(c, Alone(d, l, batching, log), Go, now) == Alone(d, RemoveRequest(l, l.fifo[0]), 1, log + [l.rqs[l.fifo[0]]])
  {
    assert Linked(EmptyLane);
    assert l.fifo[0] in l.rqs;
  }

  lemma Arrival(c: Config, d: Dir, l: Lane, id: Id, rq: Rq, l': Lane, batching: nat, log: seq<Rq>)
    requires c.Expire(d) == 0 && Linked(l) && id !in l.rqs && rq == Rq(rq.sector, 1, 0, {id}) && AddRequest(l, id, rq) == l'
    ensures Apply(c, Alone(d, l, batching, log), Add(d, id, rq.sector, 1), 0) == Alone(d, l', batching, log)
  {
    assert Linked(EmptyLane);
  }

  lemma Merging(c: Config, d: Dir, l: Lane, id: Id, next: Id, l': Lane, batching: nat, log: seq<Rq>)
    requires Linked(l) && id in l.rqs && next in l.rqs && id != next && MergedRequests(l, id, next) == l'
    ensures Apply(c, Alone(d, l, batching, log), Merge(d, id, next), 0) == Alone(d, l', batching, log)
  {
    assert Linked(EmptyLane);
  }

  /** Four steps at time 0. */
  ghost function Four(c: Config, s: Sched, a: Op, b: Op, e: Op, f: Op): Sched {
    Apply(c, Apply(c, Apply(c, Apply(c, s, a, 0), b, 0), e, 0), f, 0)
  }

  lemma AddFirst(c: Config, d: Dir, t: Turn, batching: nat, log: seq<Rq>)
    requires c.Expire(d) == 0 && t.Valid()
    ensures Apply(c, Alone(d, t.Lane0(), batching, log), Add(d, t.first, t.top, 1), 0) == Alone(d, t.Lane1(), batching, log)
  {
    FirstArrives(t);
    Arrival(c, d, t.Lane0(), t.first, t.First(), t.Lane1(), batching, log);
  }

  lemma AddLater(c: Config, d: Dir, t: Turn, batching: nat, log: seq<Rq>)
    requires c.Expire(d) == 0 && t.Valid()
    ensures Apply(c, Alone(d, t.Lane1(), batching, log), Add(d, t.later, t.rq.sector - 1, 1), 0) == Alone(d, t.Lane2(), batching, log)
  {
    LaterArrives(t);
    Arrival(c, d, t.Lane1(), t.later, t.Later(), t.Lane2(), batching, log);
  }

  lemma AbsorbAndGo(c: Config, d: Dir, t: Turn, batching: nat, log: seq<Rq>)
    requires t.Valid()
    ensures Apply(c, Apply(c, Alone(d, t.Lane2(), batching, log), Merge(d, t.later, t.held), 0), Go, 0)
            == Alone(d, t.Lane4(), 1, log + [t.First()])
  {
    LaterAbsorbs(t);
    Merging(c, d, t.Lane2(), t.later, t.held, t.Lane3(), batching, log);
    FirstLeaves(t);
    OldestGoes(c, d, t.Lane3(), batching, log, 0);
  }

  lemma TurnIs(c: Config, d: Dir, t: Turn, batching: nat, log: seq<Rq>) returns (a: Op, b: Op, e: Op, f: Op)
    requires c.Expire(d) == 0 && t.Valid()
    ensures Four(c, Alone(d, t.Lane0(), batching, log), a, b, e, f) == Alone(d, t.Lane4(), 1, log + [t.First()])
    ensures Cost(a) + Cost(b) + Cost(e) + Cost(f) == 1
  {
    AddFirst(c, d, t, batching, log);
    AddLater(c, d, t, batching, log);
    AbsorbAndGo(c, d, t, batching, log);
    a, b, e, f := Add(d, t.first, t.top, 1), Add(d, t.later, t.rq.sector - 1, 1), Merge(d, t.later, t.held), Go;
  }

  ghost function FourOps(a: Op, b: Op, e: Op, f: Op, rest: seq<(nat, Op)>): seq<(nat, Op)> {
    [(0, a)] + ([(0, b)] + ([(0, e)] + ([(0, f)] + rest)))
  }

  lemma FourRun(c: Config, s: Sched, a: Op, b: Op, e: Op, f: Op, rest: seq<(nat, Op)>)
    ensures Run(c, s, 0, FourOps(a, b, e, f, rest)) == Run(c, Four(c, s, a, b, e, f), 0, rest)
    ensures Calls(FourOps(a, b, e, f, rest)) == Cost(a) + Cost(b) + Cost(e) + Cost(f) + Calls(rest)
  {
    var s1 := Apply(c, s, a, 0);
    var s2 := Apply(c, s1, b, 0);
    RunOne(c, s, 0, a, [(0, b)] + ([(0, e)] + ([(0, f)] + rest)));
    RunOne(c, s1, 0, b, [(0, e)] + ([(0, f)] + rest));
    RunOne(c, s2, 0, e, [(0, f)] + rest);
    RunOne(c, Apply(c, s2, e, 0), 0, f, rest);
  }

  /** Four steps that lead from s to s' take their part off a run. */
  lemma RunFour(c: Config, s: Sched, a: Op, b: Op, e: Op, f: Op, s': Sched, rest: seq<(nat, Op)>, ops: seq<(nat, Op)>)
    requires s' == Four(c, s, a, b, e, f) && ops == FourOps(a, b, e, f, rest)
    ensures Run(c, s, 0, ops) == Run(c, s', 0, rest) && Calls(ops) == Cost(a) + Cost(b) + Cost(e) + Cost(f) + Calls(rest)
  {
    FourRun(c, s, a, b, e, f, rest);
  }

  /* ---- any number of turns ---- */

  /** Request `held` of direction d is alone, has just expired, and nothing that has gone out carries request 0. */
  ghost predicate Carrying(s: Sched, d: Dir, held: Id, rq: Rq) {
    && s == Alone(d, Lane([held], [held], None, map[held := rq]), s.batching, s.dispatched) && rq.fifoTime == 0
    && forall i :: 0 <= i < |s.dispatched| ==> 0 !in s.dispatched[i].parts
  }

  /** Request 3 goes out, and 1 or 2 carries on. */
  lemma OneTurn(c: Config, s: Sched, d: Dir, held: Id, rq: Rq)
    returns (s': Sched, later: Id, both: Rq, a: Op, b: Op, e: Op, f: Op)
    requires c.Expire(d) == 0 && Carrying(s, d, held, rq) && held != 3 && rq.sector >= 1
    ensures Carrying(s', d, later, both) && later != 3 && both.sector == rq.sector - 1
    ensures s' == Four(c, s, a, b, e, f) && Cost(a) + Cost(b) + Cost(e) + Cost(f) == 1
  {
    var t := Turn(held, 3, if held == 1 then 2 else 1, rq, rq.sector + rq.sectors + 1);
    a, b, e, f := TurnIs(c, d, t, s.batching, s.dispatched);
    later, both := t.later, t.Both();
    s' := Four(c, s, a, b, e, f);
  }

  lemma {:induction false} Turns(c: Config, s: Sched, d: Dir, held: Id, rq: Rq, n: nat) returns (ops: seq<(nat, Op)>)
    requires c.Expire(d) == 0 && Carrying(s, d, held, rq) && held != 3 && n <= rq.sector
    ensures Calls(ops) == n && !Out(Run(c, s, 0, ops), 0)
    decreases n
  {
    if n == 0 {
      ops := [];
      NotOut(s, 0);
    } else {
      var s', later, both, a, b, e, f := OneTurn(c, s, d, held, rq);
      var rest := Turns(c, s', d, later, both, n - 1);
      ops := FourOps(a, b, e, f, rest);
      RunFour(c, s, a, b, e, f, s', rest, ops);
    }
  }

  /* ---- when the wait is bounded ---- */

  /** Request 0 is inserted at time 0 and is alone. */
  ghost function Lone(c: Config, d: Dir, sector: nat): Sched { Run(c, Init, 0, [(0, Add(d, 0, sector, 1))]) }

  ghost function LoneLane(c: Config, d: Dir, sector: nat): Lane { Lane([0], [0], None, map[0 := Rq(sector, 1, c.Expire(d), {0})]) }

  lemma LoneArrives(c: Config, d: Dir, sector: nat)
    ensures Apply(c, Init, Add(d, 0, sector, 1), 0) == Alone(d, LoneLane(c, d, sector), 0, [])
  {
    assert Linked(EmptyLane);
  }

  lemma RunSingle(c: Config, s: Sched, op: Op)
    ensures Run(c, s, 0, [(0, op)]) == Apply(c, s, op, 0) && End(0, [(0, op)]) == 0
  {
    assert [(0, op)][1..] == [];
  }

  lemma LoneIs(c: Config, d: Dir, sector: nat)
    ensures Lone(c, d, sector) == Alone(d, LoneLane(c, d, sector), 0, []) && Good(c, Lone(c, d, sector), c.Expire(d))
  {
    var op := Add(d, 0, sector, 1);
    RunSingle(c, Init, op);
    LoneArrives(c, d, sector);
    RunsGood(c, Init, 0, [(0, op)]);
    Later(c, Lone(c, d, sector), 0, c.Expire(d));
  }

  /** When it expires, a number of dispatch calls suffices for it to go out, wherever it is on the disk and whatever else
      happens from then on. */
  ghost predicate Bounded(c: Config, d: Dir) {
    exists m: nat :: Suffices(c, d, m)
  }

  ghost predicate Suffices(c: Config, d: Dir, m: nat) {
    forall sector: nat, ops: seq<(nat, Op)> :: Calls(ops) >= m ==> Out(Run(c, Lone(c, d, sector), c.Expire(d), ops), 0)
  }

  lemma LoneSoon(c: Config, d: Dir, sector: nat, ops: seq<(nat, Op)>)
    requires c.Expire(d) > 0 && (d == Read ==> c.writesStarved >= 1) && Calls(ops) >= Bound(c, d, 0)
    ensures Out(Run(c, Lone(c, d, sector), c.Expire(d), ops), 0)
  {
    LoneIs(c, d, sector);
    var s := Lone(c, d, sector);
    assert TiesBehind(s.At(d), 0) == {};
    PlaceBound(c, s, c.Expire(d), ops, d, 0, 0);
  }

  lemma ZeroExpiryWaits(c: Config, d: Dir, m: nat)
    requires c.Expire(d) == 0
    ensures !Suffices(c, d, m)
  {
    LoneIs(c, d, m);
    var ops := Turns(c, Lone(c, d, m), d, 0, Rq(m, 1, 0, {0}), m);
    assert Calls(ops) >= m && !Out(Run(c, Lone(c, d, m), c.Expire(d), ops), 0);
  }

  lemma StarvedReadWaits(c: Config, m: nat)
    requires c.writesStarved == 0
    ensures !Suffices(c, Read, m)
  {
    LoneIs(c, Read, 0);
    StarveRun(c, 0, [], c.readExpire, m, StarveOps(m));
    StarveLogReads(c, [], c.readExpire, m);
    NotOut(Run(c, Starving(c, 0, []), c.readExpire, StarveOps(m)), 0);
    assert Calls(StarveOps(m)) >= m && !Out(Run(c, Lone(c, Read, 0), c.Expire(Read), StarveOps(m)), 0);
  }

  /** The wait of a request that has expired and is alone is bounded if and only if its expiry setting is not 0 and, for a
      read, writes_starved is not 0 either. */
  lemma BoundedIff(c: Config, d: Dir)
    ensures Bounded(c, d) <==> c.Expire(d) > 0 && (d == Read ==> c.writesStarved >= 1)
  {
    if c.Expire(d) > 0 && (d == Read ==> c.writesStarved >= 1) {
      forall sector: nat, ops: seq<(nat, Op)> | Calls(ops) >= Bound(c, d, 0)
        ensures Out(Run(c, Lone(c, d, sector), c.Expire(d), ops), 0)
      {
        LoneSoon(c, d, sector, ops);
      }
      assert Suffices(c, d, Bound(c, d, 0));
    } else {
      forall m: nat ensures !Suffices(c, d, m) {
        if c.Expire(d) == 0 {
          ZeroExpiryWaits(c, d, m);
        } else {
          StarvedReadWaits(c, m);
        }
      }
    }
  }
}
