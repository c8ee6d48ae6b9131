/** Where the dispatch bound stops: with writes_starved set to 0 reads wait for ever, in runs from the empty scheduler. */
module DeadlineLimits {
  import opened Lists
  import opened Deadline
  import opened DeadlineOrder
  import opened DeadlineDelay
  import opened DeadlineBound

  lemma RunOne(c: Config, s: Sched, now: nat, op: Op, rest: seq<(nat, Op)>)
    ensures Run(c, s, now, [(0, op)] + rest) == Run(c, Apply(c, s, op, now), now, rest)
    ensures Calls([(0, op)] + rest) == Cost(op) + Calls(rest)
  {
    assert ([(0, op)] + rest)[1..] == rest;
  }

  lemma NotOut(s: Sched, x: Id)
    requires forall i :: 0 <= i < |s.dispatched| ==> x !in s.dispatched[i].parts
    ensures !Out(s, x)
  {
  }

  /* ---- writes_starved == 0 ---- */

  ghost function LoneRead(c: Config): Lane { Lane([0], [0], None, map[0 := Rq(0, 1, c.readExpire, {0})]) }

  /** A read that was added at time 0 and nothing else; `log` has gone out so far. */
  ghost function Starving(c: Config, batching: nat, log: seq<Rq>): Sched {
    Sched(LoneRead(c), EmptyLane, batching, 0, log)
  }

  lemma ReadArrives(c: Config)
    ensures Run(c, Init, 0, [(0, Add(Read, 0, 0, 1))]) == Starving(c, 0, []) && End(0, [(0, Add(Read, 0, 0, 1))]) == 0
  {
    var ops := [(0, Add(Read, 0, 0, 1))];
    assert ops == [(0, Add(Read, 0, 0, 1))] + [] && ops[1..] == [];
    RunOne(c, Init, 0, Add(Read, 0, 0, 1), []);
    assert Linked(EmptyLane);
  }

  ghost function StarveOps(n: nat): seq<(nat, Op)> {
    if n == 0 then [] else [(0, Add(Write, 1, 0, 1))] + ([(0, Go)] + StarveOps(n - 1))
  }

  ghost function LoneWrite(c: Config, now: nat): Rq { Rq(0, 1, now + c.writeExpire, {1}) }

  ghost function WithWrite(c: Config, batching: nat, log: seq<Rq>, now: nat): Sched {
    Starving(c, batching, log).(write := Lane([1], [1], None, map[1 := LoneWrite(c, now)]))
  }

  lemma WriteArrives(c: Config, batching: nat, log: seq<Rq>, now: nat)
    ensures Apply(c, Starving(c, batching, log), Add(Write, 1, 0, 1), now) == WithWrite(c, batching, log, now)
  {
    assert Linked(EmptyLane) && Linked(LoneRead(c));
  }

  /** With writes_starved 0 the write goes first, expired read or not. */
  lemma WriteGoes(c: Config, batching: nat, log: seq<Rq>, now: nat)
    requires c.writesStarved == 0
    ensures Apply(c, WithWrite(c, batching, log, now), Go, now) == Starving(c, 1, log + [LoneWrite(c, now)])
  {
    var a := WithWrite(c, batching, log, now);
    assert Linked(a.write) && Linked(a.read);
    assert Select(c, a) == (Some(Write), 0);
    assert FindRequest(a.write, now) == 1;
    assert Remove([1], 1) == [] && Latter([1], 1) == None;
    assert a.write.rqs - {1} == map[];
  }

  lemma StarveTurn(c: Config, batching: nat, log: seq<Rq>, now: nat, ops: seq<(nat, Op)>, rest: seq<(nat, Op)>)
    requires c.writesStarved == 0 && ops == [(0, Add(Write, 1, 0, 1))] + ([(0, Go)] + rest)
    ensures && Run(c, Starving(c, batching, log), now, ops) == Run(c, Starving(c, 1, log + [LoneWrite(c, now)]), now, rest)
            && Calls(ops) == 1 + Calls(rest)
  {
    RunOne(c, Starving(c, batching, log), now, Add(Write, 1, 0, 1), [(0, Go)] + rest);
    WriteArrives(c, batching, log, now);
    RunOne(c, WithWrite(c, batching, log, now), now, Go, rest);
    WriteGoes(c, batching, log, now);
  }

  ghost function StarveLog(c: Config, log: seq<Rq>, now: nat, n: nat): seq<Rq>
    decreases n
  {
    if n == 0 then log else StarveLog(c, log + [LoneWrite(c, now)], now, n - 1)
  }

  lemma {:induction false} StarveLogReads(c: Config, log: seq<Rq>, now: nat, n: nat)
    requires forall i :: 0 <= i < |log| ==> 0 !in log[i].parts
    ensures forall i :: 0 <= i < |StarveLog(c, log, now, n)| ==> 0 !in StarveLog(c, log, now, n)[i].parts
    decreases n
  {
    if n > 0 {
      StarveLogReads(c, log + [LoneWrite(c, now)], now, n - 1);
    }
  }

  lemma {:induction false} StarveRun(c: Config, batching: nat, log: seq<Rq>, now: nat, n: nat, ops: seq<(nat, Op)>)
    requires c.writesStarved == 0 && ops == StarveOps(n)
    ensures Run(c, Starving(c, batching, log), now, ops).dispatched == StarveLog(c, log, now, n)
    ensures Calls(ops) == n
    decreases n
  {
    if n > 0 {
      var rest := StarveOps(n - 1);
      StarveRun(c, 1, log + [LoneWrite(c, now)], now, n - 1, rest);
      StarveTurn(c, batching, log, now, ops, rest);
    }
  }

  /** With writes_starved 0 there is no bound: however many dispatch calls are made, an expired read with nothing ahead
      of it can still be waiting. */
  lemma ReadsStarveWithoutLimit(c: Config, n: nat)
    requires c.writesStarved == 0
    ensures var s, now := Run(c, Init, 0, [(0, Add(Read, 0, 0, 1))]), c.readExpire + 1;
            && Good(c, s, now) && Holds(s, Read, 0, 0) && Urgent(c, s, Read, 0, now) && s.read.fifo[0] == 0
            && Calls(StarveOps(n)) == n && !Out(Run(c, s, now, StarveOps(n)), 0)
  {
    var s, now := Run(c, Init, 0, [(0, Add(Read, 0, 0, 1))]), c.readExpire + 1;
    ReadArrives(c);
    RunsGood(c, Init, 0, [(0, Add(Read, 0, 0, 1))]);
    Later(c, s, 0, now);
    StarveRun(c, 0, [], now, n, StarveOps(n));
    StarveLogReads(c, [], now, n);
    NotOut(Run(c, s, now, StarveOps(n)), 0);
  }

  /* ---- unlinking ---- */

  lemma {:induction false} TakeLast(s: seq<Id>, x: Id)
    requires s != [] && NoDup(s) && s[|s| - 1] == x
    ensures Remove(s, x) == s[..|s| - 1] && Latter(s, x) == None
  {
    if |s| == 1 {
      assert s == [x] && s[1..] == [];
    } else {
      assert s[1..][|s| - 2] == x;
      TakeLast(s[1..], x);
      assert s[..|s| - 1] == [s[0]] + s[1..][..|s| - 2];
    }
  }

  lemma AbsorbLists(x: Id, y: Id, z: Id)
    requires x != y && x != z && y != z
    ensures Remove([x] + [y] + [z], x) == [y, z] && Remove([z] + ([x] + [y]), x) == [z, y]
  {
    var a, b := [x] + [y] + [z], [z] + ([x] + [y]);
    assert a[1..] == [y, z] && NoDup([y, z]) && NoDup(a);
    RemoveHead(a);
    assert b[1..] == [x, y] && [x, y][1..] == [y];
    assert Remove([x, y], x) == [y];
  }
}
