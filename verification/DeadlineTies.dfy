/**
 A request's place in its FIFO does not bound its wait when two requests behind it have the same deadline: a merge into
 the second moves it back. Shown at every batch size and every writes_starved from 1 on, in runs from the empty scheduler.
 */
module DeadlineTies {
  import opened Lists
  import opened Deadline
  import opened DeadlineOrder
  import opened DeadlineDelay
  import opened DeadlineBound
  import opened DeadlineLimits

  /* ---- runs in pairs of steps: a request is inserted, and one is dispatched ---- */

  ghost function Two(c: Config, s: Sched, now: nat, a: Op, b: Op): Sched { Apply(c, Apply(c, s, a, now), b, now) }

  lemma RunTwo(c: Config, s: Sched, now: nat, a: Op, b: Op, s': Sched, rest: seq<(nat, Op)>) returns (ops: seq<(nat, Op)>)
    requires s' == Two(c, s, now, a, b)
    ensures Run(c, s, now, ops) == Run(c, s', now, rest) && Calls(ops) == Cost(a) + Cost(b) + Calls(rest)
    ensures AtOnce(rest) ==> AtOnce(ops)
  {
    ops := [(0, a)] + ([(0, b)] + rest);
    RunOne(c, s, now, a, [(0, b)] + rest);
    RunOne(c, Apply(c, s, a, now), now, b, rest);
  }

  /** Without a tick of the clock. */
  ghost predicate AtOnce(ops: seq<(nat, Op)>) { forall i :: 0 <= i < |ops| ==> ops[i].0 == 0 }

  lemma {:induction false} NoTime(now: nat, ops: seq<(nat, Op)>)
    requires AtOnce(ops)
    ensures End(now, ops) == now
    decreases |ops|
  {
    if ops != [] {
      NoTime(now, ops[1..]);
    }
  }

  /** Nothing that has gone out carries request 0. */
  ghost predicate Clean(s: Sched) { forall i :: 0 <= i < |s.dispatched| ==> 0 !in s.dispatched[i].parts }

  /** The lane from which `o` has been taken in a batch. */
  ghost function After(l: Lane, o: Id): Lane { RemoveRequest(l.(next := Latter(l.sort, o)), o) }

  ghost function Sent(s: Sched, d: Dir, o: Id, batching: nat, starved: nat): Sched
    requires o in s.At(d).rqs
  {
    Sched(if d == Read then After(s.read, o) else s.read.(next := None),
          if d == Write then After(s.write, o) else s.write.(next := None),
          batching, starved, s.dispatched + [s.At(d).rqs[o]])
  }

  /** A dispatch call that starts a batch with the oldest request. */
  lemma NewBatch(c: Config, s: Sched, now: nat, d: Dir, starved: nat)
    requires Linked(s.read) && Linked(s.write) && s.At(d).fifo != [] && s.At(d).fifo[0] in s.At(d).rqs
    requires Continuing(s).None? || s.batching >= c.fifoBatch
    requires Select(c, s) == (Some(d), starved) && (s.At(d).next.None? || s.At(d).rqs[s.At(d).fifo[0]].fifoTime <= now)
    ensures Apply(c, s, Go, now) == Sent(s, d, s.At(d).fifo[0], 1, starved)
  {
  }

  /** One that goes on with a batch. */
  lemma SameBatch(c: Config, s: Sched, now: nat, d: Dir, o: Id)
    requires Linked(s.read) && Linked(s.write) && o in s.At(d).rqs
    requires Continuing(s) == Some((d, o)) && s.batching < c.fifoBatch
    ensures Apply(c, s, Go, now) == Sent(s, d, o, s.batching + 1, s.starved)
  {
  }

  /* ---- lanes ---- */

  ghost function One(w: Id, rq: Rq, next: Option<Id>): Lane { Lane([w], [w], next, map[w := rq]) }

  ghost function Pair(w: Id, rq: Rq, v: Id, rv: Rq, next: Option<Id>): Lane { Lane([w] + [v], [w] + [v], next, map[w := rq][v := rv]) }

  lemma OneAdd(w: Id, rq: Rq, next: Option<Id>, v: Id, rv: Rq)
    requires w != v && rq.sector <= rv.sector
    ensures AddRequest(One(w, rq, next), v, rv) == Pair(w, rq, v, rv, next)
  {
    var rqs := map[w := rq][v := rv];
    assert [w][1..] == [];
    assert InsertSorted([], rqs, v) == [v];
  }

  lemma OneTaken(w: Id, rq: Rq, next: Option<Id>)
    ensures After(One(w, rq, next), w) == EmptyLane
  {
    TakeLast([w], w);
    assert map[w := rq] - {w} == map[];
  }

  lemma PairTaken(w: Id, rq: Rq, v: Id, rv: Rq, next: Option<Id>)
    requires w != v
    ensures After(Pair(w, rq, v, rv, next), w) == One(v, rv, Some(v))
  {
    var s := [w] + [v];
    assert s[1..] == [v] && NoDup([v]) && NoDup(s);
    RemoveHead(s);
    assert Latter(s, w) == Some(v);
    assert map[w := rq][v := rv] - {w} == map[v := rv];
  }

  /* ---- reads go first until the write has starved ---- */

  /** Write 5 is waiting alone, and reads have gone before it k times. */
  ghost predicate Starved(c: Config, s: Sched, k: nat) {
    && s.read == EmptyLane && 5 in s.write.rqs && s.write == One(5, s.write.rqs[5], None) && 0 !in s.write.rqs[5].parts
    && s.starved == k && Clean(s)
  }

  lemma ReadIn(c: Config, s: Sched, k: nat, now: nat)
    requires Starved(c, s, k)
    ensures Apply(c, s, Add(Read, 3, 0, 4), now) == s.(read := One(3, Rq(0, 4, now + c.readExpire, {3}), None))
  {
    assert Linked(EmptyLane) && Linked(s.write);
  }

  lemma ReadOut(c: Config, s: Sched, k: nat, now: nat, rq: Rq)
    requires Starved(c, s, k) && k < c.writesStarved
    ensures Apply(c, s.(read := One(3, rq, None)), Go, now) == s.(batching := 1, starved := k + 1, dispatched := s.dispatched + [rq])
  {
    var s1 := s.(read := One(3, rq, None));
    assert Linked(s1.read) && Linked(s1.write);
    assert Select(c, s1) == (Some(Read), k + 1);
    NewBatch(c, s1, now, Read, k + 1);
    OneTaken(3, rq, None);
  }

  lemma OnceMore(c: Config, s: Sched, k: nat) returns (s': Sched)
    requires Starved(c, s, k) && k < c.writesStarved
    ensures Starved(c, s', k + 1) && s' == Two(c, s, 0, Add(Read, 3, 0, 4), Go)
  {
    var rq := Rq(0, 4, c.readExpire, {3});
    ReadIn(c, s, k, 0);
    ReadOut(c, s, k, 0, rq);
    s' := s.(batching := 1, starved := k + 1, dispatched := s.dispatched + [rq]);
  }

  /* ---- the tie ---- */

  /** Where the reads are: 1 ends where 0 starts, and 2 is above both. */
  datatype Spots = Spots(at: nat, far: nat) {
    ghost predicate Valid() { at + 8 <= far }

    ghost function X(c: Config): Rq { Rq(at + 4, 4, c.readExpire, {0}) }

    ghost function E(c: Config): Rq { Rq(at, 4, c.readExpire, {1}) }

    ghost function B(c: Config): Rq { Rq(far, 4, c.readExpire, {2}) }

    ghost function Carrier(c: Config): Rq { Rq(at, 8, c.readExpire, {1} + {0}) }

    ghost function Tied(c: Config): Lane {
      Lane([0] + [2] + [1], [1] + ([0] + [2]), None, map[0 := X(c)][2 := B(c)][1 := E(c)])
    }

    ghost function Merged(c: Config): Lane { Lane([2, 1], [1, 2], None, map[2 := B(c), 1 := Carrier(c)]) }
  }

  lemma ThreeAdds(c: Config, p: Spots)
    requires p.Valid()
    ensures Linked(One(0, p.X(c), None)) && Linked(Pair(0, p.X(c), 2, p.B(c), None))
    ensures AddRequest(EmptyLane, 0, p.X(c)) == One(0, p.X(c), None)
    ensures AddRequest(One(0, p.X(c), None), 2, p.B(c)) == Pair(0, p.X(c), 2, p.B(c), None)
    ensures AddRequest(Pair(0, p.X(c), 2, p.B(c), None), 1, p.E(c)) == p.Tied(c)
  {
    OneAdd(0, p.X(c), None, 2, p.B(c));
  }

  lemma AddTo(c: Config, s: Sched, id: Id, sector: nat, l: Lane)
    requires Linked(s.read) && Linked(s.write) && id !in s.read.rqs
    requires l == AddRequest(s.read, id, Rq(sector, 4, c.readExpire, {id}))
    ensures Apply(c, s, Add(Read, id, sector, 4), 0) == s.(read := l)
  {
  }

  lemma RunThree(c: Config, s: Sched, a: Op, b: Op, e: Op) returns (ops: seq<(nat, Op)>)
    ensures Run(c, s, 0, ops) == Apply(c, Two(c, s, 0, a, b), e, 0) && AtOnce(ops)
  {
    RunOne(c, Two(c, s, 0, a, b), 0, e, []);
    assert [(0, e)] + [] == [(0, e)];
    ops := RunTwo(c, s, 0, a, b, Two(c, s, 0, a, b), [(0, e)] + []);
  }

  lemma ThreeCome(c: Config, s: Sched, k: nat, p: Spots)
    requires Starved(c, s, k) && p.Valid()
    ensures Apply(c, Two(c, s, 0, Add(Read, 0, p.at + 4, 4), Add(Read, 2, p.far, 4)), Add(Read, 1, p.at, 4), 0) == s.(read := p.Tied(c))
  {
    assert Linked(EmptyLane) && Linked(s.write);
    ThreeAdds(c, p);
    AddTo(c, s, 0, p.at + 4, One(0, p.X(c), None));
    AddTo(c, s.(read := One(0, p.X(c), None)), 2, p.far, Pair(0, p.X(c), 2, p.B(c), None));
    AddTo(c, s.(read := Pair(0, p.X(c), 2, p.B(c), None)), 1, p.at, p.Tied(c));
  }

  lemma TiesCome(c: Config, s: Sched, k: nat, p: Spots) returns (ops: seq<(nat, Op)>)
    requires Starved(c, s, k) && p.Valid()
    ensures Run(c, s, 0, ops) == s.(read := p.Tied(c)) && AtOnce(ops)
  {
    ThreeCome(c, s, k, p);
    ops := RunThree(c, s, Add(Read, 0, p.at + 4, 4), Add(Read, 2, p.far, 4), Add(Read, 1, p.at, 4));
  }

  /** Reads 0, 2 and 1 wait in that order with one deadline, and it is the turn of the write. */
  ghost predicate Waiting(c: Config, s: Sched, l: Lane) {
    && s.read == l && 5 in s.write.rqs && s.write == One(5, s.write.rqs[5], None) && 0 !in s.write.rqs[5].parts
    && s.starved == c.writesStarved && Clean(s)
  }

  lemma {:induction false} Starve(c: Config, s: Sched, k: nat, p: Spots) returns (ops: seq<(nat, Op)>)
    requires Starved(c, s, k) && k <= c.writesStarved && p.Valid()
    ensures Waiting(c, Run(c, s, 0, ops), p.Tied(c)) && AtOnce(ops)
    decreases c.writesStarved - k
  {
    if k == c.writesStarved {
      ops := TiesCome(c, s, k, p);
    } else {
      var s' := OnceMore(c, s, k);
      var rest := Starve(c, s', k + 1, p);
      ops := RunTwo(c, s, 0, Add(Read, 3, 0, 4), Go, s', rest);
    }
  }

  lemma WriteIn(c: Config)
    ensures Starved(c, Apply(c, Init, Add(Write, 5, 0, 4), 0), 0)
  {
    assert Linked(EmptyLane);
  }

  /** Every setting has such a run. */
  lemma TieReached(c: Config, p: Spots) returns (ops: seq<(nat, Op)>)
    requires p.Valid()
    ensures Waiting(c, Run(c, Init, 0, ops), p.Tied(c)) && AtOnce(ops)
  {
    WriteIn(c);
    var s := Apply(c, Init, Add(Write, 5, 0, 4), 0);
    var rest := Starve(c, s, 0, p);
    ops := [(0, Add(Write, 5, 0, 4))] + rest;
    RunOne(c, Init, 0, Add(Write, 5, 0, 4), rest);
  }

  /* ---- the merge ---- */

  lemma AbsorbIs(c: Config, p: Spots)
    requires p.Valid()
    ensures Linked(p.Tied(c)) && 1 in p.Tied(c).rqs && 0 in p.Tied(c).rqs
    ensures Absorb(p.Tied(c), 1, 0) == p.Tied(c).(rqs := p.Tied(c).rqs[1 := p.Carrier(c)])
  {
  }

  lemma AbsorbedRqs(c: Config, p: Spots)
    ensures p.Tied(c).rqs[1 := p.Carrier(c)] - {0} == p.Merged(c).rqs
  {
  }

  lemma MergeLane(c: Config, p: Spots)
    requires p.Valid()
    ensures Linked(p.Tied(c)) && 1 in p.Tied(c).rqs && 0 in p.Tied(c).rqs && MergedRequests(p.Tied(c), 1, 0) == p.Merged(c)
  {
    AbsorbLists(0, 2, 1);
    AbsorbIs(c, p);
    AbsorbedRqs(c, p);
  }

  lemma Moved(c: Config, s: Sched, p: Spots, now: nat)
    requires Waiting(c, s, p.Tied(c)) && p.Valid()
    ensures Waiting(c, Apply(c, s, Merge(Read, 1, 0), now), p.Merged(c))
  {
    MergeLane(c, p);
    assert Linked(s.write);
  }

  /* ---- a batch of reads that leaves the carrier alone ---- */

  /** Request v of a pair of ids that take turns is followed by the other. */
  ghost function Other(v: Id, a: Id, b: Id): Id { if v == a then b else a }

  /** A request of four sectors inserted now behind one on the disk. */
  ghost function Next(rq: Rq, id: Id, time: nat): Rq { Rq(rq.sector + rq.sectors, 4, time, {id}) }

  ghost function Three(k: Id, rk: Rq, w: Id, rq: Rq, v: Id, rv: Rq): Lane {
    Lane([k] + [w] + [v], [k] + [w] + [v], Some(w), map[k := rk][w := rq][v := rv])
  }

  lemma PairAdd(k: Id, rk: Rq, w: Id, rq: Rq, v: Id, rv: Rq)
    requires k != w && k != v && w != v && rk.sector <= rv.sector && rq.sector <= rv.sector
    ensures AddRequest(Pair(k, rk, w, rq, Some(w)), v, rv) == Three(k, rk, w, rq, v, rv)
  {
    var rqs := map[k := rk][w := rq][v := rv];
    assert ([k] + [w])[1..] == [w] && [w][1..] == [];
    assert InsertSorted([], rqs, v) == [v];
    assert InsertSorted([w], rqs, v) == [w] + [v];
    assert [k] + ([w] + [v]) == [k] + [w] + [v];
  }

  lemma MiddleTaken(k: Id, w: Id, v: Id)
    requires k != w && k != v && w != v
    ensures Remove([k] + [w] + [v], w) == [k] + [v] && Latter([k] + [w] + [v], w) == Some(v)
  {
    var s := [k] + [w] + [v];
    assert s[1..] == [w, v] && [w, v][1..] == [v];
    assert Remove([w, v], w) == [v] && Latter([w, v], w) == Some(v);
  }

  lemma ThreeTaken(k: Id, rk: Rq, w: Id, rq: Rq, v: Id, rv: Rq)
    requires k != w && k != v && w != v
    ensures After(Three(k, rk, w, rq, v, rv), w) == Pair(k, rk, v, rv, Some(v))
  {
    MiddleTaken(k, w, v);
    assert map[k := rk][w := rq][v := rv] - {w} == map[k := rk][v := rv];
  }

  /** Read 1 waits, the batch goes on with read y behind it on the disk, and no write is being dispatched. */
  ghost predicate Reading(s: Sched, carrier: Rq, y: Id, ry: Rq) {
    && s.read == Pair(1, carrier, y, ry, Some(y)) && (y == 3 || y == 4) && carrier.sector <= ry.sector && 0 !in ry.parts
    && Linked(s.write) && s.write.next == None && Clean(s)
  }

  lemma ReadComes(c: Config, s: Sched, carrier: Rq, y: Id, ry: Rq, now: nat, z: Id, rz: Rq)
    requires Reading(s, carrier, y, ry) && z == Other(y, 3, 4) && rz == Next(ry, z, now + c.readExpire)
    ensures Apply(c, s, Add(Read, z, rz.sector, 4), now) == s.(read := Three(1, carrier, y, ry, z, rz))
  {
    PairAdd(1, carrier, y, ry, z, rz);
    assert Linked(s.read);
  }

  lemma ReadGoes(c: Config, s: Sched, carrier: Rq, y: Id, ry: Rq, now: nat, z: Id, rz: Rq)
    requires Reading(s, carrier, y, ry) && s.batching < c.fifoBatch && z != 1 && z != y
    ensures Apply(c, s.(read := Three(1, carrier, y, ry, z, rz)), Go, now) ==
            s.(read := Pair(1, carrier, z, rz, Some(z)), batching := s.batching + 1, dispatched := s.dispatched + [ry])
  {
    var s1 := s.(read := Three(1, carrier, y, ry, z, rz));
    assert Linked(s1.read);
    SameBatch(c, s1, now, Read, y);
    ThreeTaken(1, carrier, y, ry, z, rz);
  }

  lemma ReadTurn(c: Config, s: Sched, carrier: Rq, y: Id, ry: Rq, now: nat) returns (s': Sched, z: Id, rz: Rq, a: Op)
    requires Reading(s, carrier, y, ry) && s.batching < c.fifoBatch
    ensures Reading(s', carrier, z, rz) && s'.batching == s.batching + 1 && s' == Two(c, s, now, a, Go) && Cost(a) == 0
  {
    z := Other(y, 3, 4);
    rz := Next(ry, z, now + c.readExpire);
    a := Add(Read, z, rz.sector, 4);
    ReadComes(c, s, carrier, y, ry, now, z, rz);
    ReadGoes(c, s, carrier, y, ry, now, z, rz);
    s' := s.(read := Pair(1, carrier, z, rz, Some(z)), batching := s.batching + 1, dispatched := s.dispatched + [ry]);
  }

  lemma {:induction false} ReadsGo(c: Config, s: Sched, carrier: Rq, y: Id, ry: Rq, now: nat, n: nat) returns (ops: seq<(nat, Op)>)
    requires Reading(s, carrier, y, ry) && (n > 0 ==> s.batching + n <= c.fifoBatch)
    ensures Calls(ops) == n && !Out(Run(c, s, now, ops), 0)
    decreases n
  {
    if n == 0 {
      ops := [];
      NotOut(s, 0);
    } else {
      var s', z, rz, a := ReadTurn(c, s, carrier, y, ry, now);
      var rest := ReadsGo(c, s', carrier, z, rz, now, n - 1);
      ops := RunTwo(c, s, now, a, Go, s', rest);
    }
  }

  /** The batch of reads starts with read 2. */
  lemma MergedAdd(c: Config, p: Spots, ry: Rq)
    requires p.Valid() && p.far <= ry.sector
    ensures Linked(p.Merged(c)) && AddRequest(p.Merged(c), 3, ry) == Lane([2, 1] + [3], [1, 2] + [3], None, p.Merged(c).rqs[3 := ry])
  {
    var rqs := p.Merged(c).rqs[3 := ry];
    assert [1, 2][1..] == [2] && [2][1..] == [];
    assert InsertSorted([], rqs, 3) == [3];
    assert InsertSorted([2], rqs, 3) == [2] + [3];
    assert [1] + ([2] + [3]) == [1, 2] + [3];
  }

  lemma MergedTaken(c: Config, p: Spots, ry: Rq)
    ensures After(Lane([2, 1] + [3], [1, 2] + [3], None, p.Merged(c).rqs[3 := ry]), 2) == Pair(1, p.Carrier(c), 3, ry, Some(3))
  {
    var f, s := [2, 1] + [3], [1, 2] + [3];
    assert f[1..] == [1] + [3] && NoDup([1] + [3]) && NoDup(f);
    RemoveHead(f);
    assert s == [1] + [2] + [3];
    MiddleTaken(1, 2, 3);
    assert p.Merged(c).rqs[3 := ry] - {2} == map[1 := p.Carrier(c)][3 := ry];
  }

  /* ---- a batch of writes before it ---- */

  /** Reads 2 and 1 wait, the second carrying 0, and one write. */
  ghost predicate Writing(s: Sched, l: Lane, w: Id, rq: Rq) {
    s.read == l && s.write == One(w, rq, s.write.next) && 0 !in rq.parts && Clean(s) && (w == 5 || w == 6)
  }

  /** The batch of writes is over, and reads are next. */
  lemma FirstReadGoes(c: Config, s: Sched, p: Spots, w: Id, rq: Rq, now: nat, ry: Rq)
    requires p.Valid() && Writing(s, p.Merged(c), w, rq) && s.write.next == Some(w) && s.batching >= c.fifoBatch
    requires s.starved < c.writesStarved && c.readExpire <= now && p.far <= ry.sector
    ensures var l := Lane([2, 1] + [3], [1, 2] + [3], None, p.Merged(c).rqs[3 := ry]);
            Apply(c, s.(read := l), Go, now) ==
            Sched(Pair(1, p.Carrier(c), 3, ry, Some(3)), One(w, rq, None), 1, s.starved + 1, s.dispatched + [p.B(c)])
  {
    var s1 := s.(read := Lane([2, 1] + [3], [1, 2] + [3], None, p.Merged(c).rqs[3 := ry]));
    assert Linked(s1.read) && Linked(s1.write);
    assert Select(c, s1) == (Some(Read), s.starved + 1);
    NewBatch(c, s1, now, Read, s.starved + 1);
    MergedTaken(c, p, ry);
  }

  lemma FirstReadComes(c: Config, s: Sched, p: Spots, now: nat, ry: Rq)
    requires p.Valid() && s.read == p.Merged(c) && Linked(s.write) && ry == Next(p.B(c), 3, now + c.readExpire)
    ensures Apply(c, s, Add(Read, 3, ry.sector, 4), now) == s.(read := Lane([2, 1] + [3], [1, 2] + [3], None, p.Merged(c).rqs[3 := ry]))
  {
    MergedAdd(c, p, ry);
  }

  lemma ReadsStart(c: Config, s: Sched, p: Spots, w: Id, rq: Rq, now: nat) returns (s': Sched, ry: Rq, a: Op)
    requires p.Valid() && Writing(s, p.Merged(c), w, rq) && s.write.next == Some(w) && s.batching >= c.fifoBatch
    requires s.starved < c.writesStarved && c.readExpire <= now
    ensures Reading(s', p.Carrier(c), 3, ry) && s'.batching == 1 && s' == Two(c, s, now, a, Go) && Cost(a) == 0
  {
    ry := Next(p.B(c), 3, now + c.readExpire);
    a := Add(Read, 3, ry.sector, 4);
    FirstReadComes(c, s, p, now, ry);
    FirstReadGoes(c, s, p, w, rq, now, ry);
    s' := Sched(Pair(1, p.Carrier(c), 3, ry, Some(3)), One(w, rq, None), 1, s.starved + 1, s.dispatched + [p.B(c)]);
  }

  lemma WriteComes(c: Config, s: Sched, l: Lane, w: Id, rq: Rq, now: nat, v: Id, rv: Rq)
    requires Writing(s, l, w, rq) && Linked(l) && (s.write.next == None || s.write.next == Some(w))
    requires v == Other(w, 5, 6) && rv == Next(rq, v, now + c.writeExpire)
    ensures Apply(c, s, Add(Write, v, rv.sector, 4), now) == s.(write := Pair(w, rq, v, rv, s.write.next))
  {
    assert Linked(s.write);
    OneAdd(w, rq, s.write.next, v, rv);
  }

  /** What the next call does: the batch goes on, or starts because reads have gone first often enough. */
  ghost predicate WritesNext(c: Config, s: Sched, w: Id) {
    && s.read.next == None && s.read.fifo != []
    && if s.write.next == None then s.starved >= c.writesStarved else s.write.next == Some(w) && s.batching < c.fifoBatch
  }

  ghost function Written(s: Sched, rq: Rq, v: Id, rv: Rq): Sched {
    s.(write := One(v, rv, Some(v)), batching := if s.write.next == None then 1 else s.batching + 1,
       starved := if s.write.next == None then 0 else s.starved, dispatched := s.dispatched + [rq])
  }

  lemma WriteGoes(c: Config, s: Sched, l: Lane, w: Id, rq: Rq, now: nat, v: Id, rv: Rq)
    requires Writing(s, l, w, rq) && Linked(l) && WritesNext(c, s, w) && v != w
    ensures Apply(c, s.(write := Pair(w, rq, v, rv, s.write.next)), Go, now) == Written(s, rq, v, rv)
  {
    var s1 := s.(write := Pair(w, rq, v, rv, s.write.next));
    assert Linked(s1.write);
    PairTaken(w, rq, v, rv, s.write.next);
    if s.write.next == None {
      assert Select(c, s1) == (Some(Write), 0);
      NewBatch(c, s1, now, Write, 0);
    } else {
      SameBatch(c, s1, now, Write, w);
    }
  }

  lemma WriteTurn(c: Config, s: Sched, l: Lane, w: Id, rq: Rq, now: nat) returns (s': Sched, v: Id, rv: Rq, a: Op)
    requires Writing(s, l, w, rq) && Linked(l) && WritesNext(c, s, w)
    ensures Writing(s', l, v, rv) && s'.write.next == Some(v) && s' == Two(c, s, now, a, Go) && Cost(a) == 0
    ensures s'.batching == (if s.write.next == None then 1 else s.batching + 1)
    ensures s'.starved == if s.write.next == None then 0 else s.starved
  {
    v := Other(w, 5, 6);
    rv := Next(rq, v, now + c.writeExpire);
    a := Add(Write, v, rv.sector, 4);
    WriteComes(c, s, l, w, rq, now, v, rv);
    WriteGoes(c, s, l, w, rq, now, v, rv);
    s' := Written(s, rq, v, rv);
  }

  /** n more writes, and a batch of reads. */
  lemma {:induction false} WritesGo(c: Config, s: Sched, p: Spots, w: Id, rq: Rq, now: nat, n: nat) returns (ops: seq<(nat, Op)>)
    requires p.Valid() && Writing(s, p.Merged(c), w, rq) && s.write.next == Some(w) && 1 <= s.batching && s.batching + n == c.Batch()
    requires s.starved == 0 < c.writesStarved && c.readExpire <= now
    ensures Calls(ops) == n + c.Batch() && !Out(Run(c, s, now, ops), 0)
    decreases n
  {
    if n == 0 {
      var s', ry, a := ReadsStart(c, s, p, w, rq, now);
      var rest := ReadsGo(c, s', p.Carrier(c), 3, ry, now, c.Batch() - 1);
      ops := RunTwo(c, s, now, a, Go, s', rest);
    } else {
      var s', v, rv, a := WriteTurn(c, s, p.Merged(c), w, rq, now);
      var rest := WritesGo(c, s', p, v, rv, now, n - 1);
      ops := RunTwo(c, s, now, a, Go, s', rest);
    }
  }

  lemma BatchesGo(c: Config, s: Sched, p: Spots, now: nat) returns (ops: seq<(nat, Op)>)
    requires p.Valid() && Waiting(c, s, p.Merged(c)) && c.writesStarved >= 1 && c.readExpire <= now
    ensures Calls(ops) == 2 * c.Batch() && !Out(Run(c, s, now, ops), 0)
  {
    var s', v, rv, a := WriteTurn(c, s, p.Merged(c), 5, s.write.rqs[5], now);
    var rest := WritesGo(c, s', p, v, rv, now, c.Batch() - 1);
    ops := RunTwo(c, s, now, a, Go, s', rest);
  }

  /* ---- the result ---- */

  lemma TiesAre(c: Config, p: Spots)
    requires p.Valid()
    ensures Linked(p.Tied(c)) && p.Tied(c).fifo[0] == 0 && |TiesBehind(p.Tied(c), 0)| == 2
  {
    var l := p.Tied(c);
    assert l.fifo == [0, 2, 1];
    assert AheadOf(l.fifo, 0) == {};
    assert TiesBehind(l, 0) == {1, 2};
  }

  /** The state of s at time now: read 0 is first in its FIFO, has expired, and two requests behind it have its deadline. */
  ghost predicate FirstAndTied(c: Config, s: Sched, now: nat) {
    && Good(c, s, now) && s.read.fifo != [] && s.read.fifo[0] == 0 && |TiesBehind(s.read, 0)| == 2
    && Holds(s, Read, 0, 0) && Urgent(c, s, Read, 0, now)
  }

  lemma GoodLater(c: Config, ops: seq<(nat, Op)>, now: nat)
    requires AtOnce(ops)
    ensures Good(c, Run(c, Init, 0, ops), now)
  {
    RunsGood(c, Init, 0, ops);
    NoTime(0, ops);
    Later(c, Run(c, Init, 0, ops), 0, now);
  }

  lemma TiedIsFirst(c: Config, s: Sched, p: Spots)
    requires p.Valid() && Good(c, s, c.readExpire + 1) && s.read == p.Tied(c)
    ensures FirstAndTied(c, s, c.readExpire + 1)
  {
    TiesAre(c, p);
  }

  lemma TiedAndLate(c: Config, p: Spots) returns (ops: seq<(nat, Op)>)
    requires p.Valid()
    ensures var s := Run(c, Init, 0, ops); Waiting(c, s, p.Tied(c)) && FirstAndTied(c, s, c.readExpire + 1)
  {
    ops := TieReached(c, p);
    GoodLater(c, ops, c.readExpire + 1);
    TiedIsFirst(c, Run(c, Init, 0, ops), p);
  }

  /** At every batch size and every writes_starved from 1 on, and wherever the three reads are: some run makes a read the
      first of its FIFO, expired, with two requests of the same deadline behind it, and goes on so that the dispatch calls
      its place promises leave it waiting. */
  lemma PlaceIsNoBound(c: Config, p: Spots) returns (before: seq<(nat, Op)>, after: seq<(nat, Op)>)
    requires c.writesStarved >= 1 && p.Valid()
    ensures var s, now := Run(c, Init, 0, before), c.readExpire + 1;
            FirstAndTied(c, s, now) && Calls(after) == Bound(c, Read, 0) && !Out(Run(c, s, now, after), 0)
  {
    before := TiedAndLate(c, p);
    var s, now := Run(c, Init, 0, before), c.readExpire + 1;
    Moved(c, s, p, now);
    var rest := BatchesGo(c, Apply(c, s, Merge(Read, 1, 0), now), p, now);
    after := [(0, Merge(Read, 1, 0))] + rest;
    RunOne(c, s, now, Merge(Read, 1, 0), rest);
  }
}
