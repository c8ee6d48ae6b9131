/**
 What the virtual time of CFQ groups is for: the disk time that two groups are charged, each divided by its share, stays
 close for as long as both are on the service tree. Stated without the scaling function: in real numbers, and with the
 fraction each group had when it was charged.
 */
module CfqFair {
  import opened Lists
  import opened CfqWeights
  import opened CfqShares
  import opened CfqTree
  import opened CfqRuns

  /** Virtual time is charged in units of the whole disk: 2^24 for a jiffy at fraction 1, more for smaller fractions. */
  ghost function Work(charge: nat, vfr: nat): real
    requires vfr > 0
  {
    (charge * 0x100_0000) as real / vfr as real
  }

  lemma DivAtLeast(a: real, b: real, q: real)
    requires b > 0.0 && q * b <= a
    ensures q <= a / b
  {
    assert a / b * b == a;
  }

  lemma DivBelow(a: real, b: real, q: real)
    requires b > 0.0 && a < q * b
    ensures a / b < q
  {
    assert a / b * b == a;
  }

  lemma Cast(q: nat, f: nat)
    ensures (q * f) as real == q as real * f as real
  {
  }

  lemma Quotient(n: nat, f: nat, q: nat)
    requires f > 0 && q * f <= n < (q + 1) * f
    ensures q as real <= n as real / f as real < q as real + 1.0
  {
    Cast(q, f);
    Cast(q + 1, f);
    assert (q + 1) as real == q as real + 1.0;
    DivAtLeast(n as real, f as real, q as real);
    DivBelow(n as real, f as real, q as real + 1.0);
  }

  lemma ScaledIs(charge: nat, vfr: nat, c: nat)
    requires vfr > 0 && c == ScaleCharge(charge, vfr)
    ensures c * vfr <= charge * 0x100_0000 < (c + 1) * vfr
  {
    assert charge * ONE * ONE == charge * 0x100_0000;
    var n := charge * 0x100_0000;
    assert n == n / vfr * vfr + n % vfr;
  }

  /** A group of fraction vfr that is served for `charge` moves right by the c with c * vfr <= charge * 2^24 < (c + 1) * vfr,
      and no other group moves. */
  lemma MovesByShare(p: seq<int>, s: Cfq, g: nat, charge: nat)
    requires Ok(p, s) && g < |s.gs| && s.gs[g].on
    ensures var f := s.gs[g].vfraction;
            && f >= 1 && Ok(p, Served(p, s, g, charge))
            && var r := Served(p, s, g, charge);
               && Vd(s.gs, g) <= Vd(r.gs, g)
               && (Vd(r.gs, g) - Vd(s.gs, g)) * f <= charge * 0x100_0000 < (Vd(r.gs, g) - Vd(s.gs, g) + 1) * f
               && Moved(s, r, g, Vd(r.gs, g))
  {
    ServedOk(p, s, g, charge);
    ScaledIs(charge, s.gs[g].vfraction, ScaleCharge(charge, s.gs[g].vfraction));
  }

  /* ---- where a group starts ---- */

  lemma {:induction false} LastIsGreatest(t: seq<nat>, gs: seq<Group>, i: nat)
    requires Ordered(t, gs) && i in t
    ensures Vd(gs, i) <= Vd(gs, t[|t| - 1])
  {
    if |t| > 1 {
      if i == t[0] {
        assert t[|t| - 1] in t[1..];
      } else {
        LastIsGreatest(t[1..], gs, i);
      }
    }
  }

  lemma AddedAt(p: seq<int>, s: Cfq, g: nat)
    requires Good(p, s.gs) && TreeOk(s) && g < |s.gs| && !s.gs[g].on && s.gs[g].vdisktime >= s.minVd
    ensures Vd(ServiceAdd(p, s, g).gs, g) == Vd(s.gs, g)
  {
    ServiceAddOk(p, s, g);
  }

  lemma ArrivesAt(p: seq<int>, s: Cfq, g: nat, hz: nat)
    requires Ok(p, s) && g < |s.gs| && !s.gs[g].on
    ensures Vd(QueueAdd(p, s, g, hz).gs, g) == NewVd(s, hz)
  {
    NewVdOk(s, hz);
    QueuesOk(p, s, g, s.gs[g].nrCfqq + 1, NewVd(s, hz));
    AddedAt(p, WithQueues(s, g, s.gs[g].nrCfqq + 1, NewVd(s, hz)), g);
  }

  /** The tree lies `gap` before vd, the last group exactly. */
  ghost predicate Behind(s: Cfq, vd: nat, gap: nat) {
    (forall i :: i in s.tree ==> Vd(s.gs, i) + gap <= vd) && (exists i :: i in s.tree && Vd(s.gs, i) + gap == vd)
  }

  lemma NewIsBehind(s: Cfq, hz: nat)
    requires TreeOk(s) && s.tree != []
    ensures Behind(s, NewVd(s, hz), hz / 5)
  {
    forall i | i in s.tree ensures Vd(s.gs, i) <= Vd(s.gs, s.tree[|s.tree| - 1]) {
      LastIsGreatest(s.tree, s.gs, i);
    }
    assert s.tree[|s.tree| - 1] in s.tree;
  }

  /** A group that comes onto the tree starts a fifth of a second of virtual time behind the last one there, and at
      min_vdisktime if there is none: a new group never overtakes one that is waiting. */
  lemma StartsBehind(p: seq<int>, s: Cfq, g: nat, hz: nat)
    requires Ok(p, s) && g < |s.gs| && !s.gs[g].on
    ensures var vd := Vd(QueueAdd(p, s, g, hz).gs, g);
            if s.tree == [] then vd == s.minVd else Behind(s, vd, hz / 5)
  {
    ArrivesAt(p, s, g, hz);
    if s.tree != [] {
      NewIsBehind(s, hz);
    }
  }

  /** A group goes behind every group whose virtual time is not later than its own, so that groups with equal times take
      turns, and in front of the others. */
  lemma {:induction false} BehindEquals(t: seq<nat>, gs: seq<Group>, g: nat) returns (k: nat)
    requires Ordered(t, gs)
    ensures k <= |t| && InsertByVd(t, gs, g) == t[..k] + [g] + t[k..]
    ensures forall i :: i in t[..k] ==> Vd(gs, i) <= Vd(gs, g)
    ensures forall i :: i in t[k..] ==> Vd(gs, g) < Vd(gs, i)
  {
    if t == [] || Vd(gs, g) < Vd(gs, t[0]) {
      k := 0;
      assert t[..0] + [g] + t[0..] == [g] + t;
    } else {
      var n := BehindEquals(t[1..], gs, g);
      k := n + 1;
      assert t[..k] == [t[0]] + t[1..][..n];
      assert t[k..] == t[1..][n..];
      assert [t[0]] + (t[1..][..n] + [g] + t[1..][n..]) == t[..k] + [g] + t[k..];
    }
  }

  /* ---- along a run ---- */

  /** The step serves group x. */
  ghost predicate Serves(p: seq<int>, s: Cfq, op: Op, x: nat) { Enabled(p, s, op) && op.ServeNext? && s.tree[0] == x }

  /** What group x is charged in a run, each charge divided by the fraction the group has then. */
  ghost function WorkOf(p: seq<int>, hz: nat, s: Cfq, ops: seq<Op>, x: nat): real
    decreases |ops|
  {
    if ops == [] then 0.0
    else
      (if Serves(p, s, ops[0], x) then Work(ops[0].charge, s.gs[x].vfraction) else 0.0) +
      WorkOf(p, hz, Apply(p, hz, s, ops[0]), ops[1..], x)
  }

  /** How often it is served. */
  ghost function Services(p: seq<int>, hz: nat, s: Cfq, ops: seq<Op>, x: nat): nat
    decreases |ops|
  {
    if ops == [] then 0
    else (if Serves(p, s, ops[0], x) then 1 else 0) + Services(p, hz, Apply(p, hz, s, ops[0]), ops[1..], x)
  }

  /** A step that does not serve x leaves it where it is. */
  lemma OtherStep(p: seq<int>, hz: nat, s: Cfq, op: Op, x: nat)
    requires Ok(p, s) && x in s.tree && !Serves(p, s, op, x)
    ensures Vd(Apply(p, hz, s, op).gs, x) == Vd(s.gs, x)
  {
    if op.ServeNext? {
      if Enabled(p, s, op) {
        ServeNextOk(p, s, op.charge);
      }
    } else {
      QuietVd(p, hz, s, op, x);
    }
  }

  /** One that does moves it by the work, rounded down. */
  lemma OwnStep(p: seq<int>, hz: nat, s: Cfq, op: Op, x: nat)
    requires Ok(p, s) && x in s.tree && Serves(p, s, op, x)
    ensures s.gs[x].vfraction > 0
    ensures var r := Apply(p, hz, s, op);
            && Vd(s.gs, x) <= Vd(r.gs, x)
            && (Vd(r.gs, x) - Vd(s.gs, x)) as real <= Work(op.charge, s.gs[x].vfraction) < (Vd(r.gs, x) - Vd(s.gs, x)) as real + 1.0
  {
    ServeNextOk(p, s, op.charge);
    GetNextOk(p, s);
    MovesByShare(p, GetNext(s), x, op.charge);
    var r := Apply(p, hz, s, op);
    Quotient(op.charge * 0x100_0000, s.gs[x].vfraction, Vd(r.gs, x) - Vd(s.gs, x));
  }

  /** Group x is on the tree before and after every step. */
  ghost predicate Stays(p: seq<int>, hz: nat, s: Cfq, ops: seq<Op>, x: nat)
    decreases |ops|
  {
    x in s.tree && (ops != [] ==> Stays(p, hz, Apply(p, hz, s, ops[0]), ops[1..], x))
  }

  /** The virtual time of a group that stays on the tree is its work, less at most one unit for each service. */
  lemma {:induction false} VirtualTimeIsWork(p: seq<int>, hz: nat, s: Cfq, ops: seq<Op>, x: nat)
    requires Ok(p, s) && Stays(p, hz, s, ops, x)
    ensures var moved, work := Vd(Run(p, hz, s, ops).gs, x) - Vd(s.gs, x), WorkOf(p, hz, s, ops, x);
            moved as real <= work <= moved as real + Services(p, hz, s, ops, x) as real
    decreases |ops|
  {
    if ops != [] {
      var s1 := Apply(p, hz, s, ops[0]);
      ApplyOk(p, hz, s, ops[0]);
      VirtualTimeIsWork(p, hz, s1, ops[1..], x);
      if Serves(p, s, ops[0], x) {
        OwnStep(p, hz, s, ops[0], x);
      } else {
        OtherStep(p, hz, s, ops[0], x);
      }
    }
  }

  ghost function Abs(x: real): real { if x < 0.0 then -x else x }

  lemma Triangle(vx: nat, vy: nat, ux: nat, uy: nat, wx: real, wy: real, nx: nat, ny: nat)
    requires (ux - vx) as real <= wx <= (ux - vx) as real + nx as real && (uy - vy) as real <= wy <= (uy - vy) as real + ny as real
    ensures Abs(wx - wy) <= (Distance(vx, vy) + Distance(ux, uy) + nx + ny) as real
  {
  }

  lemma {:induction false} SteadyStays(p: seq<int>, hz: nat, s: Cfq, ops: seq<Op>, x: nat, y: nat, most: nat)
    requires Steady(p, hz, s, ops, x, y, most)
    ensures Stays(p, hz, s, ops, x) && Stays(p, hz, s, ops, y)
    decreases |ops|
  {
    if ops != [] {
      SteadyStays(p, hz, Apply(p, hz, s, ops[0]), ops[1..], x, y, most);
    }
  }

  /** Fairness: while x and y stay on the tree, what they are charged, each charge divided by the fraction at that time,
      differs by at most their distance at the start, their distance at the end, and one unit for each service of either.
      The distance at the end is at most that at the start or the largest scaled charge (LagBound). */
  lemma Fairness(p: seq<int>, hz: nat, s: Cfq, ops: seq<Op>, x: nat, y: nat, most: nat)
    requires Ok(p, s) && Steady(p, hz, s, ops, x, y, most)
    ensures var r := Run(p, hz, s, ops);
            && Abs(WorkOf(p, hz, s, ops, x) - WorkOf(p, hz, s, ops, y)) <=
               (Lag(s, x, y) + Lag(r, x, y) + Services(p, hz, s, ops, x) + Services(p, hz, s, ops, y)) as real
            && Lag(r, x, y) <= Max(Lag(s, x, y), most)
  {
    SteadyStays(p, hz, s, ops, x, y, most);
    VirtualTimeIsWork(p, hz, s, ops, x);
    VirtualTimeIsWork(p, hz, s, ops, y);
    LagBound(p, hz, s, ops, x, y, most);
    var r := Run(p, hz, s, ops);
    Triangle(Vd(s.gs, x), Vd(s.gs, y), Vd(r.gs, x), Vd(r.gs, y), WorkOf(p, hz, s, ops, x), WorkOf(p, hz, s, ops, y),
             Services(p, hz, s, ops, x), Services(p, hz, s, ops, y));
  }

  /* ---- fixed fractions ---- */

  /** The time group x is charged. */
  ghost function Charged(p: seq<int>, hz: nat, s: Cfq, ops: seq<Op>, x: nat): nat
    decreases |ops|
  {
    if ops == [] then 0
    else (if Serves(p, s, ops[0], x) then ops[0].charge else 0) + Charged(p, hz, Apply(p, hz, s, ops[0]), ops[1..], x)
  }

  /** Whenever x is served its fraction is f. */
  ghost predicate AtFraction(p: seq<int>, hz: nat, s: Cfq, ops: seq<Op>, x: nat, f: nat)
    decreases |ops|
  {
    ops != [] ==> (Serves(p, s, ops[0], x) ==> x < |s.gs| && s.gs[x].vfraction == f) && AtFraction(p, hz, Apply(p, hz, s, ops[0]), ops[1..], x, f)
  }

  lemma WorkAdds(a: nat, b: nat, f: nat)
    requires f > 0
    ensures Work(a, f) + Work(b, f) == Work(a + b, f)
  {
    var x, y, z := a * 0x100_0000, b * 0x100_0000, f as real;
    assert (x + y) as real == x as real + y as real;
    assert x as real / z + y as real / z == (x as real + y as real) / z;
  }

  lemma {:induction false} WorkAtFraction(p: seq<int>, hz: nat, s: Cfq, ops: seq<Op>, x: nat, f: nat)
    requires f > 0 && AtFraction(p, hz, s, ops, x, f)
    ensures WorkOf(p, hz, s, ops, x) == Work(Charged(p, hz, s, ops, x), f)
    decreases |ops|
  {
    if ops != [] {
      var s1 := Apply(p, hz, s, ops[0]);
      WorkAtFraction(p, hz, s1, ops[1..], x, f);
      if Serves(p, s, ops[0], x) {
        WorkAdds(ops[0].charge, Charged(p, hz, s1, ops[1..], x), f);
      }
    }
  }

  /** With fixed fractions the disk time of each, divided by its fraction, is what differs so little. */
  lemma FairShares(p: seq<int>, hz: nat, s: Cfq, ops: seq<Op>, x: nat, y: nat, most: nat, fx: nat, fy: nat)
    requires Ok(p, s) && Steady(p, hz, s, ops, x, y, most) && fx > 0 && fy > 0
    requires AtFraction(p, hz, s, ops, x, fx) && AtFraction(p, hz, s, ops, y, fy)
    ensures var tx, ty := Charged(p, hz, s, ops, x), Charged(p, hz, s, ops, y);
            Abs((tx * 0x100_0000) as real / fx as real - (ty * 0x100_0000) as real / fy as real) <=
            (Lag(s, x, y) + Max(Lag(s, x, y), most) + Services(p, hz, s, ops, x) + Services(p, hz, s, ops, y)) as real
  {
    Fairness(p, hz, s, ops, x, y, most);
    WorkAtFraction(p, hz, s, ops, x, fx);
    WorkAtFraction(p, hz, s, ops, y, fy);
  }
}
