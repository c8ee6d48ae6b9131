/**
 What the service tree of block/cfq-iosched.c keeps of weights: the fraction a group is given when it comes onto the tree is
 its exact share, less at most one unit in 4096 for each level; weights that are asked for take effect when a group becomes
 active and are never lost; and min_vdisktime catches up with the leftmost group.
 */
module CfqFraction {
  import opened Lists
  import opened CfqWeights
  import opened CfqShares
  import opened CfqTree

  /* ---- the fixed-point walk from below ---- */

  /** The groups above i. */
  function Levels(p: seq<int>, i: nat): nat
    requires Rooted(p) && i < |p|
    decreases i
  {
    if p[i] < 0 then 0 else Levels(p, p[i]) + 1
  }

  lemma DivDrops(a: nat, b: int)
    requires b > 0
    ensures a as real / b as real < Div(a, b) as real + 1.0
  {
    var q := a / b;
    assert a < (q + 1) * b;
    assert ((q + 1) * b) as real == (q + 1) as real * b as real;
    Below(a as real, b as real, (q + 1) as real);
  }

  lemma Below(a: real, b: real, q: real)
    requires b > 0.0 && a < q * b
    ensures a / b < q
  {
    var d := a / b;
    assert d * b == a;
    if q <= d {
      ScaleLe(q, d, b);
    }
  }

  lemma LevelReal(x: real, a: real, whole: real, exact: real)
    requires a < x + 1.0 && 0.0 <= whole <= 1.0 && a * whole == exact
    ensures exact - 1.0 <= whole * x
  {
    var rest := x + 1.0 - a;
    ScaleLe(0.0, rest, whole);
    assert 0.0 * whole == 0.0;
    assert 0.0 <= rest * whole;
    assert rest * whole == whole * x + whole - a * whole;
  }

  /** One level of the walk drops less than a unit. */
  lemma LevelAbove(vfr: nat, w: nat, cw: int, whole: real, rate: real)
    requires cw > 0 && 0.0 <= whole <= 1.0 && rate == whole / cw as real
    ensures Scaled(Scaled(rate, w), vfr) - 1.0 <= Scaled(whole, Div(vfr * w, cw))
  {
    var n := Div(vfr * w, cw);
    DivDrops(vfr * w, cw);
    Regroup(vfr, w, cw, whole);
    LevelReal(n as real, (vfr * w) as real / cw as real, whole, vfr as real * (rate * w as real));
    ScaledIsMul(whole, n);
    ScaledIsMul(rate, w);
    ScaledIsMul(Scaled(rate, w), vfr);
  }

  lemma PartOfWhole(whole: real, w: nat, cw: int, rate: real)
    requires 0.0 <= whole <= 1.0 && 0 < w <= cw && rate == whole / cw as real
    ensures Scaled(rate, w) <= 1.0
  {
    ScaledIsMul(rate, w);
    assert rate * cw as real == whole;
    assert rate >= 0.0;
    ScaleLe(w as real, cw as real, rate);
  }

  /** No active group has more than all of the disk. */
  lemma {:induction false} WholeAtMostOne(p: seq<int>, gs: seq<Group>, i: nat)
    requires Good(p, gs) && i < |gs| && gs[i].nrActive > 0
    ensures 0.0 <= Whole(p, gs, i) <= 1.0
    decreases i
  {
    RateNotNegative(p, gs, i);
    if i > 0 {
      CountedParent(p, gs, Active(gs), i);
      WholeAtMostOne(p, gs, p[i]);
      PartOfWhole(Whole(p, gs, p[i]), gs[i].weight, gs[p[i]].childrenWeight, Rate(p, gs, p[i]));
    }
  }

  lemma {:induction false} WalkAbove(p: seq<int>, gs: seq<Group>, vfr: nat, i: nat)
    requires Good(p, gs) && i < |gs| && gs[i].nrActive > 0
    ensures Scaled(Whole(p, gs, i), vfr) - Levels(p, i) as real <= Walk(p, gs, vfr, i) as real
    decreases i
  {
    if i == 0 {
      ScaledIsMul(1.0, vfr);
    } else {
      var par := p[i];
      CountedParent(p, gs, Active(gs), i);
      WholeAtMostOne(p, gs, par);
      WalkAbove(p, gs, Div(vfr * gs[i].weight, gs[par].childrenWeight), par);
      LevelAbove(vfr, gs[i].weight, gs[par].childrenWeight, Whole(p, gs, par), Rate(p, gs, par));
    }
  }

  /** The fixed-point fraction of a group on the tree is at least its exact share less one unit for each level. */
  lemma FixedAboveShare(p: seq<int>, gs: seq<Group>, g: nat)
    requires Good(p, gs) && g < |gs| && gs[g].on
    ensures ONE as real * Share(p, gs, g) - (Levels(p, g) + 1) as real <= Fixed(p, gs, g) as real
  {
    OnIsActive(p, gs, g);
    HasWeight(p, gs, g);
    WholeAtMostOne(p, gs, g);
    WalkAbove(p, gs, Div(ONE * gs[g].leafWeight, gs[g].childrenWeight), g);
    LevelAbove(ONE, gs[g].leafWeight, gs[g].childrenWeight, Whole(p, gs, g), Rate(p, gs, g));
    ScaledIsMul(Share(p, gs, g), ONE);
  }

  /* ---- the fraction a group is given ---- */

  lemma {:induction false} WalkSame(p: seq<int>, a: seq<Group>, b: seq<Group>, vfr: nat, i: nat)
    requires Rooted(p) && |p| == |a| == |b| && i < |a|
    requires forall k :: 0 <= k < |a| ==> a[k].weight == b[k].weight && a[k].childrenWeight == b[k].childrenWeight
    ensures Walk(p, a, vfr, i) == Walk(p, b, vfr, i)
    decreases i
  {
    if p[i] >= 0 {
      WalkSame(p, a, b, Div(vfr * a[i].weight, a[p[i]].childrenWeight), p[i]);
    }
  }

  lemma FractionFixed(p: seq<int>, s: Cfq, g: nat)
    requires Fits(p, s) && Rooted(p) && g < |s.gs|
    ensures var r := ServiceAdd(p, s, g);
            r.gs[g].vfraction == if Fixed(p, r.gs, g) < 1 then 1 else Fixed(p, r.gs, g)
  {
    var gs, r := Activate(p, s.gs, g), ServiceAdd(p, s, g);
    WalkSame(p, gs, r.gs, Div(ONE * gs[g].leafWeight, gs[g].childrenWeight), g);
  }

  /** A group that comes onto the tree is given, in units of 1 / 4096, its exact share among the groups then on the tree, less
      at most one unit for each level, and at least one unit. */
  lemma GivenItsShare(p: seq<int>, s: Cfq, g: nat)
    requires Good(p, s.gs) && TreeOk(s) && g < |s.gs| && !s.gs[g].on && s.gs[g].vdisktime >= s.minVd
    ensures var r := ServiceAdd(p, s, g);
            var f, exact := r.gs[g].vfraction as real, ONE as real * Share(p, r.gs, g);
            exact - (Levels(p, g) + 1) as real <= f && (f <= exact || f == 1.0)
  {
    ServiceAddOk(p, s, g);
    FractionFixed(p, s, g);
    var r := ServiceAdd(p, s, g);
    FixedAboveShare(p, r.gs, g);
    FixedBelowShare(p, r.gs, g);
  }

  /* ---- weights that are asked for ---- */

  /** The weights a group has or has been asked to take. */
  function Wanted(g: Group): nat { if g.newWeight != 0 then g.newWeight else g.weight }

  function WantedLeaf(g: Group): nat { if g.newLeafWeight != 0 then g.newLeafWeight else g.leafWeight }

  /** From a to b no wish is lost, and every group that has become active, the root apart, has the weight it was asked to
      take. */
  ghost predicate WishesKept(p: seq<int>, a: seq<Group>, b: seq<Group>) {
    |p| == |a| == |b| && forall i :: 0 <= i < |a| ==>
      && Wanted(b[i]) == Wanted(a[i]) && WantedLeaf(b[i]) == WantedLeaf(a[i])
      && (a[i].nrActive <= 0 < b[i].nrActive && p[i] >= 0 ==> b[i].weight == Wanted(a[i]) && b[i].newWeight == 0)
  }

  lemma {:induction false} PropagateWishes(p: seq<int>, gs: seq<Group>, before: seq<Group>, pos: nat)
    requires Rooted(p) && |p| == |gs| == |before| && pos < |gs|
    requires forall i :: 0 <= i < |gs| ==> Wanted(gs[i]) == Wanted(before[i]) && WantedLeaf(gs[i]) == WantedLeaf(before[i])
    requires forall i :: 0 <= i < |gs| && i != pos && before[i].nrActive <= 0 < gs[i].nrActive && p[i] >= 0 ==>
               gs[i].weight == Wanted(before[i]) && gs[i].newWeight == 0
    ensures WishesKept(p, before, Propagate(p, gs, pos))
    decreases pos
  {
    if p[pos] >= 0 {
      var par, k := p[pos], UpdateWeight(gs[pos]);
      var gs1 := gs[pos := k][par := AddChild(gs[par], k.weight)];
      if gs[par].nrActive == 0 {
        PropagateWishes(p, gs1, before, par);
      }
    }
  }

  lemma ActivateWishes(p: seq<int>, gs: seq<Group>, g: nat)
    requires Rooted(p) && |p| == |gs| && g < |gs|
    ensures WishesKept(p, gs, Activate(p, gs, g))
  {
    if gs[g].nrActive == 0 {
      PropagateWishes(p, gs[g := Joined(gs[g])], gs, g);
    }
  }

  lemma {:induction false} PropagateLeaf(p: seq<int>, gs: seq<Group>, pos: nat, i: nat)
    requires Rooted(p) && |p| == |gs| && pos < |gs| && i < |gs|
    ensures var r := Propagate(p, gs, pos); r[i].leafWeight == gs[i].leafWeight && r[i].newLeafWeight == gs[i].newLeafWeight
    decreases pos
  {
    if p[pos] >= 0 && gs[p[pos]].nrActive == 0 {
      var par, k := p[pos], UpdateWeight(gs[pos]);
      PropagateLeaf(p, gs[pos := k][par := AddChild(gs[par], k.weight)], par, i);
    }
  }

  /** When a group comes onto the tree, no weight that was asked for is lost; the group itself, and every group above it that
      becomes active, takes the weights it was asked to take. */
  lemma WishesTakeEffect(p: seq<int>, s: Cfq, g: nat)
    requires Rooted(p) && Fits(p, s) && g < |s.gs|
    ensures var r := ServiceAdd(p, s, g);
            WishesKept(p, s.gs, r.gs) && r.gs[g].leafWeight == WantedLeaf(s.gs[g]) && r.gs[g].newLeafWeight == 0
  {
    ActivateWishes(p, s.gs, g);
    if s.gs[g].nrActive == 0 {
      PropagateLeaf(p, s.gs[g := Joined(s.gs[g])], g, g);
    }
  }

  /* ---- min_vdisktime ---- */

  /** cfq_get_next_cfqg brings min_vdisktime up to the leftmost group, the one with the least vdisktime. */
  lemma CatchesUp(p: seq<int>, s: Cfq)
    requires Ok(p, s) && s.tree != []
    ensures var r := GetNext(s); r == s.(minVd := r.minVd) && r.minVd == Vd(s.gs, s.tree[0])
    ensures forall i :: 0 <= i < |s.gs| && s.gs[i].on ==> GetNext(s).minVd <= s.gs[i].vdisktime
  {
    assert s.tree[0] in s.tree;
    GetNextOk(p, s);
  }
}
