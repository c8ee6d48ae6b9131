/**
 Shares of the disk. The weight sums define each group's exact share as a product of ratios up to the root; the shares
 of the groups on the service tree add up to 1. The fixed-point walk of the C code rounds each share down, so its values
 add up to at most 1 << CFQ_SERVICE_SHIFT.
 */
module CfqShares {
  import opened CfqWeights

  /** 1 << CFQ_SERVICE_SHIFT */
  const ONE := 4096

  /** n times k, by repeated addition. */
  ghost function Scaled(k: real, n: nat): real { if n == 0 then 0.0 else Scaled(k, n - 1) + k }

  lemma {:induction false} ScaledAdds(k: real, a: nat, b: nat)
    ensures Scaled(k, a + b) == Scaled(k, a) + Scaled(k, b)
  {
    if b > 0 {
      ScaledAdds(k, a, b - 1);
    }
  }

  lemma {:induction false} ScaledIsMul(k: real, n: nat)
    ensures Scaled(k, n) == k * n as real
  {
    if n > 0 {
      ScaledIsMul(k, n - 1);
      OneMore(k, (n - 1) as real);
      assert n as real == (n - 1) as real + 1.0;
    }
  }

  lemma OneMore(k: real, x: real)
    ensures k * (x + 1.0) == k * x + k
  {
  }

  /* ---- exact shares ---- */

  /** What a unit of weight inside group i is worth. */
  ghost function Rate(p: seq<int>, gs: seq<Group>, i: nat): real
    requires |p| == |gs| && i < |p| && Rooted(p)
    decreases i, 1
  {
    if gs[i].childrenWeight <= 0 then 0.0 else Whole(p, gs, i) / gs[i].childrenWeight as real
  }

  /** The share of group i with everything below it. */
  ghost function Whole(p: seq<int>, gs: seq<Group>, i: nat): real
    requires |p| == |gs| && i < |p| && Rooted(p)
    decreases i, 0
  {
    if i == 0 then 1.0 else Scaled(Rate(p, gs, p[i]), gs[i].weight)
  }

  /** The share of the tasks of group i itself. */
  ghost function Share(p: seq<int>, gs: seq<Group>, i: nat): real
    requires |p| == |gs| && i < |p| && Rooted(p)
  {
    Scaled(Rate(p, gs, i), gs[i].leafWeight)
  }

  /** The shares of the first n groups, those on the service tree. */
  ghost function Shares(p: seq<int>, gs: seq<Group>, n: nat): real
    requires |p| == |gs| && n <= |p| && Rooted(p)
  {
    if n == 0 then 0.0 else Shares(p, gs, n - 1) + (if gs[n - 1].on then Share(p, gs, n - 1) else 0.0)
  }

  /** What the first n groups have passed on to active children that are not among them, looking at the first m. */
  ghost function Passed(p: seq<int>, gs: seq<Group>, n: nat, m: nat): real
    requires |p| == |gs| && m <= |p| && Rooted(p)
  {
    if m == 0 then 0.0
    else
      var c := m - 1;
      Passed(p, gs, n, c) + (if c >= n && p[c] < n && gs[c].nrActive > 0 then Whole(p, gs, c) else 0.0)
  }

  /** Taking in group n as well: it stops being owed its share, and its active children are owed theirs. */
  lemma {:induction false} PassOn(p: seq<int>, gs: seq<Group>, n: nat, m: nat)
    requires |p| == |gs| && m <= |p| && n < |p| && n > 0 && Rooted(p)
    ensures Passed(p, gs, n + 1, m) == Passed(p, gs, n, m)
              - (if n < m && gs[n].nrActive > 0 then Whole(p, gs, n) else 0.0)
              + Scaled(Rate(p, gs, n), Sum(p, Active(gs), Weights(gs), n, m))
  {
    if m > 0 {
      PassOn(p, gs, n, m - 1);
      var c := m - 1;
      ScaledAdds(Rate(p, gs, n), Sum(p, Active(gs), Weights(gs), n, c),
                 if p[c] == n && gs[c].nrActive > 0 then gs[c].weight else 0);
    }
  }

  lemma {:induction false} PassFromRoot(p: seq<int>, gs: seq<Group>, m: nat)
    requires |p| == |gs| && m <= |p| && Rooted(p)
    ensures Passed(p, gs, 1, m) == Scaled(Rate(p, gs, 0), Sum(p, Active(gs), Weights(gs), 0, m))
  {
    if m > 0 {
      PassFromRoot(p, gs, m - 1);
      var c := m - 1;
      ScaledAdds(Rate(p, gs, 0), Sum(p, Active(gs), Weights(gs), 0, c),
                 if p[c] == 0 && gs[c].nrActive > 0 then gs[c].weight else 0);
    }
  }

  lemma Divided(whole: real, total: int, rate: real)
    requires total > 0 && rate == whole / total as real
    ensures Scaled(rate, total) == whole
  {
    ScaledIsMul(rate, total);
  }

  /** An active group shares out exactly what it has; an inactive one has nothing on the tree. */
  lemma SharedOut(p: seq<int>, gs: seq<Group>, i: nat)
    requires Good(p, gs) && i < |gs|
    ensures (if gs[i].on then Share(p, gs, i) else 0.0)
              + Scaled(Rate(p, gs, i), Sum(p, Active(gs), Weights(gs), i, |p|))
            == if gs[i].nrActive > 0 then Whole(p, gs, i) else 0.0
  {
    NeverNegative(p, gs, Active(gs), i);
    assert CountsRight(p, gs, Active(gs), i);
    if gs[i].nrActive == 0 {
      InactiveHasNoWeight(p, gs, Active(gs), i);
    } else {
      HasWeight(p, gs, i);
      ScaledAdds(Rate(p, gs, i), if gs[i].on then gs[i].leafWeight else 0, Sum(p, Active(gs), Weights(gs), i, |p|));
      Divided(Whole(p, gs, i), gs[i].childrenWeight, Rate(p, gs, i));
    }
  }

  lemma HasWeight(p: seq<int>, gs: seq<Group>, i: nat)
    requires Good(p, gs) && i < |gs| && gs[i].nrActive > 0
    ensures gs[i].childrenWeight > 0
  {
    assert CountsRight(p, gs, Active(gs), i);
    SumBounds(p, Active(gs), Weights(gs), i, |p|);
    if !gs[i].on {
      CountedOne(p, Active(gs), Ones(|p|), i, |p|);
      var k :| 0 <= k < |p| && p[k] == i && Active(gs)[k];
      assert Weights(gs)[k] == gs[k].weight;
    }
  }

  lemma {:induction false} CountedOne(p: seq<int>, act: seq<bool>, w: seq<nat>, i: int, n: nat)
    requires n <= |p| == |act| == |w| && Sum(p, act, w, i, n) != 0
    ensures exists k :: 0 <= k < n && p[k] == i && act[k]
  {
    if !(p[n - 1] == i && act[n - 1]) {
      CountedOne(p, act, w, i, n - 1);
    }
  }

  lemma {:induction false} SharesAndPassed(p: seq<int>, gs: seq<Group>, n: nat)
    requires Good(p, gs) && 0 < n <= |gs|
    ensures Shares(p, gs, n) + Passed(p, gs, n, |p|) == if gs[0].nrActive > 0 then 1.0 else 0.0
  {
    SharedOut(p, gs, n - 1);
    if n == 1 {
      PassFromRoot(p, gs, |p|);
      assert Shares(p, gs, 0) == 0.0;
    } else {
      SharesAndPassed(p, gs, n - 1);
      PassOn(p, gs, n - 1, |p|);
    }
  }

  lemma {:induction false} NothingPassed(p: seq<int>, gs: seq<Group>, m: nat)
    requires |p| == |gs| && m <= |p| && Rooted(p)
    ensures Passed(p, gs, |p|, m) == 0.0
  {
    if m > 0 {
      NothingPassed(p, gs, m - 1);
    }
  }

  /** A group on the service tree makes every group above it active. */
  lemma {:induction false} RootActive(p: seq<int>, gs: seq<Group>, i: nat)
    requires Good(p, gs) && i < |gs| && gs[i].nrActive > 0
    ensures gs[0].nrActive > 0
    decreases i
  {
    if i > 0 {
      CountedParent(p, gs, Active(gs), i);
      RootActive(p, gs, p[i]);
    }
  }

  lemma OnIsActive(p: seq<int>, gs: seq<Group>, i: nat)
    requires Good(p, gs) && i < |gs| && gs[i].on
    ensures gs[i].nrActive > 0
  {
    assert CountsRight(p, gs, Active(gs), i);
    SumBounds(p, Active(gs), Ones(|p|), i, |p|);
  }

  /** The shares of the groups on the service tree sum to 1, as soon as there is one. */
  lemma SharesSumToOne(p: seq<int>, gs: seq<Group>, g: nat)
    requires Good(p, gs) && g < |gs| && gs[g].on
    ensures Shares(p, gs, |gs|) == 1.0
  {
    OnIsActive(p, gs, g);
    RootActive(p, gs, g);
    SharesAndPassed(p, gs, |gs|);
    NothingPassed(p, gs, |p|);
  }

  /* ---- fixed point ---- */

  /** Division as the C code does it; the divisor is positive whenever the code divides. */
  function Div(a: nat, b: int): nat { if b <= 0 then 0 else a / b }

  /** The rest of the walk of cfq_group_service_tree_add, from `pos` with the fraction `vfr`. */
  function Walk(p: seq<int>, gs: seq<Group>, vfr: nat, pos: nat): nat
    requires |p| == |gs| && pos < |gs| && (forall i :: 0 <= i < |p| ==> p[i] < i)
    decreases pos
  {
    if p[pos] < 0 then vfr
    else Walk(p, gs, Div(vfr * gs[pos].weight, gs[p[pos]].childrenWeight), p[pos])
  }

  /** The fraction of group g before it is clamped to at least 1. */
  function Fixed(p: seq<int>, gs: seq<Group>, g: nat): nat
    requires |p| == |gs| && g < |gs| && (forall i :: 0 <= i < |p| ==> p[i] < i)
  {
    Walk(p, gs, Div(ONE * gs[g].leafWeight, gs[g].childrenWeight), g)
  }

  lemma DivRounds(a: nat, b: int)
    ensures b > 0 ==> Div(a, b) as real <= a as real / b as real
  {
    if b > 0 {
      var q := a / b;
      assert q * b <= a;
      assert (q * b) as real == q as real * b as real;
      assert q as real * b as real <= a as real;
    }
  }

  lemma {:induction false} RateNotNegative(p: seq<int>, gs: seq<Group>, i: nat)
    requires |p| == |gs| && i < |p| && Rooted(p)
    ensures Whole(p, gs, i) >= 0.0 && Rate(p, gs, i) >= 0.0
    decreases i
  {
    if i > 0 {
      RateNotNegative(p, gs, p[i]);
      ScaledIsMul(Rate(p, gs, p[i]), gs[i].weight);
    }
  }

  lemma ScaleLe(a: real, b: real, k: real)
    requires a <= b && k >= 0.0
    ensures a * k <= b * k
  {
  }

  /** One level of the walk rounds down what it would be exactly. */
  lemma LevelBelow(vfr: nat, w: nat, cw: int, whole: real, rate: real)
    requires cw > 0 && whole >= 0.0 && rate == whole / cw as real
    ensures Scaled(whole, Div(vfr * w, cw)) <= Scaled(Scaled(rate, w), vfr)
  {
    var n := Div(vfr * w, cw);
    DivRounds(vfr * w, cw);
    Regroup(vfr, w, cw, whole);
    LevelReal(n as real, (vfr * w) as real / cw as real, whole, rate * w as real, vfr as real);
    ScaledIsMul(whole, n);
    ScaledIsMul(rate, w);
    ScaledIsMul(Scaled(rate, w), vfr);
  }

  lemma LevelReal(x: real, a: real, whole: real, below: real, vfr: real)
    requires x <= a && whole >= 0.0 && a * whole == vfr * below
    ensures whole * x <= below * vfr
  {
    ScaleLe(x, a, whole);
  }

  lemma Regroup(vfr: nat, w: nat, cw: int, whole: real)
    requires cw > 0
    ensures (vfr * w) as real / cw as real * whole == vfr as real * (whole / cw as real * w as real)
  {
    assert (vfr * w) as real == vfr as real * w as real;
  }

  lemma {:induction false} ScaledZero(n: nat)
    ensures Scaled(0.0, n) == 0.0
  {
    if n > 0 {
      ScaledZero(n - 1);
    }
  }

  lemma {:induction false} WalkBelow(p: seq<int>, gs: seq<Group>, vfr: nat, pos: nat)
    requires |p| == |gs| && pos < |p| && Rooted(p)
    ensures Walk(p, gs, vfr, pos) as real <= Scaled(Whole(p, gs, pos), vfr)
    decreases pos
  {
    if pos == 0 {
      ScaledIsMul(1.0, vfr);
    } else {
      var par := p[pos];
      var cw := gs[par].childrenWeight;
      WalkBelow(p, gs, Div(vfr * gs[pos].weight, cw), par);
      RateNotNegative(p, gs, par);
      if cw > 0 {
        LevelBelow(vfr, gs[pos].weight, cw, Whole(p, gs, par), Rate(p, gs, par));
      } else {
        ScaledZero(gs[pos].weight);
        ScaledZero(vfr);
      }
    }
  }

  /** The fixed-point fraction never exceeds the exact share. */
  lemma FixedBelowShare(p: seq<int>, gs: seq<Group>, g: nat)
    requires |p| == |gs| && g < |p| && Rooted(p)
    ensures Fixed(p, gs, g) as real <= ONE as real * Share(p, gs, g)
  {
    var cw := gs[g].childrenWeight;
    WalkBelow(p, gs, Div(ONE * gs[g].leafWeight, cw), g);
    RateNotNegative(p, gs, g);
    if cw > 0 {
      LevelBelow(ONE, gs[g].leafWeight, cw, Whole(p, gs, g), Rate(p, gs, g));
    } else {
      ScaledZero(gs[g].leafWeight);
    }
    ScaledIsMul(Share(p, gs, g), ONE);
  }

  ghost function FixedSum(p: seq<int>, gs: seq<Group>, n: nat): nat
    requires |p| == |gs| && n <= |p| && (forall i :: 0 <= i < |p| ==> p[i] < i)
  {
    if n == 0 then 0 else FixedSum(p, gs, n - 1) + (if gs[n - 1].on then Fixed(p, gs, n - 1) else 0)
  }

  lemma {:induction false} FixedSumBelow(p: seq<int>, gs: seq<Group>, n: nat)
    requires |p| == |gs| && n <= |p| && Rooted(p)
    ensures FixedSum(p, gs, n) as real <= ONE as real * Shares(p, gs, n)
  {
    if n > 0 {
      FixedSumBelow(p, gs, n - 1);
      if gs[n - 1].on {
        FixedBelowShare(p, gs, n - 1);
      }
    }
  }

  /** The fractions of all groups on the service tree, taken in one state, sum to at most 1 in fixed point. */
  lemma FixedSumAtMostOne(p: seq<int>, gs: seq<Group>, g: nat)
    requires Good(p, gs) && g < |gs| && gs[g].on
    ensures FixedSum(p, gs, |gs|) <= ONE
  {
    SharesSumToOne(p, gs, g);
    FixedSumBelow(p, gs, |gs|);
  }
}
