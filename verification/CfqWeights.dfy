/**
 Weights of the CFQ group tree (block/cfq-iosched.c): activation counts and weight sums that an add or a delete on the
 service tree carries up to the first ancestor that is active anyway.
 */
module CfqWeights {

  /** The weight part of struct cfq_group; `on` is !RB_EMPTY_NODE(&rb_node). A new weight of 0 means none is pending. */
  datatype Group = Group(
    on: bool,
    nrActive: int,
    childrenWeight: int,
    weight: nat,
    newWeight: nat,
    leafWeight: nat,
    newLeafWeight: nat,
    vfraction: nat,
    vdisktime: nat,
    nrCfqq: nat)

  /** Groups are numbered so that a parent comes before its children, the root first; the root's parent is -1. */
  ghost predicate Rooted(p: seq<int>) {
    |p| > 0 && p[0] == -1 && forall i :: 0 < i < |p| ==> 0 <= p[i] < i
  }

  /* ---- sums over children ---- */

  /** The sum of `w` over the counted children of group `i` among the first `n` groups. */
  ghost function Sum(p: seq<int>, act: seq<bool>, w: seq<nat>, i: int, n: nat): nat
    requires n <= |p| == |act| == |w|
  {
    if n == 0 then 0
    else Sum(p, act, w, i, n - 1) + (if p[n - 1] == i && act[n - 1] then w[n - 1] else 0)
  }

  ghost function Ones(n: nat): seq<nat> { seq(n, i => 1) }

  ghost function Weights(gs: seq<Group>): seq<nat> { seq(|gs|, i requires 0 <= i < |gs| => gs[i].weight) }

  ghost function Active(gs: seq<Group>): seq<bool> { seq(|gs|, i requires 0 <= i < |gs| => gs[i].nrActive > 0) }

  lemma {:induction false} SumFlip(p: seq<int>, act: seq<bool>, w: seq<nat>, pos: nat, i: int, n: nat)
    requires n <= |p| == |act| == |w| && pos < |p| && !act[pos]
    ensures Sum(p, act[pos := true], w, i, n) == Sum(p, act, w, i, n) + (if pos < n && p[pos] == i then w[pos] else 0)
  {
    if n > 0 {
      SumFlip(p, act, w, pos, i, n - 1);
    }
  }

  /** The weight of a child that is not counted does not matter. */
  lemma {:induction false} SumUncounted(p: seq<int>, act: seq<bool>, w: seq<nat>, pos: nat, x: nat, i: int, n: nat)
    requires n <= |p| == |act| == |w| && pos < |p| && !act[pos]
    ensures Sum(p, act, w[pos := x], i, n) == Sum(p, act, w, i, n)
  {
    if n > 0 {
      SumUncounted(p, act, w, pos, x, i, n - 1);
    }
  }

  lemma {:induction false} SumBounds(p: seq<int>, act: seq<bool>, w: seq<nat>, i: int, n: nat)
    requires n <= |p| == |act| == |w| && forall k :: 0 <= k < |w| ==> w[k] > 0
    ensures forall k :: 0 <= k < n && p[k] == i && act[k] ==> Sum(p, act, w, i, n) >= w[k]
    ensures Sum(p, act, w, i, n) == 0 ==> forall k :: 0 <= k < n && p[k] == i ==> !act[k]
  {
    if n > 0 {
      SumBounds(p, act, w, i, n - 1);
    }
  }

  /* ---- the invariant ---- */

  /** Group i counts itself, if it is on the service tree, and its counted children. */
  ghost predicate CountsRight(p: seq<int>, gs: seq<Group>, act: seq<bool>, i: nat)
    requires i < |p| == |gs| == |act|
  {
    && gs[i].nrActive == (if gs[i].on then 1 else 0) + Sum(p, act, Ones(|p|), i, |p|)
    && gs[i].childrenWeight == (if gs[i].on then gs[i].leafWeight else 0) + Sum(p, act, Weights(gs), i, |p|)
  }

  ghost predicate Balanced(p: seq<int>, gs: seq<Group>, act: seq<bool>) {
    && Rooted(p) && |p| == |gs| == |act|
    && (forall i :: 0 <= i < |gs| ==> gs[i].weight > 0 && gs[i].leafWeight > 0)
    && (forall i :: 0 <= i < |gs| ==> CountsRight(p, gs, act, i))
  }

  /** Every group counts exactly its active children. */
  ghost predicate Good(p: seq<int>, gs: seq<Group>) { Balanced(p, gs, Active(gs)) }

  /** All groups but `pos`, which is about to be counted or discounted, are counted iff they are active. */
  ghost predicate Lagging(gs: seq<Group>, act: seq<bool>, pos: nat) {
    |act| == |gs| && forall i :: 0 <= i < |gs| && i != pos ==> (act[i] <==> gs[i].nrActive > 0)
  }

  lemma LagDone(p: seq<int>, gs: seq<Group>, act: seq<bool>, pos: nat)
    requires Balanced(p, gs, act) && Lagging(gs, act, pos) && pos < |gs| && (act[pos] <==> gs[pos].nrActive > 0)
    ensures Good(p, gs)
  {
    assert act == Active(gs);
  }

  /* ---- adding ---- */

  /** cfq_update_group_weight */
  function UpdateWeight(g: Group): Group {
    if g.newWeight != 0 then g.(weight := g.newWeight, newWeight := 0) else g
  }

  /** cfq_update_group_leaf_weight */
  function UpdateLeafWeight(g: Group): Group {
    if g.newLeafWeight != 0 then g.(leafWeight := g.newLeafWeight, newLeafWeight := 0) else g
  }

  function AddChild(g: Group, weight: int): Group {
    g.(nrActive := g.nrActive + 1, childrenWeight := g.childrenWeight + weight)
  }

  /** The upward loop of cfq_group_service_tree_add as long as it propagates. */
  function Propagate(p: seq<int>, gs: seq<Group>, pos: nat): (r: seq<Group>)
    requires |p| == |gs| && pos < |gs| && (forall i :: 0 <= i < |p| ==> p[i] < i)
    ensures |r| == |gs|
    decreases pos
  {
    if p[pos] < 0 then gs
    else
      var par := p[pos];
      var k := UpdateWeight(gs[pos]);
      var gs1 := gs[pos := k][par := AddChild(gs[par], k.weight)];
      if gs[par].nrActive == 0 then Propagate(p, gs1, par) else gs1
  }

  function Joined(g: Group): Group {
    var k := UpdateLeafWeight(g);
    AddChild(k, k.leafWeight).(on := true)
  }

  /** The activation part of cfq_group_service_tree_add. */
  function Activate(p: seq<int>, gs: seq<Group>, g: nat): (r: seq<Group>)
    requires |p| == |gs| && g < |gs| && (forall i :: 0 <= i < |p| ==> p[i] < i)
    ensures |r| == |gs|
  {
    var gs1 := gs[g := Joined(gs[g])];
    if gs[g].nrActive == 0 then Propagate(p, gs1, g) else gs1
  }

  /** Counting `pos` in its parent. */
  lemma CountChild(p: seq<int>, gs: seq<Group>, act: seq<bool>, pos: nat, i: nat)
    requires Balanced(p, gs, act) && pos < |gs| && !act[pos] && p[pos] >= 0 && i < |gs|
    ensures var k := UpdateWeight(gs[pos]);
            CountsRight(p, gs[pos := k][p[pos] := AddChild(gs[p[pos]], k.weight)], act[pos := true], i)
  {
    var k := UpdateWeight(gs[pos]);
    var gs1 := gs[pos := k][p[pos] := AddChild(gs[p[pos]], k.weight)];
    assert CountsRight(p, gs, act, i);
    SumUncounted(p, act, Weights(gs), pos, k.weight, i, |p|);
    assert Weights(gs1) == Weights(gs)[pos := k.weight];
    SumFlip(p, act, Weights(gs1), pos, i, |p|);
    SumFlip(p, act, Ones(|p|), pos, i, |p|);
  }

  lemma CountRoot(p: seq<int>, gs: seq<Group>, act: seq<bool>, pos: nat)
    requires Balanced(p, gs, act) && pos < |gs| && !act[pos] && p[pos] < 0
    ensures Balanced(p, gs, act[pos := true])
  {
    var act1 := act[pos := true];
    forall i | 0 <= i < |gs| ensures CountsRight(p, gs, act1, i) {
      assert CountsRight(p, gs, act, i);
      SumFlip(p, act, Weights(gs), pos, i, |p|);
      SumFlip(p, act, Ones(|p|), pos, i, |p|);
    }
  }

  lemma PropagateStep(p: seq<int>, gs: seq<Group>, act: seq<bool>, pos: nat)
    requires Balanced(p, gs, act) && Lagging(gs, act, pos) && pos < |gs| && !act[pos] && gs[pos].nrActive > 0 && p[pos] >= 0
    ensures var k := UpdateWeight(gs[pos]);
            var gs1 := gs[pos := k][p[pos] := AddChild(gs[p[pos]], k.weight)];
            Balanced(p, gs1, act[pos := true]) && Lagging(gs1, act[pos := true], p[pos])
  {
    var k := UpdateWeight(gs[pos]);
    var gs1 := gs[pos := k][p[pos] := AddChild(gs[p[pos]], k.weight)];
    var act1 := act[pos := true];
    forall i | 0 <= i < |gs1| ensures CountsRight(p, gs1, act1, i) {
      CountChild(p, gs, act, pos, i);
    }
  }

  lemma NeverNegative(p: seq<int>, gs: seq<Group>, act: seq<bool>, i: nat)
    requires Balanced(p, gs, act) && i < |gs|
    ensures gs[i].nrActive >= 0
  {
    assert CountsRight(p, gs, act, i);
    SumBounds(p, act, Ones(|p|), i, |p|);
  }

  lemma {:induction false} PropagateGood(p: seq<int>, gs: seq<Group>, act: seq<bool>, pos: nat)
    requires Balanced(p, gs, act) && Lagging(gs, act, pos) && pos < |gs| && !act[pos] && gs[pos].nrActive > 0
    ensures Good(p, Propagate(p, gs, pos))
    decreases pos
  {
    if p[pos] < 0 {
      CountRoot(p, gs, act, pos);
      LagDone(p, gs, act[pos := true], pos);
    } else {
      var par := p[pos];
      var k := UpdateWeight(gs[pos]);
      var gs1 := gs[pos := k][par := AddChild(gs[par], k.weight)];
      PropagateStep(p, gs, act, pos);
      NeverNegative(p, gs, act, par);
      if gs[par].nrActive == 0 {
        PropagateGood(p, gs1, act[pos := true], par);
      } else {
        LagDone(p, gs1, act[pos := true], par);
      }
    }
  }

  /** A group that comes onto the service tree counts itself. */
  lemma JoinCounts(p: seq<int>, gs: seq<Group>, act: seq<bool>, g: nat)
    requires Balanced(p, gs, act) && g < |gs| && !gs[g].on
    ensures Balanced(p, gs[g := Joined(gs[g])], act)
  {
    var gs1 := gs[g := Joined(gs[g])];
    assert Weights(gs1) == Weights(gs);
    forall i | 0 <= i < |gs| ensures CountsRight(p, gs1, act, i) {
      assert CountsRight(p, gs, act, i);
    }
  }

  /** Adding a group keeps every count and weight sum right, pending weights or not. */
  lemma ActivateGood(p: seq<int>, gs: seq<Group>, g: nat)
    requires Good(p, gs) && g < |gs| && !gs[g].on
    ensures Good(p, Activate(p, gs, g))
  {
    var gs1 := gs[g := Joined(gs[g])];
    JoinCounts(p, gs, Active(gs), g);
    NeverNegative(p, gs, Active(gs), g);
    if gs[g].nrActive == 0 {
      PropagateGood(p, gs1, Active(gs), g);
    } else {
      LagDone(p, gs1, Active(gs), g);
    }
  }

  /* ---- deleting ---- */

  function DropChild(g: Group, weight: int): Group {
    g.(nrActive := g.nrActive - 1, childrenWeight := g.childrenWeight - weight)
  }

  /** The upward loop of cfq_group_service_tree_del. */
  function Release(p: seq<int>, gs: seq<Group>, pos: nat): (r: seq<Group>)
    requires |p| == |gs| && pos < |gs| && (forall i :: 0 <= i < |p| ==> p[i] < i)
    ensures |r| == |gs|
    decreases pos
  {
    var gs0 := gs[pos := gs[pos].(vfraction := 0)];
    if p[pos] < 0 then gs0
    else
      var par := p[pos];
      var gs1 := gs0[par := DropChild(gs[par], gs[pos].weight)];
      if gs1[par].nrActive == 0 then Release(p, gs1, par) else gs1
  }

  function Left(g: Group): Group { DropChild(g, g.leafWeight).(on := false) }

  /** The deactivation part of cfq_group_service_tree_del. */
  function Deactivate(p: seq<int>, gs: seq<Group>, g: nat): (r: seq<Group>)
    requires |p| == |gs| && g < |gs| && (forall i :: 0 <= i < |p| ==> p[i] < i)
    ensures |r| == |gs|
  {
    var gs1 := gs[g := Left(gs[g])];
    if gs1[g].nrActive == 0 then Release(p, gs1, g) else gs1
  }

  /** Discounting `pos` in its parent. */
  lemma DiscountChild(p: seq<int>, gs: seq<Group>, act: seq<bool>, pos: nat, i: nat)
    requires Balanced(p, gs, act) && pos < |gs| && act[pos] && p[pos] >= 0 && i < |gs|
    ensures CountsRight(p, gs[pos := gs[pos].(vfraction := 0)][p[pos] := DropChild(gs[p[pos]], gs[pos].weight)],
                        act[pos := false], i)
  {
    var gs1 := gs[pos := gs[pos].(vfraction := 0)][p[pos] := DropChild(gs[p[pos]], gs[pos].weight)];
    assert CountsRight(p, gs, act, i);
    assert Weights(gs1) == Weights(gs);
    assert act[pos := false][pos := true] == act;
    SumFlip(p, act[pos := false], Weights(gs), pos, i, |p|);
    SumFlip(p, act[pos := false], Ones(|p|), pos, i, |p|);
  }

  lemma DiscountRoot(p: seq<int>, gs: seq<Group>, act: seq<bool>, pos: nat)
    requires Balanced(p, gs, act) && pos < |gs| && act[pos] && p[pos] < 0
    ensures Balanced(p, gs[pos := gs[pos].(vfraction := 0)], act[pos := false])
  {
    var gs1 := gs[pos := gs[pos].(vfraction := 0)];
    assert Weights(gs1) == Weights(gs);
    var act1 := act[pos := false];
    forall i | 0 <= i < |gs| ensures CountsRight(p, gs1, act1, i) {
      assert CountsRight(p, gs, act, i);
      assert act[pos := false][pos := true] == act;
      SumFlip(p, act[pos := false], Weights(gs), pos, i, |p|);
      SumFlip(p, act[pos := false], Ones(|p|), pos, i, |p|);
    }
  }

  lemma ReleaseStep(p: seq<int>, gs: seq<Group>, act: seq<bool>, pos: nat)
    requires Balanced(p, gs, act) && Lagging(gs, act, pos) && pos < |gs| && act[pos] && gs[pos].nrActive == 0 && p[pos] >= 0
    ensures var gs1 := gs[pos := gs[pos].(vfraction := 0)][p[pos] := DropChild(gs[p[pos]], gs[pos].weight)];
            Balanced(p, gs1, act[pos := false]) && Lagging(gs1, act[pos := false], p[pos])
  {
    var gs1 := gs[pos := gs[pos].(vfraction := 0)][p[pos] := DropChild(gs[p[pos]], gs[pos].weight)];
    var act1 := act[pos := false];
    forall i | 0 <= i < |gs1| ensures CountsRight(p, gs1, act1, i) {
      DiscountChild(p, gs, act, pos, i);
    }
  }

  /** A counted child makes its parent active. */
  lemma CountedParent(p: seq<int>, gs: seq<Group>, act: seq<bool>, pos: nat)
    requires Balanced(p, gs, act) && pos < |gs| && act[pos] && p[pos] >= 0
    ensures gs[p[pos]].nrActive > 0 && gs[p[pos]].childrenWeight >= gs[pos].weight
  {
    assert CountsRight(p, gs, act, p[pos]);
    SumBounds(p, act, Ones(|p|), p[pos], |p|);
    assert Ones(|p|)[pos] == 1;
    SumBounds(p, act, Weights(gs), p[pos], |p|);
    assert Weights(gs)[pos] == gs[pos].weight;
  }

  lemma {:induction false} ReleaseGood(p: seq<int>, gs: seq<Group>, act: seq<bool>, pos: nat)
    requires Balanced(p, gs, act) && Lagging(gs, act, pos) && pos < |gs| && act[pos] && gs[pos].nrActive == 0
    ensures Good(p, Release(p, gs, pos))
    decreases pos
  {
    if p[pos] < 0 {
      DiscountRoot(p, gs, act, pos);
      LagDone(p, Release(p, gs, pos), act[pos := false], pos);
    } else {
      var par := p[pos];
      var gs1 := gs[pos := gs[pos].(vfraction := 0)][par := DropChild(gs[par], gs[pos].weight)];
      ReleaseStep(p, gs, act, pos);
      CountedParent(p, gs, act, pos);
      if gs1[par].nrActive == 0 {
        ReleaseGood(p, gs1, act[pos := false], par);
      } else {
        LagDone(p, gs1, act[pos := false], par);
      }
    }
  }

  lemma LeaveCounts(p: seq<int>, gs: seq<Group>, act: seq<bool>, g: nat)
    requires Balanced(p, gs, act) && g < |gs| && gs[g].on
    ensures Balanced(p, gs[g := Left(gs[g])], act) && gs[g].nrActive > 0
  {
    var gs1 := gs[g := Left(gs[g])];
    assert Weights(gs1) == Weights(gs);
    forall i | 0 <= i < |gs| ensures CountsRight(p, gs1, act, i) {
      assert CountsRight(p, gs, act, i);
    }
    assert CountsRight(p, gs, act, g);
    SumBounds(p, act, Ones(|p|), g, |p|);
  }

  /** Deleting a group keeps every count and weight sum right. */
  lemma DeactivateGood(p: seq<int>, gs: seq<Group>, g: nat)
    requires Good(p, gs) && g < |gs| && gs[g].on
    ensures Good(p, Deactivate(p, gs, g))
  {
    var gs1 := gs[g := Left(gs[g])];
    LeaveCounts(p, gs, Active(gs), g);
    if gs1[g].nrActive == 0 {
      ReleaseGood(p, gs1, Active(gs), g);
    } else {
      LagDone(p, gs1, Active(gs), g);
    }
  }

  /** The WARN_ON_ONCE of the delete loop cannot fire: a group with nothing active has no weight to share out. */
  lemma InactiveHasNoWeight(p: seq<int>, gs: seq<Group>, act: seq<bool>, i: nat)
    requires Balanced(p, gs, act) && i < |gs| && gs[i].nrActive == 0
    ensures gs[i].childrenWeight == 0 && !gs[i].on
  {
    assert CountsRight(p, gs, act, i);
    SumBounds(p, act, Ones(|p|), i, |p|);
    NothingCounted(p, act, Weights(gs), i, |p|);
  }

  lemma {:induction false} NothingCounted(p: seq<int>, act: seq<bool>, w: seq<nat>, i: int, n: nat)
    requires n <= |p| == |act| == |w| && forall k :: 0 <= k < n && p[k] == i ==> !act[k]
    ensures Sum(p, act, w, i, n) == 0
  {
    if n > 0 {
      NothingCounted(p, act, w, i, n - 1);
    }
  }
}
