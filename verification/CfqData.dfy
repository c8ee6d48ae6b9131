/** The group part of struct cfq_data, updated in place; each function is proved to be the operation it names. */
module CfqDataObject {
  import opened Lists
  import opened CfqWeights
  import opened CfqShares
  import opened CfqTree
  import CfqRuns
  import CfqFair

  /** What the walk above `pos` still does leaves the weights at and below it settled. */
  lemma {:induction false} Settled(p: seq<int>, gs: seq<Group>, pos: nat)
    requires |p| == |gs| && pos < |gs| && (forall i :: 0 <= i < |p| ==> p[i] < i)
    ensures var r := Propagate(p, gs, pos);
            && (forall i :: pos <= i < |gs| ==> r[i].childrenWeight == gs[i].childrenWeight && r[i].nrActive == gs[i].nrActive)
            && (forall i :: pos < i < |gs| ==> r[i].weight == gs[i].weight)
            && (forall i :: 0 <= i < |gs| ==> r[i].leafWeight == gs[i].leafWeight)
    decreases pos
  {
    if p[pos] >= 0 {
      var k := UpdateWeight(gs[pos]);
      var gs1 := gs[pos := k][p[pos] := AddChild(gs[p[pos]], k.weight)];
      if gs[p[pos]].nrActive == 0 {
        Settled(p, gs1, p[pos]);
      }
    }
  }

  lemma ConsSlices(t: seq<nat>, g: nat, k: nat)
    requires 0 < k <= |t|
    ensures [t[0]] + (t[1..][..k - 1] + [g] + t[1..][k - 1..]) == t[..k] + [g] + t[k..]
  {
  }

  /** A group at index k of an ordered tree, right of everything not larger and left of everything larger. */
  lemma {:induction false} InsertAt(t: seq<nat>, gs: seq<Group>, g: nat, k: nat)
    requires k <= |t| && (forall i :: 0 <= i < k ==> Vd(gs, t[i]) <= Vd(gs, g)) && (k < |t| ==> Vd(gs, g) < Vd(gs, t[k]))
    ensures InsertByVd(t, gs, g) == t[..k] + [g] + t[k..]
    decreases k
  {
    if k == 0 {
      assert t[..0] + [g] + t[0..] == [g] + t;
    } else {
      InsertAt(t[1..], gs, g, k - 1);
      ConsSlices(t, g, k);
    }
  }

  lemma JoinHasWeight(p: seq<int>, gs: seq<Group>, g: nat)
    requires Good(p, gs) && g < |gs| && !gs[g].on
    ensures Joined(gs[g]).childrenWeight > 0
  {
    assert CountsRight(p, gs, Active(gs), g);
  }

  /** One turn of the deactivation walk. */
  lemma ReleaseTurn(p: seq<int>, gs: seq<Group>, act: seq<bool>, pos: nat) returns (gs1: seq<Group>, act1: seq<bool>)
    requires Balanced(p, gs, act) && Lagging(gs, act, pos) && pos < |gs| && act[pos] && gs[pos].nrActive == 0 && p[pos] >= 0
    ensures gs1 == gs[pos := gs[pos].(vfraction := 0)][p[pos] := DropChild(gs[p[pos]], gs[pos].weight)]
    ensures Balanced(p, gs1, act1) && Lagging(gs1, act1, p[pos]) && act1[p[pos]]
    ensures Release(p, gs, pos) == if gs1[p[pos]].nrActive == 0 then Release(p, gs1, p[pos]) else gs1
  {
    ReleaseStep(p, gs, act, pos);
    CountedParent(p, gs, act, pos);
    gs1 := gs[pos := gs[pos].(vfraction := 0)][p[pos] := DropChild(gs[p[pos]], gs[pos].weight)];
    act1 := act[pos := false];
  }

  class CfqData {
    const parent: seq<int>
    var groups: seq<Group>
    var tree: seq<nat>
    var minVdisktime: nat
    var left: int

    ghost function View(): Cfq
      reads this
    {
      Cfq(groups, tree, minVdisktime)
    }

    /** The cached leftmost node, if there is one, is the leftmost node. */
    ghost predicate CacheOk()
      reads this
    {
      left == -1 || (tree != [] && left == tree[0])
    }

    /** Weights and tree are right; the number of queues of a group may be about to follow. */
    ghost predicate Sound()
      reads this
    {
      Good(parent, groups) && TreeOk(View()) && CacheOk()
    }

    ghost predicate Valid()
      reads this
    {
      Ok(parent, View()) && CacheOk()
    }

    /** cfq_init_queue, with the groups of the queue as cfq_pd_init leaves them: weights set, nothing on the tree. */
    constructor (parent: seq<int>, weight: seq<nat>, leafWeight: seq<nat>)
      requires Rooted(parent) && |weight| == |leafWeight| == |parent|
      requires forall i :: 0 <= i < |parent| ==> weight[i] > 0 && leafWeight[i] > 0
      ensures this.parent == parent && Valid() && CfqRuns.Fresh(parent, View()) && minVdisktime == 0
      ensures forall i :: 0 <= i < |parent| ==> groups[i].weight == weight[i] && groups[i].leafWeight == leafWeight[i]
    {
      this.parent := parent;
      var gs := seq(|parent|, i requires 0 <= i < |parent| => Group(false, 0, 0, weight[i], 0, leafWeight[i], 0, 0, 0, 0));
      groups, tree, minVdisktime, left := gs, [], 0, -1;
      CfqRuns.FreshOk(parent, Cfq(gs, [], 0));
    }

    /** The insertion of __cfq_group_service_tree_add. */
    method InsertNode(g: nat)
      requires g < |groups|
      requires CacheOk() && g !in tree
      modifies this`tree, this`left
      ensures tree == InsertByVd(old(tree), groups, g) && CacheOk()
    {
      var k := 0;
      while k < |tree| && Vd(groups, tree[k]) <= Vd(groups, g)
        invariant k <= |tree| && tree == old(tree) && left == old(left)
        invariant forall i :: 0 <= i < k ==> Vd(groups, tree[i]) <= Vd(groups, g)
      {
        k := k + 1;
      }
      InsertAt(tree, groups, g, k);
      if k == 0 {
        left := g;
      }
      tree := tree[..k] + [g] + tree[k..];
    }

    /** cfq_rb_erase */
    method EraseNode(g: nat)
      requires CacheOk() && NoDup(tree)
      modifies this`tree, this`left
      ensures tree == Remove(old(tree), g) && CacheOk()
    {
      if left == g {
        left := -1;
      }
      tree := Remove(tree, g);
    }

    /** The first level of cfq_group_service_tree_add. */
    method Join(g: nat) returns (propagate: bool)
      requires Good(parent, groups) && g < |groups| && !groups[g].on
      modifies this`groups
      ensures groups == old(groups)[g := Joined(old(groups)[g])] && propagate == (old(groups)[g].nrActive == 0)
    {
      var k := groups[g];
      if k.newLeafWeight != 0 {
        k := k.(leafWeight := k.newLeafWeight, newLeafWeight := 0);
      }
      propagate := k.nrActive == 0;
      groups := groups[g := k.(on := true, nrActive := k.nrActive + 1, childrenWeight := k.childrenWeight + k.leafWeight)];
    }

    /** One level of the walk of cfq_group_service_tree_add. */
    method ClimbOne(pos: nat, propagate: bool) returns (again: bool)
      requires |parent| == |groups| && pos < |groups| && 0 <= parent[pos] < pos
      modifies this`groups
      ensures propagate ==>
                var k := UpdateWeight(old(groups)[pos]);
                && groups == old(groups)[pos := k][parent[pos] := AddChild(old(groups)[parent[pos]], k.weight)]
                && again == (old(groups)[parent[pos]].nrActive == 0)
      ensures !propagate ==> groups == old(groups) && !again
    {
      again := false;
      if propagate {
        var par := parent[pos];
        var k := groups[pos];
        if k.newWeight != 0 {
          k := k.(weight := k.newWeight, newWeight := 0);
        }
        groups := groups[pos := k];
        again := groups[par].nrActive == 0;
        groups := groups[par := groups[par].(nrActive := groups[par].nrActive + 1,
                                             childrenWeight := groups[par].childrenWeight + k.weight)];
      }
    }

    /** The walk of cfq_group_service_tree_add: it activates groups, and compounds the fraction of group g. */
    method Climb(g: nat, propagates: bool, ghost final: seq<Group>) returns (vfr: nat)
      requires Rooted(parent) && |parent| == |groups| && g < |groups| && Good(parent, final)
      requires final == if propagates then Propagate(parent, groups, g) else groups
      requires final[g].on && groups[g].childrenWeight > 0
      modifies this`groups
      ensures groups == final && vfr == Fixed(parent, final, g)
    {
      var pos: nat, propagate := g, propagates;
      if propagates {
        Settled(parent, groups, g);
      }
      vfr := ONE * groups[g].leafWeight / groups[g].childrenWeight;
      OnIsActive(parent, final, g);
      while parent[pos] >= 0
        invariant pos < |groups| == |parent|
        invariant final == if propagate then Propagate(parent, groups, pos) else groups
        invariant Walk(parent, final, vfr, pos) == Fixed(parent, final, g)
        invariant final[pos].nrActive > 0
        decreases pos
      {
        ghost var before := groups;
        var again := ClimbOne(pos, propagate);
        var par := parent[pos];
        if again {
          Settled(parent, groups, par);
        }
        CountedParent(parent, final, Active(final), pos);
        vfr := vfr * groups[pos].weight / groups[par].childrenWeight;
        pos, propagate := par, again;
      }
    }

    /** cfq_group_service_tree_add */
    method GroupServiceTreeAdd(g: nat)
      requires Sound() && g < |groups| && !groups[g].on && groups[g].vdisktime >= minVdisktime
      modifies this
      ensures View() == ServiceAdd(parent, old(View()), g) && Sound()
    {
      ServiceAddOk(parent, View(), g);
      ActivateGood(parent, groups, g);
      ActivateService(parent, groups, g);
      ghost var final := Activate(parent, groups, g);
      InsertNode(g);
      JoinHasWeight(parent, groups, g);
      var propagate := Join(g);
      var vfr := Climb(g, propagate, final);
      groups := groups[g := groups[g].(vfraction := if vfr < 1 then 1 else vfr)];
    }

    /** cfq_group_service_tree_del */
    method GroupServiceTreeDel(g: nat)
      requires Sound() && g < |groups| && groups[g].on
      modifies this
      ensures View() == ServiceDel(parent, old(View()), g) && Sound()
    {
      ServiceDelOk(parent, View(), g);
      ReleaseWalk(g);
      EraseNode(g);
    }

    /** The deactivation walk of cfq_group_service_tree_del, in which the WARN_ON_ONCE never fires. */
    method ReleaseWalk(g: nat)
      requires Good(parent, groups) && g < |groups| && groups[g].on
      modifies this`groups
      ensures groups == Deactivate(parent, old(groups), g)
    {
      ghost var act := Active(groups);
      LeaveCounts(parent, groups, act, g);
      groups := groups[g := groups[g].(on := false, nrActive := groups[g].nrActive - 1,
                                       childrenWeight := groups[g].childrenWeight - groups[g].leafWeight)];
      var pos: nat, propagate := g, groups[g].nrActive == 0;
      while propagate
        invariant pos < |groups| == |parent| && Balanced(parent, groups, act) && Lagging(groups, act, pos)
        invariant propagate ==> act[pos] && groups[pos].nrActive == 0
        invariant Deactivate(parent, old(groups), g) == if propagate then Release(parent, groups, pos) else groups
        decreases if propagate then pos + 1 else 0
      {
        InactiveHasNoWeight(parent, groups, act, pos);
        assert groups[pos].childrenWeight == 0;
        var par := parent[pos];
        if par < 0 {
          DiscountRoot(parent, groups, act, pos);
          groups := groups[pos := groups[pos].(vfraction := 0)];
          act := act[pos := false];
          break;
        }
        ghost var gs1, act1 := ReleaseTurn(parent, groups, act, pos);
        groups := groups[pos := groups[pos].(vfraction := 0)];
        groups := groups[par := groups[par].(nrActive := groups[par].nrActive - 1,
                                             childrenWeight := groups[par].childrenWeight - groups[pos].weight)];
        assert groups == gs1;
        act := act1;
        pos, propagate := par, groups[par].nrActive == 0;
      }
    }

    /** A group that is off the tree gets its first queue and goes on the tree at vd. */
    method Arrive(g: nat, n: nat, vd: nat)
      requires Valid() && g < |groups| && !groups[g].on && n > 0 && vd >= minVdisktime
      modifies this
      ensures View() == ServiceAdd(parent, WithQueues(old(View()), g, n, vd), g) && Valid()
    {
      ArriveOk(parent, View(), g, n, vd);
      QueuesOk(parent, View(), g, n, vd);
      groups := groups[g := groups[g].(nrCfqq := n, vdisktime := vd)];
      GroupServiceTreeAdd(g);
    }

    /** cfq_group_notify_queue_add */
    method NotifyQueueAdd(g: nat, hz: nat)
      requires Valid() && g < |groups|
      modifies this
      ensures View() == QueueAdd(parent, old(View()), g, hz) && Valid()
    {
      var n := groups[g].nrCfqq + 1;
      if groups[g].on {
        QueueAddOk(parent, View(), g, hz);
        groups := groups[g := groups[g].(nrCfqq := n)];
        return;
      }
      var vd := minVdisktime;
      if tree != [] {
        vd := Vd(groups, tree[|tree| - 1]) + hz / 5;
      }
      assert vd == NewVd(View(), hz);
      NewVdOk(View(), hz);
      Arrive(g, n, vd);
    }

    /** cfq_group_notify_queue_del */
    method NotifyQueueDel(g: nat)
      requires Valid() && g < |groups| && groups[g].nrCfqq >= 1
      modifies this
      ensures View() == QueueDel(parent, old(View()), g) && Valid()
    {
      QueueDelOk(parent, View(), g);
      QueuesOk(parent, View(), g, groups[g].nrCfqq - 1, groups[g].vdisktime);
      groups := groups[g := groups[g].(nrCfqq := groups[g].nrCfqq - 1)];
      if groups[g].nrCfqq == 0 {
        GroupServiceTreeDel(g);
      }
    }

    /** cfq_get_next_cfqg, with update_min_vdisktime */
    method GetNextCfqg() returns (g: int)
      requires Valid()
      modifies this`left, this`minVdisktime
      ensures View() == GetNext(old(View())) && Valid()
      ensures g == if tree == [] then -1 else tree[0]
      ensures g >= 0 ==> forall i :: i in tree ==> Vd(groups, g) <= Vd(groups, i)
    {
      GetNextOk(parent, View());
      if tree == [] {
        return -1;
      }
      if left == -1 {
        left := tree[0];
      }
      forall i | i in tree ensures Vd(groups, left) <= Vd(groups, i) {
        FirstIsLeast(View(), i);
      }
      if Vd(groups, left) > minVdisktime {
        minVdisktime := Vd(groups, left);
      }
      g := left;
    }

    /** Off the tree, to vd, and back on. */
    method MoveTo(g: nat, vd: nat)
      requires Valid() && g < |groups| && groups[g].on && vd >= groups[g].vdisktime
      modifies this
      ensures View() == Reinsert(parent, old(View()), g, vd) && Valid()
    {
      ReinsertOk(parent, View(), g, vd);
      ServiceDelOk(parent, View(), g);
      GroupServiceTreeDel(g);
      QueuesOk(parent, View(), g, groups[g].nrCfqq, vd);
      groups := groups[g := groups[g].(vdisktime := vd)];
      GroupServiceTreeAdd(g);
    }

    /** The virtual-time part of cfq_group_served */
    method GroupServed(g: nat, charge: nat)
      requires Valid() && g < |groups| && groups[g].on && groups[g].vfraction >= 1
      modifies this
      ensures View() == Served(parent, old(View()), g, charge) && Valid()
      ensures var c, f := groups[g].vdisktime - old(groups)[g].vdisktime, old(groups)[g].vfraction;
              0 <= c && c * f <= charge * 0x100_0000 < (c + 1) * f
    {
      CfqFair.MovesByShare(parent, View(), g, charge);
      MoveTo(g, groups[g].vdisktime + ScaleCharge(charge, groups[g].vfraction));
    }
  }
}
