/**
 The CFQ group service tree (block/cfq-iosched.c): groups in order of virtual disk time, served leftmost first, each
 charged in inverse proportion to its share. The weights stay right in every run, min_vdisktime never runs ahead of a
 group, and two groups that stay on the tree never drift further apart than one charge.
 */
module CfqTree {
  import opened Lists
  import opened CfqWeights
  import opened CfqShares

  /** The groups, the service tree from left to right, and min_vdisktime. */
  datatype Cfq = Cfq(gs: seq<Group>, tree: seq<nat>, minVd: nat)

  /** The virtual disk time of group i. */
  function Vd(gs: seq<Group>, i: nat): nat { if i < |gs| then gs[i].vdisktime else 0 }

  /* ---- operations ---- */

  /** __cfq_group_service_tree_add: to the right of every group whose vdisktime is not larger. */
  function InsertByVd(t: seq<nat>, gs: seq<Group>, g: nat): (r: seq<nat>)
    ensures forall i :: i in r <==> i in t || i == g
    ensures NoDup(t) && g !in t ==> NoDup(r)
  {
    if t == [] then [g]
    else if Vd(gs, g) < Vd(gs, t[0]) then [g] + t
    else
      assert NoDup(t) ==> NoDup(t[1..]) && t[0] !in t[1..];
      [t[0]] + InsertByVd(t[1..], gs, g)
  }

  ghost predicate Fits(p: seq<int>, s: Cfq) {
    |p| == |s.gs| && (forall i :: 0 <= i < |p| ==> p[i] < i)
  }

  /** cfq_group_service_tree_add */
  function ServiceAdd(p: seq<int>, s: Cfq, g: nat): (r: Cfq)
    requires Fits(p, s) && g < |s.gs|
    ensures |r.gs| == |s.gs| && r.minVd == s.minVd
  {
    var gs := Activate(p, s.gs, g);
    var vfr := Fixed(p, gs, g);
    s.(gs := gs[g := gs[g].(vfraction := if vfr < 1 then 1 else vfr)], tree := InsertByVd(s.tree, s.gs, g))
  }

  /** cfq_group_service_tree_del */
  function ServiceDel(p: seq<int>, s: Cfq, g: nat): (r: Cfq)
    requires Fits(p, s) && g < |s.gs|
    ensures |r.gs| == |s.gs| && r.minVd == s.minVd
  {
    s.(gs := Deactivate(p, s.gs, g), tree := Remove(s.tree, g))
  }

  function SetVd(s: Cfq, g: nat, vd: nat): Cfq
    requires g < |s.gs|
  {
    s.(gs := s.gs[g := s.gs[g].(vdisktime := vd)])
  }

  /** cfqg_scale_charge */
  function ScaleCharge(charge: nat, vfr: nat): nat
    requires vfr > 0
  {
    charge * ONE * ONE / vfr
  }

  /** Where a new group starts: behind the last one, or at min_vdisktime. */
  function NewVd(s: Cfq, hz: nat): nat {
    if s.tree == [] then s.minVd else Vd(s.gs, s.tree[|s.tree| - 1]) + hz / 5
  }

  function WithQueues(s: Cfq, g: nat, n: nat, vd: nat): Cfq
    requires g < |s.gs|
  {
    s.(gs := s.gs[g := s.gs[g].(nrCfqq := n, vdisktime := vd)])
  }

  /** cfq_group_notify_queue_add */
  function QueueAdd(p: seq<int>, s: Cfq, g: nat, hz: nat): (r: Cfq)
    requires Fits(p, s) && g < |s.gs|
    ensures |r.gs| == |s.gs| && r.minVd == s.minVd
  {
    var n := s.gs[g].nrCfqq + 1;
    if s.gs[g].on then WithQueues(s, g, n, s.gs[g].vdisktime)
    else ServiceAdd(p, WithQueues(s, g, n, NewVd(s, hz)), g)
  }

  /** cfq_group_notify_queue_del */
  function QueueDel(p: seq<int>, s: Cfq, g: nat): (r: Cfq)
    requires Fits(p, s) && g < |s.gs| && s.gs[g].nrCfqq >= 1
    ensures |r.gs| == |s.gs| && r.minVd == s.minVd
  {
    var s1 := WithQueues(s, g, s.gs[g].nrCfqq - 1, s.gs[g].vdisktime);
    if s1.gs[g].nrCfqq > 0 then s1 else ServiceDel(p, s1, g)
  }

  function Max(a: nat, b: nat): nat { if a < b then b else a }

  /** cfq_get_next_cfqg: the leftmost group, after moving min_vdisktime up to it. */
  function GetNext(s: Cfq): Cfq {
    if s.tree == [] then s else s.(minVd := Max(s.minVd, Vd(s.gs, s.tree[0])))
  }

  /** Off the tree, to vd, and back on. */
  function Reinsert(p: seq<int>, s: Cfq, g: nat, vd: nat): (r: Cfq)
    requires Fits(p, s) && g < |s.gs|
  {
    ServiceAdd(p, SetVd(ServiceDel(p, s, g), g, vd), g)
  }

  /** cfq_group_served, for group g */
  function Served(p: seq<int>, s: Cfq, g: nat, charge: nat): (r: Cfq)
    requires Fits(p, s) && g < |s.gs| && s.gs[g].vfraction > 0
  {
    Reinsert(p, s, g, s.gs[g].vdisktime + ScaleCharge(charge, s.gs[g].vfraction))
  }

  /* ---- the invariant ---- */

  ghost predicate Ordered(t: seq<nat>, gs: seq<Group>) {
    t != [] ==> (forall i :: i in t[1..] ==> Vd(gs, t[0]) <= Vd(gs, i)) && Ordered(t[1..], gs)
  }

  ghost predicate TreeOk(s: Cfq) {
    && NoDup(s.tree) && Ordered(s.tree, s.gs)
    && (forall i :: i in s.tree <==> 0 <= i < |s.gs| && s.gs[i].on)
    && (forall i :: 0 <= i < |s.gs| && s.gs[i].on ==> s.gs[i].vdisktime >= s.minVd && s.gs[i].vfraction >= 1)
  }

  /** The weights are right, the tree holds the groups that are on it in order, and min_vdisktime is behind all of them. */
  ghost predicate Ok(p: seq<int>, s: Cfq) {
    Good(p, s.gs) && TreeOk(s) && QueuesRight(s.gs)
  }

  ghost predicate QueuesRight(gs: seq<Group>) {
    forall i :: 0 <= i < |gs| ==> (gs[i].on <==> gs[i].nrCfqq > 0)
  }

  /* ---- what the upward walks leave alone ---- */

  /** Nothing but weights and counts changes, and fractions only of groups off the tree. */
  ghost predicate SameService(a: seq<Group>, b: seq<Group>) {
    |a| == |b| && forall i :: 0 <= i < |a| ==>
      && b[i].on == a[i].on && b[i].vdisktime == a[i].vdisktime && b[i].nrCfqq == a[i].nrCfqq
      && (a[i].on ==> b[i].vfraction == a[i].vfraction)
  }

  lemma {:induction false} PropagateService(p: seq<int>, gs: seq<Group>, pos: nat)
    requires Rooted(p) && |p| == |gs| && pos < |gs|
    ensures SameService(gs, Propagate(p, gs, pos))
    decreases pos
  {
    if p[pos] >= 0 {
      var k := UpdateWeight(gs[pos]);
      var gs1 := gs[pos := k][p[pos] := AddChild(gs[p[pos]], k.weight)];
      assert SameService(gs, gs1);
      if gs[p[pos]].nrActive == 0 {
        PropagateService(p, gs1, p[pos]);
      }
    }
  }

  lemma {:induction false} ReleaseService(p: seq<int>, gs: seq<Group>, act: seq<bool>, pos: nat)
    requires Balanced(p, gs, act) && Lagging(gs, act, pos) && pos < |gs| && act[pos] && gs[pos].nrActive == 0
    ensures SameService(gs, Release(p, gs, pos))
    decreases pos
  {
    InactiveHasNoWeight(p, gs, act, pos);
    if p[pos] >= 0 {
      var gs1 := gs[pos := gs[pos].(vfraction := 0)][p[pos] := DropChild(gs[p[pos]], gs[pos].weight)];
      assert SameService(gs, gs1);
      if gs1[p[pos]].nrActive == 0 {
        ReleaseStep(p, gs, act, pos);
        CountedParent(p, gs, act, pos);
        ReleaseService(p, gs1, act[pos := false], p[pos]);
      }
    }
  }

  lemma ActivateService(p: seq<int>, gs: seq<Group>, g: nat)
    requires Rooted(p) && |p| == |gs| && g < |gs|
    ensures SameService(gs[g := gs[g].(on := true)], Activate(p, gs, g))
  {
    if gs[g].nrActive == 0 {
      PropagateService(p, gs[g := Joined(gs[g])], g);
    }
  }

  lemma DeactivateService(p: seq<int>, gs: seq<Group>, g: nat)
    requires Good(p, gs) && g < |gs| && gs[g].on
    ensures SameService(gs[g := gs[g].(on := false)], Deactivate(p, gs, g))
  {
    var gs1 := gs[g := Left(gs[g])];
    LeaveCounts(p, gs, Active(gs), g);
    if gs1[g].nrActive == 0 {
      ReleaseService(p, gs1, Active(gs), g);
    }
  }

  /** Weights, counts and sums do not depend on service. */
  lemma ServiceIsNoWeight(p: seq<int>, a: seq<Group>, b: seq<Group>)
    requires Good(p, a) && |b| == |a|
    requires forall i :: 0 <= i < |a| ==>
               && b[i].on == a[i].on && b[i].nrActive == a[i].nrActive && b[i].childrenWeight == a[i].childrenWeight
               && b[i].weight == a[i].weight && b[i].leafWeight == a[i].leafWeight
    ensures Good(p, b)
  {
    assert Weights(a) == Weights(b) && Active(a) == Active(b);
    forall i | 0 <= i < |b| ensures CountsRight(p, b, Active(b), i) {
      assert CountsRight(p, a, Active(a), i);
    }
  }

  /* ---- the tree ---- */

  lemma {:induction false} InsertOrdered(t: seq<nat>, gs: seq<Group>, g: nat)
    requires Ordered(t, gs)
    ensures Ordered(InsertByVd(t, gs, g), gs)
  {
    if t != [] {
      if Vd(gs, g) < Vd(gs, t[0]) {
        assert forall i :: i in t ==> i == t[0] || i in t[1..];
        PushFront(g, t, gs);
      } else {
        InsertOrdered(t[1..], gs, g);
        PushFront(t[0], InsertByVd(t[1..], gs, g), gs);
      }
    }
  }

  lemma PushFront(x: nat, t: seq<nat>, gs: seq<Group>)
    requires Ordered(t, gs) && forall i :: i in t ==> Vd(gs, x) <= Vd(gs, i)
    ensures Ordered([x] + t, gs)
  {
    assert ([x] + t)[1..] == t;
  }

  lemma {:induction false} RemoveOrdered(t: seq<nat>, gs: seq<Group>, g: nat)
    requires Ordered(t, gs)
    ensures Ordered(Remove(t, g), gs)
  {
    if t != [] {
      RemoveOrdered(t[1..], gs, g);
      if t[0] != g {
        PushFront(t[0], Remove(t[1..], g), gs);
      }
    }
  }

  lemma {:induction false} OrderedSame(t: seq<nat>, a: seq<Group>, b: seq<Group>)
    requires Ordered(t, a) && forall i :: i in t ==> Vd(a, i) == Vd(b, i)
    ensures Ordered(t, b)
  {
    if t != [] {
      assert t[0] in t;
      OrderedSame(t[1..], a, b);
    }
  }

  /** Adding a group that is not on the tree. */
  lemma ServiceAddOk(p: seq<int>, s: Cfq, g: nat)
    requires Good(p, s.gs) && TreeOk(s) && g < |s.gs| && !s.gs[g].on && s.gs[g].vdisktime >= s.minVd
    ensures Good(p, ServiceAdd(p, s, g).gs) && TreeOk(ServiceAdd(p, s, g))
    ensures SameService(s.gs[g := s.gs[g].(on := true, vfraction := ServiceAdd(p, s, g).gs[g].vfraction)], ServiceAdd(p, s, g).gs)
  {
    var r := ServiceAdd(p, s, g);
    ActivateGood(p, s.gs, g);
    ActivateService(p, s.gs, g);
    ServiceIsNoWeight(p, Activate(p, s.gs, g), r.gs);
    InsertOrdered(s.tree, s.gs, g);
    OrderedSame(r.tree, s.gs, r.gs);
  }

  lemma ServiceDelOk(p: seq<int>, s: Cfq, g: nat)
    requires Good(p, s.gs) && TreeOk(s) && g < |s.gs| && s.gs[g].on
    ensures Good(p, ServiceDel(p, s, g).gs) && TreeOk(ServiceDel(p, s, g))
    ensures SameService(s.gs[g := s.gs[g].(on := false)], ServiceDel(p, s, g).gs)
  {
    var r := ServiceDel(p, s, g);
    DeactivateGood(p, s.gs, g);
    DeactivateService(p, s.gs, g);
    RemoveOrdered(s.tree, s.gs, g);
    OrderedSame(r.tree, s.gs, r.gs);
  }

  /** Changing the virtual time of a group off the tree, or the number of queues of any group. */
  lemma QueuesOk(p: seq<int>, s: Cfq, g: nat, n: nat, vd: nat)
    requires Good(p, s.gs) && TreeOk(s) && g < |s.gs| && (s.gs[g].on ==> vd == s.gs[g].vdisktime)
    ensures Good(p, WithQueues(s, g, n, vd).gs) && TreeOk(WithQueues(s, g, n, vd))
  {
    var r := WithQueues(s, g, n, vd);
    ServiceIsNoWeight(p, s.gs, r.gs);
    OrderedSame(s.tree, s.gs, r.gs);
  }

  lemma NewVdOk(s: Cfq, hz: nat)
    requires TreeOk(s)
    ensures NewVd(s, hz) >= s.minVd
  {
    if s.tree != [] {
      assert s.tree[|s.tree| - 1] in s.tree;
    }
  }

  lemma ArriveOk(p: seq<int>, s: Cfq, g: nat, n: nat, vd: nat)
    requires Ok(p, s) && g < |s.gs| && !s.gs[g].on && n > 0 && vd >= s.minVd
    ensures Ok(p, ServiceAdd(p, WithQueues(s, g, n, vd), g))
  {
    QueuesOk(p, s, g, n, vd);
    ServiceAddOk(p, WithQueues(s, g, n, vd), g);
  }

  lemma QueueAddOk(p: seq<int>, s: Cfq, g: nat, hz: nat)
    requires Ok(p, s) && g < |s.gs|
    ensures Ok(p, QueueAdd(p, s, g, hz))
  {
    if s.gs[g].on {
      QueuesOk(p, s, g, s.gs[g].nrCfqq + 1, s.gs[g].vdisktime);
    } else {
      NewVdOk(s, hz);
      ArriveOk(p, s, g, s.gs[g].nrCfqq + 1, NewVd(s, hz));
    }
  }

  lemma QueueDelOk(p: seq<int>, s: Cfq, g: nat)
    requires Ok(p, s) && g < |s.gs| && s.gs[g].nrCfqq >= 1
    ensures Ok(p, QueueDel(p, s, g))
  {
    QueuesOk(p, s, g, s.gs[g].nrCfqq - 1, s.gs[g].vdisktime);
    if s.gs[g].nrCfqq == 1 {
      ServiceDelOk(p, WithQueues(s, g, 0, s.gs[g].vdisktime), g);
    }
  }

  lemma FirstIsLeast(s: Cfq, i: nat)
    requires TreeOk(s) && s.tree != [] && i in s.tree
    ensures s.tree[0] < |s.gs| && s.gs[s.tree[0]].on && Vd(s.gs, s.tree[0]) <= Vd(s.gs, i)
  {
    assert s.tree[0] in s.tree;
    assert i == s.tree[0] || i in s.tree[1..];
  }

  lemma GetNextOk(p: seq<int>, s: Cfq)
    requires Ok(p, s)
    ensures Ok(p, GetNext(s)) && s.minVd <= GetNext(s).minVd
  {
    forall i | 0 <= i < |s.gs| && s.gs[i].on ensures s.gs[i].vdisktime >= GetNext(s).minVd {
      FirstIsLeast(s, i);
    }
  }

  /** Group g is at vd; no other group has moved, come or gone. */
  ghost predicate Moved(s: Cfq, r: Cfq, g: nat, vd: nat) {
    && |r.gs| == |s.gs| && r.minVd == s.minVd && Vd(r.gs, g) == vd
    && (forall i :: 0 <= i < |s.gs| ==> r.gs[i].on == s.gs[i].on)
    && (forall i :: 0 <= i < |s.gs| && i != g ==> r.gs[i].vdisktime == s.gs[i].vdisktime)
  }

  lemma BackOk(p: seq<int>, s: Cfq, s1: Cfq, g: nat, vd: nat)
    requires Good(p, s1.gs) && TreeOk(s1) && QueuesRight(s.gs) && g < |s.gs| && s.gs[g].on
    requires s1.minVd == s.minVd <= vd && SameService(s.gs[g := s.gs[g].(on := false)], s1.gs)
    ensures Ok(p, ServiceAdd(p, SetVd(s1, g, vd), g)) && Moved(s, ServiceAdd(p, SetVd(s1, g, vd), g), g, vd)
  {
    assert SetVd(s1, g, vd) == WithQueues(s1, g, s1.gs[g].nrCfqq, vd);
    QueuesOk(p, s1, g, s1.gs[g].nrCfqq, vd);
    ServiceAddOk(p, SetVd(s1, g, vd), g);
  }

  /** A group that leaves and comes back further right: nothing else moves. */
  lemma MovedOk(p: seq<int>, s: Cfq, s1: Cfq, g: nat, vd: nat)
    requires Ok(p, s) && g < |s.gs| && s.gs[g].on && vd >= s.gs[g].vdisktime && s1 == ServiceDel(p, s, g)
    ensures Ok(p, ServiceAdd(p, SetVd(s1, g, vd), g)) && Moved(s, ServiceAdd(p, SetVd(s1, g, vd), g), g, vd)
  {
    ServiceDelOk(p, s, g);
    BackOk(p, s, s1, g, vd);
  }

  lemma ReinsertOk(p: seq<int>, s: Cfq, g: nat, vd: nat)
    requires Ok(p, s) && g < |s.gs| && s.gs[g].on && vd >= s.gs[g].vdisktime
    ensures Ok(p, Reinsert(p, s, g, vd)) && Moved(s, Reinsert(p, s, g, vd), g, vd)
  {
    MovedOk(p, s, ServiceDel(p, s, g), g, vd);
  }

  /** Serving a group: it moves right by its scaled charge, and nothing else moves. */
  lemma ServedOk(p: seq<int>, s: Cfq, g: nat, charge: nat)
    requires Ok(p, s) && g < |s.gs| && s.gs[g].on
    ensures s.gs[g].vfraction >= 1 && Ok(p, Served(p, s, g, charge))
    ensures Moved(s, Served(p, s, g, charge), g, s.gs[g].vdisktime + ScaleCharge(charge, s.gs[g].vfraction))
  {
    FractionOn(s, g);
    var vd := s.gs[g].vdisktime + ScaleCharge(charge, s.gs[g].vfraction);
    ServedIs(p, s, g, charge, vd);
    ReinsertOk(p, s, g, vd);
  }

  lemma FractionOn(s: Cfq, g: nat)
    requires TreeOk(s) && g < |s.gs| && s.gs[g].on
    ensures s.gs[g].vfraction >= 1
  {
  }

  lemma ServedIs(p: seq<int>, s: Cfq, g: nat, charge: nat, vd: nat)
    requires Fits(p, s) && g < |s.gs| && s.gs[g].vfraction > 0
    requires vd == s.gs[g].vdisktime + ScaleCharge(charge, s.gs[g].vfraction)
    ensures Served(p, s, g, charge) == Reinsert(p, s, g, vd)
  {
  }

  /** Asking for new weights: they wait until the group comes onto the tree or becomes active. */
  lemma PendingOk(p: seq<int>, s: Cfq, r: Cfq, g: nat)
    requires Ok(p, s) && g < |s.gs| && r.tree == s.tree && r.minVd == s.minVd && |r.gs| == |s.gs|
    requires r.gs == s.gs[g := s.gs[g].(newWeight := r.gs[g].newWeight, newLeafWeight := r.gs[g].newLeafWeight)]
    ensures Ok(p, r)
  {
    ServiceIsNoWeight(p, s.gs, r.gs);
    OrderedSame(s.tree, s.gs, r.gs);
  }
}
