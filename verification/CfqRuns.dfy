/** Whole runs of the CFQ group scheduler: what every state keeps, and how far two groups can drift apart. */
module CfqRuns {
  import opened Lists
  import opened CfqWeights
  import opened CfqShares
  import opened CfqTree

  datatype Op =
    | AddQueue(g: nat)
    | DelQueue(g: nat)
    | ServeNext(charge: nat)
    | SetWeight(g: nat, weight: nat)
    | SetLeafWeight(g: nat, weight: nat)

  /** When a step can be taken: a queue is only taken from a group that has one, and weights are not 0. */
  ghost predicate Enabled(p: seq<int>, s: Cfq, op: Op) {
    && Ok(p, s)
    && match op
    case AddQueue(g) => g < |s.gs|
    case DelQueue(g) => g < |s.gs| && s.gs[g].nrCfqq >= 1
    case ServeNext(_) => s.tree != [] && s.tree[0] < |s.gs| && s.gs[s.tree[0]].vfraction > 0
    case SetWeight(g, w) => g < |s.gs| && w > 0
    case SetLeafWeight(g, w) => g < |s.gs| && w > 0
  }

  /** One step; the served group is the one cfq_get_next_cfqg returns. */
  ghost function Apply(p: seq<int>, hz: nat, s: Cfq, op: Op): Cfq {
    if !Enabled(p, s, op) then s
    else match op
      case AddQueue(g) => QueueAdd(p, s, g, hz)
      case DelQueue(g) => QueueDel(p, s, g)
      case ServeNext(charge) => Served(p, GetNext(s), s.tree[0], charge)
      case SetWeight(g, w) => s.(gs := s.gs[g := s.gs[g].(newWeight := w)])
      case SetLeafWeight(g, w) => s.(gs := s.gs[g := s.gs[g].(newLeafWeight := w)])
  }

  ghost function Run(p: seq<int>, hz: nat, s: Cfq, ops: seq<Op>): Cfq
    decreases |ops|
  {
    if ops == [] then s else Run(p, hz, Apply(p, hz, s, ops[0]), ops[1..])
  }

  /** No group is on the tree yet. */
  ghost predicate Fresh(p: seq<int>, s: Cfq) {
    && Rooted(p) && |p| == |s.gs| && s.tree == []
    && forall i :: 0 <= i < |s.gs| ==>
         && !s.gs[i].on && s.gs[i].nrActive == 0 && s.gs[i].childrenWeight == 0 && s.gs[i].nrCfqq == 0
         && s.gs[i].weight > 0 && s.gs[i].leafWeight > 0
  }

  lemma FreshOk(p: seq<int>, s: Cfq)
    requires Fresh(p, s)
    ensures Ok(p, s)
  {
    forall i | 0 <= i < |s.gs| ensures CountsRight(p, s.gs, Active(s.gs), i) {
      NothingCounted(p, Active(s.gs), Ones(|p|), i, |p|);
      NothingCounted(p, Active(s.gs), Weights(s.gs), i, |p|);
    }
  }

  lemma ServeNextOk(p: seq<int>, s: Cfq, charge: nat)
    requires Ok(p, s) && s.tree != []
    ensures var g := s.tree[0];
            && g < |s.gs| && s.gs[g].on && s.gs[g].vfraction >= 1
            && Ok(p, Served(p, GetNext(s), g, charge))
            && Moved(GetNext(s), Served(p, GetNext(s), g, charge), g, s.gs[g].vdisktime + ScaleCharge(charge, s.gs[g].vfraction))
  {
    FirstIsLeast(s, s.tree[0]);
    GetNextOk(p, s);
    ServedOk(p, GetNext(s), s.tree[0], charge);
  }

  lemma ApplyOk(p: seq<int>, hz: nat, s: Cfq, op: Op)
    requires Ok(p, s)
    ensures Ok(p, Apply(p, hz, s, op))
  {
    if Enabled(p, s, op) {
      match op {
        case AddQueue(g) => QueueAddOk(p, s, g, hz);
        case DelQueue(g) => QueueDelOk(p, s, g);
        case ServeNext(charge) => ServeNextOk(p, s, charge);
        case SetWeight(g, w) => PendingOk(p, s, s.(gs := s.gs[g := s.gs[g].(newWeight := w)]), g);
        case SetLeafWeight(g, w) => PendingOk(p, s, s.(gs := s.gs[g := s.gs[g].(newLeafWeight := w)]), g);
      }
    }
  }

  /** In every reachable state counts and weight sums are right, the tree is in order, and min_vdisktime is at most the
      vdisktime of every group on it. */
  lemma {:induction false} RunsOk(p: seq<int>, hz: nat, s: Cfq, ops: seq<Op>)
    requires Ok(p, s)
    ensures Ok(p, Run(p, hz, s, ops))
    decreases |ops|
  {
    if ops != [] {
      ApplyOk(p, hz, s, ops[0]);
      RunsOk(p, hz, Apply(p, hz, s, ops[0]), ops[1..]);
    }
  }

  /** In every state a run reaches from the start, the shares of the groups on the tree sum to 1 and their fixed-point
      fractions to at most 1. */
  lemma ReachableShares(p: seq<int>, hz: nat, s: Cfq, ops: seq<Op>, g: nat)
    requires Fresh(p, s) && g in Run(p, hz, s, ops).tree
    ensures var r := Run(p, hz, s, ops);
            && Good(p, r.gs) && Shares(p, r.gs, |r.gs|) == 1.0 && FixedSum(p, r.gs, |r.gs|) <= ONE
  {
    FreshOk(p, s);
    RunsOk(p, hz, s, ops);
    SharesSumToOne(p, Run(p, hz, s, ops).gs, g);
    FixedSumAtMostOne(p, Run(p, hz, s, ops).gs, g);
  }

  /* ---- min_vdisktime ---- */

  lemma MinStep(p: seq<int>, hz: nat, s: Cfq, op: Op)
    requires Ok(p, s)
    ensures s.minVd <= Apply(p, hz, s, op).minVd
  {
    if Enabled(p, s, op) && op.ServeNext? {
      GetNextOk(p, s);
      ServeNextOk(p, s, op.charge);
    }
  }

  /** min_vdisktime never goes back. */
  lemma {:induction false} MinMonotone(p: seq<int>, hz: nat, s: Cfq, ops: seq<Op>)
    requires Ok(p, s)
    ensures s.minVd <= Run(p, hz, s, ops).minVd
    decreases |ops|
  {
    if ops != [] {
      MinStep(p, hz, s, ops[0]);
      ApplyOk(p, hz, s, ops[0]);
      MinMonotone(p, hz, Apply(p, hz, s, ops[0]), ops[1..]);
    }
  }

  /* ---- lag ---- */

  function Distance(a: nat, b: nat): nat { if a < b then b - a else a - b }

  ghost function Lag(s: Cfq, x: nat, y: nat): nat { Distance(Vd(s.gs, x), Vd(s.gs, y)) }

  /** The scaled charge of a step: how far right it moves the served group. */
  ghost function ChargeOf(p: seq<int>, s: Cfq, op: Op): nat {
    if Enabled(p, s, op) && op.ServeNext? then ScaleCharge(op.charge, s.gs[s.tree[0]].vfraction) else 0
  }

  /** Groups x and y are on the tree before and after every step, and no scaled charge exceeds `most`. */
  ghost predicate Steady(p: seq<int>, hz: nat, s: Cfq, ops: seq<Op>, x: nat, y: nat, most: nat)
    decreases |ops|
  {
    && x in s.tree && y in s.tree
    && (ops != [] ==> ChargeOf(p, s, ops[0]) <= most && Steady(p, hz, Apply(p, hz, s, ops[0]), ops[1..], x, y, most))
  }

  /** The leftmost group moves right by c: its distance to another is at most what it was, or c. */
  lemma MoveRight(s: Cfq, r: Cfq, g: nat, c: nat, x: nat, y: nat)
    requires g < |s.gs| && Moved(s, r, g, Vd(s.gs, g) + c) && x < |s.gs| && y < |s.gs|
    requires Vd(s.gs, g) <= Vd(s.gs, x) && Vd(s.gs, g) <= Vd(s.gs, y)
    ensures Lag(r, x, y) <= Max(Lag(s, x, y), c)
  {
    assert x != g ==> Vd(r.gs, x) == Vd(s.gs, x);
    assert y != g ==> Vd(r.gs, y) == Vd(s.gs, y);
  }

  lemma ServeLag(p: seq<int>, s: Cfq, charge: nat, x: nat, y: nat)
    requires Ok(p, s) && s.tree != [] && x in s.tree && y in s.tree
    ensures var g := s.tree[0];
            && g < |s.gs| && s.gs[g].vfraction >= 1
            && Lag(Served(p, GetNext(s), g, charge), x, y) <= Max(Lag(s, x, y), ScaleCharge(charge, s.gs[g].vfraction))
  {
    var g := s.tree[0];
    FirstIsLeast(s, x);
    FirstIsLeast(s, y);
    ServeNextOk(p, s, charge);
    MoveRight(GetNext(s), Served(p, GetNext(s), g, charge), g, ScaleCharge(charge, s.gs[g].vfraction), x, y);
  }

  /** Steps that serve nobody move no group that is on the tree. */
  lemma QuietVd(p: seq<int>, hz: nat, s: Cfq, op: Op, x: nat)
    requires Ok(p, s) && !op.ServeNext? && x in s.tree
    ensures Vd(Apply(p, hz, s, op).gs, x) == Vd(s.gs, x)
  {
    if Enabled(p, s, op) {
      match op {
        case AddQueue(g) => QueueAddVd(p, s, g, hz, x);
        case DelQueue(g) => QueueDelVd(p, s, g, x);
        case _ =>
      }
    }
  }

  lemma QueueAddVd(p: seq<int>, s: Cfq, g: nat, hz: nat, x: nat)
    requires Ok(p, s) && g < |s.gs| && x in s.tree
    ensures Vd(QueueAdd(p, s, g, hz).gs, x) == Vd(s.gs, x)
  {
    if !s.gs[g].on {
      NewVdOk(s, hz);
      AddedVd(p, s, g, s.gs[g].nrCfqq + 1, NewVd(s, hz), x);
    }
  }

  lemma QueueDelVd(p: seq<int>, s: Cfq, g: nat, x: nat)
    requires Ok(p, s) && g < |s.gs| && s.gs[g].nrCfqq >= 1 && x in s.tree
    ensures Vd(QueueDel(p, s, g).gs, x) == Vd(s.gs, x)
  {
    if s.gs[g].nrCfqq == 1 {
      DeletedVd(p, s, g, x);
    }
  }

  lemma AddedVd(p: seq<int>, s: Cfq, g: nat, n: nat, vd: nat, x: nat)
    requires Ok(p, s) && g < |s.gs| && !s.gs[g].on && vd >= s.minVd && x in s.tree
    ensures Vd(ServiceAdd(p, WithQueues(s, g, n, vd), g).gs, x) == Vd(s.gs, x)
  {
    QueuesOk(p, s, g, n, vd);
    ServiceAddOk(p, WithQueues(s, g, n, vd), g);
  }

  lemma DeletedVd(p: seq<int>, s: Cfq, g: nat, x: nat)
    requires Ok(p, s) && g < |s.gs| && s.gs[g].on && x in s.tree
    ensures Vd(ServiceDel(p, WithQueues(s, g, 0, s.gs[g].vdisktime), g).gs, x) == Vd(s.gs, x)
  {
    QueuesOk(p, s, g, 0, s.gs[g].vdisktime);
    ServiceDelOk(p, WithQueues(s, g, 0, s.gs[g].vdisktime), g);
  }

  lemma StepLag(p: seq<int>, hz: nat, s: Cfq, op: Op, x: nat, y: nat)
    requires Ok(p, s) && x in s.tree && y in s.tree
    ensures Lag(Apply(p, hz, s, op), x, y) <= Max(Lag(s, x, y), ChargeOf(p, s, op))
  {
    if op.ServeNext? {
      if Enabled(p, s, op) {
        ServeLag(p, s, op.charge, x, y);
      }
    } else {
      QuietVd(p, hz, s, op, x);
      QuietVd(p, hz, s, op, y);
    }
  }

  /** Two groups that stay on the tree are never further apart than at the start or than the largest scaled charge. */
  lemma {:induction false} LagBound(p: seq<int>, hz: nat, s: Cfq, ops: seq<Op>, x: nat, y: nat, most: nat)
    requires Ok(p, s) && Steady(p, hz, s, ops, x, y, most)
    ensures Lag(Run(p, hz, s, ops), x, y) <= Max(Lag(s, x, y), most)
    decreases |ops|
  {
    if ops != [] {
      StepLag(p, hz, s, ops[0], x, y);
      ApplyOk(p, hz, s, ops[0]);
      LagBound(p, hz, Apply(p, hz, s, ops[0]), ops[1..], x, y, most);
    }
  }
}
