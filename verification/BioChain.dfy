/**
 Chained bios (block/bio.c): a bio's completion is passed up to its parent when its own I/O and all bios chained to it
 have completed. In every order of completions each bio is finished exactly once, after its whole subtree.
 */
module BioChain {

  /** struct bio as far as completion goes. `parent` is bi_private of a chained bio or -1; `done` says that the owner of
      its I/O has called bio_endio; `ends` and `puts` count calls of a root's bi_end_io and of bio_put. */
  datatype Bio = Bio(parent: int, chain: bool, remaining: int, done: bool, ends: nat, puts: nat, error: int)

  /** Bios are numbered so that a bio is chained only to one with a lower number; any forest can be. */
  type Bios = seq<Bio>

  ghost predicate Finished(b: Bio) { b.ends > 0 || b.puts > 0 }

  ghost predicate Forest(bs: Bios) { forall i :: 0 <= i < |bs| ==> -1 <= bs[i].parent < i }

  /** bio_init */
  const Fresh := Bio(-1, false, 1, false, 0, 0, 0)

  /* ---- operations ---- */

  /** bio_chain */
  function Chain(bs: Bios, c: nat, p: nat): Bios
    requires c < |bs| && p < |bs|
  {
    var bs1 := bs[c := bs[c].(parent := p)];
    bs1[p := bs1[p].(chain := true, remaining := bs1[p].remaining + 1)]
  }

  /** bio_remaining_done: whether this was the last completion, and the bio it leaves. */
  function RemainingDone(b: Bio): (bool, Bio) {
    if !b.chain then (true, b)
    else if b.remaining - 1 == 0 then (true, b.(remaining := 0, chain := false))
    else (false, b.(remaining := b.remaining - 1))
  }

  /** bio_endio: the loop walks up as long as bios are finished. */
  function Endio(bs: Bios, i: nat): (r: Bios)
    requires i < |bs| && forall k :: 0 <= k < |bs| ==> bs[k].parent < k
    ensures |r| == |bs|
    decreases i
  {
    var (last, b) := RemainingDone(bs[i]);
    if !last then bs[i := b]
    else if b.parent < 0 then bs[i := b.(ends := b.ends + 1)]
    else
      var bs1 := bs[i := b.(puts := b.puts + 1)];
      Endio(bs1[b.parent := bs1[b.parent].(error := b.error)], b.parent)
  }

  /** bio_endio as bio_chain_endio defines it: the parent first, and only then the bio is put. */
  function EndioRecursive(bs: Bios, i: nat): (r: Bios)
    requires i < |bs| && forall k :: 0 <= k < |bs| ==> bs[k].parent < k
    ensures |r| == |bs| && forall k :: i < k < |bs| ==> r[k] == bs[k]
    decreases i
  {
    var (last, b) := RemainingDone(bs[i]);
    if !last then bs[i := b]
    else if b.parent < 0 then bs[i := b.(ends := b.ends + 1)]
    else
      var bs1 := bs[i := b];
      var up := EndioRecursive(bs1[b.parent := bs1[b.parent].(error := b.error)], b.parent);
      up[i := up[i].(puts := up[i].puts + 1)]
  }

  /** The walk up touches nothing above the bio it starts from, so the order of the put does not matter. */
  lemma {:induction false} PutCommutes(bs: Bios, i: nat, k: nat)
    requires i < k < |bs| && forall k :: 0 <= k < |bs| ==> bs[k].parent < k
    ensures var more := bs[k := bs[k].(puts := bs[k].puts + 1)];
            Endio(more, i) == Endio(bs, i)[k := bs[k].(puts := bs[k].puts + 1)] && Endio(bs, i)[k] == bs[k]
    decreases i
  {
    var more := bs[k := bs[k].(puts := bs[k].puts + 1)];
    var (last, b) := RemainingDone(bs[i]);
    if !last || b.parent < 0 {
      assert more[i := b] == bs[i := b][k := more[k]];
      assert more[i := b.(ends := b.ends + 1)] == bs[i := b.(ends := b.ends + 1)][k := more[k]];
    } else {
      var bs1 := bs[i := b.(puts := b.puts + 1)];
      var bs2 := bs1[b.parent := bs1[b.parent].(error := b.error)];
      var more1 := more[i := b.(puts := b.puts + 1)];
      assert more1[b.parent := more1[b.parent].(error := b.error)] == bs2[k := more[k]];
      PutCommutes(bs2, b.parent, k);
    }
  }

  /** The flattened loop agrees with the recursive definition. */
  lemma {:induction false} LoopIsRecursion(bs: Bios, i: nat)
    requires i < |bs| && forall k :: 0 <= k < |bs| ==> bs[k].parent < k
    ensures Endio(bs, i) == EndioRecursive(bs, i)
    decreases i
  {
    var (last, b) := RemainingDone(bs[i]);
    if last && b.parent >= 0 {
      var bs1 := bs[i := b];
      var bs2 := bs1[b.parent := bs1[b.parent].(error := b.error)];
      LoopIsRecursion(bs2, b.parent);
      PutCommutes(bs2, b.parent, i);
      var put := bs[i := b.(puts := b.puts + 1)];
      assert put[b.parent := put[b.parent].(error := b.error)] == bs2[i := b.(puts := b.puts + 1)];
    }
  }

  /* ---- the invariant ---- */

  /** How many of the first n bios are chained to p and unfinished. */
  ghost function Kids(bs: Bios, p: int, n: nat): nat
    requires n <= |bs|
  {
    if n == 0 then 0 else Kids(bs, p, n - 1) + (if bs[n - 1].parent == p && !Finished(bs[n - 1]) then 1 else 0)
  }

  /** What bio i still waits for: its own I/O, and its unfinished children. */
  ghost function Waits(bs: Bios, i: nat): nat
    requires i < |bs|
  {
    (if bs[i].done then 0 else 1) + Kids(bs, i, |bs|)
  }

  /** A chained-to bio counts what it waits for; a bio waits for nothing exactly when it has been finished, once, and in
      the way that fits it. */
  ghost predicate BioOk(bs: Bios, i: nat)
    requires i < |bs|
  {
    var b := bs[i];
    && (Finished(b) <==> Waits(bs, i) == 0)
    && (!Finished(b) ==> b.remaining == Waits(bs, i))
    && (!Finished(b) && !b.chain ==> Kids(bs, i, |bs|) == 0 && !b.done)
    && b.ends <= 1 && b.puts <= 1 && (b.parent >= 0 ==> b.ends == 0) && (b.parent < 0 ==> b.puts == 0)
  }

  ghost predicate Ok(bs: Bios) { Forest(bs) && forall i :: 0 <= i < |bs| ==> BioOk(bs, i) }

  /** Bio i has just had a completion that it has not counted yet. */
  ghost predicate Due(bs: Bios, i: nat)
    requires i < |bs|
  {
    var b := bs[i];
    && !Finished(b) && b.ends == 0 && b.puts == 0
    && b.remaining == Waits(bs, i) + 1
    && (!b.chain ==> Waits(bs, i) == 0)
  }

  ghost predicate OkBut(bs: Bios, i: nat) {
    Forest(bs) && i < |bs| && Due(bs, i) && forall k :: 0 <= k < |bs| && k != i ==> BioOk(bs, k)
  }

  lemma {:induction false} KidsSame(a: Bios, b: Bios, p: int, n: nat)
    requires n <= |a| == |b|
    requires forall k :: 0 <= k < n ==> a[k].parent == b[k].parent && (Finished(a[k]) <==> Finished(b[k]))
    ensures Kids(a, p, n) == Kids(b, p, n)
  {
    if n > 0 {
      KidsSame(a, b, p, n - 1);
    }
  }

  /** One bio is finished: its parent waits for one less. */
  lemma {:induction false} KidFinished(a: Bios, b: Bios, i: nat, p: int, n: nat)
    requires n <= |a| == |b| && i < |a| && !Finished(a[i]) && Finished(b[i]) && a[i].parent == b[i].parent
    requires forall k :: 0 <= k < n && k != i ==> a[k].parent == b[k].parent && (Finished(a[k]) <==> Finished(b[k]))
    ensures Kids(a, p, n) == Kids(b, p, n) + (if i < n && a[i].parent == p then 1 else 0)
  {
    if n > 0 {
      KidFinished(a, b, i, p, n - 1);
    }
  }

  /** One bio is chained: its new parent waits for one more. */
  lemma {:induction false} KidChained(a: Bios, b: Bios, c: nat, p: int, n: nat)
    requires n <= |a| == |b| && c < |a| && !Finished(a[c]) && !Finished(b[c]) && a[c].parent != b[c].parent
    requires forall k :: 0 <= k < n && k != c ==> a[k].parent == b[k].parent && (Finished(a[k]) <==> Finished(b[k]))
    ensures Kids(b, p, n) == Kids(a, p, n)
      + (if c < n && b[c].parent == p then 1 else 0) - (if c < n && a[c].parent == p then 1 else 0)
  {
    if n > 0 {
      KidChained(a, b, c, p, n - 1);
    }
  }

  lemma {:induction false} KidCounts(bs: Bios, c: nat, n: nat)
    requires c < n <= |bs| && !Finished(bs[c])
    ensures Kids(bs, bs[c].parent, n) >= 1
  {
    if c < n - 1 {
      KidCounts(bs, c, n - 1);
    }
  }

  /* ---- one completion ---- */

  /** The completion is not the last the bio waits for. */
  lemma CountedDown(bs: Bios, i: nat)
    requires OkBut(bs, i) && !RemainingDone(bs[i]).0
    ensures Ok(bs[i := RemainingDone(bs[i]).1])
  {
    var r := bs[i := RemainingDone(bs[i]).1];
    forall k | 0 <= k < |bs| ensures BioOk(r, k) {
      assert k != i ==> BioOk(bs, k);
      KidsSame(bs, r, k, |bs|);
    }
  }

  /** The last completion of a root. */
  lemma RootEnds(bs: Bios, i: nat)
    requires OkBut(bs, i) && RemainingDone(bs[i]).0 && bs[i].parent < 0
    ensures var b := RemainingDone(bs[i]).1; Ok(bs[i := b.(ends := b.ends + 1)])
  {
    var b := RemainingDone(bs[i]).1;
    var r := bs[i := b.(ends := b.ends + 1)];
    forall k | 0 <= k < |bs| ensures BioOk(r, k) {
      assert k != i ==> BioOk(bs, k);
      KidFinished(bs, r, i, k, |bs|);
    }
  }

  /** The last completion of a chained bio: it is put, and its parent has a completion to count. */
  lemma PassUp(bs: Bios, i: nat)
    requires OkBut(bs, i) && RemainingDone(bs[i]).0 && bs[i].parent >= 0
    ensures var b := RemainingDone(bs[i]).1;
            var bs1 := bs[i := b.(puts := b.puts + 1)];
            OkBut(bs1[b.parent := bs1[b.parent].(error := b.error)], b.parent)
  {
    var b := RemainingDone(bs[i]).1;
    var p := b.parent;
    var bs1 := bs[i := b.(puts := b.puts + 1)];
    var r := bs1[p := bs1[p].(error := b.error)];
    KidCounts(bs, i, |bs|);
    assert BioOk(bs, p);
    KidFinished(bs, r, i, p, |bs|);
    forall k | 0 <= k < |bs| && k != p ensures BioOk(r, k) {
      assert k != i ==> BioOk(bs, k);
      KidFinished(bs, r, i, k, |bs|);
    }
  }

  lemma {:induction false} EndioOk(bs: Bios, i: nat)
    requires OkBut(bs, i)
    ensures Ok(Endio(bs, i))
    decreases i
  {
    var (last, b) := RemainingDone(bs[i]);
    if !last {
      CountedDown(bs, i);
    } else if b.parent < 0 {
      RootEnds(bs, i);
    } else {
      PassUp(bs, i);
      var bs1 := bs[i := b.(puts := b.puts + 1)];
      EndioOk(bs1[b.parent := bs1[b.parent].(error := b.error)], b.parent);
    }
  }

  /** The bio as the owner of its I/O leaves it: success does not touch bi_error. */
  function Settled(b: Bio, error: int): Bio { b.(done := true, error := if error != 0 then error else b.error) }

  /** The owner of a bio's I/O completes it. */
  function Complete(bs: Bios, i: nat, error: int): Bios
    requires i < |bs| && forall k :: 0 <= k < |bs| ==> bs[k].parent < k
  {
    Endio(bs[i := Settled(bs[i], error)], i)
  }

  lemma SettledDue(bs: Bios, i: nat, error: int)
    requires Ok(bs) && i < |bs| && !bs[i].done
    ensures OkBut(bs[i := Settled(bs[i], error)], i)
  {
    var r := bs[i := Settled(bs[i], error)];
    assert BioOk(bs, i);
    forall k | 0 <= k < |bs| ensures Kids(r, k, |bs|) == Kids(bs, k, |bs|) {
      KidsSame(bs, r, k, |bs|);
    }
    forall k | 0 <= k < |bs| && k != i ensures BioOk(r, k) {
      assert BioOk(bs, k);
    }
  }

  lemma CompleteOk(bs: Bios, i: nat, error: int)
    requires Ok(bs) && i < |bs| && !bs[i].done
    ensures Ok(Complete(bs, i, error))
  {
    SettledDue(bs, i, error);
    EndioOk(bs[i := Settled(bs[i], error)], i);
  }

  lemma ChainOk(bs: Bios, c: nat, p: nat)
    requires Ok(bs) && p < c < |bs| && bs[c].parent < 0 && !Finished(bs[c]) && !Finished(bs[p])
    ensures Ok(Chain(bs, c, p))
  {
    var r := Chain(bs, c, p);
    forall k | 0 <= k < |bs| ensures BioOk(r, k) {
      assert BioOk(bs, k);
      KidChained(bs, r, c, k, |bs|);
    }
  }

  /* ---- runs ---- */

  datatype Op = OpChain(c: nat, p: nat) | OpComplete(i: nat, error: int)

  /** A bio is chained once, before either of the two is finished, and its I/O completes once. */
  ghost predicate Enabled(bs: Bios, op: Op) {
    match op
    case OpChain(c, p) => p < c < |bs| && bs[c].parent < 0 && !Finished(bs[c]) && !Finished(bs[p])
    case OpComplete(i, _) => i < |bs| && !bs[i].done
  }

  ghost function Apply(bs: Bios, op: Op): (r: Bios)
    requires Ok(bs)
    ensures Ok(r) && |r| == |bs|
  {
    if !Enabled(bs, op) then bs
    else match op
      case OpChain(c, p) => ChainOk(bs, c, p); Chain(bs, c, p)
      case OpComplete(i, error) => CompleteOk(bs, i, error); Complete(bs, i, error)
  }

  lemma {:induction false} FreshOk(n: nat, i: nat, k: nat)
    requires k <= n && i < n
    ensures Kids(seq(n, i => Fresh), i, k) == 0
  {
    if k > 0 {
      FreshOk(n, i, k - 1);
    }
  }

  ghost function Start(n: nat): (bs: Bios)
    ensures Ok(bs) && |bs| == n
  {
    var bs := seq(n, i => Fresh);
    assert forall i :: 0 <= i < n ==> BioOk(bs, i) by {
      forall i | 0 <= i < n ensures BioOk(bs, i) {
        FreshOk(n, i, n);
      }
    }
    bs
  }

  ghost function Run(n: nat, ops: seq<Op>): (bs: Bios)
    ensures Ok(bs) && |bs| == n
  {
    if ops == [] then Start(n) else Apply(Run(n, ops[..|ops| - 1]), ops[|ops| - 1])
  }

  /** Bio i and every bio below it in the tree have completed their own I/O. */
  ghost predicate SubtreeDone(bs: Bios, i: nat)
    requires Forest(bs) && i < |bs|
    decreases |bs| - i
  {
    bs[i].done && forall c :: i < c < |bs| && bs[c].parent == i ==> SubtreeDone(bs, c)
  }

  lemma {:induction false} NoKids(bs: Bios, p: int, n: nat)
    requires n <= |bs|
    ensures Kids(bs, p, n) == 0 <==> forall c :: 0 <= c < n && bs[c].parent == p ==> Finished(bs[c])
  {
    if n > 0 {
      NoKids(bs, p, n - 1);
    }
  }

  lemma {:induction false} FinishedIsSubtreeDone(bs: Bios, i: nat)
    requires Ok(bs) && i < |bs|
    ensures Finished(bs[i]) <==> SubtreeDone(bs, i)
    decreases |bs| - i
  {
    assert BioOk(bs, i);
    NoKids(bs, i, |bs|);
    forall c | i < c < |bs| && bs[c].parent == i ensures Finished(bs[c]) <==> SubtreeDone(bs, c) {
      FinishedIsSubtreeDone(bs, c);
    }
  }

  /** In every run and every completion order: a root's bi_end_io has run exactly once if its whole tree has completed,
      and not at all before; a chained bio has been put exactly once if its subtree has completed, and not before. */
  lemma EndsOnceAfterSubtree(n: nat, ops: seq<Op>, i: nat)
    requires i < n
    ensures var bs := Run(n, ops);
            && (bs[i].parent < 0 ==> bs[i].ends == (if SubtreeDone(bs, i) then 1 else 0) && bs[i].puts == 0)
            && (bs[i].parent >= 0 ==> bs[i].puts == (if SubtreeDone(bs, i) then 1 else 0) && bs[i].ends == 0)
  {
    var bs := Run(n, ops);
    FinishedIsSubtreeDone(bs, i);
    assert BioOk(bs, i);
  }

  /** Counted bios never go below one completion, so the BUG_ON in bio_remaining_done cannot fire. */
  lemma RemainingPositive(n: nat, ops: seq<Op>, i: nat)
    requires i < n && !Finished(Run(n, ops)[i])
    ensures Run(n, ops)[i].remaining >= 1
  {
    assert BioOk(Run(n, ops), i);
  }

  /* ---- the loop ---- */

  class BioPool {
    var bios: Bios

    /** bio_endio */
    method BioEndio(i: nat)
      requires i < |bios| && forall k :: 0 <= k < |bios| ==> bios[k].parent < k
      modifies this
      ensures bios == Endio(old(bios), i)
    {
      var b: nat := i;
      while true
        invariant b < |bios| && forall k :: 0 <= k < |bios| ==> bios[k].parent < k
        invariant Endio(bios, b) == Endio(old(bios), i)
        decreases b
      {
        var bio := bios[b];
        if bio.chain {
          bio := bio.(remaining := bio.remaining - 1);
          if bio.remaining != 0 {
            bios := bios[b := bio];
            return;
          }
          bio := bio.(chain := false);
        }
        if bio.parent < 0 {
          bios := bios[b := bio.(ends := bio.ends + 1)];
          return;
        }
        bios := bios[b := bio.(puts := bio.puts + 1)];
        bios := bios[bio.parent := bios[bio.parent].(error := bio.error)];
        b := bio.parent;
      }
    }

    /** bio_chain */
    method BioChain(c: nat, p: nat)
      requires Ok(bios) && p < c < |bios| && bios[c].parent < 0 && !Finished(bios[c]) && !Finished(bios[p])
      modifies this
      ensures bios == Chain(old(bios), c, p) && Ok(bios)
    {
      ChainOk(bios, c, p);
      bios := bios[c := bios[c].(parent := p)];
      bios := bios[p := bios[p].(chain := true, remaining := bios[p].remaining + 1)];
    }
  }
}
