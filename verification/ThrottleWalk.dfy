/**
 The order in which blk_throtl_drain visits groups (block/blk-throttle.c): a post-order walk of the hierarchy visits every
 group after its children, and so does any walk of the flat hierarchy, in which every group is directly below the top.
 */
module ThrottleWalk {
  import opened ThrottleQueue
  import opened ThrottleTree
  import opened ThrottleDrain
  import opened ThrottleRuns

  /** The walk of the subtree of i: its children, each with its subtree, and then i. */
  ghost function PostOrder(p: seq<nat>, i: nat): seq<nat>
    requires i < |p|
    decreases |p| - i, 0
  {
    Below(p, i, i + 1) + [i]
  }

  /** The walks of the children of i from c on. */
  ghost function Below(p: seq<nat>, i: nat, c: nat): seq<nat>
    requires i < c <= |p|
    decreases |p| - c, 1
  {
    if c == |p| then [] else (if p[c] == i then PostOrder(p, c) else []) + Below(p, i, c + 1)
  }

  /** x is i, or below it. */
  ghost predicate Under(p: seq<nat>, x: nat, i: nat)
    requires Rooted(p)
  {
    x < |p| && (x == i || (x > i && Under(p, p[x], i)))
  }

  lemma {:induction false} UnderLater(p: seq<nat>, x: nat, i: nat)
    requires Rooted(p) && Under(p, x, i)
    ensures i <= x < |p|
  {
  }

  /** The child of i on the way down to x. */
  lemma {:induction false} WayDown(p: seq<nat>, x: nat, i: nat) returns (k: nat)
    requires Rooted(p) && Under(p, x, i) && x != i
    ensures i < k <= x && p[k] == i && Under(p, x, k)
  {
    if p[x] == i {
      k := x;
    } else {
      k := WayDown(p, p[x], i);
    }
  }

  lemma {:induction false} UnderUp(p: seq<nat>, x: nat, k: nat, i: nat)
    requires Rooted(p) && Under(p, x, k) && 0 < k && p[k] == i
    ensures Under(p, x, i)
  {
    UnderLater(p, x, k);
    if x != k {
      UnderUp(p, p[x], k, i);
    }
  }

  /** Siblings have nothing below them in common. */
  lemma {:induction false} Apart(p: seq<nat>, z: nat, a: nat, b: nat)
    requires Rooted(p) && Under(p, z, a) && Under(p, z, b) && 0 < a < |p| && 0 < b < |p| && p[a] == p[b]
    ensures a == b
  {
    UnderLater(p, z, a);
    UnderLater(p, z, b);
    if z == a && z != b {
      UnderLater(p, p[z], b);
    } else if z == b && z != a {
      UnderLater(p, p[z], a);
    } else if z != a {
      Apart(p, p[z], a, b);
    }
  }

  /* ---- the walk visits exactly the subtree ---- */

  lemma {:induction false} PostOrderHas(p: seq<nat>, i: nat, x: nat)
    requires Rooted(p) && i < |p|
    ensures x in PostOrder(p, i) <==> Under(p, x, i)
    decreases |p| - i, 0
  {
    BelowHas(p, i, i + 1, x);
    if Under(p, x, i) && x != i {
      var k := WayDown(p, x, i);
      SomeChild(p, x, i, i + 1, k);
    }
    if x in Below(p, i, i + 1) {
      var k := WhichChild(p, x, i, i + 1);
      UnderUp(p, x, k, i);
    }
  }

  /** x is under a child of i from c on. */
  ghost predicate UnderChild(p: seq<nat>, x: nat, i: nat, c: nat)
    requires Rooted(p) && c <= |p|
    decreases |p| - c
  {
    c < |p| && ((p[c] == i && Under(p, x, c)) || UnderChild(p, x, i, c + 1))
  }

  lemma {:induction false} WhichChild(p: seq<nat>, x: nat, i: nat, c: nat) returns (k: nat)
    requires Rooted(p) && c <= |p| && UnderChild(p, x, i, c)
    ensures c <= k < |p| && p[k] == i && Under(p, x, k)
    decreases |p| - c
  {
    if p[c] == i && Under(p, x, c) {
      k := c;
    } else {
      k := WhichChild(p, x, i, c + 1);
    }
  }

  lemma {:induction false} SomeChild(p: seq<nat>, x: nat, i: nat, c: nat, k: nat)
    requires Rooted(p) && c <= k < |p| && p[k] == i && Under(p, x, k)
    ensures UnderChild(p, x, i, c)
    decreases k - c
  {
    if c < k {
      SomeChild(p, x, i, c + 1, k);
    }
  }

  lemma {:induction false} BelowHas(p: seq<nat>, i: nat, c: nat, x: nat)
    requires Rooted(p) && i < c <= |p|
    ensures x in Below(p, i, c) <==> UnderChild(p, x, i, c)
    decreases |p| - c, 1
  {
    if c < |p| {
      BelowHas(p, i, c + 1, x);
      if p[c] == i {
        PostOrderHas(p, c, x);
      }
    }
  }

  /* ---- and no group before one of its children ---- */

  ghost predicate Upward(p: seq<nat>, s: seq<nat>) {
    && (forall k :: 0 <= k < |s| ==> s[k] < |p|)
    && (forall a, b :: 0 <= a < b < |s| ==> p[s[b]] != s[a])
  }

  lemma UpwardConcat(p: seq<nat>, s: seq<nat>, t: seq<nat>)
    requires Upward(p, s) && Upward(p, t)
    requires forall x, y :: x in s && y in t && y < |p| ==> p[y] != x
    ensures Upward(p, s + t)
  {
    var r := s + t;
    forall a, b | 0 <= a < b < |r| ensures r[b] < |p| && p[r[b]] != r[a] {
      if a < |s| && b >= |s| {
        assert r[a] in s && r[b] in t;
      }
    }
  }

  lemma {:induction false} PostOrderUpward(p: seq<nat>, i: nat)
    requires Rooted(p) && 0 < i < |p|
    ensures Upward(p, PostOrder(p, i))
    decreases |p| - i, 0
  {
    var below := Below(p, i, i + 1);
    BelowUpward(p, i, i + 1);
    forall x | x in below ensures p[i] != x {
      BelowHas(p, i, i + 1, x);
      var k := WhichChild(p, x, i, i + 1);
      UnderLater(p, x, k);
    }
    UpwardConcat(p, below, [i]);
  }

  lemma {:induction false} BelowUpward(p: seq<nat>, i: nat, c: nat)
    requires Rooted(p) && 0 < i < c <= |p|
    ensures Upward(p, Below(p, i, c))
    decreases |p| - c, 1
  {
    if c < |p| {
      BelowUpward(p, i, c + 1);
      if p[c] == i {
        var first, rest := PostOrder(p, c), Below(p, i, c + 1);
        PostOrderUpward(p, c);
        forall x, y | x in first && y in rest && y < |p| ensures p[y] != x {
          NotBetween(p, i, c, x, y);
        }
        UpwardConcat(p, first, rest);
      } else {
        assert [] + Below(p, i, c + 1) == Below(p, i, c + 1);
      }
    }
  }

  /** Nothing below a later child of i has its parent below an earlier one. */
  lemma NotBetween(p: seq<nat>, i: nat, c: nat, x: nat, y: nat)
    requires Rooted(p) && 0 < i < c < |p| && p[c] == i && y < |p|
    requires x in PostOrder(p, c) && y in Below(p, i, c + 1)
    ensures p[y] != x
  {
    PostOrderHas(p, c, x);
    BelowHas(p, i, c + 1, y);
    var k := WhichChild(p, y, i, c + 1);
    UnderLater(p, x, c);
    UnderLater(p, y, k);
    if p[y] == x && y != k {
      Apart(p, x, c, k);
    }
  }

  lemma {:induction false} AllUnderRoot(p: seq<nat>, i: nat)
    requires Rooted(p) && 1 <= i < |p| && forall k :: 1 < k < |p| ==> p[k] >= 1
    ensures Under(p, i, 1)
  {
    if i > 1 {
      AllUnderRoot(p, p[i]);
    }
  }

  /** The post-order walk from the root group visits every group after its children. */
  lemma PostOrderIsChildrenFirst(p: seq<nat>)
    requires Rooted(p) && |p| > 1 && forall k :: 1 < k < |p| ==> p[k] >= 1
    ensures ChildrenFirst(p, PostOrder(p, 1))
  {
    var order := PostOrder(p, 1);
    PostOrderUpward(p, 1);
    forall i | 0 < i < |p| ensures i in order {
      AllUnderRoot(p, i);
      PostOrderHas(p, 1, i);
    }
    forall k | 0 <= k < |order| ensures 0 < order[k] {
      PostOrderHas(p, 1, order[k]);
      UnderLater(p, order[k], 1);
    }
  }

  /** So a drain of the hierarchy leaves nothing queued or counted, and issues every bio that was queued exactly once, after
      any run. */
  lemma DrainCompletes(p: seq<nat>, ops: seq<Op>, w: What)
    requires Rooted(p) && |p| > 1 && forall k :: 1 < k < |p| ==> p[k] >= 1
    ensures forall k :: 0 <= k < |PostOrder(p, 1)| ==> PostOrder(p, 1)[k] < |p|
    ensures var r := DrainQueue(p, Run(p, ops), PostOrder(p, 1));
            && (forall i :: 0 <= i < |p| ==> r.rd.queued[i] == [] && r.wr.queued[i] == [])
            && r.rd.total == 0 && r.wr.total == 0
            && Tally(r.issued, w) == Tally(Submitted(p, ops), w)
  {
    PostOrderIsChildrenFirst(p);
    DrainLeavesNothing(p, Run(p, ops), PostOrder(p, 1));
    DrainIssuesEachOnce(p, Run(p, ops), PostOrder(p, 1), w);
    Conservation(p, ops, w);
  }

  /** In the flat hierarchy any walk over all groups does. */
  lemma FlatIsChildrenFirst(p: seq<nat>, order: seq<nat>)
    requires forall i :: 0 < i < |p| ==> p[i] == 0 && i in order
    requires forall k :: 0 <= k < |order| ==> 0 < order[k] < |p|
    ensures ChildrenFirst(p, order)
  {
  }
}
