/**
 Physical segments (block/blk-merge.c): how a chain of bio vectors is cut into segments, and why the running count kept
 through merges never falls below what scatterlist mapping needs.
 */
module Segments {

  type Pos = n: nat | 0 < n witness 1

  /** A bio_vec: where its bytes are in physical memory. */
  datatype Bvec = Bvec(addr: nat, len: Pos)

  /** The queue limits that matter: segment size, the size of the windows no segment may cross, whether segments may be
      clustered at all, how many there may be, and QUEUE_FLAG_NO_SG_MERGE. */
  datatype Limits = Limits(maxSize: nat, window: Pos, cluster: bool, maxSegments: nat, noSgMerge: bool)

  /** BIOVEC_PHYS_MERGEABLE and BIOVEC_SEG_BOUNDARY on a clustering queue. */
  predicate Joinable(q: Limits, a: Bvec, b: Bvec) {
    q.cluster && a.addr + a.len == b.addr && a.addr / q.window == (b.addr + b.len - 1) / q.window
  }

  function Size(s: seq<Bvec>): nat {
    if s == [] then 0 else Size(s[..|s| - 1]) + s[|s| - 1].len
  }

  /** One segment: each vector joins the next, and it is not too large unless a single vector is. */
  ghost predicate Legal(q: Limits, s: seq<Bvec>) {
    && s != []
    && (forall i :: 0 <= i < |s| - 1 ==> Joinable(q, s[i], s[i + 1]))
    && (|s| > 1 ==> Size(s) <= q.maxSize)
  }

  function Flatten<T>(ss: seq<seq<T>>): seq<T> {
    if ss == [] then [] else Flatten(ss[..|ss| - 1]) + ss[|ss| - 1]
  }

  /** A way to cut `bvs` into legal segments. */
  ghost predicate Segmentation(q: Limits, ss: seq<seq<Bvec>>, bvs: seq<Bvec>) {
    Flatten(ss) == bvs && forall i :: 0 <= i < |ss| ==> Legal(q, ss[i])
  }

  function Last<T>(s: seq<T>): T
    requires s != []
  {
    s[|s| - 1]
  }

  /** One step of the scan: the vector joins the current segment or starts a new one. */
  function ScanStep(q: Limits, ss: seq<seq<Bvec>>, bv: Bvec): seq<seq<Bvec>> {
    if ss != [] && Last(ss) != [] && Size(Last(ss)) + bv.len <= q.maxSize && Joinable(q, Last(Last(ss)), bv)
    then ss[..|ss| - 1] + [Last(ss) + [bv]]
    else ss + [[bv]]
  }

  /** The scan that every counter in the file performs. */
  function Scan(q: Limits, bvs: seq<Bvec>): seq<seq<Bvec>> {
    if bvs == [] then [] else ScanStep(q, Scan(q, bvs[..|bvs| - 1]), bvs[|bvs| - 1])
  }

  /* ---- the scan cuts legally ---- */

  lemma SizeSnoc(s: seq<Bvec>, b: Bvec)
    ensures Size(s + [b]) == Size(s) + b.len
  {
    assert (s + [b])[..|s|] == s;
  }

  lemma FlattenSnoc<T>(ss: seq<seq<T>>, s: seq<T>)
    ensures Flatten(ss + [s]) == Flatten(ss) + s
  {
    assert (ss + [s])[..|ss|] == ss;
  }

  lemma LegalSnoc(q: Limits, s: seq<Bvec>, b: Bvec)
    requires Legal(q, s) && Size(s) + b.len <= q.maxSize && Joinable(q, Last(s), b)
    ensures Legal(q, s + [b])
  {
    SizeSnoc(s, b);
  }

  lemma ScanStepLegal(q: Limits, ss: seq<seq<Bvec>>, bvs: seq<Bvec>, bv: Bvec)
    requires Segmentation(q, ss, bvs)
    ensures Segmentation(q, ScanStep(q, ss, bv), bvs + [bv])
  {
    if ss != [] && Size(Last(ss)) + bv.len <= q.maxSize && Joinable(q, Last(Last(ss)), bv) {
      var front := ss[..|ss| - 1];
      LegalSnoc(q, Last(ss), bv);
      FlattenSnoc(front, Last(ss) + [bv]);
      assert Flatten(front) + (Last(ss) + [bv]) == Flatten(ss) + [bv];
    } else {
      FlattenSnoc(ss, [bv]);
      assert Size([bv]) == bv.len;
    }
  }

  lemma {:induction false} ScanLegal(q: Limits, bvs: seq<Bvec>)
    ensures Segmentation(q, Scan(q, bvs), bvs)
  {
    if bvs != [] {
      ScanLegal(q, bvs[..|bvs| - 1]);
      ScanStepLegal(q, Scan(q, bvs[..|bvs| - 1]), bvs[..|bvs| - 1], bvs[|bvs| - 1]);
      assert bvs == bvs[..|bvs| - 1] + [bvs[|bvs| - 1]];
    }
  }

  /* ---- the scan is minimal ---- */

  lemma {:induction false} SizeSuffix(s: seq<Bvec>, k: nat)
    requires k <= |s|
    ensures Size(s[k..]) <= Size(s)
  {
    if k < |s| {
      SizeSuffix(s[..|s| - 1], k);
      assert s[k..][..|s| - k - 1] == s[..|s| - 1][k..];
    }
  }

  lemma LegalSuffix(q: Limits, s: seq<Bvec>, k: nat)
    requires Legal(q, s) && k < |s|
    ensures Legal(q, s[k..])
  {
    SizeSuffix(s, k);
  }

  lemma LegalPrefix(q: Limits, s: seq<Bvec>)
    requires Legal(q, s) && |s| > 1
    ensures Legal(q, s[..|s| - 1])
  {
    assert Size(s) == Size(s[..|s| - 1]) + s[|s| - 1].len;
  }

  /** A segmentation with its last vector taken away. */
  ghost function Shorter(ss: seq<seq<Bvec>>): seq<seq<Bvec>>
    requires ss != [] && Last(ss) != []
  {
    if |Last(ss)| == 1 then ss[..|ss| - 1] else ss[..|ss| - 1] + [Last(ss)[..|Last(ss)| - 1]]
  }

  lemma ShorterSegments(q: Limits, ss: seq<seq<Bvec>>, bvs: seq<Bvec>)
    requires Segmentation(q, ss, bvs) && bvs != []
    ensures ss != [] && Last(ss) != [] && Last(Last(ss)) == Last(bvs)
    ensures Segmentation(q, Shorter(ss), bvs[..|bvs| - 1])
  {
    var l := Last(ss);
    assert Legal(q, l);
    assert bvs == Flatten(ss[..|ss| - 1]) + l;
    if |l| == 1 {
      assert bvs[..|bvs| - 1] == Flatten(ss[..|ss| - 1]);
    } else {
      LegalPrefix(q, l);
      FlattenSnoc(ss[..|ss| - 1], l[..|l| - 1]);
      assert bvs[..|bvs| - 1] == Flatten(ss[..|ss| - 1]) + l[..|l| - 1];
    }
  }

  lemma LastIsSuffix<T>(ss: seq<seq<T>>, bvs: seq<T>)
    requires ss != [] && Flatten(ss) == bvs
    ensures |Last(ss)| <= |bvs| && Last(ss) == bvs[|bvs| - |Last(ss)|..]
  {
  }

  /** No segmentation is shorter than the scan's, and one as short ends in a segment at least as long. */
  lemma {:induction false} ScanMinimal(q: Limits, bvs: seq<Bvec>, ss: seq<seq<Bvec>>)
    requires Segmentation(q, ss, bvs)
    ensures |Scan(q, bvs)| <= |ss|
    ensures bvs != [] && |Scan(q, bvs)| == |ss| ==> ss != [] && |Last(Scan(q, bvs))| <= |Last(ss)|
    decreases |bvs|
  {
    if bvs != [] {
      var g, s' := Scan(q, bvs[..|bvs| - 1]), Shorter(ss);
      ShorterSegments(q, ss, bvs);
      ScanMinimal(q, bvs[..|bvs| - 1], s');
      if |Last(ss)| > 1 && |g| == |ss| {
        ScanExtends(q, bvs, ss);
      }
    }
  }

  /** If the scan is level with a segmentation whose last segment takes one more vector, the scan takes it too. */
  lemma ScanExtends(q: Limits, bvs: seq<Bvec>, ss: seq<seq<Bvec>>)
    requires Segmentation(q, ss, bvs) && bvs != [] && ss != [] && |Last(ss)| > 1
    requires var g := Scan(q, bvs[..|bvs| - 1]); g != [] && |Last(g)| < |Last(ss)|
    ensures Scan(q, bvs) == var g := Scan(q, bvs[..|bvs| - 1]); g[..|g| - 1] + [Last(g) + [Last(bvs)]]
  {
    var n := |bvs| - 1;
    var g, l := Scan(q, bvs[..n]), Last(ss);
    ScanLegal(q, bvs[..n]);
    LastIsSuffix(g, bvs[..n]);
    LastIsSuffix(ss, bvs);
    Suffixes(bvs, Last(g), l);
    assert Legal(q, g[|g| - 1]) && Legal(q, ss[|ss| - 1]);
    TailJoins(q, l, Last(g), Last(bvs));
  }

  lemma Suffixes(bvs: seq<Bvec>, t: seq<Bvec>, l: seq<Bvec>)
    requires bvs != [] && |t| < |l| <= |bvs|
    requires t == bvs[..|bvs| - 1][|bvs| - 1 - |t|..] && l == bvs[|bvs| - |l|..]
    ensures l[|l| - 1 - |t|..] == t + [Last(bvs)]
  {
  }

  lemma TailJoins(q: Limits, l: seq<Bvec>, t: seq<Bvec>, b: Bvec)
    requires Legal(q, l) && t != [] && |t| < |l| && l[|l| - 1 - |t|..] == t + [b]
    ensures Size(t) + b.len <= q.maxSize && Joinable(q, Last(t), b)
  {
    LegalSuffix(q, l, |l| - 1 - |t|);
    SizeSnoc(t, b);
    assert Joinable(q, (t + [b])[|t| - 1], (t + [b])[|t|]);
  }
}
