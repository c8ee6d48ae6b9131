/**
 The segment counters of bios and requests through every kind of merge: nr_phys_segments always counts some way to cut
 the request legally, so mapping it never needs more scatterlist entries.
 */
module SegmentCount {
  import opened Arith
  import opened Lists
  import opened Segments

  /** bi_io_vec, bi_seg_front_size, bi_seg_back_size, bi_phys_segments and BIO_SEG_VALID. */
  datatype Bio = Bio(bvecs: seq<Bvec>, front: nat, back: nat, segs: nat, valid: bool)

  datatype Request = Request(bios: seq<Bio>, nrPhys: nat)

  function Max(a: nat, b: nat): nat { if a < b then b else a }

  function All(bios: seq<Bio>): seq<Bvec> {
    if bios == [] then [] else All(bios[..|bios| - 1]) + bios[|bios| - 1].bvecs
  }

  /** Bios with data. */
  ghost predicate Formed(bios: seq<Bio>) { bios != [] && forall i :: 0 <= i < |bios| ==> bios[i].bvecs != [] }

  /** With QUEUE_FLAG_NO_SG_MERGE __blk_recalc_rq_segments makes every vector a segment, as without clustering. */
  function Effective(q: Limits): Limits { if q.noSgMerge then q.(cluster := false) else q }

  /** blk_recount_segments */
  function Recount(q: Limits, b: Bio): Bio
    requires b.bvecs != []
  {
    if q.noSgMerge && |b.bvecs| < q.maxSegments then b.(segs := |b.bvecs|, valid := true)
    else
      var ss := Scan(q, b.bvecs);
      ScanLegal(q, b.bvecs);
      b.(segs := |ss|, valid := true, front := Max(b.front, Size(ss[0])), back := Max(b.back, Size(Last(ss))))
  }

  /** bio_phys_segments: the cached count, or a fresh one. */
  function Counted(q: Limits, b: Bio): Bio
    requires b.bvecs != []
  {
    if b.valid then b else Recount(q, b)
  }

  /** blk_rq_bio_prep */
  function Prep(q: Limits, b: Bio): Request
    requires b.bvecs != []
  {
    Request([Counted(q, b)], Counted(q, b).segs)
  }

  /** ll_back_merge_fn and bio_attempt_back_merge; `refused` stands for the checks that do not look at segments. */
  function BackMerge(q: Limits, r: Request, b: Bio, refused: bool): Request
    requires r.bios != [] && Last(r.bios).bvecs != [] && b.bvecs != []
  {
    if refused then r
    else
      var tail, c := Counted(q, Last(r.bios)), Counted(q, b);
      var bios := r.bios[|r.bios| - 1 := tail];
      if r.nrPhys + c.segs > q.maxSegments then r.(bios := bios) else Request(bios + [c], r.nrPhys + c.segs)
  }

  /** ll_front_merge_fn and bio_attempt_front_merge */
  function FrontMerge(q: Limits, r: Request, b: Bio, refused: bool): Request
    requires r.bios != [] && r.bios[0].bvecs != [] && b.bvecs != []
  {
    if refused then r
    else
      var head, c := Counted(q, r.bios[0]), Counted(q, b);
      var bios := r.bios[0 := head];
      if r.nrPhys + c.segs > q.maxSegments then r.(bios := bios) else Request([c] + bios, r.nrPhys + c.segs)
  }

  /** blk_phys_contig_segment on bios with data */
  predicate PhysContig(q: Limits, a: Bio, b: Bio)
    requires a.bvecs != [] && b.bvecs != []
  {
    a.back + b.front <= q.maxSize && Joinable(q, Last(a.bvecs), b.bvecs[0])
  }

  /** ll_merge_requests_fn and the chaining of attempt_merge: whether they merged, and the two requests. The sizes change
      even if the merge is then refused for having too many segments. */
  function MergeRequests(q: Limits, r: Request, n: Request, refused: bool): (bool, Request, Request)
    requires r.bios != [] && n.bios != [] && Last(r.bios).bvecs != [] && n.bios[0].bvecs != []
  {
    if refused then (false, r, n)
    else
      var contig := PhysContig(q, Last(r.bios), n.bios[0]);
      var size := Last(r.bios).back + n.bios[0].front;
      var r1 := if contig && r.nrPhys == 1 then r.(bios := r.bios[0 := r.bios[0].(front := size)]) else r;
      var n1 := if contig && n.nrPhys == 1
                then n.(bios := n.bios[|n.bios| - 1 := Last(n.bios).(back := size)]) else n;
      var total := r.nrPhys + n.nrPhys - (if contig then 1 else 0);
      if total > q.maxSegments || total < 0 then (false, r1, n1) else (true, Request(r1.bios + n1.bios, total), n1)
  }

  /** blk_recalc_rq_segments after a partial completion left `bios`. */
  function Recalc(q: Limits, bios: seq<Bio>): Request
    requires Formed(bios)
  {
    AllNonEmpty(bios);
    var ss := Scan(Effective(q), All(bios));
    ScanLegal(Effective(q), All(bios));
    var b1 := bios[0 := bios[0].(front := Max(bios[0].front, Size(ss[0])))];
    Request(b1[|bios| - 1 := Last(b1).(back := Max(Last(b1).back, Size(Last(ss))))], |ss|)
  }

  lemma AllNonEmpty(bios: seq<Bio>)
    requires Formed(bios)
    ensures All(bios) != []
  {
  }

  /* ---- the invariant ---- */

  /** The queue never takes the shortcut of blk_recount_segments that leaves the segment sizes as they were. */
  predicate SizesKept(q: Limits) { !q.noSgMerge || q.maxSegments <= 1 }

  /** Joining needs no sizes: nothing is joined, or whatever lies in one window is small enough. */
  predicate Tight(q: Limits) { !q.cluster || q.window <= q.maxSize }

  /** `ss` cuts `bvs` into n segments; if sizes are kept, the first is no larger than `front` and the last no larger than
      `back`. */
  ghost predicate Witness(q: Limits, sizes: bool, ss: seq<seq<Bvec>>, bvs: seq<Bvec>, n: nat, front: nat, back: nat) {
    && ss != [] && Segmentation(q, ss, bvs) && |ss| == n
    && (sizes ==> Size(ss[0]) <= front && Size(Last(ss)) <= back)
  }

  ghost predicate Cut(q: Limits, sizes: bool, bvs: seq<Bvec>, n: nat, front: nat, back: nat) {
    exists ss :: Witness(q, sizes, ss, bvs, n, front, back)
  }

  /** A bio that is counted, or that the queue will count. */
  ghost predicate BioOk(q: Limits, sizes: bool, b: Bio) {
    && b.bvecs != []
    && (if b.valid then Cut(q, sizes, b.bvecs, b.segs, b.front, b.back) else sizes ==> SizesKept(q))
  }

  ghost predicate RqOk(q: Limits, sizes: bool, r: Request) {
    Formed(r.bios) && Cut(q, sizes, All(r.bios), r.nrPhys, r.bios[0].front, Last(r.bios).back)
  }

  /** A cut into single vectors is a cut. */
  lemma EffectiveLegal(q: Limits, ss: seq<seq<Bvec>>, bvs: seq<Bvec>)
    requires Segmentation(Effective(q), ss, bvs)
    ensures Segmentation(q, ss, bvs)
  {
    forall i | 0 <= i < |ss| ensures Legal(q, ss[i]) {
      assert Legal(Effective(q), ss[i]);
      if q.noSgMerge && |ss[i]| > 1 {
        assert !Joinable(Effective(q), ss[i][0], ss[i][1]);
      }
    }
  }

  lemma {:induction false} Singles(q: Limits, bvs: seq<Bvec>)
    requires !q.cluster
    ensures |Scan(q, bvs)| == |bvs|
  {
    if bvs != [] {
      Singles(q, bvs[..|bvs| - 1]);
    }
  }

  /** Counting a bio only ever raises its sizes. */
  lemma CountedGrows(q: Limits, b: Bio)
    requires b.bvecs != []
    ensures var c := Counted(q, b); c.bvecs == b.bvecs && c.front >= b.front && c.back >= b.back
  {
  }

  lemma CountedOk(q: Limits, sizes: bool, b: Bio)
    requires BioOk(q, sizes, b)
    ensures var c := Counted(q, b); c.bvecs == b.bvecs && Cut(q, sizes, c.bvecs, c.segs, c.front, c.back)
  {
    if !b.valid {
      var c := Recount(q, b);
      if q.noSgMerge && |b.bvecs| < q.maxSegments {
        ScanLegal(Effective(q), b.bvecs);
        EffectiveLegal(q, Scan(Effective(q), b.bvecs), b.bvecs);
        Singles(Effective(q), b.bvecs);
        assert Witness(q, sizes, Scan(Effective(q), b.bvecs), c.bvecs, c.segs, c.front, c.back);
      } else {
        ScanLegal(q, b.bvecs);
        assert Witness(q, sizes, Scan(q, b.bvecs), c.bvecs, c.segs, c.front, c.back);
      }
    }
  }

  lemma CutWider(q: Limits, sizes: bool, bvs: seq<Bvec>, n: nat, front: nat, back: nat, front': nat, back': nat)
    requires Cut(q, sizes, bvs, n, front, back) && front <= front' && back <= back'
    ensures Cut(q, sizes, bvs, n, front', back')
  {
    var ss :| Witness(q, sizes, ss, bvs, n, front, back);
    assert Witness(q, sizes, ss, bvs, n, front', back');
  }

  lemma {:induction false} FlattenConcat<T>(a: seq<seq<T>>, b: seq<seq<T>>)
    ensures Flatten(a + b) == Flatten(a) + Flatten(b)
  {
    if b == [] {
      assert a + b == a;
    } else {
      var n := |b| - 1;
      FlattenConcat(a, b[..n]);
      assert a + b == (a + b[..n]) + [b[n]];
      FlattenSnoc(a + b[..n], b[n]);
      Assoc(Flatten(a), Flatten(b[..n]), b[n]);
    }
  }

  lemma {:induction false} AllConcat(a: seq<Bio>, b: seq<Bio>)
    ensures All(a + b) == All(a) + All(b)
  {
    if b == [] {
      assert a + b == a;
    } else {
      var n := |b| - 1;
      AllConcat(a, b[..n]);
      assert (a + b)[..|a + b| - 1] == a + b[..n];
      assert All(a + b) == All(a + b[..n]) + b[n].bvecs;
      Assoc(All(a), All(b[..n]), b[n].bvecs);
    }
  }

  lemma {:induction false} SizeConcat(a: seq<Bvec>, b: seq<Bvec>)
    ensures Size(a + b) == Size(a) + Size(b)
  {
    if b == [] {
      assert a + b == a;
    } else {
      var n := |b| - 1;
      SizeConcat(a, b[..n]);
      assert a + b == (a + b[..n]) + [b[n]];
      SizeSnoc(a + b[..n], b[n]);
    }
  }

  /** Appending adds the counts: the cut of the whole is the two cuts side by side. */
  lemma CutConcat(q: Limits, sizes: bool, a: seq<Bvec>, b: seq<Bvec>, na: nat, nb: nat, fa: nat, ba: nat, fb: nat, bb: nat)
    requires Cut(q, sizes, a, na, fa, ba) && Cut(q, sizes, b, nb, fb, bb)
    ensures Cut(q, sizes, a + b, na + nb, fa, bb)
  {
    var sa :| Witness(q, sizes, sa, a, na, fa, ba);
    var sb :| Witness(q, sizes, sb, b, nb, fb, bb);
    FlattenConcat(sa, sb);
    assert Witness(q, sizes, sa + sb, a + b, na + nb, fa, bb);
  }

  /** Vectors that join one another are one run of memory inside one window. */
  lemma {:induction false} OneWindow(q: Limits, s: seq<Bvec>)
    requires s != [] && forall i :: 0 <= i < |s| - 1 ==> Joinable(q, s[i], s[i + 1])
    ensures s[0].addr + Size(s) == Last(s).addr + Last(s).len
    ensures |s| > 1 ==> s[0].addr / q.window == (s[0].addr + Size(s) - 1) / q.window
    decreases |s|
  {
    var n := |s| - 1;
    if n == 0 {
      assert s[..0] == [];
    } else {
      assert Joinable(q, s[n - 1], s[n]);
      OneWindow(q, s[..n]);
      if n > 1 {
        DivMono(s[0].addr, s[n - 1].addr, q.window);
        DivMono(s[n - 1].addr, s[n - 1].addr + s[n - 1].len - 1, q.window);
      }
    }
  }

  lemma WindowBound(q: Limits, s: seq<Bvec>)
    requires |s| > 1 && forall i :: 0 <= i < |s| - 1 ==> Joinable(q, s[i], s[i + 1])
    ensures Size(s) <= q.window
  {
    OneWindow(q, s);
    SizePositive(s);
    SameWindow(s[0].addr, s[0].addr + Size(s) - 1, q.window);
  }

  lemma SizePositive(s: seq<Bvec>)
    requires s != []
    ensures Size(s) >= 1
  {
  }

  lemma JoinChain(q: Limits, x: seq<Bvec>, y: seq<Bvec>)
    requires Legal(q, x) && Legal(q, y) && Joinable(q, Last(x), y[0])
    ensures forall i :: 0 <= i < |x + y| - 1 ==> Joinable(q, (x + y)[i], (x + y)[i + 1])
  {
    forall i | 0 <= i < |x + y| - 1 ensures Joinable(q, (x + y)[i], (x + y)[i + 1]) {
      if i >= |x| {
        assert Joinable(q, y[i - |x|], y[i - |x| + 1]);
      }
    }
  }

  /** The segment made of the last of one cut and the first of the next. */
  lemma JoinLegal(q: Limits, x: seq<Bvec>, y: seq<Bvec>)
    requires Legal(q, x) && Legal(q, y) && Joinable(q, Last(x), y[0])
    requires Tight(q) || Size(x) + Size(y) <= q.maxSize
    ensures Legal(q, x + y) && Size(x + y) == Size(x) + Size(y)
  {
    SizeConcat(x, y);
    JoinChain(q, x, y);
    if Tight(q) {
      WindowBound(q, x + y);
    }
  }

  /** The minus-one join: two cuts whose facing segments fit together make one with a segment less. */
  lemma CutJoin(q: Limits, sizes: bool, a: seq<Bvec>, b: seq<Bvec>, na: nat, nb: nat, fa: nat, ba: nat, fb: nat, bb: nat)
    requires (sizes || Tight(q)) && Cut(q, sizes, a, na, fa, ba) && Cut(q, sizes, b, nb, fb, bb)
    requires a != [] && b != [] && ba + fb <= q.maxSize && Joinable(q, Last(a), b[0])
    ensures na >= 1 && nb >= 1
    ensures Cut(q, sizes, a + b, na + nb - 1, if na == 1 then ba + fb else fa, if nb == 1 then ba + fb else bb)
  {
    var sa :| Witness(q, sizes, sa, a, na, fa, ba);
    var sb :| Witness(q, sizes, sb, b, nb, fb, bb);
    JoinWitness(q, sizes, sa, sb, a, b, na, nb, fa, ba, fb, bb);
    assert Witness(q, sizes, Joined(sa, sb), a + b, na + nb - 1, if na == 1 then ba + fb else fa, if nb == 1 then ba + fb else bb);
  }

  ghost function Joined(sa: seq<seq<Bvec>>, sb: seq<seq<Bvec>>): seq<seq<Bvec>>
    requires sa != [] && sb != []
  {
    sa[..|sa| - 1] + [Last(sa) + sb[0]] + sb[1..]
  }

  lemma JoinedFlatten(sa: seq<seq<Bvec>>, sb: seq<seq<Bvec>>)
    requires sa != [] && sb != []
    ensures Flatten(Joined(sa, sb)) == Flatten(sa) + Flatten(sb)
  {
    var x, y := Last(sa), sb[0];
    FlattenSnoc(sa[..|sa| - 1], x + y);
    FlattenConcat(sa[..|sa| - 1] + [x + y], sb[1..]);
    assert sb == [y] + sb[1..];
    FlattenConcat([y], sb[1..]);
    assert Flatten([y]) == y by {
      assert [y][..0] == [];
    }
    assert Flatten(sa[..|sa| - 1]) + (x + y) + Flatten(sb[1..]) == Flatten(sa[..|sa| - 1]) + x + (y + Flatten(sb[1..]));
  }

  lemma FirstOfFlatten(q: Limits, ss: seq<seq<Bvec>>, bvs: seq<Bvec>)
    requires Segmentation(q, ss, bvs) && ss != []
    ensures bvs != [] && bvs[0] == ss[0][0] && Last(bvs) == Last(Last(ss))
  {
    assert Legal(q, ss[0]) && Legal(q, ss[|ss| - 1]);
    assert ss == [ss[0]] + ss[1..];
    FlattenConcat([ss[0]], ss[1..]);
    assert [ss[0]][..0] == [];
    assert Flatten([ss[0]]) == ss[0];
  }

  lemma JoinWitness(q: Limits, sizes: bool, sa: seq<seq<Bvec>>, sb: seq<seq<Bvec>>, a: seq<Bvec>, b: seq<Bvec>,
                    na: nat, nb: nat, fa: nat, ba: nat, fb: nat, bb: nat)
    requires (sizes || Tight(q)) && Witness(q, sizes, sa, a, na, fa, ba) && Witness(q, sizes, sb, b, nb, fb, bb)
    requires a != [] && b != [] && ba + fb <= q.maxSize && Joinable(q, Last(a), b[0])
    ensures Witness(q, sizes, Joined(sa, sb), a + b, na + nb - 1,
                    if na == 1 then ba + fb else fa, if nb == 1 then ba + fb else bb)
  {
    FirstOfFlatten(q, sa, a);
    FirstOfFlatten(q, sb, b);
    assert Legal(q, sa[|sa| - 1]) && Legal(q, sb[0]);
    JoinLegal(q, Last(sa), sb[0]);
    JoinedFlatten(sa, sb);
  }

  /* ---- every merge keeps the count ---- */

  lemma AllUpdate(bios: seq<Bio>, i: nat, b: Bio)
    requires i < |bios| && b.bvecs == bios[i].bvecs
    ensures All(bios[i := b]) == All(bios)
  {
    var pre, post := bios[..i], bios[i + 1..];
    assert bios == pre + ([bios[i]] + post) && bios[i := b] == pre + ([b] + post);
    AllConcat(pre, [bios[i]] + post);
    AllConcat(pre, [b] + post);
    AllConcat([bios[i]], post);
    AllConcat([b], post);
    AllOne(bios[i]);
    AllOne(b);
  }

  lemma AllOne(b: Bio)
    ensures All([b]) == b.bvecs
  {
    assert [b][..0] == [];
  }

  lemma PrepOk(q: Limits, sizes: bool, b: Bio)
    requires BioOk(q, sizes, b)
    ensures RqOk(q, sizes, Prep(q, b))
  {
    CountedOk(q, sizes, b);
    AllOne(Counted(q, b));
  }

  /** Replacing a bio by one with the same vectors and sizes that are no smaller. */
  lemma RefreshOk(q: Limits, sizes: bool, r: Request, i: nat, b: Bio)
    requires RqOk(q, sizes, r) && i < |r.bios|
    requires b.bvecs == r.bios[i].bvecs && b.front >= r.bios[i].front && b.back >= r.bios[i].back
    ensures RqOk(q, sizes, r.(bios := r.bios[i := b]))
  {
    AllUpdate(r.bios, i, b);
    var bios := r.bios[i := b];
    CutWider(q, sizes, All(r.bios), r.nrPhys, r.bios[0].front, Last(r.bios).back, bios[0].front, Last(bios).back);
  }

  lemma ConcatOk(q: Limits, sizes: bool, x: seq<Bio>, y: seq<Bio>, nx: nat, ny: nat)
    requires RqOk(q, sizes, Request(x, nx)) && RqOk(q, sizes, Request(y, ny))
    ensures RqOk(q, sizes, Request(x + y, nx + ny))
  {
    AllConcat(x, y);
    assert (x + y)[0] == x[0] && Last(x + y) == Last(y);
    CutConcat(q, sizes, All(x), All(y), nx, ny, x[0].front, Last(x).back, y[0].front, Last(y).back);
  }

  lemma BackMergeOk(q: Limits, sizes: bool, r: Request, b: Bio, refused: bool)
    requires RqOk(q, sizes, r) && BioOk(q, sizes, b)
    ensures RqOk(q, sizes, BackMerge(q, r, b, refused))
  {
    if !refused {
      var n := |r.bios| - 1;
      CountedGrows(q, r.bios[n]);
      RefreshOk(q, sizes, r, n, Counted(q, r.bios[n]));
      PrepOk(q, sizes, b);
      var bios := r.bios[n := Counted(q, r.bios[n])];
      ConcatOk(q, sizes, bios, [Counted(q, b)], r.nrPhys, Counted(q, b).segs);
    }
  }

  lemma FrontMergeOk(q: Limits, sizes: bool, r: Request, b: Bio, refused: bool)
    requires RqOk(q, sizes, r) && BioOk(q, sizes, b)
    ensures RqOk(q, sizes, FrontMerge(q, r, b, refused))
  {
    if !refused {
      CountedGrows(q, r.bios[0]);
      RefreshOk(q, sizes, r, 0, Counted(q, r.bios[0]));
      PrepOk(q, sizes, b);
      var bios := r.bios[0 := Counted(q, r.bios[0])];
      ConcatOk(q, sizes, [Counted(q, b)], bios, Counted(q, b).segs, r.nrPhys);
    }
  }

  /** No segment is larger than the whole. */
  lemma CutWhole(q: Limits, sizes: bool, bvs: seq<Bvec>, n: nat, front: nat, back: nat, front': nat, back': nat)
    requires Cut(q, sizes, bvs, n, front, back)
    requires sizes ==> front' >= front || front' >= Size(bvs)
    requires sizes ==> back' >= back || back' >= Size(bvs)
    ensures Cut(q, sizes, bvs, n, front', back')
  {
    var ss :| Witness(q, sizes, ss, bvs, n, front, back);
    assert ss == [ss[0]] + ss[1..];
    FlattenConcat([ss[0]], ss[1..]);
    assert [ss[0]][..0] == [];
    assert Flatten([ss[0]]) == ss[0];
    SizeConcat(ss[0], Flatten(ss[1..]));
    SizeConcat(Flatten(ss[..|ss| - 1]), Last(ss));
    assert Witness(q, sizes, ss, bvs, n, front', back');
  }

  lemma OneSegment(q: Limits, sizes: bool, bvs: seq<Bvec>, front: nat, back: nat)
    requires Cut(q, sizes, bvs, 1, front, back)
    ensures sizes ==> Size(bvs) <= front && Size(bvs) <= back
  {
    var ss :| Witness(q, sizes, ss, bvs, 1, front, back);
    assert ss[..0] == [];
    assert Flatten(ss) == ss[0];
  }

  /** Setting the front size of a one-segment request to anything as large as its back size is sound. */
  lemma SetFrontOk(q: Limits, sizes: bool, r: Request, size: nat)
    requires RqOk(q, sizes, r) && r.nrPhys == 1 && size >= Last(r.bios).back
    ensures RqOk(q, sizes, r.(bios := r.bios[0 := r.bios[0].(front := size)]))
  {
    var b := r.bios[0].(front := size);
    AllUpdate(r.bios, 0, b);
    OneSegment(q, sizes, All(r.bios), r.bios[0].front, Last(r.bios).back);
    var back := Last(r.bios[0 := b]).back;
    CutWhole(q, sizes, All(r.bios), 1, r.bios[0].front, Last(r.bios).back, size, back);
  }

  lemma SetBackOk(q: Limits, sizes: bool, r: Request, size: nat)
    requires RqOk(q, sizes, r) && r.nrPhys == 1 && size >= r.bios[0].front
    ensures RqOk(q, sizes, r.(bios := r.bios[|r.bios| - 1 := Last(r.bios).(back := size)]))
  {
    var n := |r.bios| - 1;
    var b := r.bios[n].(back := size);
    AllUpdate(r.bios, n, b);
    OneSegment(q, sizes, All(r.bios), r.bios[0].front, Last(r.bios).back);
    CutWhole(q, sizes, All(r.bios), 1, r.bios[0].front, Last(r.bios).back, r.bios[n := b][0].front, size);
  }

  lemma LastOfAll(bios: seq<Bio>)
    requires bios != [] && bios[0].bvecs != [] && Last(bios).bvecs != []
    ensures All(bios) != []
    ensures Last(All(bios)) == Last(Last(bios).bvecs)
    ensures All(bios)[0] == bios[0].bvecs[0]
  {
    assert bios == [bios[0]] + bios[1..];
    AllConcat([bios[0]], bios[1..]);
    AllOne(bios[0]);
  }

  ghost function R1(q: Limits, r: Request, n: Request): Request
    requires r.bios != [] && n.bios != []
  {
    if r.nrPhys == 1 then r.(bios := r.bios[0 := r.bios[0].(front := Last(r.bios).back + n.bios[0].front)]) else r
  }

  ghost function N1(q: Limits, r: Request, n: Request): Request
    requires r.bios != [] && n.bios != []
  {
    if n.nrPhys == 1 then n.(bios := n.bios[|n.bios| - 1 := Last(n.bios).(back := Last(r.bios).back + n.bios[0].front)])
    else n
  }

  lemma SidesOk(q: Limits, sizes: bool, r: Request, n: Request)
    requires RqOk(q, sizes, r) && RqOk(q, sizes, n)
    ensures RqOk(q, sizes, R1(q, r, n)) && RqOk(q, sizes, N1(q, r, n))
    ensures All(R1(q, r, n).bios) == All(r.bios) && All(N1(q, r, n).bios) == All(n.bios)
  {
    var size := Last(r.bios).back + n.bios[0].front;
    if r.nrPhys == 1 {
      SetFrontOk(q, sizes, r, size);
      AllUpdate(r.bios, 0, r.bios[0].(front := size));
    }
    if n.nrPhys == 1 {
      SetBackOk(q, sizes, n, size);
      AllUpdate(n.bios, |n.bios| - 1, Last(n.bios).(back := size));
    }
  }

  lemma JoinOk(q: Limits, sizes: bool, r: Request, n: Request)
    requires (sizes || Tight(q)) && RqOk(q, sizes, r) && RqOk(q, sizes, n) && PhysContig(q, Last(r.bios), n.bios[0])
    ensures r.nrPhys >= 1 && n.nrPhys >= 1
    ensures RqOk(q, sizes, Request(R1(q, r, n).bios + N1(q, r, n).bios, r.nrPhys + n.nrPhys - 1))
  {
    var r1, n1 := R1(q, r, n), N1(q, r, n);
    SidesOk(q, sizes, r, n);
    LastOfAll(r.bios);
    LastOfAll(n.bios);
    CutJoin(q, sizes, All(r.bios), All(n.bios), r.nrPhys, n.nrPhys, r.bios[0].front, Last(r.bios).back, n.bios[0].front, Last(n.bios).back);
    AllConcat(r1.bios, n1.bios);
    assert (r1.bios + n1.bios)[0] == r1.bios[0] && Last(r1.bios + n1.bios) == Last(n1.bios);
    JoinEnds(q, r, n);
  }

  lemma JoinEnds(q: Limits, r: Request, n: Request)
    requires r.bios != [] && n.bios != []
    ensures var size := Last(r.bios).back + n.bios[0].front;
            && R1(q, r, n).bios[0].front == (if r.nrPhys == 1 then size else r.bios[0].front)
            && Last(N1(q, r, n).bios).back == (if n.nrPhys == 1 then size else Last(n.bios).back)
  {
  }

  /** Merging two requests keeps the count of the result; a refused merge keeps the counts of both. */
  lemma MergeRequestsOk(q: Limits, sizes: bool, r: Request, n: Request, refused: bool)
    requires (sizes || Tight(q)) && RqOk(q, sizes, r) && RqOk(q, sizes, n)
    ensures var (merged, r', n') := MergeRequests(q, r, n, refused);
            RqOk(q, sizes, r') && (!merged ==> RqOk(q, sizes, n')) && (merged ==> All(r'.bios) == All(r.bios) + All(n.bios))
  {
    if !refused {
      if PhysContig(q, Last(r.bios), n.bios[0]) {
        MergeContig(q, sizes, r, n);
      } else {
        ConcatOk(q, sizes, r.bios, n.bios, r.nrPhys, n.nrPhys);
        AllConcat(r.bios, n.bios);
      }
    }
  }

  lemma MergeContig(q: Limits, sizes: bool, r: Request, n: Request)
    requires (sizes || Tight(q)) && RqOk(q, sizes, r) && RqOk(q, sizes, n) && PhysContig(q, Last(r.bios), n.bios[0])
    ensures RqOk(q, sizes, R1(q, r, n)) && RqOk(q, sizes, N1(q, r, n))
    ensures r.nrPhys >= 1 && n.nrPhys >= 1
    ensures RqOk(q, sizes, Request(R1(q, r, n).bios + N1(q, r, n).bios, r.nrPhys + n.nrPhys - 1))
    ensures All(R1(q, r, n).bios + N1(q, r, n).bios) == All(r.bios) + All(n.bios)
    ensures MergeRequests(q, r, n, false) ==
              if r.nrPhys + n.nrPhys - 1 > q.maxSegments then (false, R1(q, r, n), N1(q, r, n))
              else (true, Request(R1(q, r, n).bios + N1(q, r, n).bios, r.nrPhys + n.nrPhys - 1), N1(q, r, n))
  {
    SidesOk(q, sizes, r, n);
    JoinOk(q, sizes, r, n);
    AllConcat(R1(q, r, n).bios, N1(q, r, n).bios);
  }

  /* ---- partial completions ---- */

  /** Raising the sizes at the two ends leaves the vectors alone. */
  lemma RaiseEnds(bios: seq<Bio>, front: nat, back: nat)
    requires Formed(bios)
    ensures var b1 := bios[0 := bios[0].(front := front)];
            var b2 := b1[|bios| - 1 := Last(b1).(back := back)];
            All(b2) == All(bios) && Formed(b2) && b2[0].front == front && Last(b2).back == back
  {
    var b1 := bios[0 := bios[0].(front := front)];
    AllUpdate(bios, 0, b1[0]);
    AllUpdate(b1, |bios| - 1, Last(b1).(back := back));
  }

  /** A recount of any chain counts a way to cut it, whatever the sizes were before. */
  lemma RecalcOk(q: Limits, sizes: bool, bios: seq<Bio>)
    requires Formed(bios)
    ensures RqOk(q, sizes, Recalc(q, bios)) && All(Recalc(q, bios).bios) == All(bios)
  {
    AllNonEmpty(bios);
    ScanLegal(Effective(q), All(bios));
    var ss := Scan(Effective(q), All(bios));
    EffectiveLegal(q, ss, All(bios));
    var front, back := Max(bios[0].front, Size(ss[0])), Max(Last(bios).back, Size(Last(ss)));
    RaiseEnds(bios, front, back);
    RecalcEnds(q, bios, front, back);
    assert Witness(q, sizes, ss, All(bios), |ss|, front, back);
  }

  lemma RecalcEnds(q: Limits, bios: seq<Bio>, front: nat, back: nat)
    requires Formed(bios) && Scan(Effective(q), All(bios)) != []
    requires var ss := Scan(Effective(q), All(bios));
             front == Max(bios[0].front, Size(ss[0])) && back == Max(Last(bios).back, Size(Last(ss)))
    ensures var b1 := bios[0 := bios[0].(front := front)];
            Recalc(q, bios) == Request(b1[|bios| - 1 := Last(b1).(back := back)], |Scan(Effective(q), All(bios))|)
  {
  }

  /** The vectors without their first n bytes, as bio_advance leaves them. */
  function RestVecs(bvs: seq<Bvec>, n: nat): seq<Bvec> {
    if bvs == [] || n == 0 then bvs
    else if n >= bvs[0].len then RestVecs(bvs[1..], n - bvs[0].len)
    else [Bvec(bvs[0].addr + n, bvs[0].len - n)] + bvs[1..]
  }

  /** The bios without their first n bytes: blk_update_request drops bios that are done and advances the next. The counts
      and sizes of the bio it advances stay as they were. */
  function RestBios(bios: seq<Bio>, n: nat): seq<Bio> {
    if bios == [] || n == 0 then bios
    else if n >= Size(bios[0].bvecs) then RestBios(bios[1..], n - Size(bios[0].bvecs))
    else [bios[0].(bvecs := RestVecs(bios[0].bvecs, n))] + bios[1..]
  }

  lemma SizeHead(bvs: seq<Bvec>)
    requires bvs != []
    ensures Size(bvs) == bvs[0].len + Size(bvs[1..])
  {
    assert bvs == [bvs[0]] + bvs[1..];
    SizeConcat([bvs[0]], bvs[1..]);
    assert [bvs[0]][..0] == [];
  }

  lemma AllHead(bios: seq<Bio>)
    requires bios != []
    ensures All(bios) == bios[0].bvecs + All(bios[1..])
  {
    assert bios == [bios[0]] + bios[1..];
    AllConcat([bios[0]], bios[1..]);
    AllOne(bios[0]);
  }

  /** Taking off fewer bytes than there are leaves the others. */
  lemma {:induction false} RestVecsSize(bvs: seq<Bvec>, n: nat)
    requires n < Size(bvs)
    ensures RestVecs(bvs, n) != [] && Size(RestVecs(bvs, n)) == Size(bvs) - n
    decreases |bvs|
  {
    SizeHead(bvs);
    if n >= bvs[0].len {
      RestVecsSize(bvs[1..], n - bvs[0].len);
    } else if n > 0 {
      SizeHead(RestVecs(bvs, n));
    }
  }

  lemma {:induction false} RestVecsConcat(a: seq<Bvec>, b: seq<Bvec>, n: nat)
    ensures RestVecs(a + b, n) == if n < Size(a) then RestVecs(a, n) + b else RestVecs(b, n - Size(a))
    decreases |a|
  {
    if a == [] {
      assert a + b == b;
    } else {
      SizeHead(a);
      if n >= a[0].len {
        var rest, left := a[1..], n - a[0].len;
        assert (a + b)[1..] == rest + b && (a + b)[0] == a[0];
        RestSkips(a + b, n);
        RestSkips(a, n);
        RestVecsConcat(rest, b, left);
        assert n >= Size(a) ==> left - Size(rest) == n - Size(a);
      } else {
        RestFirst(a, b, n);
      }
    }
  }

  lemma RestSkips(bvs: seq<Bvec>, n: nat)
    requires bvs != [] && n >= bvs[0].len
    ensures RestVecs(bvs, n) == RestVecs(bvs[1..], n - bvs[0].len)
  {
  }

  /** Part of the first vector is taken off. */
  lemma RestFirst(a: seq<Bvec>, b: seq<Bvec>, n: nat)
    requires a != [] && n < a[0].len
    ensures RestVecs(a + b, n) == RestVecs(a, n) + b
  {
    assert (a + b)[1..] == a[1..] + b && (a + b)[0] == a[0];
    if n > 0 {
      Assoc([Bvec(a[0].addr + n, a[0].len - n)], a[1..], b);
    }
  }

  /** Dropping bios and advancing one takes exactly the first n bytes off the request. */
  lemma {:induction false} RestBiosAll(bios: seq<Bio>, n: nat)
    ensures All(RestBios(bios, n)) == RestVecs(All(bios), n)
    decreases |bios|
  {
    if bios != [] && n > 0 {
      var first, rest := bios[0].bvecs, bios[1..];
      AllHead(bios);
      RestVecsConcat(first, All(rest), n);
      if n >= Size(first) {
        RestBiosAll(rest, n - Size(first));
      } else {
        RestInFirst(bios, n);
      }
    }
  }

  lemma RestInFirst(bios: seq<Bio>, n: nat)
    requires bios != [] && 0 < n < Size(bios[0].bvecs)
    ensures All(RestBios(bios, n)) == RestVecs(bios[0].bvecs, n) + All(bios[1..])
  {
    var r := RestBios(bios, n);
    AllHead(r);
    assert r[1..] == bios[1..];
  }

  lemma {:induction false} RestFormed(bios: seq<Bio>, n: nat)
    requires Formed(bios) && n < Size(All(bios))
    ensures Formed(RestBios(bios, n))
    decreases |bios|
  {
    if n > 0 {
      var first, rest := bios[0].bvecs, bios[1..];
      AllHead(bios);
      SizeConcat(first, All(rest));
      if n >= Size(first) {
        FormedRest(bios);
        RestFormed(rest, n - Size(first));
      } else {
        RestVecsSize(first, n);
        FormedFirst(bios, bios[0].(bvecs := RestVecs(first, n)));
      }
    }
  }

  lemma FormedRest(bios: seq<Bio>)
    requires Formed(bios) && Size(All(bios[1..])) > 0
    ensures Formed(bios[1..])
  {
  }

  lemma FormedFirst(bios: seq<Bio>, b: Bio)
    requires Formed(bios) && b.bvecs != []
    ensures Formed([b] + bios[1..])
  {
  }

  /** After a partial completion of n bytes the count is a count of exactly the bytes that are left. */
  lemma ResumeOk(q: Limits, sizes: bool, r: Request, n: nat)
    requires Formed(r.bios) && n < Size(All(r.bios))
    ensures Formed(RestBios(r.bios, n)) && RqOk(q, sizes, Recalc(q, RestBios(r.bios, n)))
    ensures All(Recalc(q, RestBios(r.bios, n)).bios) == RestVecs(All(r.bios), n)
  {
    RestFormed(r.bios, n);
    RestBiosAll(r.bios, n);
    RecalcOk(q, sizes, RestBios(r.bios, n));
  }
}
