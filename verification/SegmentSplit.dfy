/**
 Splitting a bio that is too large (blk_bio_segment_split in block/blk-merge.c): the front part is the longest prefix of
 whole vectors that the queue takes, and its segments are counted and measured whatever flags the queue has.
 */
module SegmentSplit {
  import opened Segments
  import opened SegmentCount

  const PAGE := 4096
  const SECTOR := 512

  /** queue_max_sectors, and queue_virt_boundary + 1, or 0 for none. */
  datatype Bounds = Bounds(maxSectors: nat, virt: nat)

  /** bvec_gap_to_prev */
  predicate Gap(l: Bounds, a: Bvec, b: Bvec) {
    l.virt > 0 && (b.addr % PAGE != 0 || (a.addr % PAGE + a.len) % l.virt != 0)
  }

  function Sectors(bvs: seq<Bvec>): nat {
    if bvs == [] then 0 else Sectors(bvs[..|bvs| - 1]) + Last(bvs).len / SECTOR
  }

  /** The queue takes `bvs` as one bio: not too many sectors, no gap, and it can be cut into few enough segments. */
  ghost predicate Takes(q: Limits, l: Bounds, bvs: seq<Bvec>) {
    && Sectors(bvs) <= l.maxSectors
    && (forall i :: 0 < i < |bvs| ==> !Gap(l, bvs[i - 1], bvs[i]))
    && (exists ss :: Segmentation(q, ss, bvs) && |ss| <= q.maxSegments)
  }

  /** The tests of the loop for one more vector. */
  predicate Fits(q: Limits, l: Bounds, bvs: seq<Bvec>, bv: Bvec) {
    && Sectors(bvs) + bv.len / SECTOR <= l.maxSectors
    && (bvs != [] ==> !Gap(l, Last(bvs), bv))
    && |ScanStep(q, Scan(q, bvs), bv)| <= q.maxSegments
  }

  /** The number of vectors the loop gets past. */
  function Prefix(q: Limits, l: Bounds, bvs: seq<Bvec>, k: nat): (r: nat)
    requires k <= |bvs|
    ensures k <= r <= |bvs|
    decreases |bvs| - k
  {
    if k < |bvs| && Fits(q, l, bvs[..k], bvs[k]) then Prefix(q, l, bvs, k + 1) else k
  }

  lemma Snoc<T>(s: seq<T>, k: nat)
    requires k < |s|
    ensures s[..k + 1] == s[..k] + [s[k]] && s[..k + 1][..k] == s[..k]
  {
  }

  ghost predicate NoGaps(l: Bounds, bvs: seq<Bvec>) { forall i :: 0 < i < |bvs| ==> !Gap(l, bvs[i - 1], bvs[i]) }

  /** What the loop has tested when it has got past `bvs`. */
  ghost predicate Passed(q: Limits, l: Bounds, bvs: seq<Bvec>) {
    Sectors(bvs) <= l.maxSectors && NoGaps(l, bvs) && |Scan(q, bvs)| <= q.maxSegments
  }

  /** The scan uses the fewest segments, so the queue takes vectors exactly as the loop tests them. */
  lemma TakesIff(q: Limits, l: Bounds, bvs: seq<Bvec>)
    ensures Takes(q, l, bvs) <==> Passed(q, l, bvs)
  {
    ScanLegal(q, bvs);
    if Takes(q, l, bvs) {
      var ss :| Segmentation(q, ss, bvs) && |ss| <= q.maxSegments;
      ScanMinimal(q, bvs, ss);
    }
  }

  lemma GapsSnoc(l: Bounds, a: seq<Bvec>, bv: Bvec)
    requires NoGaps(l, a)
    ensures NoGaps(l, a + [bv]) <==> (a != [] ==> !Gap(l, Last(a), bv))
  {
    var b := a + [bv];
    assert forall i :: 0 <= i < |a| ==> a[i] == b[i];
    if a != [] {
      assert b[|a| - 1] == Last(a) && b[|a|] == bv;
    }
  }

  lemma OneMoreFits(q: Limits, l: Bounds, bvs: seq<Bvec>, k: nat)
    requires k < |bvs| && Passed(q, l, bvs[..k])
    ensures Passed(q, l, bvs[..k + 1]) <==> Fits(q, l, bvs[..k], bvs[k])
  {
    Snoc(bvs, k);
    GapsSnoc(l, bvs[..k], bvs[k]);
  }

  /** The loop goes on exactly while the vectors pass. */
  lemma PrefixNext(q: Limits, l: Bounds, bvs: seq<Bvec>, k: nat)
    requires k < |bvs| && Passed(q, l, bvs[..k])
    ensures Prefix(q, l, bvs, k) == if Passed(q, l, bvs[..k + 1]) then Prefix(q, l, bvs, k + 1) else k
  {
    OneMoreFits(q, l, bvs, k);
  }

  lemma {:induction false} PrefixPassed(q: Limits, l: Bounds, bvs: seq<Bvec>, k: nat) returns (r: nat)
    requires k <= |bvs| && Passed(q, l, bvs[..k])
    ensures r == Prefix(q, l, bvs, k) && Passed(q, l, bvs[..r]) && (r < |bvs| ==> !Passed(q, l, bvs[..r + 1]))
    decreases |bvs| - k
  {
    r := k;
    if k < |bvs| {
      var next := bvs[..k + 1];
      PrefixNext(q, l, bvs, k);
      if Passed(q, l, next) {
        r := PrefixPassed(q, l, bvs, k + 1);
      }
    }
  }

  /** The front part is taken by the queue, and with one more vector it would not be. */
  lemma PrefixIsLongest(q: Limits, l: Bounds, bvs: seq<Bvec>)
    ensures var r := Prefix(q, l, bvs, 0);
            Takes(q, l, bvs[..r]) && (r < |bvs| ==> !Takes(q, l, bvs[..r + 1]))
  {
    assert bvs[..0] == [];
    var r := PrefixPassed(q, l, bvs, 0);
    TakesIff(q, l, bvs[..r]);
    if r < |bvs| {
      TakesIff(q, l, bvs[..r + 1]);
    }
  }

  /** A split always makes progress if and only if the queue takes the first vector alone. */
  lemma ProgressIff(q: Limits, l: Bounds, bvs: seq<Bvec>)
    requires bvs != []
    ensures Prefix(q, l, bvs, 0) > 0 <==> bvs[0].len / SECTOR <= l.maxSectors && q.maxSegments >= 1
  {
    assert bvs[..0] == [];
    assert Scan(q, []) == [];
  }

  /* ---- what the split leaves on the bio ---- */

  /** The bio that blk_queue_split hands on: the front part, counted and measured. A part split off is a fresh clone, whose
      back size starts from nothing. */
  function SplitOff(q: Limits, l: Bounds, b: Bio): Bio
    requires Prefix(q, l, b.bvecs, 0) > 0
  {
    var k := Prefix(q, l, b.bvecs, 0);
    var ss := Scan(q, b.bvecs[..k]);
    ScanLegal(q, b.bvecs[..k]);
    Bio(b.bvecs[..k], Max(b.front, Size(ss[0])), Max(if k < |b.bvecs| then 0 else b.back, Size(Last(ss))), |ss|, true)
  }

  /** What comes out of the split is counted with its sizes, on every queue and whatever the bio carried before. */
  lemma SplitCounts(q: Limits, l: Bounds, b: Bio)
    requires Prefix(q, l, b.bvecs, 0) > 0
    ensures BioOk(q, true, SplitOff(q, l, b)) && SplitOff(q, l, b).segs <= q.maxSegments
  {
    var c := SplitOff(q, l, b);
    assert b.bvecs[..0] == [];
    var k := PrefixPassed(q, l, b.bvecs, 0);
    ScanLegal(q, c.bvecs);
    assert Witness(q, true, Scan(q, c.bvecs), c.bvecs, c.segs, c.front, c.back);
  }

  /* ---- the loop ---- */

  /** The variables of the loop in front of vector k. */
  ghost predicate At(q: Limits, bvs: seq<Bvec>, front0: nat, k: nat, nsegs: nat, segSize: nat, front: nat) {
    && k <= |bvs| && nsegs == |Scan(q, bvs[..k])|
    && (k == 0 ==> front == front0)
    && (k > 0 ==>
        var g := Scan(q, bvs[..k]);
        && g != [] && Last(g) != [] && segSize == Size(Last(g)) && Last(Last(g)) == bvs[k - 1]
        && front == Max(front0, Size(g[0])))
  }

  /** Whether vector k joins the segment in front of it. */
  predicate Joins(q: Limits, bvs: seq<Bvec>, k: nat, segSize: nat)
    requires k < |bvs|
  {
    k > 0 && segSize + bvs[k].len <= q.maxSize && Joinable(q, bvs[k - 1], bvs[k])
  }

  lemma ScanNext(q: Limits, bvs: seq<Bvec>, front0: nat, k: nat, nsegs: nat, segSize: nat, front: nat)
    requires k < |bvs| && At(q, bvs, front0, k, nsegs, segSize, front)
    ensures Scan(q, bvs[..k + 1]) == ScanStep(q, Scan(q, bvs[..k]), bvs[k])
    ensures |Scan(q, bvs[..k + 1])| == if Joins(q, bvs, k, segSize) then nsegs else nsegs + 1
  {
    Snoc(bvs, k);
    assert k == 0 ==> bvs[..k] == [];
  }

  lemma Step(q: Limits, bvs: seq<Bvec>, front0: nat, k: nat, nsegs: nat, segSize: nat, front: nat)
    requires k < |bvs| && At(q, bvs, front0, k, nsegs, segSize, front)
    ensures var joins := Joins(q, bvs, k, segSize);
            var n, size := if joins then nsegs else nsegs + 1, if joins then segSize + bvs[k].len else bvs[k].len;
            At(q, bvs, front0, k + 1, n, size, if n == 1 then Max(front, size) else front)
  {
    ScanNext(q, bvs, front0, k, nsegs, segSize, front);
    Snoc(bvs, k);
    if Joins(q, bvs, k, segSize) {
      SizeSnoc(Last(Scan(q, bvs[..k])), bvs[k]);
    } else {
      assert Size([bvs[k]]) == bvs[k].len;
    }
  }

  /** The tests of the loop, on its variables. */
  predicate Tests(q: Limits, l: Bounds, bvs: seq<Bvec>, k: nat, sectors: nat, nsegs: nat, segSize: nat)
    requires k < |bvs|
  {
    && sectors + bvs[k].len / SECTOR <= l.maxSectors
    && (k > 0 ==> !Gap(l, bvs[k - 1], bvs[k]))
    && (if Joins(q, bvs, k, segSize) then nsegs else nsegs + 1) <= q.maxSegments
  }

  lemma Tested(q: Limits, l: Bounds, bvs: seq<Bvec>, front0: nat, k: nat, nsegs: nat, segSize: nat, front: nat)
    requires k < |bvs| && At(q, bvs, front0, k, nsegs, segSize, front)
    ensures Prefix(q, l, bvs, k) ==
              if Tests(q, l, bvs, k, Sectors(bvs[..k]), nsegs, segSize) then Prefix(q, l, bvs, k + 1) else k
  {
    ScanNext(q, bvs, front0, k, nsegs, segSize, front);
  }

  /** The invariant of the loop. */
  ghost predicate Looping(q: Limits, l: Bounds, b: Bio, k: nat, sectors: nat, nsegs: nat, segSize: nat, front: nat) {
    && At(q, b.bvecs, b.front, k, nsegs, segSize, front)
    && sectors == Sectors(b.bvecs[..k]) && nsegs <= q.maxSegments && Prefix(q, l, b.bvecs, k) == Prefix(q, l, b.bvecs, 0)
  }

  /** One more vector past the tests, */
  lemma Turn(q: Limits, l: Bounds, b: Bio, k: nat, sectors: nat, nsegs: nat, segSize: nat, front: nat, joins: bool)
    requires k < |b.bvecs| && Looping(q, l, b, k, sectors, nsegs, segSize, front)
    requires Tests(q, l, b.bvecs, k, sectors, nsegs, segSize) && joins == Joins(q, b.bvecs, k, segSize)
    ensures var n, size := if joins then nsegs else nsegs + 1, if joins then segSize + b.bvecs[k].len else b.bvecs[k].len;
            Looping(q, l, b, k + 1, sectors + b.bvecs[k].len / SECTOR, n, size, if n == 1 then Max(front, size) else front)
  {
    Tested(q, l, b.bvecs, b.front, k, nsegs, segSize, front);
    Snoc(b.bvecs, k);
    Step(q, b.bvecs, b.front, k, nsegs, segSize, front);
  }

  /** or the end of the prefix. */
  lemma Stops(q: Limits, l: Bounds, b: Bio, k: nat, sectors: nat, nsegs: nat, segSize: nat, front: nat)
    requires Looping(q, l, b, k, sectors, nsegs, segSize, front)
    requires k == |b.bvecs| || !Tests(q, l, b.bvecs, k, sectors, nsegs, segSize)
    ensures k == Prefix(q, l, b.bvecs, 0) && sectors == Sectors(b.bvecs[..k])
  {
    if k < |b.bvecs| {
      Tested(q, l, b.bvecs, b.front, k, nsegs, segSize, front);
    }
  }

  /** What the variables are when the loop is over. */
  lemma Done(q: Limits, l: Bounds, b: Bio, k: nat, nsegs: nat, segSize: nat, front: nat)
    requires At(q, b.bvecs, b.front, k, nsegs, segSize, front) && k == Prefix(q, l, b.bvecs, 0) > 0
    ensures SplitOff(q, l, b) == Bio(b.bvecs[..k], front, Max(if k < |b.bvecs| then 0 else b.back, segSize), nsegs, true)
  {
  }

  /** blk_bio_segment_split: the sectors that stay in front, and the sizes and the count it leaves on them. A bio that the
      queue takes nothing of is left alone. */
  method SplitBio(q: Limits, l: Bounds, b: Bio) returns (sectors: nat, res: Bio)
    ensures sectors == Sectors(b.bvecs[..Prefix(q, l, b.bvecs, 0)])
    ensures res == if Prefix(q, l, b.bvecs, 0) > 0 then SplitOff(q, l, b) else b
  {
    var bvs := b.bvecs;
    var k: nat, nsegs: nat, segSize: nat, front: nat := 0, 0, 0, b.front;
    sectors := 0;
    assert bvs[..0] == [];
    while k < |bvs|
      invariant k <= |bvs| && Looping(q, l, b, k, sectors, nsegs, segSize, front)
    {
      var bv, joins := bvs[k], Joins(q, bvs, k, segSize);
      if sectors + bv.len / SECTOR > l.maxSectors {
        break;
      }
      if k > 0 && Gap(l, bvs[k - 1], bv) {
        break;
      }
      if !joins && nsegs == q.maxSegments {
        break;
      }
      Turn(q, l, b, k, sectors, nsegs, segSize, front, joins);
      if joins {
        segSize := segSize + bv.len;
      } else {
        nsegs := nsegs + 1;
        segSize := bv.len;
      }
      if nsegs == 1 && segSize > front {
        front := segSize;
      }
      sectors := sectors + bv.len / SECTOR;
      k := k + 1;
    }
    Stops(q, l, b, k, sectors, nsegs, segSize, front);
    res := b;
    if k > 0 {
      Done(q, l, b, k, nsegs, segSize, front);
      var back := if k < |bvs| then 0 else b.back;
      res := Bio(bvs[..k], front, if segSize > back then segSize else back, nsegs, true);
    }
  }
}
