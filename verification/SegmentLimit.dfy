/**
 The queue's limit on segments (block/blk-merge.c): when merges happen, and that no request ever needs more scatterlist
 entries than the queue allows. The counter itself stays within the limit too, save for one case that is given exactly.
 */
module SegmentLimit {
  import opened Arith
  import opened Segments
  import opened SegmentCount
  import opened SegmentSplit
  import opened SegmentFits

  /* ---- when merges happen ---- */

  /** From r to m the vectors `front` have come before and `back` behind those of r, and `n` segments were added. */
  ghost predicate Grown(r: Request, m: Request, front: seq<Bvec>, back: seq<Bvec>, n: int) {
    All(m.bios) == front + All(r.bios) + back && m.nrPhys == r.nrPhys + n
  }

  lemma SameVecs(q: Limits, bios: seq<Bio>, i: nat)
    requires i < |bios| && bios[i].bvecs != []
    ensures All(bios[i := Counted(q, bios[i])]) == All(bios)
  {
    AllUpdate(bios, i, Counted(q, bios[i]));
  }

  lemma LongerIsNot(a: seq<Bvec>, x: seq<Bvec>, y: seq<Bvec>)
    requires x != [] || y != []
    ensures x + a + y != [] + a + []
  {
    assert |x + a + y| > |[] + a + []|;
  }

  lemma Neutral(a: seq<Bvec>, b: seq<Bvec>)
    ensures [] + a + b == a + b && b + a + [] == b + a && [] + a + [] == a
  {
  }

  /** The bios with their counts refreshed, and the new one behind. */
  lemma BackVecs(q: Limits, bios: seq<Bio>, b: Bio)
    requires bios != [] && Last(bios).bvecs != [] && b.bvecs != []
    ensures var recounted := bios[|bios| - 1 := Counted(q, Last(bios))];
            All(recounted) == All(bios) && All(recounted + [Counted(q, b)]) == All(bios) + b.bvecs
  {
    var recounted := bios[|bios| - 1 := Counted(q, Last(bios))];
    SameVecs(q, bios, |bios| - 1);
    AllConcat(recounted, [Counted(q, b)]);
    AllOne(Counted(q, b));
  }

  lemma FrontVecs(q: Limits, bios: seq<Bio>, b: Bio)
    requires bios != [] && bios[0].bvecs != [] && b.bvecs != []
    ensures var recounted := bios[0 := Counted(q, bios[0])];
            All(recounted) == All(bios) && All([Counted(q, b)] + recounted) == b.bvecs + All(bios)
  {
    var recounted := bios[0 := Counted(q, bios[0])];
    SameVecs(q, bios, 0);
    AllConcat([Counted(q, b)], recounted);
    AllOne(Counted(q, b));
  }

  /** A bio is merged at the back, its vectors behind the others and its segments counted, if and only if it is not refused
      for other reasons and the two counts together are within the limit; if it is not, vectors and count are as before. */
  lemma BackMergeIff(q: Limits, r: Request, b: Bio, refused: bool)
    requires r.bios != [] && Last(r.bios).bvecs != [] && b.bvecs != []
    ensures var m, n := BackMerge(q, r, b, refused), Counted(q, b).segs;
            && (Grown(r, m, [], b.bvecs, n) <==> !refused && r.nrPhys + n <= q.maxSegments)
            && (Grown(r, m, [], [], 0) <==> refused || r.nrPhys + n > q.maxSegments)
  {
    BackVecs(q, r.bios, b);
    LongerIsNot(All(r.bios), [], b.bvecs);
    Neutral(All(r.bios), b.bvecs);
    Neutral(All(r.bios), []);
  }

  /** The same at the front. */
  lemma FrontMergeIff(q: Limits, r: Request, b: Bio, refused: bool)
    requires r.bios != [] && r.bios[0].bvecs != [] && b.bvecs != []
    ensures var m, n := FrontMerge(q, r, b, refused), Counted(q, b).segs;
            && (Grown(r, m, b.bvecs, [], n) <==> !refused && r.nrPhys + n <= q.maxSegments)
            && (Grown(r, m, [], [], 0) <==> refused || r.nrPhys + n > q.maxSegments)
  {
    FrontVecs(q, r.bios, b);
    LongerIsNot(All(r.bios), b.bvecs, []);
    Neutral(All(r.bios), b.bvecs);
    Neutral(All(r.bios), []);
  }

  /** The last segment of r and the first of n become one: the vectors that meet can be joined, and the two are small enough
      together. */
  ghost predicate Meet(q: Limits, r: Request, n: Request)
    requires r.bios != [] && n.bios != [] && Last(r.bios).bvecs != [] && n.bios[0].bvecs != []
  {
    && Last(r.bios).back + n.bios[0].front <= q.maxSize
    && Joinable(q, Last(Last(r.bios).bvecs), n.bios[0].bvecs[0])
  }

  /** The sizes that the attempt sets are not vectors or counts. */
  ghost predicate SameRequest(r: Request, m: Request) { All(m.bios) == All(r.bios) && m.nrPhys == r.nrPhys }

  lemma FrontSize(r: Request, size: nat)
    requires r.bios != []
    ensures SameRequest(r, r.(bios := r.bios[0 := r.bios[0].(front := size)]))
  {
    AllUpdate(r.bios, 0, r.bios[0].(front := size));
  }

  lemma BackSize(n: Request, size: nat)
    requires n.bios != []
    ensures SameRequest(n, n.(bios := n.bios[|n.bios| - 1 := Last(n.bios).(back := size)]))
  {
    AllUpdate(n.bios, |n.bios| - 1, Last(n.bios).(back := size));
  }

  /** The attempt, with the two requests it leaves if it fails. */
  lemma Attempt(q: Limits, r: Request, n: Request) returns (r1: Request, n1: Request)
    requires Formed(r.bios) && Formed(n.bios) && r.nrPhys + n.nrPhys >= 1
    ensures SameRequest(r, r1) && SameRequest(n, n1)
    ensures var total := r.nrPhys + n.nrPhys - (if Meet(q, r, n) then 1 else 0);
            MergeRequests(q, r, n, false) ==
            if total > q.maxSegments then (false, r1, n1) else (true, Request(r1.bios + n1.bios, total), n1)
  {
    var size := Last(r.bios).back + n.bios[0].front;
    FrontSize(r, size);
    BackSize(n, size);
    r1 := if Meet(q, r, n) && r.nrPhys == 1 then r.(bios := r.bios[0 := r.bios[0].(front := size)]) else r;
    n1 := if Meet(q, r, n) && n.nrPhys == 1 then n.(bios := n.bios[|n.bios| - 1 := Last(n.bios).(back := size)]) else n;
  }

  /** Two requests are merged, the vectors of the second behind those of the first, if and only if that is not refused for
      other reasons and the two counts, less one if the segments that meet become one, are within the limit; otherwise both
      keep their vectors and counts. */
  lemma MergeRequestsIff(q: Limits, r: Request, n: Request, refused: bool)
    requires Formed(r.bios) && Formed(n.bios) && r.nrPhys + n.nrPhys >= 1
    ensures var (merged, r', n') := MergeRequests(q, r, n, refused);
            var less := if Meet(q, r, n) then 1 else 0;
            && (merged <==> !refused && r.nrPhys + n.nrPhys - less <= q.maxSegments)
            && (merged ==> Grown(r, r', [], All(n.bios), n.nrPhys - less))
            && (!merged ==> Grown(r, r', [], [], 0) && Grown(n, n', [], [], 0))
  {
    Neutral(All(r.bios), All(n.bios));
    Neutral(All(n.bios), []);
    if !refused {
      var r1, n1 := Attempt(q, r, n);
      AllConcat(r1.bios, n1.bios);
    }
  }

  /* ---- taking bytes off the front needs no more segments ---- */

  /** Another first segment. */
  lemma FirstSegment(q: Limits, ss: seq<seq<Bvec>>, bvs: seq<Bvec>, x: seq<Bvec>)
    requires ss != [] && Segmentation(q, ss, bvs) && Legal(q, x)
    ensures bvs == ss[0] + Flatten(ss[1..]) && Segmentation(q, [x] + ss[1..], x + Flatten(ss[1..]))
  {
    FlattenConcat([x], ss[1..]);
    FlattenConcat([ss[0]], ss[1..]);
    FlattenOne(x);
    FlattenOne(ss[0]);
    assert ss == [ss[0]] + ss[1..];
  }

  lemma FlattenOne(x: seq<Bvec>)
    ensures Flatten([x]) == x
  {
    assert [x][..0] == [];
  }

  lemma LegalRest(q: Limits, s: seq<Bvec>)
    requires Legal(q, s) && |s| > 1
    ensures Legal(q, s[1..])
  {
    SizeHead(s);
    forall i | 0 <= i < |s[1..]| - 1 ensures Joinable(q, s[1..][i], s[1..][i + 1]) {
      assert Joinable(q, s[i + 1], s[i + 2]);
    }
  }

  lemma JoinableLater(q: Limits, a: Bvec, v: Bvec, b: Bvec)
    requires Joinable(q, a, b) && a.addr <= v.addr && v.addr + v.len == a.addr + a.len
    ensures Joinable(q, v, b)
  {
    DivMono(a.addr, v.addr, q.window);
    DivMono(v.addr, b.addr + b.len - 1, q.window);
  }

  lemma SizeShorter(s: seq<Bvec>, v: Bvec)
    requires s != [] && v.len <= s[0].len
    ensures Size([v] + s[1..]) <= Size(s)
  {
    SizeHead(s);
    SizeHead([v] + s[1..]);
    assert ([v] + s[1..])[1..] == s[1..];
  }

  /** The first vector starts later. */
  lemma LegalShorter(q: Limits, s: seq<Bvec>, v: Bvec)
    requires Legal(q, s) && s[0].addr <= v.addr && v.addr + v.len == s[0].addr + s[0].len
    ensures Legal(q, [v] + s[1..])
  {
    var t := [v] + s[1..];
    SizeShorter(s, v);
    forall i | 0 <= i < |t| - 1 ensures Joinable(q, t[i], t[i + 1]) {
      assert Joinable(q, s[i], s[i + 1]);
      if i == 0 {
        JoinableLater(q, s[0], v, s[1]);
      }
    }
  }

  lemma DropCut(q: Limits, ss: seq<seq<Bvec>>, bvs: seq<Bvec>) returns (tt: seq<seq<Bvec>>)
    requires ss != [] && Segmentation(q, ss, bvs)
    ensures bvs != [] && Segmentation(q, tt, bvs[1..]) && |tt| <= |ss|
  {
    var x, rest := ss[0], Flatten(ss[1..]);
    FirstSegment(q, ss, bvs, x);
    assert bvs[1..] == x[1..] + rest;
    if |x| > 1 {
      LegalRest(q, x);
      FirstSegment(q, ss, bvs, x[1..]);
      tt := [x[1..]] + ss[1..];
    } else {
      assert x[1..] + rest == rest;
      tt := ss[1..];
    }
  }

  lemma ScanSome(q: Limits, bvs: seq<Bvec>)
    requires bvs != []
    ensures Scan(q, bvs) != [] && Segmentation(q, Scan(q, bvs), bvs)
  {
    ScanLegal(q, bvs);
  }

  lemma DropFewer(q: Limits, bvs: seq<Bvec>)
    requires bvs != []
    ensures |Scan(q, bvs[1..])| <= |Scan(q, bvs)|
  {
    ScanSome(q, bvs);
    var tt := DropCut(q, Scan(q, bvs), bvs);
    ScanMinimal(q, bvs[1..], tt);
  }

  lemma OtherHead(bvs: seq<Bvec>, x: seq<Bvec>, rest: seq<Bvec>, v: Bvec)
    requires bvs == x + rest && x != []
    ensures bvs[0] == x[0] && [v] + bvs[1..] == ([v] + x[1..]) + rest
  {
    assert bvs[1..] == x[1..] + rest;
  }

  lemma ShortenCut(q: Limits, ss: seq<seq<Bvec>>, bvs: seq<Bvec>, v: Bvec) returns (tt: seq<seq<Bvec>>)
    requires ss != [] && Segmentation(q, ss, bvs) && bvs != []
    requires bvs[0].addr <= v.addr && v.addr + v.len == bvs[0].addr + bvs[0].len
    ensures Segmentation(q, tt, [v] + bvs[1..]) && |tt| == |ss|
  {
    var x, rest := ss[0], Flatten(ss[1..]);
    FirstSegment(q, ss, bvs, x);
    OtherHead(bvs, x, rest, v);
    LegalShorter(q, x, v);
    FirstSegment(q, ss, bvs, [v] + x[1..]);
    tt := [[v] + x[1..]] + ss[1..];
  }

  lemma ShortenFewer(q: Limits, bvs: seq<Bvec>, v: Bvec)
    requires bvs != [] && bvs[0].addr <= v.addr && v.addr + v.len == bvs[0].addr + bvs[0].len
    ensures |Scan(q, [v] + bvs[1..])| <= |Scan(q, bvs)|
  {
    ScanSome(q, bvs);
    var tt := ShortenCut(q, Scan(q, bvs), bvs, v);
    ScanMinimal(q, [v] + bvs[1..], tt);
  }

  /** What is left after a partial completion needs no more segments than the whole did. */
  lemma {:induction false} RestFewer(q: Limits, bvs: seq<Bvec>, n: nat)
    ensures |Scan(q, RestVecs(bvs, n))| <= |Scan(q, bvs)|
    decreases |bvs|
  {
    if bvs != [] && n > 0 {
      if n >= bvs[0].len {
        DropFewer(q, bvs);
        RestFewer(q, bvs[1..], n - bvs[0].len);
      } else {
        ShortenFewer(q, bvs, Bvec(bvs[0].addr + n, bvs[0].len - n));
      }
    }
  }

  /* ---- the limit ---- */

  /** A history of bios that went through blk_queue_split. */
  ghost predicate Submitted(q: Limits, l: Bounds, b: Build) { forall bio :: bio in Bios(b) ==> Split(q, l, bio) }

  lemma SubmittedOk(q: Limits, l: Bounds, b: Build)
    requires Submitted(q, l, b)
    ensures forall bio :: bio in Bios(b) ==> bio.bvecs != []
    ensures RqOk(q, true, Built(q, b)) && MapFits(q, b)
  {
    forall bio | bio in Bios(b) ensures bio.bvecs != [] && BioOk(q, true, bio) {
      SplitBioOk(q, l, bio);
    }
    BuiltOk(q, true, b);
    OkFits(q, true, b);
  }

  ghost function Entries(q: Limits, b: Build): nat
    requires forall bio :: bio in Bios(b) ==> bio.bvecs != []
  {
    |Scan(q, All(Built(q, b).bios))|
  }

  lemma StartWithin(q: Limits, l: Bounds, bio: Bio)
    requires Split(q, l, bio)
    ensures bio.bvecs != [] && Prep(q, bio).nrPhys <= q.maxSegments
  {
    var b: Bio :| Prefix(q, l, b.bvecs, 0) > 0 && bio == SplitOff(q, l, b);
    SplitCounts(q, l, b);
  }

  lemma ResumedVecs(q: Limits, r: Request, n: nat)
    requires Formed(r.bios) && n < Size(All(r.bios))
    ensures All(Resumed(q, r, n).bios) == RestVecs(All(r.bios), n)
    ensures Resumed(q, r, n).nrPhys == |Scan(Effective(q), RestVecs(All(r.bios), n))|
  {
    ResumeOk(q, true, r, n);
    RestBiosAll(r.bios, n);
  }

  lemma ResumeFewer(q: Limits, r: Request, n: nat)
    requires Formed(r.bios)
    ensures |Scan(q, All(Resumed(q, r, n).bios))| <= |Scan(q, All(r.bios))|
    ensures Effective(q) == q && |Scan(q, All(r.bios))| <= r.nrPhys ==> Resumed(q, r, n).nrPhys <= r.nrPhys
  {
    if n < Size(All(r.bios)) {
      ResumedVecs(q, r, n);
      RestFewer(q, All(r.bios), n);
    }
  }

  /** One step of a history adds entries only within the limit. */
  lemma StepWithin(q: Limits, l: Bounds, b: Build)
    requires Submitted(q, l, b)
    ensures forall bio :: bio in Bios(b) ==> bio.bvecs != []
    ensures b.Start? || Entries(q, b) <= q.maxSegments || Entries(q, b) <= Entries(q, b.b)
  {
    SubmittedOk(q, l, b);
    match b {
      case Start(bio) =>
      case Append(b', bio, refused) => BackMergeIff(q, Built(q, b'), bio, refused); Neutral(All(Built(q, b').bios), []);
      case Prepend(b', bio, refused) => FrontMergeIff(q, Built(q, b'), bio, refused); Neutral(All(Built(q, b').bios), []);
      case Join(b', n, refused) => JoinWithin(q, l, b', n, refused);
      case Resume(b', bytes) => ResumeFewer(q, Built(q, b'), bytes);
    }
  }

  lemma MergeWithin(q: Limits, r: Request, n: Request, refused: bool)
    requires Formed(r.bios) && Formed(n.bios) && r.nrPhys >= 1
    ensures var m := MergeRequests(q, r, n, refused).1; SameRequest(r, m) || m.nrPhys <= q.maxSegments
  {
    MergeRequestsIff(q, r, n, refused);
    Neutral(All(r.bios), []);
  }

  lemma JoinWithin(q: Limits, l: Bounds, b: Build, n: Build, refused: bool)
    requires Submitted(q, l, Join(b, n, refused))
    ensures forall bio :: bio in Bios(Join(b, n, refused)) ==> bio.bvecs != []
    ensures var r, m := Built(q, b), Built(q, Join(b, n, refused)); SameRequest(r, m) || m.nrPhys <= q.maxSegments
  {
    SubmittedOk(q, l, b);
    SubmittedOk(q, l, n);
    CountPositive(q, Built(q, b));
    MergeWithin(q, Built(q, b), Built(q, n), refused);
  }

  lemma CountPositive(q: Limits, r: Request)
    requires RqOk(q, true, r)
    ensures r.nrPhys >= 1
  {
  }

  /** On every queue a request put together from submitted bios, by merges that happen or are refused and by partial
      completions in any order, is mapped to no more entries than the queue allows. */
  lemma {:induction false} EntriesWithinQueue(q: Limits, l: Bounds, b: Build)
    requires Submitted(q, l, b)
    ensures forall bio :: bio in Bios(b) ==> bio.bvecs != []
    ensures Entries(q, b) <= q.maxSegments
  {
    StepWithin(q, l, b);
    match b {
      case Start(bio) => StartWithin(q, l, bio); SubmittedOk(q, l, b);
      case Append(b', _, _) => EntriesWithinQueue(q, l, b');
      case Prepend(b', _, _) => EntriesWithinQueue(q, l, b');
      case Join(b', _, _) => EntriesWithinQueue(q, l, b');
      case Resume(b', _) => EntriesWithinQueue(q, l, b');
    }
  }

  /* ---- the counter ---- */

  /** No partial completion. */
  ghost predicate Whole(b: Build) {
    match b
    case Start(_) => true
    case Append(b', _, _) => Whole(b')
    case Prepend(b', _, _) => Whole(b')
    case Join(b', n, _) => Whole(b') && Whole(n)
    case Resume(_, _) => false
  }

  /** The counter is within the limit as long as there is no partial completion, and on a queue that counts segments the
      same way then, always. */
  lemma {:induction false} CountWithinQueue(q: Limits, l: Bounds, b: Build)
    requires Submitted(q, l, b) && (Whole(b) || Effective(q) == q)
    ensures forall bio :: bio in Bios(b) ==> bio.bvecs != []
    ensures Built(q, b).nrPhys <= q.maxSegments
  {
    SubmittedOk(q, l, b);
    match b {
      case Start(bio) => StartWithin(q, l, bio);
      case Append(b', bio, refused) =>
        CountWithinQueue(q, l, b');
        BackMergeIff(q, Built(q, b'), bio, refused);
      case Prepend(b', bio, refused) =>
        CountWithinQueue(q, l, b');
        FrontMergeIff(q, Built(q, b'), bio, refused);
      case Join(b', n, refused) =>
        CountWithinQueue(q, l, b');
        JoinWithin(q, l, b', n, refused);
      case Resume(b', bytes) =>
        CountWithinQueue(q, l, b');
        SubmittedOk(q, l, b');
        ResumeFewer(q, Built(q, b'), bytes);
    }
  }

  /* ---- where the counter passes the limit ---- */

  lemma ScanPair(q: Limits, a: Bvec, b: Bvec)
    requires Joinable(q, a, b) && a.len + b.len <= q.maxSize
    ensures Scan(q, [a]) == [[a]] && Scan(q, [a, b]) == [[a, b]] && Size([a, b]) == a.len + b.len
  {
    assert [a][..0] == [] && [a, b][..1] == [a];
    assert Size([a]) == a.len;
    assert Scan(q, [a]) == [[a]];
    assert Scan(q, [a, b]) == ScanStep(q, [[a]], b);
    assert [a] + [b] == [a, b];
    assert [[a]][..0] + [[a] + [b]] == [[a, b]];
  }

  lemma ScanTwin(q: Limits, bvs: seq<Bvec>)
    requires q.cluster && q.maxSize >= 2048 && q.window >= 2048 && bvs == [Bvec(0, 1024), Bvec(1024, 1024)]
    ensures Scan(q, bvs) == [bvs] && Size(bvs) == 2048 && Scan(q, bvs[..1]) == [bvs[..1]]
  {
    InWindow(2047, q.window);
    ScanPair(q, bvs[0], bvs[1]);
    assert bvs[..1] == [bvs[0]];
  }

  lemma PrefixTwin(q: Limits, l: Bounds, bvs: seq<Bvec>)
    requires q.cluster && q.maxSize >= 2048 && q.window >= 2048 && q.maxSegments >= 1 && l.maxSectors >= 4 && l.virt == 0
    requires bvs == [Bvec(0, 1024), Bvec(1024, 1024)]
    ensures Prefix(q, l, bvs, 0) == 2
  {
    ScanTwin(q, bvs);
    assert bvs[..2] == bvs;
    assert Sectors([]) == 0 && Sectors(bvs[..1]) == 2 by {
      assert bvs[..1][..0] == [];
    }
    assert Passed(q, l, bvs[..0]);
    assert Sectors(bvs) == 4;
    PrefixNext(q, l, bvs, 0);
    PrefixNext(q, l, bvs, 1);
  }

  /** The vectors of the bio are whole sectors. */
  ghost predicate InSectors(x: Bio) { forall i :: 0 <= i < |x.bvecs| ==> x.bvecs[i].len % SECTOR == 0 }

  /** So are all vectors, and what partial completions complete. */
  ghost predicate Sectoral(b: Build) {
    && (forall x :: x in Bios(b) ==> InSectors(x))
    && match b
       case Start(_) => true
       case Append(b', _, _) => Sectoral(b')
       case Prepend(b', _, _) => Sectoral(b')
       case Join(b', n, _) => Sectoral(b') && Sectoral(n)
       case Resume(b', bytes) => Sectoral(b') && bytes % SECTOR == 0
  }

  /** Two vectors of two sectors, counted as one segment. */
  ghost predicate Twin(x: Bio) { x.valid && x.segs == 1 && |x.bvecs| == 2 && x.bvecs[0].len == 1024 && InSectors(x) }

  lemma TwinIsSplit(q: Limits, l: Bounds) returns (x: Bio)
    requires q.cluster && q.maxSize >= 2048 && q.window >= 2048 && q.maxSegments >= 1 && l.maxSectors >= 4 && l.virt == 0
    ensures Split(q, l, x) && Twin(x)
  {
    var b := Bio([Bvec(0, 1024), Bvec(1024, 1024)], 0, 0, 0, false);
    PrefixTwin(q, l, b.bvecs);
    ScanTwin(q, b.bvecs);
    assert b.bvecs[..2] == b.bvecs;
    x := SplitOff(q, l, b);
  }

  /** k of them one behind the other. */
  lemma {:induction false} Twins(q: Limits, x: Bio, k: nat) returns (b: Build)
    requires 1 <= k <= q.maxSegments && Twin(x)
    ensures Bios(b) == {x} && Sectoral(b)
    ensures var r := Built(q, b); r.nrPhys == k && |All(r.bios)| == 2 * k && All(r.bios)[0].len == 1024
    decreases k
  {
    if k == 1 {
      b := Start(x);
      AllOne(x);
    } else {
      var b' := Twins(q, x, k - 1);
      b := Append(b', x, false);
      BackMergeIff(q, Built(q, b'), x, false);
    }
  }

  /** With SG merging off, what is left after a partial completion is counted by its vectors. */
  lemma CountsEach(q: Limits, r: Request, n: nat)
    requires q.noSgMerge && Formed(r.bios) && All(r.bios) != [] && 0 < n < All(r.bios)[0].len
    ensures Resumed(q, r, n).nrPhys == |All(r.bios)|
  {
    var bvs := All(r.bios);
    SizeHead(bvs);
    ResumedVecs(q, r, n);
    Singles(Effective(q), RestVecs(bvs, n));
  }

  lemma ResumedCount(q: Limits, b: Build, x: Bio, n: nat)
    requires q.noSgMerge && Bios(b) == {x} && x.bvecs != []
    requires var bvs := All(Built(q, b).bios); bvs != [] && 0 < n < bvs[0].len
    ensures Bios(Resume(b, n)) == {x} && Built(q, Resume(b, n)).nrPhys == |All(Built(q, b).bios)|
  {
    CountsEach(q, Built(q, b), n);
  }

  lemma SubmittedOne(q: Limits, l: Bounds, b: Build, x: Bio)
    requires Bios(b) == {x} && Split(q, l, x)
    ensures Submitted(q, l, b)
  {
  }

  /** With clustering on the split has counted fewer segments than that. */
  lemma CountsVectors(q: Limits, l: Bounds) returns (b: Build)
    requires q.noSgMerge && q.cluster && q.maxSize >= 2048 && q.window >= 2048 && q.maxSegments >= 1
    requires l.maxSectors >= 4 && l.virt == 0
    ensures Submitted(q, l, b) && Sectoral(b) && (forall bio :: bio in Bios(b) ==> bio.bvecs != [])
    ensures Built(q, b).nrPhys == 2 * q.maxSegments
  {
    var x := TwinIsSplit(q, l);
    var b' := Twins(q, x, q.maxSegments);
    ResumedCount(q, b', x, SECTOR);
    b := Resume(b', SECTOR);
    SubmittedOne(q, l, b, x);
  }

  /** The counter of every request built from submitted bios is within the limit if and only if SG merging is on, or there
      is no clustering, or nothing can be submitted; it is the same if everything is in whole sectors. */
  lemma CountWithinIff(q: Limits)
    requires q.maxSize >= 2048 && q.window >= 2048
    ensures (forall l, b :: Submitted(q, l, b) ==> CountFits(q, b)) <==> !q.noSgMerge || !q.cluster || q.maxSegments == 0
    ensures (forall l, b :: Submitted(q, l, b) && Sectoral(b) ==> CountFits(q, b)) <==>
            !q.noSgMerge || !q.cluster || q.maxSegments == 0
  {
    if !q.noSgMerge || !q.cluster || q.maxSegments == 0 {
      forall l, b | Submitted(q, l, b) ensures CountFits(q, b) {
        if q.maxSegments == 0 {
          NothingSubmitted(q, l, b);
        } else {
          CountWithinQueue(q, l, b);
        }
      }
    } else {
      var b := CountsVectors(q, Bounds(4, 0));
      assert !CountFits(q, b);
    }
  }

  ghost predicate CountFits(q: Limits, b: Build) {
    (forall bio :: bio in Bios(b) ==> bio.bvecs != []) && Built(q, b).nrPhys <= q.maxSegments
  }

  lemma NothingPasses(q: Limits, l: Bounds, bvs: seq<Bvec>)
    requires q.maxSegments == 0
    ensures Prefix(q, l, bvs, 0) == 0
  {
    if bvs != [] {
      ProgressIff(q, l, bvs);
    }
  }

  lemma {:induction false} NothingSubmitted(q: Limits, l: Bounds, b: Build)
    requires q.maxSegments == 0
    ensures !Submitted(q, l, b)
  {
    match b {
      case Start(bio) =>
        forall x: Bio ensures Prefix(q, l, x.bvecs, 0) == 0 {
          NothingPasses(q, l, x.bvecs);
        }
        assert !Split(q, l, bio);
      case Append(b', _, _) => NothingSubmitted(q, l, b');
      case Prepend(b', _, _) => NothingSubmitted(q, l, b');
      case Join(b', _, _) => NothingSubmitted(q, l, b');
      case Resume(b', _) => NothingSubmitted(q, l, b');
    }
  }
}
