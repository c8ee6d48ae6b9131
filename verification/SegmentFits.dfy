/**
 The safety of the segment counters (block/blk-merge.c): however a request was put together from bios that went through
 blk_queue_split, mapping it needs no more scatterlist entries than nr_phys_segments. For bios that did not go through it,
 the queues on which the same holds are given exactly.
 */
module SegmentFits {
  import opened Segments
  import opened SegmentCount
  import opened SegmentSplit

  /** How a data request comes about. A partial completion takes the first bytes off. */
  datatype Build =
    | Start(bio: Bio)
    | Append(b: Build, bio: Bio, refused: bool)
    | Prepend(b: Build, bio: Bio, refused: bool)
    | Join(b: Build, next: Build, refused: bool)
    | Resume(b: Build, bytes: nat)

  /** The bios a history starts from. */
  ghost function Bios(b: Build): set<Bio> {
    match b
    case Start(bio) => {bio}
    case Append(b', bio, _) => Bios(b') + {bio}
    case Prepend(b', bio, _) => Bios(b') + {bio}
    case Join(b', n, _) => Bios(b') + Bios(n)
    case Resume(b', _) => Bios(b')
  }

  lemma MergedFormed(q: Limits, r: Request, b: Bio, refused: bool)
    requires Formed(r.bios) && b.bvecs != []
    ensures Formed(BackMerge(q, r, b, refused).bios) && Formed(FrontMerge(q, r, b, refused).bios)
  {
  }

  lemma JoinedFormed(q: Limits, r: Request, n: Request, refused: bool)
    requires Formed(r.bios) && Formed(n.bios)
    ensures Formed(MergeRequests(q, r, n, refused).1.bios)
  {
  }

  /** What is left of a request of which n bytes are done; a completion of everything leaves none, so it is no step. */
  ghost function Resumed(q: Limits, r: Request, n: nat): (r': Request)
    requires Formed(r.bios)
    ensures Formed(r'.bios)
  {
    if n >= Size(All(r.bios)) then r else ResumeOk(q, true, r, n); Recalc(q, RestBios(r.bios, n))
  }

  /** The request a history yields. */
  ghost function Built(q: Limits, b: Build): (r: Request)
    requires forall bio :: bio in Bios(b) ==> bio.bvecs != []
    ensures Formed(r.bios)
  {
    match b
    case Start(bio) => Prep(q, bio)
    case Append(b', bio, refused) =>
      MergedFormed(q, Built(q, b'), bio, refused); BackMerge(q, Built(q, b'), bio, refused)
    case Prepend(b', bio, refused) =>
      MergedFormed(q, Built(q, b'), bio, refused); FrontMerge(q, Built(q, b'), bio, refused)
    case Join(b', n, refused) =>
      JoinedFormed(q, Built(q, b'), Built(q, n), refused); MergeRequests(q, Built(q, b'), Built(q, n), refused).1
    case Resume(b', bytes) => Resumed(q, Built(q, b'), bytes)
  }

  /** nr_phys_segments always counts some way to cut the request. */
  lemma {:induction false} BuiltOk(q: Limits, sizes: bool, b: Build)
    requires forall bio :: bio in Bios(b) ==> bio.bvecs != [] && BioOk(q, sizes, bio)
    requires sizes || Tight(q)
    ensures RqOk(q, sizes, Built(q, b))
  {
    match b {
      case Start(bio) => PrepOk(q, sizes, bio);
      case Append(b', bio, refused) =>
        BuiltOk(q, sizes, b');
        BackMergeOk(q, sizes, Built(q, b'), bio, refused);
      case Prepend(b', bio, refused) =>
        BuiltOk(q, sizes, b');
        FrontMergeOk(q, sizes, Built(q, b'), bio, refused);
      case Join(b', n, refused) =>
        BuiltOk(q, sizes, b');
        BuiltOk(q, sizes, n);
        MergeRequestsOk(q, sizes, Built(q, b'), Built(q, n), refused);
      case Resume(b', bytes) =>
        BuiltOk(q, sizes, b');
        if bytes < Size(All(Built(q, b').bios)) {
          ResumeOk(q, sizes, Built(q, b'), bytes);
        }
    }
  }

  /** Mapping the request sets up no more entries than it was counted for. */
  ghost predicate MapFits(q: Limits, b: Build)
    requires forall bio :: bio in Bios(b) ==> bio.bvecs != []
  {
    |Scan(q, All(Built(q, b).bios))| <= Built(q, b).nrPhys
  }

  lemma OkFits(q: Limits, sizes: bool, b: Build)
    requires forall bio :: bio in Bios(b) ==> bio.bvecs != []
    requires RqOk(q, sizes, Built(q, b))
    ensures MapFits(q, b)
  {
    var r := Built(q, b);
    var ss :| Witness(q, sizes, ss, All(r.bios), r.nrPhys, r.bios[0].front, Last(r.bios).back);
    ScanMinimal(q, All(r.bios), ss);
  }

  /* ---- bios that went through blk_queue_split ---- */

  /** A bio as blk_queue_split hands it on. */
  ghost predicate Split(q: Limits, l: Bounds, bio: Bio) {
    exists b: Bio :: Prefix(q, l, b.bvecs, 0) > 0 && bio == SplitOff(q, l, b)
  }

  lemma SplitBioOk(q: Limits, l: Bounds, bio: Bio)
    requires Split(q, l, bio)
    ensures bio.bvecs != [] && BioOk(q, true, bio)
  {
    var b: Bio :| Prefix(q, l, b.bvecs, 0) > 0 && bio == SplitOff(q, l, b);
    SplitCounts(q, l, b);
  }

  /** On every queue, whatever its flags and limits: a request put together from submitted bios by merges that happen or
      are refused and by partial completions, in any order, is mapped to no more entries than it was counted for. */
  lemma SubmittedFits(q: Limits, l: Bounds, b: Build)
    requires forall bio :: bio in Bios(b) ==> Split(q, l, bio)
    ensures forall bio :: bio in Bios(b) ==> bio.bvecs != []
    ensures MapFits(q, b)
  {
    forall bio | bio in Bios(b) ensures bio.bvecs != [] && BioOk(q, true, bio) {
      SplitBioOk(q, l, bio);
    }
    BuiltOk(q, true, b);
    OkFits(q, true, b);
  }

  /* ---- bios that bypass it ---- */

  /** A history of bios nobody has counted yet. */
  ghost predicate Uncounted(b: Build) { forall bio :: bio in Bios(b) ==> bio.bvecs != [] && !bio.valid }

  /** Two requests of one vector each, the vectors contiguous and together one byte too large for a segment. */
  ghost function Miscount(q: Limits): Build
    requires q.maxSize >= 1
  {
    Join(Start(Bio([Bvec(0, q.maxSize)], 0, 0, 0, false)), Start(Bio([Bvec(q.maxSize, 1)], 0, 0, 0, false)), false)
  }

  lemma ScanTwo(q: Limits, a: Bvec, b: Bvec)
    requires a.len + b.len > q.maxSize
    ensures |Scan(q, [a] + [b])| == 2
  {
    assert ([a] + [b])[..1] == [a] && [a][..0] == [];
    assert Scan(q, [a]) == [[a]];
    assert Size([a]) == a.len;
  }

  /** Without the sizes the minus-one join counts one segment where mapping needs two entries. */
  lemma MiscountsWithoutSizes(q: Limits)
    requires !SizesKept(q) && !Tight(q) && q.maxSize >= 1
    ensures Uncounted(Miscount(q)) && !MapFits(q, Miscount(q))
  {
    MiscountOne(q);
    TwoEntries(q, Miscount(q), Bvec(0, q.maxSize), Bvec(q.maxSize, 1));
  }

  /** A request that counts one segment and has two vectors that do not fit in one. */
  lemma TwoEntries(q: Limits, b: Build, x: Bvec, y: Bvec)
    requires Uncounted(b) && x.len + y.len > q.maxSize
    requires var r := Built(q, b); r.nrPhys == 1 && |r.bios| == 2 && r.bios[0].bvecs == [x] && r.bios[1].bvecs == [y]
    ensures !MapFits(q, b)
  {
    var r := Built(q, b);
    AllTwo(r.bios);
    TooMany(q, r, x, y);
  }

  lemma TooMany(q: Limits, r: Request, x: Bvec, y: Bvec)
    requires r.nrPhys == 1 && All(r.bios) == [x] + [y] && x.len + y.len > q.maxSize
    ensures |Scan(q, All(r.bios))| > r.nrPhys
  {
    ScanTwo(q, x, y);
  }

  lemma AllTwo(bios: seq<Bio>)
    requires |bios| == 2
    ensures All(bios) == bios[0].bvecs + bios[1].bvecs
  {
    assert bios == [bios[0]] + [bios[1]];
    AllConcat([bios[0]], [bios[1]]);
    AllOne(bios[0]);
    AllOne(bios[1]);
  }

  lemma MiscountOne(q: Limits)
    requires !SizesKept(q) && !Tight(q) && q.maxSize >= 1
    ensures var r := Built(q, Miscount(q));
            && r.nrPhys == 1 && |r.bios| == 2
            && r.bios[0].bvecs == [Bvec(0, q.maxSize)] && r.bios[1].bvecs == [Bvec(q.maxSize, 1)]
  {
    var a, b := Bvec(0, q.maxSize), Bvec(q.maxSize, 1);
    var x, y := Bio([a], 0, 0, 0, false), Bio([b], 0, 0, 0, false);
    InWindow(q.maxSize, q.window);
    assert Joinable(q, a, b);
    assert Built(q, Start(x)) == Prep(q, x) == Request([x.(segs := 1, valid := true)], 1);
    assert Built(q, Start(y)) == Prep(q, y) == Request([y.(segs := 1, valid := true)], 1);
    assert Built(q, Miscount(q)) == MergeRequests(q, Prep(q, x), Prep(q, y), false).1;
  }

  lemma InWindow(x: nat, w: nat)
    requires x < w
    ensures 0 / w == 0 && x / w == 0
  {
  }

  /** Requests of uncounted bios could be joined safely if and only if the queue keeps segment sizes when it counts, or
      joining does not need them: SG merging is on, or only one segment is allowed, or there is no clustering, or no window
      is larger than a segment may be. On the other queues it is the split that makes joining safe. */
  lemma UncountedFitsIff(q: Limits)
    requires q.maxSize >= 1
    ensures (forall b :: Uncounted(b) ==> MapFits(q, b)) <==> SizesKept(q) || Tight(q)
  {
    if SizesKept(q) || Tight(q) {
      forall b | Uncounted(b) ensures MapFits(q, b) {
        BuiltOk(q, SizesKept(q), b);
        OkFits(q, SizesKept(q), b);
      }
    } else {
      MiscountsWithoutSizes(q);
    }
  }

  /** Passthrough requests, which bypass the split, are built by appending alone and never joined. */
  ghost predicate Appended(b: Build) { b.Start? || (b.Append? && Appended(b.b)) }

  lemma {:induction false} AppendedOk(q: Limits, b: Build)
    requires Uncounted(b) && Appended(b)
    ensures RqOk(q, false, Built(q, b))
  {
    match b {
      case Start(bio) => PrepOk(q, false, bio);
      case Append(b', bio, refused) =>
        AppendedOk(q, b');
        BackMergeOk(q, false, Built(q, b'), bio, refused);
      case _ =>
    }
  }

  /** So they fit on every queue, although their sizes need not be right. */
  lemma PassthroughFits(q: Limits, b: Build)
    requires Uncounted(b) && Appended(b)
    ensures MapFits(q, b)
  {
    AppendedOk(q, b);
    OkFits(q, false, b);
  }
}
