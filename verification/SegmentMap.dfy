/**
 Scatterlist mapping and the counting loops of block/blk-merge.c as loops: they follow the scan, and the entries cover the
 bytes of a request in order.
 */
module SegmentMap {
  import opened Lists
  import opened Segments
  import opened SegmentCount

  /** A scatterlist entry. */
  datatype Sg = Sg(addr: nat, length: nat)

  function ByteRange(addr: nat, len: nat): seq<nat> { seq(len, i => addr + i) }

  /** The physical addresses of the bytes, in order. */
  function Bytes(bvs: seq<Bvec>): seq<nat> {
    if bvs == [] then [] else Bytes(bvs[..|bvs| - 1]) + ByteRange(Last(bvs).addr, Last(bvs).len)
  }

  function SgBytes(sg: seq<Sg>): seq<nat> {
    if sg == [] then [] else SgBytes(sg[..|sg| - 1]) + ByteRange(Last(sg).addr, Last(sg).length)
  }

  /** The entries that describe a segmentation. */
  ghost function Entries(ss: seq<seq<Bvec>>): seq<Sg>
    requires forall i :: 0 <= i < |ss| ==> ss[i] != []
  {
    seq(|ss|, i requires 0 <= i < |ss| => Sg(ss[i][0].addr, Size(ss[i])))
  }

  lemma ByteRangeConcat(addr: nat, a: nat, b: nat)
    ensures ByteRange(addr, a + b) == ByteRange(addr, a) + ByteRange(addr + a, b)
  {
  }

  lemma {:induction false} SegmentBytes(q: Limits, s: seq<Bvec>)
    requires s != [] && forall i :: 0 <= i < |s| - 1 ==> Joinable(q, s[i], s[i + 1])
    ensures s[0].addr + Size(s) == Last(s).addr + Last(s).len
    ensures Bytes(s) == ByteRange(s[0].addr, Size(s))
    decreases |s|
  {
    var n := |s| - 1;
    if n == 0 {
      assert s[..0] == [];
    } else {
      SegmentBytes(q, s[..n]);
      assert Joinable(q, s[n - 1], s[n]);
      assert s[..n][n - 1] == s[n - 1];
      ByteRangeConcat(s[0].addr, Size(s[..n]), s[n].len);
    }
  }

  lemma {:induction false} BytesConcat(a: seq<Bvec>, b: seq<Bvec>)
    ensures Bytes(a + b) == Bytes(a) + Bytes(b)
  {
    if b == [] {
      assert a + b == a;
    } else {
      var n := |b| - 1;
      BytesConcat(a, b[..n]);
      assert (a + b)[..|a + b| - 1] == a + b[..n];
      assert Last(a + b) == b[n];
      Assoc(Bytes(a), Bytes(b[..n]), ByteRange(b[n].addr, b[n].len));
    }
  }

  /** The entries of a legal cut cover exactly the bytes of the vectors, in order. */
  lemma {:induction false} EntriesCover(q: Limits, ss: seq<seq<Bvec>>)
    requires forall i :: 0 <= i < |ss| ==> ss[i] != [] && Legal(q, ss[i])
    ensures SgBytes(Entries(ss)) == Bytes(Flatten(ss))
    decreases |ss|
  {
    if ss != [] {
      var n := |ss| - 1;
      EntriesCover(q, ss[..n]);
      assert Entries(ss)[..n] == Entries(ss[..n]);
      SegmentBytes(q, ss[n]);
      BytesConcat(Flatten(ss[..n]), ss[n]);
    }
  }

  /** One turn of __blk_segment_map_sg on the list built so far. */
  lemma EntriesStep(q: Limits, ss: seq<seq<Bvec>>, bvs: seq<Bvec>, bv: Bvec)
    requires Segmentation(q, ss, bvs)
    ensures forall i :: 0 <= i < |ScanStep(q, ss, bv)| ==> ScanStep(q, ss, bv)[i] != []
    ensures forall i :: 0 <= i < |ss| ==> ss[i] != []
    ensures var es := Entries(ss);
            Entries(ScanStep(q, ss, bv)) ==
              if ss != [] && Last(es).length + bv.len <= q.maxSize && Joinable(q, Last(Last(ss)), bv)
              then es[|es| - 1 := Sg(Last(es).addr, Last(es).length + bv.len)]
              else es + [Sg(bv.addr, bv.len)]
  {
    NoneEmpty(q, ss, bvs);
    ScanStepLegal(q, ss, bvs, bv);
    NoneEmpty(q, ScanStep(q, ss, bv), bvs + [bv]);
    if ss != [] {
      SizeSnoc(Last(ss), bv);
    }
    assert Size([bv]) == bv.len;
  }

  lemma NoneEmpty(q: Limits, ss: seq<seq<Bvec>>, bvs: seq<Bvec>)
    requires Segmentation(q, ss, bvs)
    ensures forall i :: 0 <= i < |ss| ==> ss[i] != []
  {
    forall i | 0 <= i < |ss| ensures ss[i] != [] {
      assert Legal(q, ss[i]);
    }
  }

  /** The state of the mapping loop after the vectors `bvs`. */
  ghost predicate Mapped(q: Limits, sg: seq<Sg>, prev: Bvec, bvs: seq<Bvec>) {
    && (forall i :: 0 <= i < |Scan(q, bvs)| ==> Scan(q, bvs)[i] != [])
    && sg == Entries(Scan(q, bvs))
    && (bvs != [] ==> Scan(q, bvs) != [] && prev == Last(Last(Scan(q, bvs))))
  }

  lemma MappedStep(q: Limits, sg: seq<Sg>, prev: Bvec, bvs: seq<Bvec>, bv: Bvec)
    requires Mapped(q, sg, prev, bvs)
    ensures Mapped(q, if sg != [] && Last(sg).length + bv.len <= q.maxSize && Joinable(q, prev, bv)
                      then sg[|sg| - 1 := Sg(Last(sg).addr, Last(sg).length + bv.len)]
                      else sg + [Sg(bv.addr, bv.len)], bv, bvs + [bv])
  {
    assert (bvs + [bv])[..|bvs|] == bvs;
    ScanLegal(q, bvs);
    EntriesStep(q, Scan(q, bvs), bvs, bv);
    if bvs == [] {
      assert Scan(q, bvs) == [];
    }
  }

  lemma OneMore(done: seq<Bvec>, bvecs: seq<Bvec>, j: nat)
    requires j < |bvecs|
    ensures done + bvecs[..j + 1] == done + bvecs[..j] + [bvecs[j]]
  {
  }

  /** __blk_segment_map_sg: the vector extends the last entry or gets one of its own. */
  method SegmentMapSg(q: Limits, bvec: Bvec, sg0: seq<Sg>, bvprv: Bvec, ghost done: seq<Bvec>) returns (sg: seq<Sg>)
    requires Mapped(q, sg0, bvprv, done)
    ensures Mapped(q, sg, bvec, done + [bvec])
  {
    MappedStep(q, sg0, bvprv, done, bvec);
    if sg0 != [] && Last(sg0).length + bvec.len <= q.maxSize && Joinable(q, bvprv, bvec) {
      sg := sg0[|sg0| - 1 := Sg(Last(sg0).addr, Last(sg0).length + bvec.len)];
    } else {
      sg := sg0 + [Sg(bvec.addr, bvec.len)];
    }
  }

  /** The inner loop of __blk_bios_map_sg: the vectors of one bio. */
  method MapBio(q: Limits, bvecs: seq<Bvec>, sg0: seq<Sg>, bvprv0: Bvec, ghost done: seq<Bvec>)
    returns (sg: seq<Sg>, bvprv: Bvec)
    requires Mapped(q, sg0, bvprv0, done)
    ensures Mapped(q, sg, bvprv, done + bvecs)
  {
    sg, bvprv := sg0, bvprv0;
    assert done + bvecs[..0] == done;
    for j := 0 to |bvecs|
      invariant Mapped(q, sg, bvprv, done + bvecs[..j])
    {
      sg := SegmentMapSg(q, bvecs[j], sg, bvprv, done + bvecs[..j]);
      bvprv := bvecs[j];
      OneMore(done, bvecs, j);
    }
    assert bvecs[..|bvecs|] == bvecs;
  }

  /** __blk_bios_map_sg on a request with data: the entries of the scan, which cover the request's bytes in order. */
  method BiosMapSg(q: Limits, bios: seq<Bio>) returns (sg: seq<Sg>)
    ensures |sg| == |Scan(q, All(bios))|
    ensures SgBytes(sg) == Bytes(All(bios))
  {
    sg := [];
    var bvprv := Bvec(0, 1);
    assert bios[..0] == [];
    for i := 0 to |bios|
      invariant Mapped(q, sg, bvprv, All(bios[..i]))
    {
      sg, bvprv := MapBio(q, bios[i].bvecs, sg, bvprv, All(bios[..i]));
      assert bios[..i + 1][..i] == bios[..i];
    }
    assert bios[..|bios|] == bios;
    MappedCovers(q, sg, bvprv, All(bios));
  }

  lemma MappedCovers(q: Limits, sg: seq<Sg>, prev: Bvec, bvs: seq<Bvec>)
    requires Mapped(q, sg, prev, bvs)
    ensures |sg| == |Scan(q, bvs)| && SgBytes(sg) == Bytes(bvs)
  {
    ScanLegal(q, bvs);
    EntriesCover(q, Scan(q, bvs));
  }

  /** The state of the counting loop after the vectors `bvs`. */
  ghost predicate Tallied(q: Limits, nr: nat, segSize: nat, front: nat, prev: Bvec, bvs: seq<Bvec>) {
    var ss := Scan(q, bvs);
    && nr == |ss|
    && (ss != [] ==> Last(ss) != [] && ss[0] != [] && segSize == Size(Last(ss)) && prev == Last(Last(ss)))
    && (nr > 1 ==> front == Size(ss[0]))
  }

  lemma TalliedStep(q: Limits, nr: nat, segSize: nat, front: nat, prev: Bvec, bvs: seq<Bvec>, bv: Bvec, joins: bool)
    requires Tallied(q, nr, segSize, front, prev, bvs)
    requires joins == (nr > 0 && segSize + bv.len <= q.maxSize && Joinable(q, prev, bv))
    ensures if joins
            then Tallied(q, nr, segSize + bv.len, front, bv, bvs + [bv])
            else Tallied(q, nr + 1, bv.len, if nr == 1 then segSize else front, bv, bvs + [bv])
  {
    assert (bvs + [bv])[..|bvs|] == bvs;
    var ss := Scan(q, bvs);
    if ss != [] {
      SizeSnoc(Last(ss), bv);
    }
    assert Size([bv]) == bv.len;
  }

  /** The counters of one bio's vectors, from where the last bio left them. */
  method TallyBio(q: Limits, bvecs: seq<Bvec>, nr0: nat, size0: nat, front0: nat, bvprv0: Bvec, ghost done: seq<Bvec>)
    returns (nr: nat, segSize: nat, front: nat, bvprv: Bvec)
    requires Tallied(q, nr0, size0, front0, bvprv0, done)
    ensures Tallied(q, nr, segSize, front, bvprv, done + bvecs)
  {
    nr, segSize, front, bvprv := nr0, size0, front0, bvprv0;
    assert done + bvecs[..0] == done;
    for j := 0 to |bvecs|
      invariant Tallied(q, nr, segSize, front, bvprv, done + bvecs[..j])
    {
      var bv := bvecs[j];
      var joins := nr > 0 && segSize + bv.len <= q.maxSize && Joinable(q, bvprv, bv);
      TalliedStep(q, nr, segSize, front, bvprv, done + bvecs[..j], bv, joins);
      OneMore(done, bvecs, j);
      if joins {
        segSize := segSize + bv.len;
      } else {
        if nr == 1 {
          front := segSize;
        }
        nr := nr + 1;
        segSize := bv.len;
      }
      bvprv := bv;
    }
    assert bvecs[..|bvecs|] == bvecs;
  }

  /** __blk_recalc_rq_segments for data: the number of segments of the scan, and the sizes of the first and the last. */
  method RecalcRqSegments(q: Limits, bios: seq<Bio>) returns (nrPhysSegs: nat, front: nat, back: nat)
    requires All(bios) != []
    ensures Scan(q, All(bios)) != [] && nrPhysSegs == |Scan(q, All(bios))|
    ensures front == Size(Scan(q, All(bios))[0]) && back == Size(Last(Scan(q, All(bios))))
  {
    nrPhysSegs, front := 0, 0;
    var segSize: nat, bvprv := 0, Bvec(0, 1);
    assert bios[..0] == [];
    for i := 0 to |bios|
      invariant Tallied(q, nrPhysSegs, segSize, front, bvprv, All(bios[..i]))
    {
      nrPhysSegs, segSize, front, bvprv := TallyBio(q, bios[i].bvecs, nrPhysSegs, segSize, front, bvprv, All(bios[..i]));
      assert bios[..i + 1][..i] == bios[..i];
    }
    assert bios[..|bios|] == bios;
    ScanLegal(q, All(bios));
    if nrPhysSegs == 1 {
      front := segSize;
    }
    back := segSize;
  }

  /** The scan of two chains together never needs more segments than the two scans. */
  lemma ScanSubadditive(q: Limits, a: seq<Bvec>, b: seq<Bvec>)
    ensures |Scan(q, a + b)| <= |Scan(q, a)| + |Scan(q, b)|
  {
    ScanLegal(q, a);
    ScanLegal(q, b);
    FlattenConcat(Scan(q, a), Scan(q, b));
    ScanMinimal(q, a + b, Scan(q, a) + Scan(q, b));
  }
}
