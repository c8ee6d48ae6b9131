/**
 Cutting a discard into bios (block/blk-lib.c, block/blk-merge.c): the pieces tile the range, none is empty or too long,
 and every piece but the first starts on the device's discard alignment.
 */
module Discard {
  import opened Arith
  import opened Lists

  /** UINT_MAX >> 9 */
  const MAX := 8388607

  /** The device: discard granularity in sectors, at least 1, and the alignment modulo the granularity. */
  datatype Grain = Grain(size: nat, offset: nat) {
    ghost predicate Valid() { 1 <= size <= MAX && offset < size }
  }

  /** A piece of a discard: where it starts and how long it is. */
  datatype Piece = Piece(start: nat, len: nat)

  /** The last aligned sector that is not behind x. */
  function AlignedDown(g: Grain, x: nat): (r: nat)
    requires g.Valid() && x >= g.offset
    ensures r <= x < r + g.size && r % g.size == g.offset
  {
    Down(x - g.offset, g.size, g.offset);
    (x - g.offset) / g.size * g.size + g.offset
  }

  lemma Down(x: nat, t: nat, r: nat)
    requires r < t
    ensures 0 <= x / t * t <= x < x / t * t + t && (x / t * t + r) % t == r
  {
    assert x == x / t * t + x % t;
    Remainder(x / t, t, r);
  }

  /** The pieces cover [sector, sector + n) one after the other; each has between 1 and `most` sectors. */
  ghost predicate Tiles(ps: seq<Piece>, sector: nat, n: nat, most: nat)
    decreases |ps|
  {
    if ps == [] then n == 0
    else ps[0].start == sector && 1 <= ps[0].len <= most && ps[0].len <= n && Tiles(ps[1..], sector + ps[0].len, n - ps[0].len, most)
  }

  /** Every piece but the first starts aligned. */
  ghost predicate Aligned(g: Grain, ps: seq<Piece>)
    requires g.Valid()
  {
    forall i :: 0 < i < |ps| ==> ps[i].start % g.size == g.offset
  }

  lemma AlignedCons(g: Grain, p: Piece, ps: seq<Piece>)
    requires g.Valid() && Aligned(g, ps) && (ps != [] ==> ps[0].start % g.size == g.offset)
    ensures Aligned(g, [p] + ps)
  {
    var all := [p] + ps;
    forall i | 0 < i < |all| ensures all[i].start % g.size == g.offset {
      assert all[i] == ps[i - 1];
    }
  }

  lemma TilesStart(ps: seq<Piece>, sector: nat, n: nat, most: nat)
    requires Tiles(ps, sector, n, most)
    ensures (ps == [] <==> n == 0) && (ps != [] ==> ps[0].start == sector)
  {
  }

  /* ---- blkdev_issue_discard ---- */

  /** Where the next bio ends: at most MAX sectors on, and aligned if anything is left after it. */
  function ChunkEnd(g: Grain, sector: nat, n: nat): (end: nat)
    requires g.Valid() && n > 0
    ensures sector < end <= sector + n && end <= sector + MAX
    ensures end < sector + n ==> end % g.size == g.offset
  {
    var req := if n < MAX then n else MAX;
    if req < n && (sector + req) % g.size != g.offset then AlignedDown(g, sector + req) else sector + req
  }

  /** Between two aligned sectors there is at least a grain. */
  lemma AlignedApart(g: Grain, x: nat, y: nat)
    requires g.Valid() && x % g.size == y % g.size && x < y
    ensures x + g.size <= y
  {
    var a, b := x / g.size, y / g.size;
    assert x == a * g.size + x % g.size && y == b * g.size + y % g.size;
    if a < b {
      MulGap(a, b, g.size);
    } else if b < a {
      MulGap(b, a, g.size);
    }
  }

  /** A chunk is as long as can be: no later end is within the range and the limit and is aligned or takes all. */
  lemma ChunkIsLongest(g: Grain, sector: nat, n: nat, e: nat)
    requires g.Valid() && n > 0 && sector < e <= sector + n && e <= sector + MAX && (e == sector + n || e % g.size == g.offset)
    ensures e <= ChunkEnd(g, sector, n)
  {
    var end := ChunkEnd(g, sector, n);
    if end < e {
      assert end % g.size == g.offset && e % g.size == g.offset;
      AlignedApart(g, end, e);
    }
  }

  function Chunks(g: Grain, sector: nat, n: nat): seq<Piece>
    requires g.Valid()
    decreases n
  {
    if n == 0 then []
    else
      var end := ChunkEnd(g, sector, n);
      [Piece(sector, end - sector)] + Chunks(g, end, sector + n - end)
  }

  /** The bios tile the range, each has between 1 and UINT_MAX >> 9 sectors, and inner boundaries are aligned. */
  lemma {:induction false} ChunksTile(g: Grain, sector: nat, n: nat)
    requires g.Valid()
    ensures Tiles(Chunks(g, sector, n), sector, n, MAX) && Aligned(g, Chunks(g, sector, n))
    decreases n
  {
    if n > 0 {
      var end := ChunkEnd(g, sector, n);
      var rest := Chunks(g, end, sector + n - end);
      ChunksTile(g, end, sector + n - end);
      TilesStart(rest, end, sector + n - end, MAX);
      AlignedCons(g, Piece(sector, end - sector), rest);
      assert ([Piece(sector, end - sector)] + rest)[1..] == rest;
    }
  }

  /** The loop of blkdev_issue_discard: the bios it submits. */
  method IssueDiscard(g: Grain, sector: nat, nrSects: nat) returns (bios: seq<Piece>)
    requires g.Valid()
    ensures bios == Chunks(g, sector, nrSects)
  {
    bios := [];
    var s: nat, n: nat := sector, nrSects;
    while n > 0
      invariant bios + Chunks(g, s, n) == Chunks(g, sector, nrSects)
      decreases n
    {
      ghost var chunkEnd := ChunkEnd(g, s, n);
      var req := if n < MAX then n else MAX;
      var end := s + req;
      if req < n && end % g.size != g.offset {
        end := AlignedDown(g, end);
        req := end - s;
      }
      assert end == chunkEnd && req == end - s;
      Assoc(bios, [Piece(s, req)], Chunks(g, end, n - req));
      bios := bios + [Piece(s, req)];
      n := n - req;
      s := end;
    }
  }

  /* ---- blk_bio_discard_split ---- */

  /** The largest whole number of grains one bio may discard. */
  function MaxDiscard(g: Grain, limit: nat): (m: nat)
    requires g.Valid()
    ensures m <= MAX && m <= limit && (m > 0 ==> m >= g.size)
  {
    var x := if limit < MAX then limit else MAX;
    WholePart(x, g.size);
    x - x % g.size
  }

  lemma WholePart(x: nat, t: nat)
    requires t >= 1
    ensures 0 <= x - x % t <= x && (x - x % t > 0 ==> x - x % t >= t) && (x - x % t == 0 <==> x < t)
  {
    var q := x / t;
    assert x - x % t == q * t;
    if q > 0 {
      MulGap(0, q, t);
    }
  }

  lemma SplitAligned(sector: nat, max: nat, t: nat, r: nat)
    requires r < t <= max
    ensures var tmp := (sector + max - r) % t; 0 <= tmp < t && (sector + (max - tmp)) % t == r
  {
    var x := sector + max - r;
    Down(x, t, r);
    assert x - x % t == x / t * t;
  }

  /** How many sectors to split off the front, or 0 for none. */
  function SplitSectors(g: Grain, limit: nat, sector: nat, n: nat): (k: nat)
    requires g.Valid()
    ensures k <= MaxDiscard(g, limit) && k <= n
    ensures k > 0 ==> k < n && (sector + k) % g.size == g.offset
    ensures k == 0 <==> MaxDiscard(g, limit) == 0 || n <= MaxDiscard(g, limit)
  {
    var max := MaxDiscard(g, limit);
    if max == 0 || n <= max then 0
    else
      var tmp := (sector + max - g.offset) % g.size;
      SplitAligned(sector, max, g.size, g.offset);
      if max > tmp then max - tmp else max
  }

  lemma WholeMultiple(y: nat, t: nat)
    requires t >= 1
    ensures 0 <= y - y % t && (y - y % t) % t == 0
  {
    assert y - y % t == y / t * t;
    Remainder(y / t, t, 0);
  }

  lemma NoLargerMultiple(g: Grain, y: nat, m: nat, x: nat)
    requires g.Valid() && m % g.size == 0 && x % g.size == 0 && x <= y < m + g.size
    ensures x <= m
  {
    if m < x {
      AlignedApart(g, m, x);
    }
  }

  /** The limit is the largest whole number of grains that the device and bi_size allow. */
  lemma MaxDiscardIs(g: Grain, limit: nat, x: nat)
    requires g.Valid()
    ensures MaxDiscard(g, limit) % g.size == 0
    ensures x % g.size == 0 && x <= limit && x <= MAX ==> x <= MaxDiscard(g, limit)
  {
    var y := if limit < MAX then limit else MAX;
    WholeMultiple(y, g.size);
    if x % g.size == 0 && x <= y {
      NoLargerMultiple(g, y, MaxDiscard(g, limit), x);
    }
  }

  /** A split takes as many sectors as it may. */
  lemma SplitIsLongest(g: Grain, limit: nat, sector: nat, n: nat, j: nat)
    requires g.Valid() && 0 < j < n && j <= MaxDiscard(g, limit) < n && (sector + j) % g.size == g.offset
    ensures j <= SplitSectors(g, limit, sector, n)
  {
    var k, max := SplitSectors(g, limit, sector, n), MaxDiscard(g, limit);
    SplitAligned(sector, max, g.size, g.offset);
    if k < j {
      AlignedApart(g, sector + k, sector + j);
    }
  }

  /** The bio split again and again, as blk_queue_split does each time what is left is submitted. */
  function Pieces(g: Grain, limit: nat, sector: nat, n: nat): seq<Piece>
    requires g.Valid()
    decreases n
  {
    var k := SplitSectors(g, limit, sector, n);
    if n == 0 then [] else if k == 0 then [Piece(sector, n)] else [Piece(sector, k)] + Pieces(g, limit, sector + k, n - k)
  }

  /** Splitting tiles the bio; pieces are at most as long as the device allows, and start aligned after the first. */
  lemma {:induction false} PiecesTile(g: Grain, limit: nat, sector: nat, n: nat)
    requires g.Valid() && MaxDiscard(g, limit) > 0
    ensures Tiles(Pieces(g, limit, sector, n), sector, n, MaxDiscard(g, limit)) && Aligned(g, Pieces(g, limit, sector, n))
    decreases n
  {
    var k := SplitSectors(g, limit, sector, n);
    if n > 0 {
      if k == 0 {
        assert [Piece(sector, n)][1..] == [];
      } else {
        var rest := Pieces(g, limit, sector + k, n - k);
        PiecesTile(g, limit, sector + k, n - k);
        TilesStart(rest, sector + k, n - k, MaxDiscard(g, limit));
        AlignedCons(g, Piece(sector, k), rest);
        assert ([Piece(sector, k)] + rest)[1..] == rest;
      }
    }
  }

  /** A device that cannot discard one whole grain at a time gets the bio as it is. */
  lemma TooSmallIsNotSplit(g: Grain, limit: nat, sector: nat, n: nat)
    requires g.Valid() && n > 0
    ensures MaxDiscard(g, limit) == 0 ==> Pieces(g, limit, sector, n) == [Piece(sector, n)]
    ensures MaxDiscard(g, limit) == 0 <==> limit < g.size
  {
    WholePart(if limit < MAX then limit else MAX, g.size);
  }
}
