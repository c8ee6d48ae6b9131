/**
 Changing the number of tags (block/blk-mq-tag.c, block/blk-mq.c, block/blk-sysfs.c): what the map offers after any sequence
 of resizes, and whether the cached tags of the CPUs keep a word through any run of resizes, gets and puts.
 */
module TagResize {
  import opened Arith
  import opened TagMap

  const MIN_RQ := 4

  /** The test of blk_mq_tag_update_depth: a depth without the reserved tags against a number of tags with them. A depth
      below the reserved tags wraps around and is refused. */
  predicate Accepts(nrTags: nat, nrReserved: nat, tdepth: nat) { tdepth >= nrReserved && tdepth - nrReserved <= nrTags }

  /** blk_mq_update_nr_requests on one hardware queue of a tag set of `queueDepth` tags. */
  function UpdateNrRequests(m: Map, queueDepth: nat, reserved: nat, nr: nat): Map {
    if nr > queueDepth || !Accepts(queueDepth, reserved, nr) then m else UpdateCount(m, nr - reserved)
  }

  /** The map after any sequence of resizes, from its allocation on. */
  ghost function Resized(queueDepth: nat, reserved: nat, nrs: seq<nat>): (m: Map)
    requires reserved < queueDepth
    ensures m.perWord >= 1
  {
    if nrs == [] then Alloc(queueDepth - reserved)
    else UpdateNrRequests(Resized(queueDepth, reserved, nrs[..|nrs| - 1]), queueDepth, reserved, nrs[|nrs| - 1])
  }

  /** The last number of requests that was accepted. */
  ghost function LastNr(queueDepth: nat, reserved: nat, nrs: seq<nat>): nat {
    if nrs == [] then queueDepth
    else
      var nr := nrs[|nrs| - 1];
      if reserved <= nr <= queueDepth then nr else LastNr(queueDepth, reserved, nrs[..|nrs| - 1])
  }

  /** The last depth but 0 that was set. */
  ghost function LastDepth(queueDepth: nat, reserved: nat, nrs: seq<nat>): nat
    requires reserved < queueDepth
  {
    if nrs == [] then queueDepth - reserved
    else
      var nr := nrs[|nrs| - 1];
      if reserved < nr <= queueDepth then nr - reserved else LastDepth(queueDepth, reserved, nrs[..|nrs| - 1])
  }

  /** The tags there are bits for; it never changes. */
  ghost function Capacity(queueDepth: nat, reserved: nat): nat
    requires reserved < queueDepth
  {
    Room(Alloc(queueDepth - reserved))
  }

  ghost function Room(m: Map): nat { Times(|m.words|, m.perWord) }

  /** The words are laid out for depth d, whatever the map's own depth says. */
  ghost predicate LaidFor(m: Map, d: nat) { Laid(m.(depth := d)) }

  lemma LaidForRoomy(m: Map, d: nat)
    requires LaidFor(m, d)
    ensures Roomy(m)
  {
    LaidIsRoomy(m.(depth := d));
  }

  lemma LaidForOffers(m: Map, d: nat, tag: nat)
    requires LaidFor(m, d)
    ensures Offered(m, tag) <==> tag < d && tag < Room(m)
  {
    OfferedIs(m.(depth := d), tag);
    assert Offered(m, tag) == Offered(m.(depth := d), tag);
  }

  lemma LaidForUpdate(m: Map, depth: nat)
    requires m.perWord >= 1 && depth > 0
    ensures LaidFor(UpdateCount(m, depth), depth) && Room(UpdateCount(m, depth)) == Room(m)
  {
    UpdateLaid(m, depth);
  }

  lemma {:induction false} ResizedLaid(queueDepth: nat, reserved: nat, nrs: seq<nat>)
    requires reserved < queueDepth
    ensures var m, d := Resized(queueDepth, reserved, nrs), LastDepth(queueDepth, reserved, nrs);
            && LaidFor(m, d) && Room(m) == Capacity(queueDepth, reserved)
            && 0 < d <= queueDepth - reserved <= Capacity(queueDepth, reserved)
            && reserved <= LastNr(queueDepth, reserved, nrs) && m.depth == LastNr(queueDepth, reserved, nrs) - reserved
            && (LastNr(queueDepth, reserved, nrs) != reserved ==> m.depth == d)
  {
    if nrs == [] {
      AllocFits(queueDepth - reserved);
    } else {
      var m, nr := Resized(queueDepth, reserved, nrs[..|nrs| - 1]), nrs[|nrs| - 1];
      ResizedLaid(queueDepth, reserved, nrs[..|nrs| - 1]);
      if reserved < nr <= queueDepth {
        LaidForUpdate(m, nr - reserved);
      }
    }
  }

  /** After any sequence of resizes the map offers exactly the tags below the last depth but 0 that was set: the caller's
      guard keeps every depth within the words, although the test of blk_mq_tag_update_depth alone would not. */
  lemma ResizesOffer(queueDepth: nat, reserved: nat, nrs: seq<nat>, tag: nat)
    requires reserved < queueDepth
    ensures Offered(Resized(queueDepth, reserved, nrs), tag) <==> tag < LastDepth(queueDepth, reserved, nrs)
  {
    ResizedLaid(queueDepth, reserved, nrs);
    LaidForOffers(Resized(queueDepth, reserved, nrs), LastDepth(queueDepth, reserved, nrs), tag);
  }

  /** So depth and words agree if and only if the last resize that was accepted was not to just the reserved tags, which
      sets the depth to 0 and leaves the words as they were. */
  lemma DepthOfferedIff(queueDepth: nat, reserved: nat, nrs: seq<nat>)
    requires reserved < queueDepth
    ensures var m := Resized(queueDepth, reserved, nrs);
            (forall tag: nat :: Offered(m, tag) <==> tag < m.depth) <==> LastNr(queueDepth, reserved, nrs) != reserved
  {
    var m := Resized(queueDepth, reserved, nrs);
    ResizedLaid(queueDepth, reserved, nrs);
    forall tag: nat ensures Offered(m, tag) <==> tag < LastDepth(queueDepth, reserved, nrs) {
      ResizesOffer(queueDepth, reserved, nrs, tag);
    }
    assert Offered(m, 0);
  }

  /** Where the next search starts has a word, for every tag that can be got, if and only if the last resize that was
      accepted was not to just the reserved tags, or the words have room to spare. With a depth of 0 the unsigned
      depth - 1 is no bound, and the position behind the last bit is kept. */
  lemma CacheStaysIff(queueDepth: nat, reserved: nat, nrs: seq<nat>)
    requires reserved < queueDepth
    ensures var m := Resized(queueDepth, reserved, nrs);
            (forall tag: nat :: Offered(m, tag) ==> HasBit(m, NewCache(m.depth, tag))) <==>
            LastNr(queueDepth, reserved, nrs) != reserved || LastDepth(queueDepth, reserved, nrs) < Capacity(queueDepth, reserved)
  {
    var m, d := Resized(queueDepth, reserved, nrs), LastDepth(queueDepth, reserved, nrs);
    ResizedLaid(queueDepth, reserved, nrs);
    forall tag: nat ensures Offered(m, tag) <==> tag < d {
      ResizesOffer(queueDepth, reserved, nrs, tag);
    }
    forall tag: nat ensures HasBit(m, tag) <==> tag < Room(m) {
      BelowCap(tag, m.perWord, |m.words|);
    }
    assert Offered(m, d - 1);
  }

  /** With 8 tags, 4 of them reserved, a resize to 4 leaves four words of one bit each, and behind tag 3 there is none. */
  lemma CacheLeaves()
    ensures var m := Resized(8, 4, [4]);
            m.depth == 0 && Offered(m, 3) && NewCache(m.depth, 3) == 4 && !HasBit(m, 4)
  {
    FourFour(8, 4, [4]);
  }

  lemma FourFour(queueDepth: nat, reserved: nat, nrs: seq<nat>)
    requires queueDepth == 8 && reserved == 4 && nrs == [4]
    ensures var m := Resized(queueDepth, reserved, nrs);
            m.depth == 0 && Offered(m, 3) && NewCache(m.depth, 3) == 4 && !HasBit(m, 4)
  {
    var m := Resized(queueDepth, reserved, nrs);
    assert nrs[..0] == [];
    ResizedLaid(queueDepth, reserved, nrs);
    ResizesOffer(queueDepth, reserved, nrs, 3);
    FourWords(queueDepth - reserved);
    BelowCap(4, m.perWord, |m.words|);
  }

  /** Four tags are spread over four words. */
  lemma FourWords(d: nat)
    requires d == 4
    ensures PerWord(d, 64) == 1 && Room(Alloc(d)) == 4
  {
    assert PerWord(d, 4) == PerWord(d, 2) == 1;
    assert PerWord(d, 64) == PerWord(d, 32) == PerWord(d, 16) == PerWord(d, 8) == PerWord(d, 4);
    assert |Alloc(d).words| == 4;
    TimesIsMul(4, 1);
  }

  /* ---- runs ---- */

  /** The map, and last_tag of every CPU's software queue. */
  datatype Tags = Tags(bt: Map, caches: seq<nat>)

  /** queue_requests_store, __bt_get, and the normal tags of blk_mq_put_tag. */
  datatype Op = Store(nr: nat) | GetTag(cpu: nat, mayQueue: bool) | PutTag(cpu: nat, tag: nat)

  ghost predicate Enabled(s: Tags, op: Op) {
    match op
    case Store(_) => true
    case GetTag(cpu, _) => cpu < |s.caches| && Roomy(s.bt) && HasBit(s.bt, s.caches[cpu])
    case PutTag(cpu, tag) => cpu < |s.caches| && HasBit(s.bt, tag) && Taken(s.bt, tag)
  }

  /** Under FIFO a tag that is put is where its CPU searches next. */
  ghost function Apply(queueDepth: nat, reserved: nat, rr: bool, s: Tags, op: Op): (r: Tags)
    ensures |r.caches| == |s.caches|
  {
    if !Enabled(s, op) then s
    else match op
      case Store(nr) => s.(bt := UpdateNrRequests(s.bt, queueDepth, reserved, if nr < MIN_RQ then MIN_RQ else nr))
      case GetTag(cpu, mayQueue) =>
        var (_, m, c) := Get(s.bt, s.caches[cpu], rr, mayQueue);
        Tags(m, s.caches[cpu := c])
      case PutTag(cpu, tag) => Tags(ClearBit(s.bt, tag), if rr then s.caches else s.caches[cpu := tag])
  }

  ghost function Run(queueDepth: nat, reserved: nat, rr: bool, cpus: nat, ops: seq<Op>): (s: Tags)
    requires reserved < queueDepth
    ensures |s.caches| == cpus
  {
    if ops == [] then Tags(Alloc(queueDepth - reserved), seq(cpus, i => 0))
    else Apply(queueDepth, reserved, rr, Run(queueDepth, reserved, rr, cpus, ops[..|ops| - 1]), ops[|ops| - 1])
  }

  /** The words are laid out for some depth up to the one first allocated; the map's own depth is that one, or 0 if that
      many tags can be reserved. */
  ghost predicate Kept(queueDepth: nat, reserved: nat, m: Map, d: nat)
    requires reserved < queueDepth
  {
    && LaidFor(m, d) && Room(m) == Capacity(queueDepth, reserved)
    && 0 < d <= queueDepth - reserved <= Capacity(queueDepth, reserved)
    && (m.depth == d || (m.depth == 0 && reserved >= MIN_RQ))
  }

  lemma BitsKept(queueDepth: nat, reserved: nat, m: Map, d: nat, tag: nat)
    requires reserved < queueDepth && Kept(queueDepth, reserved, m, d) && HasBit(m, tag)
    ensures Kept(queueDepth, reserved, SetBit(m, tag), d) && Kept(queueDepth, reserved, ClearBit(m, tag), d)
  {
  }

  lemma GetKept(queueDepth: nat, reserved: nat, m: Map, d: nat, cache: nat, rr: bool, mayQueue: bool)
    requires reserved < queueDepth && Kept(queueDepth, reserved, m, d) && Roomy(m) && HasBit(m, cache)
    ensures Kept(queueDepth, reserved, Get(m, cache, rr, mayQueue).1, d)
  {
    var (tag, r, _) := Get(m, cache, rr, mayQueue);
    if r != m {
      GetTakesFree(m, cache, rr, cache);
      BitsKept(queueDepth, reserved, m, d, tag);
    }
  }

  lemma StoreKept(queueDepth: nat, reserved: nat, m: Map, d: nat, nr: nat) returns (d': nat)
    requires reserved < queueDepth && Kept(queueDepth, reserved, m, d) && nr >= MIN_RQ
    ensures Kept(queueDepth, reserved, UpdateNrRequests(m, queueDepth, reserved, nr), d')
  {
    d' := d;
    if reserved < nr <= queueDepth {
      d' := nr - reserved;
      LaidForUpdate(m, d');
    }
  }

  lemma ApplyKept(queueDepth: nat, reserved: nat, rr: bool, s: Tags, op: Op, d: nat) returns (d': nat)
    requires reserved < queueDepth && Kept(queueDepth, reserved, s.bt, d)
    ensures Kept(queueDepth, reserved, Apply(queueDepth, reserved, rr, s, op).bt, d')
  {
    d' := d;
    if Enabled(s, op) {
      match op {
        case Store(nr) => d' := StoreKept(queueDepth, reserved, s.bt, d, if nr < MIN_RQ then MIN_RQ else nr);
        case GetTag(cpu, mayQueue) => GetKept(queueDepth, reserved, s.bt, d, s.caches[cpu], rr, mayQueue);
        case PutTag(_, tag) => BitsKept(queueDepth, reserved, s.bt, d, tag);
      }
    }
  }

  lemma {:induction false} RunsKept(queueDepth: nat, reserved: nat, rr: bool, cpus: nat, ops: seq<Op>) returns (d: nat)
    requires reserved < queueDepth
    ensures Kept(queueDepth, reserved, Run(queueDepth, reserved, rr, cpus, ops).bt, d)
  {
    if ops == [] {
      AllocFits(queueDepth - reserved);
      d := queueDepth - reserved;
    } else {
      var n := |ops| - 1;
      d := RunsKept(queueDepth, reserved, rr, cpus, ops[..n]);
      d := ApplyKept(queueDepth, reserved, rr, Run(queueDepth, reserved, rr, cpus, ops[..n]), ops[n], d);
    }
  }

  /** In every run a search whose cached tag has a word gives a free tag for which there is a request, changes no other tag,
      and under FIFO fails if and only if every tag the map offers is taken. */
  lemma RunsSearchWell(queueDepth: nat, reserved: nat, rr: bool, cpus: nat, ops: seq<Op>, cache: nat, other: nat)
    requires reserved < queueDepth
    requires HasBit(Run(queueDepth, reserved, rr, cpus, ops).bt, cache)
    requires HasBit(Run(queueDepth, reserved, rr, cpus, ops).bt, other)
    ensures var m := Run(queueDepth, reserved, rr, cpus, ops).bt;
            && Roomy(m)
            && (Get(m, cache, false, true).0 < 0 <==> forall tag: nat :: Offered(m, tag) ==> Taken(m, tag))
            && var (tag, r, _) := Get(m, cache, rr, true);
               tag >= 0 ==>
                 && tag < queueDepth - reserved && Offered(m, tag) && !Taken(m, tag)
                 && HasBit(r, other) && (Taken(r, other) <==> Taken(m, other) || other == tag)
  {
    var m := Run(queueDepth, reserved, rr, cpus, ops).bt;
    var d := RunsKept(queueDepth, reserved, rr, cpus, ops);
    LaidForRoomy(m, d);
    FifoFailsWhenFull(m, cache);
    var tag := Get(m, cache, rr, true).0;
    if tag >= 0 {
      GetTakesFree(m, cache, rr, other);
      LaidForOffers(m, d, tag);
    }
  }

  /* ---- the cached tags ---- */

  ghost predicate InRange(s: Tags) { forall i :: 0 <= i < |s.caches| ==> HasBit(s.bt, s.caches[i]) }

  /** A depth of 0 cannot be set, or leaves a bit to spare. */
  ghost predicate Spare(queueDepth: nat, reserved: nat)
    requires reserved < queueDepth
  {
    reserved < MIN_RQ || queueDepth - reserved < Capacity(queueDepth, reserved)
  }

  lemma InCapacity(m: Map, tag: nat)
    requires m.perWord >= 1
    ensures HasBit(m, tag) <==> tag < Room(m)
  {
    BelowCap(tag, m.perWord, |m.words|);
  }

  lemma GetInRange(queueDepth: nat, reserved: nat, m: Map, d: nat, cache: nat, rr: bool, mayQueue: bool)
    requires reserved < queueDepth && Kept(queueDepth, reserved, m, d) && Spare(queueDepth, reserved)
    requires Roomy(m) && HasBit(m, cache)
    ensures Get(m, cache, rr, mayQueue).2 < Room(m)
  {
    InCapacity(m, cache);
    var (tag, _, c) := Get(m, cache, rr, mayQueue);
    if mayQueue && tag >= 0 {
      GetTakesFree(m, cache, rr, cache);
      LaidForOffers(m, d, tag);
    }
  }

  lemma ApplyInRange(queueDepth: nat, reserved: nat, rr: bool, s: Tags, op: Op, d: nat)
    requires reserved < queueDepth && Kept(queueDepth, reserved, s.bt, d) && Spare(queueDepth, reserved)
    requires InRange(s)
    ensures InRange(Apply(queueDepth, reserved, rr, s, op))
  {
    var r := Apply(queueDepth, reserved, rr, s, op);
    var d' := ApplyKept(queueDepth, reserved, rr, s, op, d);
    forall i | 0 <= i < |r.caches| ensures HasBit(r.bt, r.caches[i]) {
      InCapacity(r.bt, r.caches[i]);
      InCapacity(s.bt, s.caches[i]);
      if Enabled(s, op) && op.GetTag? {
        GetInRange(queueDepth, reserved, s.bt, d, s.caches[op.cpu], rr, op.mayQueue);
      } else if Enabled(s, op) && op.PutTag? {
        InCapacity(s.bt, op.tag);
      }
    }
  }

  lemma {:induction false} RunsInRange(queueDepth: nat, reserved: nat, rr: bool, cpus: nat, ops: seq<Op>)
    requires reserved < queueDepth && Spare(queueDepth, reserved)
    ensures InRange(Run(queueDepth, reserved, rr, cpus, ops))
  {
    if ops == [] {
      AllocFits(queueDepth - reserved);
      InCapacity(Alloc(queueDepth - reserved), 0);
    } else {
      var n := |ops| - 1;
      RunsInRange(queueDepth, reserved, rr, cpus, ops[..n]);
      var d := RunsKept(queueDepth, reserved, rr, cpus, ops[..n]);
      ApplyInRange(queueDepth, reserved, rr, Run(queueDepth, reserved, rr, cpus, ops[..n]), ops[n], d);
    }
  }

  /* ---- the run in which one leaves the words ---- */

  /** A search that starts at a free tag takes it. */
  lemma TakesCached(m: Map, tag: nat, rr: bool)
    requires Roomy(m) && Offered(m, tag) && !Taken(m, tag)
    ensures Get(m, tag, rr, true) == (tag, SetBit(m, tag), NewCache(m.depth, tag))
  {
    Compose(tag, m.perWord);
  }

  /** After n gets the first n tags are taken and the cached tag is n. */
  ghost predicate Filled(s: Tags, d: nat, n: nat) {
    && |s.caches| == 1 && s.caches[0] == n && s.bt.depth == 0 && LaidFor(s.bt, d)
    && forall tag: nat :: HasBit(s.bt, tag) ==> (Taken(s.bt, tag) <==> tag < n)
  }

  lemma FillOne(queueDepth: nat, reserved: nat, rr: bool, s: Tags, d: nat, n: nat)
    requires Filled(s, d, n) && n < d <= Room(s.bt)
    ensures var r := Apply(queueDepth, reserved, rr, s, GetTag(0, true)); Filled(r, d, n + 1) && Room(r.bt) == Room(s.bt)
  {
    LaidForRoomy(s.bt, d);
    LaidForOffers(s.bt, d, n);
    TakesCached(s.bt, n, rr);
    var r := Apply(queueDepth, reserved, rr, s, GetTag(0, true));
    assert r == Tags(SetBit(s.bt, n), [n + 1]);
    forall tag: nat | HasBit(r.bt, tag) ensures Taken(r.bt, tag) <==> tag < n + 1 {
      OneTag(s.bt, n, tag);
    }
  }

  lemma RunNext(queueDepth: nat, reserved: nat, rr: bool, cpus: nat, ops: seq<Op>, op: Op)
    requires reserved < queueDepth
    ensures Run(queueDepth, reserved, rr, cpus, ops + [op]) ==
            Apply(queueDepth, reserved, rr, Run(queueDepth, reserved, rr, cpus, ops), op)
  {
    assert (ops + [op])[..|ops|] == ops;
  }

  lemma FillRun(queueDepth: nat, reserved: nat, rr: bool, ops: seq<Op>, d: nat, n: nat)
    requires reserved < queueDepth
    requires var s := Run(queueDepth, reserved, rr, 1, ops); Filled(s, d, n) && n < d <= Room(s.bt)
    ensures var r := Run(queueDepth, reserved, rr, 1, ops + [GetTag(0, true)]);
            Filled(r, d, n + 1) && Room(r.bt) == Room(Run(queueDepth, reserved, rr, 1, ops).bt)
  {
    RunNext(queueDepth, reserved, rr, 1, ops, GetTag(0, true));
    FillOne(queueDepth, reserved, rr, Run(queueDepth, reserved, rr, 1, ops), d, n);
  }

  /** After the run the first n of the d tags are taken. */
  ghost predicate Escaping(queueDepth: nat, reserved: nat, rr: bool, ops: seq<Op>, d: nat, n: nat)
    requires reserved < queueDepth
  {
    var s := Run(queueDepth, reserved, rr, 1, ops); Filled(s, d, n) && Room(s.bt) == Capacity(queueDepth, reserved)
  }

  lemma NoneTaken(d: nat, m: Map, tag: nat)
    requires m == Alloc(d).(depth := 0) && HasBit(m, tag)
    ensures !Taken(m, tag)
  {
  }

  lemma EmptiedIsFilled(d: nat, m: Map)
    requires m == Alloc(d).(depth := 0)
    ensures Filled(Tags(m, [0]), d, 0)
  {
    AllocFits(d);
    forall tag: nat | HasBit(m, tag) ensures !Taken(m, tag) {
      NoneTaken(d, m, tag);
    }
  }

  lemma StoreReserved(queueDepth: nat, reserved: nat, rr: bool)
    requires MIN_RQ <= reserved < queueDepth
    ensures Run(queueDepth, reserved, rr, 1, [Store(reserved)]) == Tags(Alloc(queueDepth - reserved).(depth := 0), [0])
  {
    RunNext(queueDepth, reserved, rr, 1, [], Store(reserved));
    assert [] + [Store(reserved)] == [Store(reserved)];
  }

  lemma EscapeStarts(queueDepth: nat, reserved: nat, rr: bool, d: nat) returns (ops: seq<Op>)
    requires MIN_RQ <= reserved < queueDepth && d == queueDepth - reserved
    ensures Escaping(queueDepth, reserved, rr, ops, d, 0)
  {
    ops := [Store(reserved)];
    StoreReserved(queueDepth, reserved, rr);
    EmptiedIsFilled(d, Alloc(d).(depth := 0));
  }

  lemma EscapeStep(queueDepth: nat, reserved: nat, rr: bool, ops: seq<Op>, d: nat, n: nat)
    requires reserved < queueDepth && n < d <= Capacity(queueDepth, reserved) && Escaping(queueDepth, reserved, rr, ops, d, n)
    ensures Escaping(queueDepth, reserved, rr, ops + [GetTag(0, true)], d, n + 1)
  {
    FillRun(queueDepth, reserved, rr, ops, d, n);
  }

  /** A resize to just the reserved tags, and n gets on one CPU. */
  lemma {:induction false} Escapes(queueDepth: nat, reserved: nat, rr: bool, d: nat, n: nat) returns (ops: seq<Op>)
    requires MIN_RQ <= reserved < queueDepth && n <= d == queueDepth - reserved <= Capacity(queueDepth, reserved)
    ensures Escaping(queueDepth, reserved, rr, ops, d, n)
    decreases n
  {
    if n == 0 {
      ops := EscapeStarts(queueDepth, reserved, rr, d);
    } else {
      var before := Escapes(queueDepth, reserved, rr, d, n - 1);
      EscapeStep(queueDepth, reserved, rr, before, d, n - 1);
      ops := before + [GetTag(0, true)];
    }
  }

  lemma EscapedOut(queueDepth: nat, reserved: nat, rr: bool, ops: seq<Op>, n: nat)
    requires reserved < queueDepth && Escaping(queueDepth, reserved, rr, ops, n, n) && Capacity(queueDepth, reserved) <= n
    ensures !InRange(Run(queueDepth, reserved, rr, 1, ops))
  {
    var s := Run(queueDepth, reserved, rr, 1, ops);
    InCapacity(s.bt, s.caches[0]);
  }

  /** Through every run of resizes, gets and puts on any number of CPUs every cached tag has a word, under either policy, if
      and only if fewer tags are reserved than the least number of requests one can set, or the words first allocated have a
      bit more than there are normal tags. */
  lemma CachesInRangeIff(queueDepth: nat, reserved: nat, rr: bool)
    requires reserved < queueDepth
    ensures (forall cpus: nat, ops :: InRange(Run(queueDepth, reserved, rr, cpus, ops))) <==> Spare(queueDepth, reserved)
  {
    if Spare(queueDepth, reserved) {
      forall cpus: nat, ops ensures InRange(Run(queueDepth, reserved, rr, cpus, ops)) {
        RunsInRange(queueDepth, reserved, rr, cpus, ops);
      }
    } else {
      var d := queueDepth - reserved;
      AllocFits(d);
      var ops := Escapes(queueDepth, reserved, rr, d, d);
      EscapedOut(queueDepth, reserved, rr, ops, d);
    }
  }
}
