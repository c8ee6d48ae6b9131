/**
 Rate accounting of block/blk-throttle.c for one group and one direction: slices that start, extend and trim, the byte
 and I/O budgets computed from them, and the proof that no mix of these ever lets more through than the limit allows.
 Words are as wide as in C: byte counters and products are 64 bits, I/O counters 32 bits.
 */
module ThrottleRate {

  const U64 := 0x1_0000_0000_0000_0000
  const U32 := 0x1_0000_0000

  /** HZ and the limits; the all-ones value of a limit means unlimited. */
  datatype Config = Config(hz: nat, bps: nat, iops: nat) {
    ghost predicate Valid() { 10 <= hz < 0x1_0000 && 0 < bps < U64 && 0 < iops < U32 }

    /** throtl_slice, a tenth of a second */
    function Slice(): (s: nat) { hz / 10 }

    predicate Unlimited() { bps == U64 - 1 && iops == U32 - 1 }
  }

  /** The slice of one direction: what was charged in it, and when it starts and ends. */
  datatype Meter = Meter(bytesDisp: nat, ioDisp: nat, start: nat, end: nat)

  function RoundUp(x: nat, m: nat): (r: nat)
    requires 0 < m
    ensures x <= r < x + m
  {
    DivBounds(x, m);
    (x + m - 1) / m * m
  }

  lemma DivBounds(x: nat, m: nat)
    requires 0 < m
    ensures x <= (x + m - 1) / m * m < x + m
  {
    assert x + m - 1 == (x + m - 1) / m * m + (x + m - 1) % m;
  }

  lemma WholeSlice(m: nat)
    requires 0 < m
    ensures RoundUp(m, m) == m
  {
    DivBounds(m, m);
    assert (m + m - 1) / m == 1;
  }

  lemma MulLe(a: nat, x: int, y: int)
    requires x <= y
    ensures a * x <= a * y
  {
  }

  /** rate * time / HZ as the C code computes it, with the product in 64 bits. */
  function Scaled(rate: nat, time: nat, hz: nat): (r: nat)
    requires 0 < hz
    ensures rate * time < U64 ==> hz * r <= rate * time
  {
    ScaledBound((rate * time) % U64, hz);
    (rate * time) % U64 / hz
  }

  lemma ScaledBound(x: nat, hz: nat)
    requires 0 < hz
    ensures 0 <= x / hz && hz * (x / hz) <= x
  {
  }

  /* ---- slices ---- */

  predicate SliceUsed(m: Meter, now: nat) { !(m.start <= now <= m.end) }

  function NewSlice(c: Config, now: nat): Meter { Meter(0, 0, now, now + c.Slice()) }

  function ExtendSlice(c: Config, m: Meter, until: nat): Meter
    requires c.Valid()
  {
    m.(end := RoundUp(until, c.Slice()))
  }

  /** jiffy_elapsed_rnd: the time since the slice started, rounded up to whole slices, at least one. */
  function ElapsedRounded(c: Config, m: Meter, now: nat): (r: nat)
    requires c.Valid() && m.start <= now
    ensures now - m.start <= r <= now - m.start + c.Slice()
  {
    WholeSlice(c.Slice());
    RoundUp(if now == m.start then c.Slice() else now - m.start, c.Slice())
  }

  /* ---- budgets ---- */

  function BytesAllowed(c: Config, m: Meter, now: nat): nat
    requires c.Valid() && m.start <= now
  {
    Scaled(c.bps, ElapsedRounded(c, m, now), c.hz)
  }

  predicate WithinBps(c: Config, m: Meter, size: nat, now: nat)
    requires c.Valid() && m.start <= now
  {
    (m.bytesDisp + size) % U64 <= BytesAllowed(c, m, now)
  }

  function BpsWait(c: Config, m: Meter, size: nat, now: nat): nat
    requires c.Valid() && m.start <= now
    requires !WithinBps(c, m, size, now)
  {
    var extra := (m.bytesDisp + size) % U64 - BytesAllowed(c, m, now);
    var wait := Scaled(extra, c.hz, c.bps);
    (if wait == 0 then 1 else wait) + ElapsedRounded(c, m, now) - (now - m.start)
  }

  function IoAllowed(c: Config, m: Meter, now: nat): nat
    requires c.Valid() && m.start <= now
  {
    var t := Scaled(c.iops, ElapsedRounded(c, m, now), c.hz);
    if t > U32 - 1 then U32 - 1 else t
  }

  predicate WithinIops(c: Config, m: Meter, now: nat)
    requires c.Valid() && m.start <= now
  {
    (m.ioDisp + 1) % U32 <= IoAllowed(c, m, now)
  }

  function IopsWait(c: Config, m: Meter, now: nat): nat
    requires c.Valid() && m.start <= now
  {
    var wait := ((m.ioDisp + 1) % U32 * c.hz) % U32 / c.iops + 1;
    if wait > now - m.start then wait - (now - m.start) else 1
  }

  lemma QuotientAtLeast(n: nat, hz: nat, x: nat)
    requires 0 < hz && n * hz <= x
    ensures n <= x / hz
  {
    if x / hz < n {
      MulLe(hz, x / hz + 1, n);
    }
  }

  lemma EnoughTime(n: nat, hz: nat, iops: nat, e: nat)
    requires 0 < hz && 0 < iops && n * hz / iops + 1 <= e
    ensures n <= iops * e / hz
  {
    var q := n * hz / iops;
    assert n * hz == iops * q + n * hz % iops;
    MulLe(iops, q + 1, e);
    QuotientAtLeast(n, hz, iops * e);
  }

  lemma NoWrap(n: nat, hz: nat)
    requires 1 <= hz && n * hz < U32
    ensures n % U32 * hz % U32 == n * hz
  {
    MulLe(n, 1, hz);
  }

  lemma WaitCovers(c: Config, m: Meter, now: nat, later: nat, jiffies: nat)
    requires c.Valid() && m.start <= now && now + IopsWait(c, m, now) <= later
    requires jiffies == (m.ioDisp + 1) % U32 * c.hz % U32 / c.iops
    ensures jiffies + 1 <= later - m.start
  {
  }

  /** The estimate reaches from the start of the slice over the time its I/Os and one more take. */
  lemma WaitReaches(c: Config, m: Meter, now: nat, later: nat, n: nat)
    requires c.Valid() && m.start <= now && n == m.ioDisp + 1 && n * c.hz < U32 && n < U32
    requires now + IopsWait(c, m, now) <= later
    ensures n * c.hz / c.iops + 1 <= later - m.start
  {
    NoWrap(n, c.hz);
    ScaledBound(n * c.hz, c.iops);
    WaitCovers(c, m, now, later, n * c.hz / c.iops);
  }

  lemma EnoughIsAllowed(c: Config, m: Meter, later: nat, n: nat)
    requires c.Valid() && m.start <= later && n < U32
    requires c.iops * (later - m.start + c.Slice()) < U64 && n <= c.iops * ElapsedRounded(c, m, later) / c.hz
    ensures n <= IoAllowed(c, m, later)
  {
    var e := ElapsedRounded(c, m, later);
    MulLe(c.iops, e, later - m.start + c.Slice());
    ScaledIs(c.iops, e, c.hz);
  }

  lemma ScaledIs(rate: nat, time: nat, hz: nat)
    requires 0 < hz && rate * time < U64
    ensures Scaled(rate, time, hz) == rate * time / hz
  {
  }

  /** Whoever waits as long as the I/O check says is within the limit afterwards, unless something else was charged: the
      estimate is long enough as long as its 32-bit product does not wrap. */
  lemma IopsWaitEnough(c: Config, m: Meter, now: nat, later: nat)
    requires c.Valid() && m.start <= now && (m.ioDisp + 1) * c.hz < U32
    requires now + IopsWait(c, m, now) <= later && c.iops * (later - m.start + c.Slice()) < U64
    ensures WithinIops(c, m, later)
  {
    var n := m.ioDisp + 1;
    MulLe(n, 1, c.hz);
    WaitReaches(c, m, now, later, n);
    EnoughTime(n, c.hz, c.iops, ElapsedRounded(c, m, later));
    EnoughIsAllowed(c, m, later, n);
  }

  /* ---- the three operations ---- */

  /** The slice tg_may_dispatch works with: a new one if the last is used up, else one that lasts a slice from now. */
  function Renewed(c: Config, m: Meter, now: nat): (r: Meter)
    requires c.Valid()
    ensures r.start <= now
  {
    if SliceUsed(m, now) then NewSlice(c, now)
    else if m.end < now + c.Slice() then ExtendSlice(c, m, now + c.Slice())
    else m
  }

  /** tg_may_dispatch: the verdict, the estimated wait, and the slice it leaves. */
  function MayDispatch(c: Config, m: Meter, size: nat, now: nat): (bool, nat, Meter)
    requires c.Valid()
  {
    if c.Unlimited() then (true, 0, m)
    else
      var r := Renewed(c, m, now);
      if WithinBps(c, r, size, now) && WithinIops(c, r, now) then (true, 0, r)
      else
        var wait := if WithinBps(c, r, size, now) then IopsWait(c, r, now) else BpsWait(c, r, size, now);
        (false, wait, if r.end < now + wait then ExtendSlice(c, r, now + wait) else r)
  }

  /** throtl_charge_bio */
  function Charge(m: Meter, size: nat): Meter {
    m.(bytesDisp := (m.bytesDisp + size) % U64, ioDisp := (m.ioDisp + 1) % U32)
  }

  function Drop(disp: nat, trim: nat): nat { if disp >= trim then disp - trim else 0 }

  /** Takes the share of a window of whole slices off both counters, unless that is nothing of either. */
  function CutWindow(c: Config, m: Meter, window: nat): Meter
    requires c.Valid()
  {
    var bytesTrim := Scaled(c.bps, window, c.hz);
    var ioTrim := Scaled(c.iops, window, c.hz);
    if window == 0 || (bytesTrim == 0 && ioTrim == 0) then m
    else m.(bytesDisp := Drop(m.bytesDisp, bytesTrim), ioDisp := Drop(m.ioDisp, ioTrim), start := m.start + window)
  }

  lemma SlicesElapsed(slice: nat, elapsed: nat)
    requires 0 < slice
    ensures 0 <= slice * (elapsed / slice) <= elapsed <= slice * (elapsed / slice) + slice
  {
  }

  /** The time of the whole slices that have elapsed. */
  function WholeSlices(slice: nat, elapsed: nat): (w: nat)
    requires 0 < slice
    ensures w <= elapsed <= w + slice
  {
    SlicesElapsed(slice, elapsed);
    slice * (elapsed / slice)
  }

  /** throtl_trim_slice */
  function Trim(c: Config, m: Meter, now: nat): Meter
    requires c.Valid()
  {
    if SliceUsed(m, now) then m
    else CutWindow(c, ExtendSlice(c, m, now + c.Slice()), WholeSlices(c.Slice(), now - m.start))
  }

  /* ---- runs ---- */

  /** One visit to the group: a bio of `size` bytes is checked at `now`; if `take` is set and it is within the limits
      it is charged, and the slice is trimmed at `later`. */
  datatype Visit = Visit(size: nat, take: bool, now: nat, later: nat)

  /** The meter, and the bytes and bios charged so far. */
  datatype Account = Account(m: Meter, bytes: nat, ios: nat)

  function Step(c: Config, a: Account, v: Visit): Account
    requires c.Valid()
  {
    var (ok, _, m) := MayDispatch(c, a.m, v.size, v.now);
    if ok && v.take then Account(Trim(c, Charge(m, v.size), v.later), a.bytes + v.size, a.ios + 1)
    else a.(m := m)
  }

  function Run(c: Config, vs: seq<Visit>): Account
    requires c.Valid()
  {
    if vs == [] then Account(Meter(0, 0, 0, 0), 0, 0)
    else Step(c, Run(c, vs[..|vs| - 1]), vs[|vs| - 1])
  }

  /** A clock that never runs backwards, and bios as large as bi_size can say. */
  ghost predicate Timed(vs: seq<Visit>, t: nat) {
    && (forall i :: 0 <= i < |vs| ==> vs[i].now <= vs[i].later <= t && vs[i].size < U32)
    && (forall i, j :: 0 <= i < j < |vs| ==> vs[i].later <= vs[j].now)
  }

  /* ---- the bound ---- */

  /** One budget: `rate` per second, `disp` charged in the current slice, `total` charged since t0, the last charge at
      `last`. */
  ghost predicate Sound(c: Config, rate: nat, disp: nat, total: nat, t0: nat, last: nat, m: Meter) {
    && disp <= total
    && (total > 0 ==>
        && t0 <= m.start && t0 <= last
        && c.hz * total <= c.hz * disp + rate * (m.start - t0)
        && c.hz * total <= rate * (last + c.Slice() - t0)
        && last + c.Slice() <= m.end)
  }

  lemma TrimSum(hz: nat, rate: nat, m: nat, trim: nat, disp: nat, total: nat, gap: nat)
    requires hz * trim <= rate * m
    requires hz * total <= hz * disp + rate * gap
    ensures hz * total <= hz * Drop(disp, trim) + rate * (gap + m)
  {
    assert rate * (gap + m) == rate * gap + rate * m;
    assert hz * Drop(disp, trim) >= hz * disp - hz * trim;
  }

  lemma ChargeSum(hz: nat, rate: nat, rnd: nat, disp: nat, total: nat, gap: nat, window: nat)
    requires rnd + gap <= window
    requires hz * disp <= rate * rnd
    requires hz * total <= hz * disp + rate * gap
    ensures hz * total <= rate * window
  {
    assert rate * rnd + rate * gap == rate * (rnd + gap);
    MulLe(rate, rnd + gap, window);
  }

  /** A new slice starts only when everything charged fits in the time before it. */
  lemma RenewSound(c: Config, rate: nat, disp: nat, total: nat, t0: nat, last: nat, m: Meter, now: nat)
    requires c.Valid() && Sound(c, rate, disp, total, t0, last, m) && m.start <= now
    ensures Sound(c, rate, if SliceUsed(m, now) then 0 else disp, total, t0, last, Renewed(c, m, now))
  {
    if SliceUsed(m, now) && total > 0 {
      MulLe(rate, last + c.Slice() - t0, now - t0);
    }
  }

  /** After tg_may_dispatch the slice has started, lasts a slice from now, and the budget is still sound. */
  ghost predicate Checked(c: Config, rate: nat, disp: nat, total: nat, t0: nat, last: nat, m: Meter, now: nat) {
    Sound(c, rate, disp, total, t0, last, m) && t0 <= m.start <= now && now + c.Slice() <= m.end
  }

  lemma CheckSound(c: Config, a: Account, size: nat, now: nat, t0: nat, last: nat, rate: nat, ofBytes: bool)
    requires c.Valid() && !c.Unlimited() && a.m.start <= now && t0 <= now
    requires t0 <= a.m.start || SliceUsed(a.m, now)
    requires Sound(c, rate, if ofBytes then a.m.bytesDisp else a.m.ioDisp, if ofBytes then a.bytes else a.ios, t0, last, a.m)
    ensures var m := MayDispatch(c, a.m, size, now).2;
            Checked(c, rate, if ofBytes then m.bytesDisp else m.ioDisp, if ofBytes then a.bytes else a.ios, t0, last, m, now)
  {
    RenewSound(c, rate, if ofBytes then a.m.bytesDisp else a.m.ioDisp, if ofBytes then a.bytes else a.ios, t0, last, a.m, now);
  }

  /** Charging within the budget keeps the total within the limit for the time up to now and one slice more. */
  lemma ChargeSound(c: Config, rate: nat, disp: nat, amount: nat, total: nat, t0: nat, last: nat, m: Meter, now: nat)
    requires c.Valid() && Checked(c, rate, disp, total, t0, last, m, now)
    requires c.hz * (disp + amount) <= rate * ElapsedRounded(c, m, now)
    ensures Sound(c, rate, disp + amount, total + amount, t0, now, m)
  {
    if total > 0 {
      assert c.hz * (total + amount) == c.hz * total + c.hz * amount;
      assert c.hz * (disp + amount) == c.hz * disp + c.hz * amount;
    } else {
      assert disp == 0 && rate * (m.start - t0) >= 0;
    }
    ChargeSum(c.hz, rate, ElapsedRounded(c, m, now), disp + amount, total + amount, m.start - t0, now + c.Slice() - t0);
  }

  /** Moving the start of the slice over a window takes off no more than the window allows. */
  lemma WindowSound(c: Config, rate: nat, disp: nat, total: nat, t0: nat, last: nat, m: Meter, window: nat, t: nat)
    requires c.Valid() && Sound(c, rate, disp, total, t0, last, m)
    requires t0 <= m.start && m.start + window <= t && rate * (t - t0 + c.Slice()) < U64
    ensures Sound(c, rate, Drop(disp, Scaled(rate, window, c.hz)), total, t0, last, m.(start := m.start + window))
  {
    MulLe(rate, window, t - t0 + c.Slice());
    if total > 0 {
      TrimSum(c.hz, rate, window, Scaled(rate, window, c.hz), disp, total, m.start - t0);
    }
  }

  lemma CutSound(c: Config, m: Meter, total: nat, t0: nat, last: nat, window: nat, t: nat, ofBytes: bool)
    requires c.Valid() && t0 <= m.start && m.start + window <= t
    requires Sound(c, if ofBytes then c.bps else c.iops, if ofBytes then m.bytesDisp else m.ioDisp, total, t0, last, m)
    requires (if ofBytes then c.bps else c.iops) * (t - t0 + c.Slice()) < U64
    ensures var r := CutWindow(c, m, window);
            && Sound(c, if ofBytes then c.bps else c.iops, if ofBytes then r.bytesDisp else r.ioDisp, total, t0, last, r)
            && t0 <= r.start <= m.start + window
  {
    WindowSound(c, if ofBytes then c.bps else c.iops, if ofBytes then m.bytesDisp else m.ioDisp, total, t0, last, m, window, t);
  }

  lemma TrimSound(c: Config, m: Meter, total: nat, t0: nat, last: nat, later: nat, t: nat, ofBytes: bool)
    requires c.Valid() && t0 <= m.start <= later && last <= later <= t
    requires Sound(c, if ofBytes then c.bps else c.iops, if ofBytes then m.bytesDisp else m.ioDisp, total, t0, last, m)
    requires (if ofBytes then c.bps else c.iops) * (t - t0 + c.Slice()) < U64
    ensures var r := Trim(c, m, later);
            && Sound(c, if ofBytes then c.bps else c.iops, if ofBytes then r.bytesDisp else r.ioDisp, total, t0, last, r)
            && t0 <= r.start <= later
  {
    if !SliceUsed(m, later) {
      var window := WholeSlices(c.Slice(), later - m.start);
      CutSound(c, ExtendSlice(c, m, later + c.Slice()), total, t0, last, window, t, ofBytes);
    }
  }

  /** The slice and budget before a visit at `now`. */
  ghost predicate Ready(c: Config, rate: nat, disp: nat, total: nat, t0: nat, last: nat, m: Meter, now: nat) {
    && m.start <= now && t0 <= now && last <= now
    && (t0 <= m.start || SliceUsed(m, now))
    && Sound(c, rate, disp, total, t0, last, m)
  }

  lemma VisitBytes(c: Config, a: Account, v: Visit, t0: nat, last: nat, t: nat) returns (last': nat)
    requires c.Valid() && !c.Unlimited() && v.now <= v.later <= t && v.size < U32
    requires Ready(c, c.bps, a.m.bytesDisp, a.bytes, t0, last, a.m, v.now)
    requires c.bps * (t - t0 + c.Slice()) < U64
    ensures var b := Step(c, a, v);
            last' <= v.now && t0 <= b.m.start <= v.later && Sound(c, c.bps, b.m.bytesDisp, b.bytes, t0, last', b.m)
  {
    CheckSound(c, a, v.size, v.now, t0, last, c.bps, true);
    var (ok, _, m) := MayDispatch(c, a.m, v.size, v.now);
    if ok && v.take {
      last' := v.now;
      BytesFit(c, m, v.size, v.now, t0, last, t, a.bytes);
      ChargeSound(c, c.bps, m.bytesDisp, v.size, a.bytes, t0, last, m, v.now);
      TrimSound(c, Charge(m, v.size), a.bytes + v.size, t0, v.now, v.later, t, true);
    } else {
      last' := last;
    }
  }

  /* ---- the I/O counter does not wrap ---- */

  /** The charges in a slice are at most those of two slices and one more. */
  ghost predicate Low(c: Config, m: Meter) { c.hz * m.ioDisp <= c.iops * (2 * c.Slice()) + c.hz }

  lemma Cancel(a: nat, x: nat, y: nat)
    requires 0 < a && a * x <= a * y
    ensures x <= y
  {
    if y < x {
      MulStep(a, y, x);
    }
  }

  lemma MulStep(a: nat, y: nat, x: nat)
    requires y < x
    ensures a * y + a <= a * x
  {
    MulLe(a, y + 1, x);
    assert a * (y + 1) == a * y + a;
  }

  lemma LowFits(c: Config, m: Meter)
    requires c.Valid() && Low(c, m)
    ensures m.ioDisp < U32 - 1
  {
    MulLe(c.iops, 10 * c.Slice(), c.hz);
    FiveTimes(c.hz, c.iops, c.Slice(), m.ioDisp);
    Cancel(c.hz, 5 * m.ioDisp, c.iops + 5);
  }

  lemma FiveTimes(hz: nat, iops: nat, slice: nat, disp: nat)
    requires hz * disp <= iops * (2 * slice) + hz && iops * (10 * slice) <= iops * hz
    ensures hz * (5 * disp) <= hz * (iops + 5)
  {
    assert hz * (5 * disp) == 5 * (hz * disp);
    assert iops * (10 * slice) == 5 * (iops * (2 * slice));
    assert hz * (iops + 5) == iops * hz + 5 * hz;
  }

  /** What Scaled drops is less than one. */
  lemma ScaledDrops(rate: nat, time: nat, hz: nat)
    requires 0 < hz && rate * time < U64
    ensures rate * time < hz * Scaled(rate, time, hz) + hz
  {
    assert rate * time == rate * time / hz * hz + rate * time % hz;
  }

  lemma LowSum(hz: nat, rate: nat, disp: nat, trim: nat, gap: nat, slice: nat, window: nat)
    requires hz * disp <= rate * (gap + slice) && gap <= window + slice && rate * window < hz * trim + hz
    ensures hz * Drop(disp, trim) <= rate * (2 * slice) + hz
  {
    MulLe(rate, gap + slice, window + 2 * slice);
    assert rate * (window + 2 * slice) == rate * window + rate * (2 * slice);
    if disp >= trim {
      assert hz * Drop(disp, trim) == hz * disp - hz * trim;
    }
  }

  lemma WindowLow(c: Config, m: Meter, now: nat, window: nat, t0: nat, t: nat)
    requires c.Valid() && t0 <= m.start <= now && m.start + window <= t && now - m.start <= window + c.Slice()
    requires c.hz * m.ioDisp <= c.iops * (now - m.start + c.Slice()) && c.iops * (t - t0 + c.Slice()) < U64
    ensures Low(c, CutWindow(c, m, window))
  {
    MulLe(c.iops, window, t - t0 + c.Slice());
    ScaledDrops(c.iops, window, c.hz);
    LowSum(c.hz, c.iops, m.ioDisp, Scaled(c.iops, window, c.hz), now - m.start, c.Slice(), window);
    if CutWindow(c, m, window) == m {
      NothingTrimmed(c, window);
    }
  }

  lemma NothingTrimmed(c: Config, window: nat)
    requires c.Valid() && (window == 0 || Scaled(c.iops, window, c.hz) == 0)
    ensures Scaled(c.iops, window, c.hz) == 0
  {
    if window == 0 {
      assert c.iops * window == 0;
    }
  }

  /** Trimming after a charge leaves few charges, or a slice that is over. */
  lemma TrimLow(c: Config, m: Meter, now: nat, later: nat, t0: nat, t: nat)
    requires c.Valid() && t0 <= m.start <= now <= later <= t
    requires c.hz * m.ioDisp <= c.iops * (now - m.start + c.Slice()) && c.iops * (t - t0 + c.Slice()) < U64
    ensures var r := Trim(c, m, later); Low(c, r) || r.end < later
  {
    if !SliceUsed(m, later) {
      WindowLow(c, ExtendSlice(c, m, later + c.Slice()), now, WholeSlices(c.Slice(), later - m.start), t0, t);
    }
  }

  lemma CheckLow(c: Config, m: Meter, size: nat, now: nat)
    requires c.Valid() && !c.Unlimited() && m.start <= now && (Low(c, m) || m.end < now)
    ensures Low(c, MayDispatch(c, m, size, now).2)
  {
    CheckKeepsIos(c, m, size, now);
    if SliceUsed(m, now) {
      NoneIsLow(c, MayDispatch(c, m, size, now).2);
    } else {
      SameIsLow(c, m, MayDispatch(c, m, size, now).2);
    }
  }

  lemma CheckKeepsIos(c: Config, m: Meter, size: nat, now: nat)
    requires c.Valid() && !c.Unlimited()
    ensures MayDispatch(c, m, size, now).2.ioDisp == if SliceUsed(m, now) then 0 else m.ioDisp
  {
  }

  lemma NoneIsLow(c: Config, m: Meter)
    requires m.ioDisp == 0
    ensures Low(c, m)
  {
  }

  lemma SameIsLow(c: Config, m: Meter, r: Meter)
    requires Low(c, m) && r.ioDisp == m.ioDisp
    ensures Low(c, r)
  {
  }

  lemma ChargedWithin(c: Config, m: Meter, now: nat)
    requires c.Valid() && m.start <= now && c.hz * (m.ioDisp + 1) <= c.iops * ElapsedRounded(c, m, now)
    ensures c.hz * (m.ioDisp + 1) <= c.iops * (now - m.start + c.Slice())
  {
    MulLe(c.iops, ElapsedRounded(c, m, now), now - m.start + c.Slice());
  }

  lemma VisitIos(c: Config, a: Account, v: Visit, t0: nat, last: nat, t: nat) returns (last': nat)
    requires c.Valid() && !c.Unlimited() && v.now <= v.later <= t && v.size < U32
    requires Ready(c, c.iops, a.m.ioDisp, a.ios, t0, last, a.m, v.now) && (Low(c, a.m) || a.m.end < v.now)
    requires c.iops * (t - t0 + c.Slice()) < U64
    ensures var b := Step(c, a, v);
            && last' <= v.now && t0 <= b.m.start <= v.later && Sound(c, c.iops, b.m.ioDisp, b.ios, t0, last', b.m)
            && (Low(c, b.m) || b.m.end < v.later)
  {
    CheckSound(c, a, v.size, v.now, t0, last, c.iops, false);
    CheckLow(c, a.m, v.size, v.now);
    var (ok, _, m) := MayDispatch(c, a.m, v.size, v.now);
    if ok && v.take {
      last' := v.now;
      IosFit(c, m, v.now, t0, t);
      ChargeSound(c, c.iops, m.ioDisp, 1, a.ios, t0, last, m, v.now);
      ChargedWithin(c, m, v.now);
      TrimSound(c, Charge(m, v.size), a.ios + 1, t0, v.now, v.later, t, false);
      TrimLow(c, Charge(m, v.size), v.now, v.later, t0, t);
    } else {
      last' := last;
    }
  }

  /** No product or sum of the I/O check wraps. */
  lemma IosFit(c: Config, m: Meter, now: nat, t0: nat, t: nat)
    requires c.Valid() && Low(c, m) && t0 <= m.start <= now <= t
    requires c.iops * (t - t0 + c.Slice()) < U64 && WithinIops(c, m, now)
    ensures (m.ioDisp + 1) % U32 == m.ioDisp + 1
    ensures c.hz * (m.ioDisp + 1) <= c.iops * ElapsedRounded(c, m, now)
  {
    LowFits(c, m);
    var rounded := ElapsedRounded(c, m, now);
    MulLe(c.iops, rounded, t - t0 + c.Slice());
    MulLe(c.hz, m.ioDisp + 1, Scaled(c.iops, rounded, c.hz));
  }

  /* ---- the byte counter does not wrap ---- */

  lemma TenthFits(hz: nat, disp: nat, size: nat)
    requires 10 <= hz && hz * disp < U64 && size < U32
    ensures disp + size < U64
  {
    MulLe(disp, 10, hz);
  }

  lemma BytesSmall(c: Config, m: Meter, size: nat, t0: nat, last: nat, t: nat, total: nat)
    requires c.Valid() && Sound(c, c.bps, m.bytesDisp, total, t0, last, m) && size < U32 && last <= t
    requires t0 <= t && c.bps * (t - t0 + c.Slice()) < U64
    ensures m.bytesDisp + size < U64
  {
    if total > 0 {
      MulLe(c.bps, last + c.Slice() - t0, t - t0 + c.Slice());
      MulLe(c.hz, m.bytesDisp, total);
      TenthFits(c.hz, m.bytesDisp, size);
    }
  }

  /** Within the horizon no product or sum of the byte check wraps. */
  lemma BytesFit(c: Config, m: Meter, size: nat, now: nat, t0: nat, last: nat, t: nat, total: nat)
    requires c.Valid() && Checked(c, c.bps, m.bytesDisp, total, t0, last, m, now) && now <= t && size < U32 && last <= now
    requires c.bps * (t - t0 + c.Slice()) < U64 && WithinBps(c, m, size, now)
    ensures (m.bytesDisp + size) % U64 == m.bytesDisp + size
    ensures c.hz * (m.bytesDisp + size) <= c.bps * ElapsedRounded(c, m, now)
  {
    BytesSmall(c, m, size, t0, last, t, total);
    var rounded := ElapsedRounded(c, m, now);
    assert rounded <= t - t0 + c.Slice();
    MulLe(c.bps, rounded, t - t0 + c.Slice());
    MulLe(c.hz, m.bytesDisp + size, Scaled(c.bps, rounded, c.hz));
  }

  lemma {:induction false} RunBytes(c: Config, vs: seq<Visit>, t: nat) returns (last: nat)
    requires c.Valid() && !c.Unlimited() && vs != [] && Timed(vs, t)
    requires c.bps * (t - vs[0].now + c.Slice()) < U64
    ensures var a, t0, end := Run(c, vs), vs[0].now, vs[|vs| - 1];
            last <= end.now && t0 <= a.m.start <= end.later && Sound(c, c.bps, a.m.bytesDisp, a.bytes, t0, last, a.m)
  {
    var n := |vs| - 1;
    if n == 0 {
      last := VisitBytes(c, Run(c, []), vs[0], vs[0].now, 0, t);
    } else {
      var l := RunBytes(c, vs[..n], t);
      last := VisitBytes(c, Run(c, vs[..n]), vs[n], vs[0].now, l, t);
    }
  }

  /** The state of the I/O budget after the visits `vs`. */
  ghost predicate IosKept(c: Config, vs: seq<Visit>, a: Account, last: nat)
    requires vs != []
  {
    var t0, end := vs[0].now, vs[|vs| - 1];
    && last <= end.now && t0 <= a.m.start <= end.later && Sound(c, c.iops, a.m.ioDisp, a.ios, t0, last, a.m)
    && (Low(c, a.m) || a.m.end < end.later)
  }

  lemma FirstIos(c: Config, v: Visit, t: nat) returns (last: nat)
    requires c.Valid() && !c.Unlimited() && v.now <= v.later <= t && v.size < U32
    requires c.iops * (t - v.now + c.Slice()) < U64
    ensures IosKept(c, [v], Step(c, Account(Meter(0, 0, 0, 0), 0, 0), v), last)
  {
    last := VisitIos(c, Account(Meter(0, 0, 0, 0), 0, 0), v, v.now, 0, t);
  }

  lemma NextIos(c: Config, vs: seq<Visit>, a: Account, v: Visit, l: nat, t: nat) returns (last: nat)
    requires c.Valid() && !c.Unlimited() && vs != [] && IosKept(c, vs, a, l)
    requires vs[0].now <= vs[|vs| - 1].later <= v.now <= v.later <= t && v.size < U32 && vs[|vs| - 1].now <= v.now
    requires c.iops * (t - vs[0].now + c.Slice()) < U64
    ensures IosKept(c, vs + [v], Step(c, a, v), last)
  {
    last := VisitIos(c, a, v, vs[0].now, l, t);
  }

  lemma {:induction false} RunIos(c: Config, vs: seq<Visit>, t: nat) returns (last: nat)
    requires c.Valid() && !c.Unlimited() && vs != [] && Timed(vs, t)
    requires c.iops * (t - vs[0].now + c.Slice()) < U64
    ensures IosKept(c, vs, Run(c, vs), last)
  {
    var n := |vs| - 1;
    if n == 0 {
      last := FirstIos(c, vs[0], t);
      assert vs == [vs[0]] && vs[..0] == [];
    } else {
      var l := RunIos(c, vs[..n], t);
      last := NextIos(c, vs[..n], Run(c, vs[..n]), vs[n], l, t);
      assert vs == vs[..n] + [vs[n]];
    }
  }

  lemma SoundBound(c: Config, rate: nat, disp: nat, total: nat, t0: nat, last: nat, m: Meter, t: nat)
    requires Sound(c, rate, disp, total, t0, last, m) && last <= t && t0 <= t
    ensures c.hz * total <= rate * (t - t0 + c.Slice())
  {
    if total > 0 {
      MulLe(rate, last + c.Slice() - t0, t - t0 + c.Slice());
    }
  }

  /** The rate limit: over any run of visits, whatever slices were started, extended or trimmed, the bytes charged from
      the first visit at t0 up to t are at most bps * (t - t0 + slice) / HZ, as long as that product fits 64 bits. */
  lemma BytesWithinRate(c: Config, vs: seq<Visit>, t: nat)
    requires c.Valid() && !c.Unlimited() && vs != [] && Timed(vs, t)
    requires c.bps * (t - vs[0].now + c.Slice()) < U64
    ensures c.hz * Run(c, vs).bytes <= c.bps * (t - vs[0].now + c.Slice())
  {
    var last := RunBytes(c, vs, t);
    var a := Run(c, vs);
    SoundBound(c, c.bps, a.m.bytesDisp, a.bytes, vs[0].now, last, a.m, t);
  }

  /** The same for the number of bios against iops; the 32-bit counter of a slice never gets far enough to wrap. */
  lemma IosWithinRate(c: Config, vs: seq<Visit>, t: nat)
    requires c.Valid() && !c.Unlimited() && vs != [] && Timed(vs, t)
    requires c.iops * (t - vs[0].now + c.Slice()) < U64
    ensures c.hz * Run(c, vs).ios <= c.iops * (t - vs[0].now + c.Slice())
  {
    var last := RunIos(c, vs, t);
    KeptBound(c, vs, Run(c, vs), last, t);
  }

  lemma KeptBound(c: Config, vs: seq<Visit>, a: Account, last: nat, t: nat)
    requires vs != [] && IosKept(c, vs, a, last) && vs[0].now <= t && vs[|vs| - 1].now <= t
    ensures c.hz * a.ios <= c.iops * (t - vs[0].now + c.Slice())
  {
    SoundBound(c, c.iops, a.m.ioDisp, a.ios, vs[0].now, last, a.m, t);
  }
}
