/**
 When the wait that the byte check of block/blk-throttle.c gives is long enough. Its quotient is rounded down and the
 time of the retry is rounded up to whole slices: mostly the second makes up for the first, and exactly when is stated.
 */
module ThrottleWait {
  import opened Arith
  import opened ThrottleRate

  /* ---- whole slices ---- */

  lemma RoundUpShift(q: nat, m: nat, x: nat)
    requires 0 < m
    ensures RoundUp(q * m + x, m) == q * m + RoundUp(x, m)
  {
    var k, r := (x + m - 1) / m, (x + m - 1) % m;
    assert (q + k) * m == q * m + k * m;
    var n := q * m + x + m - 1;
    SameQuotient(q + k, n / m, m, r, n % m);
  }

  lemma RoundUpMultiple(x: nat, m: nat)
    requires 0 < m
    ensures RoundUp(x, m) == x <==> x % m == 0
  {
    var k := (x + m - 1) / m;
    if x % m == 0 {
      var q := x / m;
      assert x + m - 1 == q * m + (m - 1);
      SameQuotient(q, k, m, m - 1, (x + m - 1) % m);
    } else if k * m == x {
      Remainder(k, m, 0);
    }
  }

  /** The time that counts x jiffies after the end of the slice that counts now. */
  lemma RoundedAfter(c: Config, m: Meter, now: nat, later: nat, x: nat)
    requires c.Valid() && m.start <= now && 0 < x && later == m.start + ElapsedRounded(c, m, now) + x
    ensures ElapsedRounded(c, m, later) == ElapsedRounded(c, m, now) + RoundUp(x, c.Slice())
  {
    var slice := c.Slice();
    var e := if now == m.start then slice else now - m.start;
    RoundUpShift((e + slice - 1) / slice, slice, x);
  }

  /* ---- the quotient ---- */

  lemma AllowedIff(n: nat, hz: nat, x: nat)
    requires 0 < hz
    ensures n <= x / hz <==> hz * n <= x
  {
    if hz * n <= x {
      QuotientAtLeast(n, hz, x);
    } else if n <= x / hz {
      MulLe(hz, n, x / hz);
    }
  }

  lemma Spread(bps: nat, rounded: nat, time: nat, wait: nat)
    ensures bps * (rounded + time) == bps * rounded + bps * wait + bps * (time - wait)
  {
  }

  lemma Gap(bps: nat, time: nat, wait: nat)
    requires wait <= time
    ensures if time == wait then bps * (time - wait) == 0 else bps <= bps * (time - wait)
  {
    if time != wait {
      MulLe(bps, 1, time - wait);
    }
  }

  lemma Compare(need: nat, given: nat, waitDrops: nat, allowanceDrops: nat, gap: int, bps: nat, same: bool)
    requires need - given == waitDrops - allowanceDrops - gap && waitDrops < bps && if same then gap == 0 else bps <= gap
    ensures need <= given <==> !same || waitDrops <= allowanceDrops
  {
  }

  /** `allowed` bytes were allowed and `wait` jiffies given, and `time` jiffies later `extra` bytes more are asked for. */
  lemma CoversIff(bps: nat, hz: nat, rounded: nat, allowed: nat, allowanceDrops: nat, extra: nat, wait: nat, waitDrops: nat, time: nat)
    requires bps * rounded == hz * allowed + allowanceDrops && extra * hz == bps * wait + waitDrops && waitDrops < bps && wait <= time
    ensures hz * (allowed + extra) <= bps * (rounded + time) <==> time != wait || waitDrops <= allowanceDrops
  {
    assert hz * (allowed + extra) == hz * allowed + extra * hz;
    Spread(bps, rounded, time, wait);
    Gap(bps, time, wait);
    Compare(hz * (allowed + extra), bps * (rounded + time), waitDrops, allowanceDrops, bps * (time - wait), bps, time == wait);
  }

  /** The quotient is not negative, and with the remainder gives the number back. */
  lemma Divided(x: nat, m: nat)
    requires 0 < m
    ensures 0 <= x / m && x == m * (x / m) + x % m && x % m < m
  {
  }

  /** The retry fits iff rounding has added time, or what the allowance dropped covers what the wait dropped. */
  lemma FitsIff(bps: nat, hz: nat, rounded: nat, extra: nat, time: nat)
    requires 0 < bps && 0 < hz && extra * hz / bps <= time
    ensures bps * rounded / hz + extra <= bps * (rounded + time) / hz <==>
            time != extra * hz / bps || extra * hz % bps <= bps * rounded % hz
  {
    var given, asked := bps * rounded, extra * hz;
    Divided(given, hz);
    Divided(asked, bps);
    AllowedIff(given / hz + extra, hz, bps * (rounded + time));
    CoversIff(bps, hz, rounded, given / hz, given % hz, extra, asked / bps, asked % bps, time);
  }

  /* ---- the retry ---- */

  /** The bytes by which the bio is over, and the jiffies they take, rounded down. */
  ghost function Extra(c: Config, m: Meter, size: nat, now: nat): (x: nat)
    requires c.Valid() && m.start <= now && !WithinBps(c, m, size, now) && (m.bytesDisp + size) * c.hz < U64
  {
    SumFits(c, m, size);
    m.bytesDisp + size - BytesAllowed(c, m, now)
  }

  lemma SumFits(c: Config, m: Meter, size: nat)
    requires c.Valid() && (m.bytesDisp + size) * c.hz < U64
    ensures (m.bytesDisp + size) % U64 == m.bytesDisp + size
  {
    MulLe(m.bytesDisp + size, 1, c.hz);
  }

  ghost function Jiffies(c: Config, m: Meter, size: nat, now: nat): (w: nat)
    requires c.Valid() && m.start <= now && !WithinBps(c, m, size, now) && (m.bytesDisp + size) * c.hz < U64
  {
    ScaledBound(Extra(c, m, size, now) * c.hz, c.bps);
    Extra(c, m, size, now) * c.hz / c.bps
  }

  lemma ScaledFits(extra: nat, sum: nat, hz: nat, bps: nat)
    requires extra <= sum && sum * hz < U64 && 0 < bps
    ensures Scaled(extra, hz, bps) == extra * hz / bps
  {
    assert extra * hz <= sum * hz;
    ScaledIs(extra, hz, bps);
  }

  lemma ExtraScaled(c: Config, m: Meter, size: nat, now: nat)
    requires c.Valid() && m.start <= now && !WithinBps(c, m, size, now) && (m.bytesDisp + size) * c.hz < U64
    ensures Scaled(Extra(c, m, size, now), c.hz, c.bps) == Jiffies(c, m, size, now)
  {
    ScaledFits(Extra(c, m, size, now), m.bytesDisp + size, c.hz, c.bps);
  }

  lemma WaitFor(c: Config, m: Meter, size: nat, now: nat, extra: nat, w: nat)
    requires c.Valid() && m.start <= now && !WithinBps(c, m, size, now)
    requires extra == (m.bytesDisp + size) % U64 - BytesAllowed(c, m, now) && w == Scaled(extra, c.hz, c.bps)
    ensures now + BpsWait(c, m, size, now) == m.start + ElapsedRounded(c, m, now) + (if w == 0 then 1 else w)
  {
  }

  /** The wait lasts from now to the end of the slice, and then for that many jiffies, at least one. */
  lemma WaitIs(c: Config, m: Meter, size: nat, now: nat)
    requires c.Valid() && m.start <= now && !WithinBps(c, m, size, now) && (m.bytesDisp + size) * c.hz < U64
    ensures var w := Jiffies(c, m, size, now);
            now + BpsWait(c, m, size, now) == m.start + ElapsedRounded(c, m, now) + (if w == 0 then 1 else w)
  {
    SumFits(c, m, size);
    ExtraScaled(c, m, size, now);
    WaitFor(c, m, size, now, Extra(c, m, size, now), Jiffies(c, m, size, now));
  }

  /** The verdict of a retry x jiffies after the end of the slice. */
  lemma RetryIff(c: Config, m: Meter, size: nat, now: nat, later: nat, x: nat)
    requires c.Valid() && m.start <= now && !WithinBps(c, m, size, now) && (m.bytesDisp + size) * c.hz < U64
    requires later == m.start + ElapsedRounded(c, m, now) + x && 0 < x && Jiffies(c, m, size, now) <= x
    requires c.bps * (later - m.start + c.Slice()) < U64
    ensures WithinBps(c, m, size, later) <==>
            RoundUp(x, c.Slice()) != Jiffies(c, m, size, now) ||
            Extra(c, m, size, now) * c.hz % c.bps <= c.bps * ElapsedRounded(c, m, now) % c.hz
  {
    var rounded, extra := ElapsedRounded(c, m, now), Extra(c, m, size, now);
    SumFits(c, m, size);
    RoundedAfter(c, m, now, later, x);
    MulLe(c.bps, rounded, later - m.start + c.Slice());
    MulLe(c.bps, ElapsedRounded(c, m, later), later - m.start + c.Slice());
    ScaledIs(c.bps, rounded, c.hz);
    ScaledIs(c.bps, ElapsedRounded(c, m, later), c.hz);
    FitsIff(c.bps, c.hz, rounded, extra, RoundUp(x, c.Slice()));
  }

  /** Whoever waits as long as the byte check says is within the limit then, if nothing else was charged and nothing
      wraps, if and only if the jiffies are not a whole number of slices, or there are none, or the part of a byte that the
      allowance has dropped is worth at least the part of a jiffy that the wait has. */
  lemma BpsWaitEnoughIff(c: Config, m: Meter, size: nat, now: nat)
    requires c.Valid() && m.start <= now && !WithinBps(c, m, size, now) && (m.bytesDisp + size) * c.hz < U64
    requires c.bps * (now + BpsWait(c, m, size, now) - m.start + c.Slice()) < U64
    ensures var w := Jiffies(c, m, size, now);
            WithinBps(c, m, size, now + BpsWait(c, m, size, now)) <==>
            || w % c.Slice() != 0 || w == 0
            || Extra(c, m, size, now) * c.hz % c.bps <= c.bps * ElapsedRounded(c, m, now) % c.hz
  {
    var w := Jiffies(c, m, size, now);
    var x := if w == 0 then 1 else w;
    WaitIs(c, m, size, now);
    RetryIff(c, m, size, now, now + BpsWait(c, m, size, now), x);
    RoundUpMultiple(w, c.Slice());
  }

  /** One jiffy more is always enough. */
  lemma BpsWaitAndOne(c: Config, m: Meter, size: nat, now: nat, later: nat)
    requires c.Valid() && m.start <= now && !WithinBps(c, m, size, now) && (m.bytesDisp + size) * c.hz < U64
    requires now + BpsWait(c, m, size, now) < later && c.bps * (later - m.start + c.Slice()) < U64
    ensures WithinBps(c, m, size, later)
  {
    WaitIs(c, m, size, now);
    RetryIff(c, m, size, now, later, later - m.start - ElapsedRounded(c, m, now));
  }

  lemma WholeSlicesElapsed(c: Config, m: Meter, now: nat, q: nat)
    requires c.Valid() && 0 < q && now == m.start + q * c.Slice() && m.start < now
    ensures ElapsedRounded(c, m, now) == now - m.start
  {
    Remainder(q, c.Slice(), 0);
    RoundUpMultiple(q * c.Slice(), c.Slice());
  }

  /** A bio that is `extra` bytes over waits to the end of the slice and `w` jiffies more. */
  lemma WaitWhenOver(c: Config, m: Meter, size: nat, now: nat, extra: nat, w: nat)
    requires c.Valid() && m.start <= now && m.bytesDisp + size == BytesAllowed(c, m, now) + extra && m.bytesDisp + size < U64
    requires 0 < extra && 0 < w == Scaled(extra, c.hz, c.bps)
    ensures !WithinBps(c, m, size, now) && now + BpsWait(c, m, size, now) == m.start + ElapsedRounded(c, m, now) + w
  {
    WaitFor(c, m, size, now, extra, w);
  }

  /** 100 jiffies and 1010 bytes a second: what one slice and two allow, and how long 102 bytes take. */
  lemma OddLimit(hz: nat, bps: nat)
    requires hz == 100 && bps == 1010
    ensures Scaled(bps, 10, hz) == 101 && Scaled(bps, 20, hz) == 202 && Scaled(102, hz, bps) == 10
  {
    assert bps * 10 == 10100 && bps * 20 == 20200 && 102 * hz == 10200;
  }

  lemma OverAt(c: Config, m: Meter, size: nat, now: nat, elapsed: nat)
    requires c.Valid() && m.start <= now && ElapsedRounded(c, m, now) == elapsed
    requires Scaled(c.bps, elapsed, c.hz) < m.bytesDisp + size < U64
    ensures !WithinBps(c, m, size, now) && BytesAllowed(c, m, now) == Scaled(c.bps, elapsed, c.hz)
  {
  }

  /** A bio that is told to wait for one slice and is still over then. */
  lemma StillOver(c: Config, m: Meter, size: nat, now: nat, extra: nat)
    requires c.Valid() && now == m.start + c.Slice() && 0 < extra
    requires Scaled(extra, c.hz, c.bps) == c.Slice() && m.bytesDisp + size < U64
    requires m.bytesDisp + size == Scaled(c.bps, c.Slice(), c.hz) + extra && m.bytesDisp + size > Scaled(c.bps, 2 * c.Slice(), c.hz)
    ensures !WithinBps(c, m, size, now) && !WithinBps(c, m, size, now + BpsWait(c, m, size, now))
  {
    var slice := c.Slice();
    WholeSlicesElapsed(c, m, now, 1);
    OverAt(c, m, size, now, slice);
    WaitWhenOver(c, m, size, now, extra, slice);
    WholeSlicesElapsed(c, m, now + slice, 2);
    OverAt(c, m, size, now + slice, 2 * slice);
  }

  /** The wait can be a jiffy short: with 100 jiffies and 1010 bytes a second, a bio of 203 bytes at the end of the first
      slice is 102 bytes over, is told to wait for one slice more, and is then still a byte over. */
  lemma BpsWaitTooShort(c: Config, m: Meter, size: nat, now: nat)
    requires c.Valid() && c.hz == 100 && c.bps == 1010 && m == NewSlice(c, 0) && size == 203 && now == m.start + c.Slice()
    ensures !WithinBps(c, m, size, now) && !WithinBps(c, m, size, now + BpsWait(c, m, size, now))
  {
    OddLimit(c.hz, c.bps);
    StillOver(c, m, size, now, 102);
  }
}
