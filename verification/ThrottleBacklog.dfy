/**
 The other side of the rate limit of block/blk-throttle.c: a group that always has a bio to dispatch, and comes back when it
 is told, gets its byte rate. Whenever it is made to wait for bytes, what it has been charged since the start, one byte
 more for each bio, and the bio that waits are together more than the limit times the time.
 */
module ThrottleBacklog {
  import opened Arith
  import opened ThrottleRate
  import opened ThrottleWait
  import opened ThrottleVerdict

  /* ---- backlogged runs ---- */

  /** A bio that is let through is followed by the next one at once; one that has to wait for its bytes comes back when it
      was told to. */
  ghost predicate ComesBack(c: Config, m: Meter, u: Visit, v: Visit)
    requires c.Valid()
  {
    var (ok, wait, _) := MayDispatch(c, m, u.size, u.now);
    if ok then v.now == u.now
    else v.now == u.now + wait && v.size == u.size && !WithinBps(c, Renewed(c, m, u.now), u.size, u.now)
  }

  ghost predicate Backlogged(c: Config, vs: seq<Visit>)
    requires c.Valid()
  {
    var n := |vs| - 1;
    && (n >= 0 ==> vs[n].take && vs[n].later == vs[n].now && vs[n].size < U32)
    && (n >= 1 ==> Backlogged(c, vs[..n]) && ComesBack(c, Run(c, vs[..n - 1]).m, vs[n - 1], vs[n]))
  }

  /* ---- the invariant ---- */

  /** Before the check of a bio of `size` bytes at `now`, with the slice r in force: what was charged since t0, and a byte
      for each bio, is no less than the charge of the slice and the limit for the time before it; and with this bio, and a
      byte more, the slice holds what its whole slices allow. */
  ghost predicate Ready(c: Config, a: Account, r: Meter, now: nat, size: nat, t0: nat, t: nat)
    requires c.Valid()
  {
    && t0 <= r.start <= now <= t
    && c.hz * (a.bytes + a.ios) >= c.hz * r.bytesDisp + c.bps * (r.start - t0)
    && c.hz * r.bytesDisp <= c.bps * (t - t0 + c.Slice())
    && c.hz * (r.bytesDisp + size + 1) > c.bps * WholeSlices(c.Slice(), now - r.start)
  }

  /** No product up to time t wraps. */
  ghost predicate Horizon(c: Config, t0: nat, t: nat) { t0 <= t && c.bps * (t - t0 + c.Slice()) + U32 * c.hz < U64 }

  lemma SumSmall(c: Config, disp: nat, size: nat, t0: nat, t: nat)
    requires c.Valid() && Horizon(c, t0, t) && c.hz * disp <= c.bps * (t - t0 + c.Slice()) && size < U32
    ensures (disp + size) * c.hz < U64 && disp + size < U64
  {
    assert (disp + size) * c.hz == c.hz * disp + size * c.hz;
    assert size * c.hz <= U32 * c.hz;
    MulLe(disp + size, 1, c.hz);
  }

  lemma NoneElapsed(slice: nat)
    requires 0 < slice
    ensures WholeSlices(slice, 0) == 0
  {
  }

  lemma FirstReady(c: Config, v: Visit, t: nat)
    requires c.Valid() && v.now <= t
    ensures Ready(c, Account(Meter(0, 0, 0, 0), 0, 0), InForce(Meter(0, 0, 0, 0), v.now), v.now, v.size, v.now, t)
  {
    NoneElapsed(c.Slice());
    assert c.bps * (v.now - v.now) == 0;
    assert c.bps * 0 == 0;
  }

  /* ---- a bio that has to wait ---- */

  lemma WholeShift(q: nat, m: nat, x: nat)
    requires 0 < m
    ensures WholeSlices(m, q * m + x) == q * m + WholeSlices(m, x)
  {
    var n := q * m + x;
    var k, r := x / m, x % m;
    assert n == (q + k) * m + r;
    SameQuotient(q + k, n / m, m, r, n % m);
    assert (q + k) * m == q * m + m * k;
  }

  lemma OneIsNoSlice(m: nat)
    requires 2 <= m
    ensures WholeSlices(m, 1) == 0
  {
    assert 1 / m == 0;
  }

  lemma WholeSlicesNow(c: Config, m: Meter, now: nat) returns (q: nat)
    requires c.Valid() && m.start <= now
    ensures ElapsedRounded(c, m, now) == q * c.Slice()
  {
    var e := if now == m.start then c.Slice() else now - m.start;
    q := (e + c.Slice() - 1) / c.Slice();
  }

  lemma WholeBound(slice: nat, q: nat, w: nat)
    requires 2 <= slice
    ensures WholeSlices(slice, q * slice + (if w == 0 then 1 else w)) <= q * slice + w
  {
    WholeShift(q, slice, if w == 0 then 1 else w);
    OneIsNoSlice(slice);
  }

  /** The whole slices after the wait are those the slice counts now and at most the jiffies of the bytes that are over. */
  lemma WholeAfterWait(c: Config, m: Meter, size: nat, now: nat)
    requires c.Valid() && c.hz >= 20 && m.start <= now && !WithinBps(c, m, size, now) && (m.bytesDisp + size) * c.hz < U64
    ensures now + BpsWait(c, m, size, now) >= m.start
    ensures WholeSlices(c.Slice(), now + BpsWait(c, m, size, now) - m.start) <= ElapsedRounded(c, m, now) + Jiffies(c, m, size, now)
  {
    WaitIs(c, m, size, now);
    var q := WholeSlicesNow(c, m, now);
    WholeBound(c.Slice(), q, Jiffies(c, m, size, now));
  }

  lemma OverSum(bps: nat, hz: nat, rounded: nat, extra: nat, whole: nat)
    requires 0 < bps && 0 < hz && whole <= rounded + extra * hz / bps
    ensures bps * whole < hz * (bps * rounded / hz + extra + 1)
  {
    var a, w := bps * rounded / hz, extra * hz / bps;
    Divided(bps * rounded, hz);
    Divided(extra * hz, bps);
    MulLe(bps, whole, rounded + w);
    assert bps * (rounded + w) == bps * rounded + bps * w;
    assert hz * (a + extra + 1) == hz * a + extra * hz + hz;
  }

  lemma FullAfterWait(c: Config, m: Meter, size: nat, now: nat)
    requires c.Valid() && c.hz >= 20 && m.start <= now && !WithinBps(c, m, size, now) && (m.bytesDisp + size) * c.hz < U64
    requires c.bps * ElapsedRounded(c, m, now) < U64
    ensures now + BpsWait(c, m, size, now) >= m.start
    ensures c.hz * (m.bytesDisp + size + 1) > c.bps * WholeSlices(c.Slice(), now + BpsWait(c, m, size, now) - m.start)
  {
    WholeAfterWait(c, m, size, now);
    ScaledIs(c.bps, ElapsedRounded(c, m, now), c.hz);
    OverSum(c.bps, c.hz, ElapsedRounded(c, m, now), Extra(c, m, size, now),
            WholeSlices(c.Slice(), now + BpsWait(c, m, size, now) - m.start));
  }

  /* ---- a bio that is let through ---- */

  lemma Within(c: Config, m: Meter, size: nat, now: nat, t0: nat, t: nat)
    requires c.Valid() && t0 <= m.start <= now <= t && Horizon(c, t0, t) && m.bytesDisp + size < U64
    ensures c.bps * ElapsedRounded(c, m, now) <= c.bps * (t - t0 + c.Slice()) < U64
    ensures WithinBps(c, m, size, now) ==> c.hz * (m.bytesDisp + size) <= c.bps * (t - t0 + c.Slice())
  {
    var r := ElapsedRounded(c, m, now);
    MulLe(c.bps, r, t - t0 + c.Slice());
    BytesIff(c, m, size, now, r);
  }

  lemma LessMul(a: nat, x: nat, y: nat)
    requires a * x < a * y
    ensures x < y
  {
    if y <= x {
      MulLe(a, y, x);
    }
  }

  /** Taking a window off the front of a slice that holds what the window allows loses less than a byte. */
  lemma CutLoses(hz: nat, bps: nat, disp: nat, trim: nat, window: nat)
    requires 0 < hz && hz * trim <= bps * window < hz * trim + hz && hz * (disp + 1) > bps * window
    ensures trim <= disp && hz * Drop(disp, trim) + bps * window < hz * disp + hz
  {
    LessMul(hz, trim, disp + 1);
    assert hz * Drop(disp, trim) == hz * disp - hz * trim;
  }

  /** What the slice is after the window of whole slices is cut off, and how it relates to what was charged. */
  lemma CutReady(c: Config, m: Meter, window: nat, total: nat, t0: nat, t: nat)
    requires c.Valid() && t0 <= m.start && m.start + window <= t && c.bps * (t - t0 + c.Slice()) < U64
    requires c.hz * total >= c.hz * m.bytesDisp + c.bps * (m.start - t0) && c.hz * (m.bytesDisp + 1) > c.bps * window
    ensures var r := CutWindow(c, m, window);
            && c.hz * (total + 1) >= c.hz * r.bytesDisp + c.bps * (r.start - t0) && r.bytesDisp <= m.bytesDisp
            && (r.start == m.start + window || (r.start == m.start && c.bps * window < c.hz))
  {
    MulLe(c.bps, window, t - t0 + c.Slice());
    var trim := Scaled(c.bps, window, c.hz);
    ScaledDrops(c.bps, window, c.hz);
    CutLoses(c.hz, c.bps, m.bytesDisp, trim, window);
    assert c.hz * (total + 1) == c.hz * total + c.hz;
    assert c.bps * (m.start + window - t0) == c.bps * (m.start - t0) + c.bps * window;
    if window == 0 {
      assert c.bps * window == 0;
    }
  }

  lemma WholeLeft(slice: nat, e: nat)
    requires 0 < slice
    ensures WholeSlices(slice, e - WholeSlices(slice, e)) == 0
  {
    assert e - slice * (e / slice) == e % slice;
    assert e % slice / slice == 0;
  }

  lemma FullAtOnce(c: Config, start: nat, window: nat, now: nat, disp: nat, size: nat, start': nat)
    requires c.Valid() && start <= now && window == WholeSlices(c.Slice(), now - start)
    requires start' == start + window || (start' == start && c.bps * window < c.hz)
    ensures start' <= now && c.hz * (disp + size + 1) > c.bps * WholeSlices(c.Slice(), now - start')
  {
    MulLe(c.hz, 1, disp + size + 1);
    if start' == start + window {
      WholeLeft(c.Slice(), now - start);
      assert c.bps * 0 == 0;
    }
  }

  lemma TotalGrows(hz: nat, bytes: nat, ios: nat, disp: nat, size: nat, before: int)
    requires hz * (bytes + ios) >= hz * disp + before
    ensures hz * (bytes + ios + size) >= hz * (disp + size) + before
  {
    assert hz * (bytes + ios + size) == hz * (bytes + ios) + hz * size;
    assert hz * (disp + size) == hz * disp + hz * size;
  }

  /** The slice after the charge, before its window is cut off. */
  ghost function Charged(c: Config, r: Meter, size: nat, now: nat): Meter
    requires c.Valid()
  {
    ExtendSlice(c, Charge(r, size), now + c.Slice())
  }

  lemma TrimIs(c: Config, r: Meter, size: nat, now: nat)
    requires c.Valid() && InUse(r, now) && r.bytesDisp + size < U64
    ensures Charged(c, r, size, now).bytesDisp == r.bytesDisp + size && Charged(c, r, size, now).start == r.start
    ensures Trim(c, Charge(r, size), now) == CutWindow(c, Charged(c, r, size, now), WholeSlices(c.Slice(), now - r.start))
    ensures Trim(c, Charge(r, size), now).end >= now
  {
  }

  lemma ReadyIs(c: Config, a: Account, r: Meter, now: nat, size: nat, t0: nat, t: nat, most: nat)
    requires c.Valid() && t0 <= r.start <= now <= t
    requires c.hz * (a.bytes + a.ios) >= c.hz * r.bytesDisp + c.bps * (r.start - t0)
    requires r.bytesDisp <= most && c.hz * most <= c.bps * (t - t0 + c.Slice())
    requires c.hz * (r.bytesDisp + size + 1) > c.bps * WholeSlices(c.Slice(), now - r.start)
    ensures Ready(c, a, r, now, size, t0, t)
  {
    MulLe(c.hz, r.bytesDisp, most);
  }

  /** Charge and trim: the next bio can be checked at once. */
  lemma ChargedReady(c: Config, a: Account, r: Meter, now: nat, size: nat, t0: nat, t: nat, size': nat)
    requires c.Valid() && Ready(c, a, r, now, size, t0, t) && Horizon(c, t0, t) && size < U32 && InUse(r, now)
    requires WithinBps(c, r, size, now)
    ensures var m := Trim(c, Charge(r, size), now);
            InUse(m, now) && Ready(c, Account(m, a.bytes + size, a.ios + 1), m, now, size', t0, t)
  {
    SumSmall(c, r.bytesDisp, size, t0, t);
    Within(c, r, size, now, t0, t);
    TrimIs(c, r, size, now);
    CutCharged(c, a, r, now, size, t0, t);
    var m := Trim(c, Charge(r, size), now);
    FullAtOnce(c, r.start, WholeSlices(c.Slice(), now - r.start), now, m.bytesDisp, size', m.start);
    ReadyIs(c, Account(m, a.bytes + size, a.ios + 1), m, now, size', t0, t, r.bytesDisp + size);
  }

  lemma CutCharged(c: Config, a: Account, r: Meter, now: nat, size: nat, t0: nat, t: nat)
    requires c.Valid() && Ready(c, a, r, now, size, t0, t) && Horizon(c, t0, t) && InUse(r, now) && r.bytesDisp + size < U64
    ensures var m, window := Trim(c, Charge(r, size), now), WholeSlices(c.Slice(), now - r.start);
            && t0 <= m.start && m.bytesDisp <= r.bytesDisp + size
            && c.hz * (a.bytes + size + (a.ios + 1)) >= c.hz * m.bytesDisp + c.bps * (m.start - t0)
            && (m.start == r.start + window || (m.start == r.start && c.bps * window < c.hz))
  {
    TrimIs(c, r, size, now);
    TotalGrows(c.hz, a.bytes, a.ios, r.bytesDisp, size, c.bps * (r.start - t0));
    CutReady(c, Charged(c, r, size, now), WholeSlices(c.Slice(), now - r.start), a.bytes + a.ios + size, t0, t);
    assert a.bytes + size + (a.ios + 1) == a.bytes + a.ios + size + 1;
  }

  lemma ReadySame(c: Config, a: Account, a': Account, r: Meter, r': Meter, now: nat, size: nat, t0: nat, t: nat)
    requires c.Valid() && Ready(c, a, r, now, size, t0, t) && r'.start == r.start && r'.bytesDisp == r.bytesDisp
    requires a'.bytes == a.bytes && a'.ios == a.ios
    ensures Ready(c, a', r', now, size, t0, t)
  {
  }

  /** A wait: nothing is charged, and the bio comes back on the same slice. */
  lemma WaitedReady(c: Config, a: Account, r: Meter, now: nat, size: nat, t0: nat, t: nat)
    requires c.Valid() && c.hz >= 20 && Ready(c, a, r, now, size, t0, t) && Horizon(c, t0, t) && size < U32
    requires !WithinBps(c, r, size, now) && now + BpsWait(c, r, size, now) <= t
    ensures Ready(c, a, r, now + BpsWait(c, r, size, now), size, t0, t)
  {
    SumSmall(c, r.bytesDisp, size, t0, t);
    Within(c, r, size, now, t0, t);
    FullAfterWait(c, r, size, now);
  }

  lemma NextReady(c: Config, a: Account, u: Visit, v: Visit, t0: nat, t: nat)
    requires c.Valid() && !c.Unlimited() && c.hz >= 20 && Horizon(c, t0, t) && u.size < U32 && u.take && u.later == u.now
    requires Ready(c, a, InForce(a.m, u.now), u.now, u.size, t0, t) && ComesBack(c, a.m, u, v) && v.now <= t
    ensures var b := Step(c, a, u); Ready(c, b, InForce(b.m, v.now), v.now, v.size, t0, t)
  {
    var r, b := Renewed(c, a.m, u.now), Step(c, a, u);
    RenewedIs(c, a.m, u.now);
    ReadySame(c, a, a, InForce(a.m, u.now), r, u.now, u.size, t0, t);
    SliceLeft(c, a.m, u.size, u.now);
    if MayDispatch(c, a.m, u.size, u.now).0 {
      ChargedReady(c, a, r, u.now, u.size, t0, t, v.size);
      ReadySame(c, b, b, b.m, InForce(b.m, v.now), v.now, v.size, t0, t);
    } else {
      WaitedReady(c, a, r, u.now, u.size, t0, t);
      ReadySame(c, a, b, r, InForce(b.m, v.now), v.now, v.size, t0, t);
    }
  }

  lemma ComesLater(c: Config, m: Meter, u: Visit, v: Visit)
    requires c.Valid() && ComesBack(c, m, u, v)
    ensures u.now <= v.now
  {
  }

  lemma {:induction false} BacklogReady(c: Config, vs: seq<Visit>, t: nat)
    requires c.Valid() && !c.Unlimited() && c.hz >= 20 && vs != [] && Backlogged(c, vs) && vs[|vs| - 1].now <= t
    requires Horizon(c, vs[0].now, t)
    ensures var n := |vs| - 1;
            var a := Run(c, vs[..n]);
            Ready(c, a, InForce(a.m, vs[n].now), vs[n].now, vs[n].size, vs[0].now, t)
    decreases |vs|
  {
    var n := |vs| - 1;
    if n == 0 {
      assert vs[..0] == [];
      FirstReady(c, vs[0], t);
    } else {
      var before := vs[..n];
      assert before[..n - 1] == vs[..n - 1];
      ComesLater(c, Run(c, vs[..n - 1]).m, vs[n - 1], vs[n]);
      BacklogReady(c, before, t);
      NextReady(c, Run(c, vs[..n - 1]), vs[n - 1], vs[n], vs[0].now, t);
    }
  }

  lemma RefusedSum(hz: nat, bps: nat, total: nat, charged: nat, rounded: nat, start: nat, t0: nat, t: nat)
    requires t0 <= start <= t && t - start <= rounded
    requires hz * total >= hz * charged + bps * (start - t0) && hz * charged > bps * rounded
    ensures hz * total > bps * (t - t0)
  {
    MulLe(bps, t - start, rounded);
    assert bps * (t - t0) == bps * (t - start) + bps * (start - t0);
  }

  /** So many bytes and more are more than the limit gives for a time. */
  ghost predicate Exceeds(c: Config, bytes: nat, more: nat, time: nat) { c.hz * (bytes + more) > c.bps * time }

  lemma Refused(c: Config, a: Account, r: Meter, size: nat, t0: nat, t: nat, rounded: nat)
    requires c.Valid() && Ready(c, a, r, t, size, t0, t) && t - r.start <= rounded && Exceeds(c, r.bytesDisp, size, rounded)
    ensures Exceeds(c, a.bytes + a.ios, size, t - t0)
  {
    TotalGrows(c.hz, a.bytes, a.ios, r.bytesDisp, size, c.bps * (r.start - t0));
    RefusedSum(c.hz, c.bps, a.bytes + a.ios + size, r.bytesDisp + size, rounded, r.start, t0, t);
  }

  lemma Covers(c: Config, elapsed: nat, rounded: nat)
    requires c.Valid() && Rounded(c, elapsed, rounded)
    ensures elapsed <= rounded
  {
  }

  /** The lower bound: when a backlogged group has a bio that does not fit the bytes of its slice at t, the bytes it was
      charged since the first visit at t0, one byte for each bio charged, and the bio that waits are more than
      bps * (t - t0) / HZ. */
  lemma BacklogGetsRate(c: Config, vs: seq<Visit>, a: Account, size: nat, t0: nat, t: nat, rounded: nat)
    requires c.Valid() && !c.Unlimited() && c.hz >= 20 && vs != [] && Backlogged(c, vs)
    requires a == Run(c, vs[..|vs| - 1]) && size == vs[|vs| - 1].size && t0 == vs[0].now && t == vs[|vs| - 1].now && Horizon(c, t0, t)
    requires Rounded(c, t - Begin(a.m, t), rounded) && Exceeds(c, Bytes(a.m, t), size, rounded)
    ensures Exceeds(c, a.bytes + a.ios, size, t - t0)
  {
    BacklogReady(c, vs, t);
    Covers(c, t - Begin(a.m, t), rounded);
    Refused(c, a, InForce(a.m, t), size, t0, t, rounded);
  }
}
