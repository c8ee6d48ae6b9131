/**
 What tg_may_dispatch of block/blk-throttle.c answers, said without its parts: a bio is let through exactly if it fits both
 budgets of the slice, as products, and a bio that is refused is told a wait after which the limit that refused it is met,
 on the slice the check leaves.
 */
module ThrottleVerdict {
  import opened Arith
  import opened ThrottleRate
  import opened ThrottleWait

  /* ---- the slice in force ---- */

  predicate InUse(m: Meter, now: nat) { m.start <= now <= m.end }

  /** When the slice in force at `now` started, and what was charged in it; a slice that is over starts anew. */
  function Begin(m: Meter, now: nat): (b: nat)
    ensures b <= now
  {
    if InUse(m, now) then m.start else now
  }

  function Bytes(m: Meter, now: nat): nat { if InUse(m, now) then m.bytesDisp else 0 }

  function Ios(m: Meter, now: nat): nat { if InUse(m, now) then m.ioDisp else 0 }

  /** The slice in force. */
  function InForce(m: Meter, now: nat): Meter { Meter(Bytes(m, now), Ios(m, now), Begin(m, now), now) }

  /** t is the time `elapsed`, rounded up to whole slices, at least one. */
  ghost predicate Rounded(c: Config, elapsed: nat, t: nat)
    requires c.Valid()
  {
    t % c.Slice() == 0 && if elapsed == 0 then t == c.Slice() else elapsed <= t < elapsed + c.Slice()
  }

  lemma MultiplesMeet(x: nat, y: nat, m: nat)
    requires 0 < m && x % m == 0 && y % m == 0 && x < y + m && y < x + m
    ensures x == y
  {
    var a, b := x / m, y / m;
    assert x == a * m && y == b * m;
    if a < b {
      MulGap(a, b, m);
    } else if b < a {
      MulGap(b, a, m);
    }
  }

  lemma RoundUpWhole(x: nat, m: nat)
    requires 0 < m
    ensures RoundUp(x, m) % m == 0
  {
    Remainder((x + m - 1) / m, m, 0);
  }

  lemma RoundedIs(c: Config, m: Meter, now: nat, t: nat)
    requires c.Valid() && m.start <= now && Rounded(c, now - m.start, t)
    ensures ElapsedRounded(c, m, now) == t
  {
    var slice := c.Slice();
    if now == m.start {
      WholeSlice(slice);
    } else {
      RoundUpWhole(now - m.start, slice);
      MultiplesMeet(RoundUp(now - m.start, slice), t, slice);
    }
  }

  /* ---- the budgets ---- */

  lemma BytesIff(c: Config, m: Meter, size: nat, now: nat, t: nat)
    requires c.Valid() && m.start <= now && ElapsedRounded(c, m, now) == t && m.bytesDisp + size < U64 && c.bps * t < U64
    ensures WithinBps(c, m, size, now) <==> c.hz * (m.bytesDisp + size) <= c.bps * t
  {
    ScaledIs(c.bps, t, c.hz);
    AllowedIff(m.bytesDisp + size, c.hz, c.bps * t);
  }

  lemma IosIff(c: Config, m: Meter, now: nat, t: nat)
    requires c.Valid() && m.start <= now && ElapsedRounded(c, m, now) == t && m.ioDisp + 1 < U32 && c.iops * t < U64
    ensures WithinIops(c, m, now) <==> c.hz * (m.ioDisp + 1) <= c.iops * t
  {
    ScaledIs(c.iops, t, c.hz);
    AllowedIff(m.ioDisp + 1, c.hz, c.iops * t);
  }

  /** Nothing wraps in a check at a rounded time t. */
  ghost predicate Fits(c: Config, bytes: nat, ios: nat, size: nat, t: nat) {
    bytes + size < U64 && ios + 1 < U32 && c.bps * t < U64 && c.iops * t < U64
  }

  lemma RenewedIs(c: Config, m: Meter, now: nat)
    requires c.Valid()
    ensures var r := Renewed(c, m, now);
            r.start == Begin(m, now) && r.bytesDisp == Bytes(m, now) && r.ioDisp == Ios(m, now) && InUse(r, now)
  {
  }

  /** A bio is let through if and only if it fits what bytes and I/Os the limits give for the time since the slice in force
      started, rounded up to whole slices. */
  lemma AdmittedIff(c: Config, m: Meter, size: nat, now: nat, t: nat)
    requires c.Valid() && !c.Unlimited() && Rounded(c, now - Begin(m, now), t) && Fits(c, Bytes(m, now), Ios(m, now), size, t)
    ensures MayDispatch(c, m, size, now).0 <==>
            c.hz * (Bytes(m, now) + size) <= c.bps * t && c.hz * (Ios(m, now) + 1) <= c.iops * t
  {
    var r := Renewed(c, m, now);
    RenewedIs(c, m, now);
    RoundedIs(c, r, now, t);
    BytesIff(c, r, size, now, t);
    IosIff(c, r, now, t);
  }

  /* ---- a refusal ---- */

  /** The check leaves the slice in force, so that whoever comes back when told finds it again. */
  lemma SliceLeft(c: Config, m: Meter, size: nat, now: nat)
    requires c.Valid() && !c.Unlimited()
    ensures var (_, wait, left) := MayDispatch(c, m, size, now);
            && left.start == Begin(m, now) && left.bytesDisp == Bytes(m, now) && left.ioDisp == Ios(m, now)
            && InUse(left, now + wait)
  {
    RenewedIs(c, m, now);
  }

  lemma WaitsSome(c: Config, m: Meter, size: nat, now: nat)
    requires c.Valid() && !MayDispatch(c, m, size, now).0
    ensures MayDispatch(c, m, size, now).1 >= 1
  {
  }

  /** What a bio that was refused because of its bytes is told: one jiffy after the wait its bytes fit, on the slice that is
      left, if nothing is charged meanwhile. */
  lemma RefusedForBytes(c: Config, m: Meter, size: nat, now: nat, t: nat, later: nat, t': nat)
    requires c.Valid() && !c.Unlimited() && Rounded(c, now - Begin(m, now), t) && Fits(c, Bytes(m, now), Ios(m, now), size, t)
    requires c.hz * (Bytes(m, now) + size) > c.bps * t && (Bytes(m, now) + size) * c.hz < U64
    ensures var (ok, wait, left) := MayDispatch(c, m, size, now); !ok && wait >= 1 && InUse(left, now + wait)
    ensures var (ok, wait, left) := MayDispatch(c, m, size, now);
            now + wait < later && InUse(left, later) && c.bps * (later - left.start + c.Slice()) < U64 && Rounded(c, later - left.start, t')
            ==> c.hz * (Bytes(left, later) + size) <= c.bps * t'
  {
    AdmittedIff(c, m, size, now, t);
    SliceLeft(c, m, size, now);
    WaitsSome(c, m, size, now);
    var (_, wait, left) := MayDispatch(c, m, size, now);
    if now + wait < later && InUse(left, later) && c.bps * (later - left.start + c.Slice()) < U64 && Rounded(c, later - left.start, t') {
      BytesLater(c, m, size, now, t, later, t');
    }
  }

  lemma BytesLater(c: Config, m: Meter, size: nat, now: nat, t: nat, later: nat, t': nat)
    requires c.Valid() && !c.Unlimited() && Rounded(c, now - Begin(m, now), t) && Fits(c, Bytes(m, now), Ios(m, now), size, t)
    requires c.hz * (Bytes(m, now) + size) > c.bps * t && (Bytes(m, now) + size) * c.hz < U64
    requires now + MayDispatch(c, m, size, now).1 < later && c.bps * (later - Begin(m, now) + c.Slice()) < U64
    requires Rounded(c, later - Begin(m, now), t')
    ensures c.hz * (Bytes(m, now) + size) <= c.bps * t'
  {
    var r := Renewed(c, m, now);
    RenewedIs(c, m, now);
    RoundedIs(c, r, now, t);
    BytesIff(c, r, size, now, t);
    BpsWaitAndOne(c, r, size, now, later);
    RoundedIs(c, r, later, t');
    MulLe(c.bps, t', later - r.start + c.Slice());
    BytesIff(c, r, size, later, t');
  }

  /** The same for its I/O, after the wait itself. */
  lemma RefusedForIos(c: Config, m: Meter, size: nat, now: nat, t: nat, later: nat, t': nat)
    requires c.Valid() && !c.Unlimited() && Rounded(c, now - Begin(m, now), t) && Fits(c, Bytes(m, now), Ios(m, now), size, t)
    requires c.hz * (Bytes(m, now) + size) <= c.bps * t && c.hz * (Ios(m, now) + 1) > c.iops * t && (Ios(m, now) + 1) * c.hz < U32
    ensures var (ok, wait, left) := MayDispatch(c, m, size, now); !ok && wait >= 1 && InUse(left, now + wait)
    ensures var (ok, wait, left) := MayDispatch(c, m, size, now);
            now + wait <= later && InUse(left, later) && c.iops * (later - left.start + c.Slice()) < U64 && Rounded(c, later - left.start, t')
            ==> c.hz * (Ios(left, later) + 1) <= c.iops * t'
  {
    AdmittedIff(c, m, size, now, t);
    SliceLeft(c, m, size, now);
    WaitsSome(c, m, size, now);
    var (_, wait, left) := MayDispatch(c, m, size, now);
    if now + wait <= later && InUse(left, later) && c.iops * (later - left.start + c.Slice()) < U64 && Rounded(c, later - left.start, t') {
      IosLater(c, m, size, now, t, later, t');
    }
  }

  lemma IosLater(c: Config, m: Meter, size: nat, now: nat, t: nat, later: nat, t': nat)
    requires c.Valid() && !c.Unlimited() && Rounded(c, now - Begin(m, now), t) && Fits(c, Bytes(m, now), Ios(m, now), size, t)
    requires c.hz * (Bytes(m, now) + size) <= c.bps * t && c.hz * (Ios(m, now) + 1) > c.iops * t && (Ios(m, now) + 1) * c.hz < U32
    requires now + MayDispatch(c, m, size, now).1 <= later && c.iops * (later - Begin(m, now) + c.Slice()) < U64
    requires Rounded(c, later - Begin(m, now), t')
    ensures c.hz * (Ios(m, now) + 1) <= c.iops * t'
  {
    var r := Renewed(c, m, now);
    RenewedIs(c, m, now);
    RoundedIs(c, r, now, t);
    BytesIff(c, r, size, now, t);
    IosIff(c, r, now, t);
    IopsWaitEnough(c, r, now, later);
    RoundedIs(c, r, later, t');
    MulLe(c.iops, t', later - r.start + c.Slice());
    IosIff(c, r, later, t');
  }
}
