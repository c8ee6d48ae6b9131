/** The slice fields of struct throtl_grp, updated in place as block/blk-throttle.c updates them, for one direction. */
module ThrottleGroup {
  import opened ThrottleRate
  import opened ThrottleWait

  class ThrotlGroup {
    const cfg: Config
    var bytesDisp: nat
    var ioDisp: nat
    var sliceStart: nat
    var sliceEnd: nat

    ghost function View(): Meter
      reads this
    {
      Meter(bytesDisp, ioDisp, sliceStart, sliceEnd)
    }

    /** A zeroed group with its limits. */
    constructor (cfg: Config)
      ensures this.cfg == cfg && View() == Meter(0, 0, 0, 0)
    {
      this.cfg := cfg;
      bytesDisp, ioDisp, sliceStart, sliceEnd := 0, 0, 0, 0;
    }

    method TrimSlice(jiffies: nat)
      requires cfg.Valid()
      modifies this
      ensures View() == Trim(cfg, old(View()), jiffies)
    {
      if !(sliceStart <= jiffies <= sliceEnd) {
        return;
      }
      sliceEnd := RoundUp(jiffies + cfg.Slice(), cfg.Slice());
      var nrSlices := (jiffies - sliceStart) / cfg.Slice();
      if nrSlices == 0 {
        return;
      }
      SlicesElapsed(cfg.Slice(), jiffies - sliceStart);
      var window: nat := cfg.Slice() * nrSlices;
      var bytesTrim := Scaled(cfg.bps, window, cfg.hz);
      var ioTrim := Scaled(cfg.iops, window, cfg.hz);
      if bytesTrim == 0 && ioTrim == 0 {
        return;
      }
      if bytesDisp >= bytesTrim {
        bytesDisp := bytesDisp - bytesTrim;
      } else {
        bytesDisp := 0;
      }
      if ioDisp >= ioTrim {
        ioDisp := ioDisp - ioTrim;
      } else {
        ioDisp := 0;
      }
      sliceStart := sliceStart + window;
    }

    method WithInBpsLimit(size: nat, jiffies: nat) returns (ok: bool, wait: nat)
      requires cfg.Valid() && sliceStart <= jiffies
      ensures ok == WithinBps(cfg, View(), size, jiffies)
      ensures wait == if ok then 0 else BpsWait(cfg, View(), size, jiffies)
      ensures forall later: nat ::
                !ok && (bytesDisp + size) * cfg.hz < U64 && jiffies + wait < later && cfg.bps * (later - sliceStart + cfg.Slice()) < U64
                ==> WithinBps(cfg, View(), size, later)
    {
      var m := Meter(bytesDisp, ioDisp, sliceStart, sliceEnd);
      var jiffyElapsedRnd := ElapsedRounded(cfg, m, jiffies);
      var bytesAllowed := Scaled(cfg.bps, jiffyElapsedRnd, cfg.hz);
      if (bytesDisp + size) % U64 <= bytesAllowed {
        return true, 0;
      }
      var extraBytes := (bytesDisp + size) % U64 - bytesAllowed;
      var jiffyWait := Scaled(extraBytes, cfg.hz, cfg.bps);
      if jiffyWait == 0 {
        jiffyWait := 1;
      }
      wait := jiffyWait + jiffyElapsedRnd - (jiffies - sliceStart);
      forall later: nat | (bytesDisp + size) * cfg.hz < U64 && jiffies + wait < later && cfg.bps * (later - sliceStart + cfg.Slice()) < U64
        ensures WithinBps(cfg, m, size, later)
      {
        BpsWaitAndOne(cfg, m, size, jiffies, later);
      }
      return false, wait;
    }

    method WithInIopsLimit(jiffies: nat) returns (ok: bool, wait: nat)
      requires cfg.Valid() && sliceStart <= jiffies
      ensures ok == WithinIops(cfg, View(), jiffies)
      ensures wait == if ok then 0 else IopsWait(cfg, View(), jiffies)
      ensures forall later: nat ::
                !ok && (ioDisp + 1) * cfg.hz < U32 && jiffies + wait <= later && cfg.iops * (later - sliceStart + cfg.Slice()) < U64
                ==> WithinIops(cfg, View(), later)
    {
      var m := Meter(bytesDisp, ioDisp, sliceStart, sliceEnd);
      if (ioDisp + 1) % U32 <= IoAllowed(cfg, m, jiffies) {
        return true, 0;
      }
      wait := IopsWait(cfg, m, jiffies);
      forall later: nat | (ioDisp + 1) * cfg.hz < U32 && jiffies + wait <= later && cfg.iops * (later - sliceStart + cfg.Slice()) < U64
        ensures WithinIops(cfg, m, later)
      {
        IopsWaitEnough(cfg, m, jiffies, later);
      }
      return false, wait;
    }

    /** The start of tg_may_dispatch: a slice that is used up starts anew, another is made to last a slice from now. */
    method RenewSlice(jiffies: nat)
      requires cfg.Valid()
      modifies this
      ensures View() == Renewed(cfg, old(View()), jiffies)
    {
      if !(sliceStart <= jiffies <= sliceEnd) {
        bytesDisp, ioDisp, sliceStart, sliceEnd := 0, 0, jiffies, jiffies + cfg.Slice();
      } else if sliceEnd < jiffies + cfg.Slice() {
        sliceEnd := RoundUp(jiffies + cfg.Slice(), cfg.Slice());
      }
    }

    /** tg_may_dispatch */
    method MayDispatch(size: nat, jiffies: nat) returns (ok: bool, wait: nat)
      requires cfg.Valid()
      modifies this
      ensures (ok, wait, View()) == ThrottleRate.MayDispatch(cfg, old(View()), size, jiffies)
    {
      if cfg.Unlimited() {
        return true, 0;
      }
      RenewSlice(jiffies);
      var iopsOk, iopsWait := true, 0;
      var bpsOk, bpsWait := WithInBpsLimit(size, jiffies);
      if bpsOk {
        iopsOk, iopsWait := WithInIopsLimit(jiffies);
      }
      if bpsOk && iopsOk {
        return true, 0;
      }
      wait := if bpsWait > iopsWait then bpsWait else iopsWait;
      if sliceEnd < jiffies + wait {
        sliceEnd := RoundUp(jiffies + wait, cfg.Slice());
      }
      return false, wait;
    }

    /** throtl_charge_bio */
    method ChargeBio(size: nat)
      modifies this`bytesDisp, this`ioDisp
      ensures View() == Charge(old(View()), size)
      ensures forall now: nat ::
                cfg.Valid() && sliceStart <= now && WithinBps(cfg, old(View()), size, now) && WithinIops(cfg, old(View()), now)
                ==> bytesDisp <= BytesAllowed(cfg, View(), now) && ioDisp <= IoAllowed(cfg, View(), now)
    {
      bytesDisp := (bytesDisp + size) % U64;
      ioDisp := (ioDisp + 1) % U32;
    }

    /** One visit: check, and if it is taken and within the limits, charge and trim. */
    method VisitOnce(v: Visit, ghost bytes: nat, ghost ios: nat) returns (charged: bool)
      requires cfg.Valid()
      modifies this
      ensures var a := Step(cfg, Account(old(View()), bytes, ios), v);
              View() == a.m && (charged <==> a.ios == ios + 1)
    {
      var ok, _ := MayDispatch(v.size, v.now);
      charged := ok && v.take;
      if charged {
        ChargeBio(v.size);
        TrimSlice(v.later);
      }
    }
  }
}
