/**
 Tags under interleaving (block/blk-mq-tag.c): searches run without a lock and their results can be stale; only the
 atomic test-and-set decides. Outstanding tags are distinct, and reserved and normal tags never collide.
 */
module TagRace {
  import opened Lists
  import opened TagMap

  /** struct blk_mq_tags, and the tags that have been handed out and not yet put back. */
  datatype Tags = Tags(normal: Map, reserved: Map, nrReserved: nat, out: seq<nat>)

  /** One atomic step of some CPU. A search may come up with any tag it was ever offered. */
  datatype Op =
    | TestAndSet(isReserved: bool, bit: nat)
    | Put(tag: nat)
    | Resize(depth: nat)

  ghost predicate Enabled(s: Tags, op: Op) {
    match op
    case TestAndSet(true, bit) => Offered(s.reserved, bit)
    case TestAndSet(false, bit) => HasBit(s.normal, bit)
    case Put(tag) => tag in s.out
    case Resize(_) => true
  }

  /** Whether the bit of a tag number is set. */
  ghost predicate Busy(s: Tags, tag: nat) {
    if tag < s.nrReserved then HasBit(s.reserved, tag) && Taken(s.reserved, tag)
    else HasBit(s.normal, tag - s.nrReserved) && Taken(s.normal, tag - s.nrReserved)
  }

  /** A loser of the test-and-set searches on, which is another step; the winner has the tag. */
  ghost function Apply(s: Tags, op: Op): Tags {
    if !Enabled(s, op) then s
    else match op
      case TestAndSet(true, bit) =>
        if Taken(s.reserved, bit) then s
        else s.(reserved := SetBit(s.reserved, bit), out := s.out + [bit])
      case TestAndSet(false, bit) =>
        if Taken(s.normal, bit) then s
        else s.(normal := SetBit(s.normal, bit), out := s.out + [bit + s.nrReserved])
      case Put(tag) =>
        var t := s.(out := Remove(s.out, tag));
        if tag < s.nrReserved then (if HasBit(s.reserved, tag) then t.(reserved := ClearBit(s.reserved, tag)) else t)
        else if HasBit(s.normal, tag - s.nrReserved) then t.(normal := ClearBit(s.normal, tag - s.nrReserved))
        else t
      case Resize(depth) => s.(normal := UpdateCount(s.normal, depth))
  }

  ghost predicate Sized(s: Tags) {
    s.normal.perWord >= 1 && Laid(s.reserved) && s.reserved.depth == s.nrReserved
  }

  /** Outstanding tags are distinct, and are those whose bit is set. */
  ghost predicate OutIsBusy(s: Tags) { NoDup(s.out) && forall tag: nat :: tag in s.out <==> Busy(s, tag) }

  ghost predicate Ok(s: Tags) { Sized(s) && OutIsBusy(s) }

  ghost function Start(nrTags: nat, nrReserved: nat): Tags
    requires nrReserved <= nrTags
  {
    Tags(Alloc(nrTags - nrReserved), Alloc(nrReserved), nrReserved, [])
  }

  lemma NothingTaken(depth: nat, tag: nat)
    requires HasBit(Alloc(depth), tag)
    ensures !Taken(Alloc(depth), tag)
  {
  }

  lemma StartOk(nrTags: nat, nrReserved: nat)
    requires nrReserved <= nrTags
    ensures Ok(Start(nrTags, nrReserved))
  {
    AllocFits(nrReserved);
    var s := Start(nrTags, nrReserved);
    forall tag: nat ensures !Busy(s, tag) {
      if tag < nrReserved && HasBit(s.reserved, tag) {
        NothingTaken(nrReserved, tag);
      } else if tag >= nrReserved && HasBit(s.normal, tag - nrReserved) {
        NothingTaken(nrTags - nrReserved, tag - nrReserved);
      }
    }
  }

  lemma OneOut(s: Tags, r: Tags, x: nat)
    requires OutIsBusy(s) && r.out == s.out + [x] && !Busy(s, x)
    requires forall tag: nat :: Busy(r, tag) <==> Busy(s, tag) || tag == x
    ensures OutIsBusy(r)
  {
    NoDupSnoc(s.out, x);
  }

  lemma OneBack(s: Tags, r: Tags, x: nat)
    requires OutIsBusy(s) && r.out == Remove(s.out, x)
    requires forall tag: nat :: Busy(r, tag) <==> Busy(s, tag) && tag != x
    ensures OutIsBusy(r)
  {
  }

  lemma ReservedSet(s: Tags, bit: nat, tag: nat)
    requires Sized(s) && Offered(s.reserved, bit)
    ensures bit < s.nrReserved
    ensures Busy(s.(reserved := SetBit(s.reserved, bit)), tag) <==> Busy(s, tag) || tag == bit
  {
    OfferedIs(s.reserved, bit);
    if HasBit(s.reserved, tag) {
      OneTag(s.reserved, bit, tag);
    }
  }

  lemma NormalSet(s: Tags, bit: nat, tag: nat)
    requires HasBit(s.normal, bit)
    ensures Busy(s.(normal := SetBit(s.normal, bit)), tag) <==> Busy(s, tag) || tag == bit + s.nrReserved
  {
    if tag >= s.nrReserved && HasBit(s.normal, tag - s.nrReserved) {
      OneTag(s.normal, bit, tag - s.nrReserved);
    }
  }

  lemma OutApart(s: Tags, out: seq<nat>, tag: nat)
    ensures Busy(s.(out := out), tag) <==> Busy(s, tag)
  {
  }

  lemma ReservedOk(s: Tags, bit: nat)
    requires Ok(s) && Offered(s.reserved, bit) && !Taken(s.reserved, bit)
    ensures OutIsBusy(s.(reserved := SetBit(s.reserved, bit), out := s.out + [bit]))
  {
    var k := s.(reserved := SetBit(s.reserved, bit));
    var r := k.(out := s.out + [bit]);
    forall tag: nat ensures Busy(r, tag) <==> Busy(s, tag) || tag == bit {
      ReservedSet(s, bit, tag);
      OutApart(k, s.out + [bit], tag);
    }
    OfferedIs(s.reserved, bit);
    OneOut(s, r, bit);
  }

  lemma NormalOk(s: Tags, bit: nat)
    requires Ok(s) && HasBit(s.normal, bit) && !Taken(s.normal, bit)
    ensures OutIsBusy(s.(normal := SetBit(s.normal, bit), out := s.out + [bit + s.nrReserved]))
  {
    var k := s.(normal := SetBit(s.normal, bit));
    var r := k.(out := s.out + [bit + s.nrReserved]);
    forall tag: nat ensures Busy(r, tag) <==> Busy(s, tag) || tag == bit + s.nrReserved {
      NormalSet(s, bit, tag);
      OutApart(k, s.out + [bit + s.nrReserved], tag);
    }
    OneOut(s, r, bit + s.nrReserved);
  }

  /** The maps after a tag is put back. */
  lemma PutClears(s: Tags, tag: nat, t: nat)
    requires Busy(s, tag) && tag in s.out
    ensures Busy(Apply(s, Put(tag)), t) <==> Busy(s, t) && t != tag
  {
    if tag < s.nrReserved && t < s.nrReserved && HasBit(s.reserved, t) {
      OneTag(s.reserved, tag, t);
    } else if tag >= s.nrReserved && t >= s.nrReserved && HasBit(s.normal, t - s.nrReserved) {
      OneTag(s.normal, tag - s.nrReserved, t - s.nrReserved);
    }
  }

  lemma PutOk(s: Tags, tag: nat)
    requires Ok(s) && tag in s.out
    ensures OutIsBusy(Apply(s, Put(tag)))
  {
    forall t: nat ensures Busy(Apply(s, Put(tag)), t) <==> Busy(s, t) && t != tag {
      PutClears(s, tag, t);
    }
    OneBack(s, Apply(s, Put(tag)), tag);
  }

  lemma SizedStays(s: Tags, op: Op)
    requires Sized(s)
    ensures Sized(Apply(s, op))
  {
  }

  lemma ResizeOk(s: Tags, depth: nat)
    requires Ok(s)
    ensures Ok(s.(normal := UpdateCount(s.normal, depth)))
  {
    var r := s.(normal := UpdateCount(s.normal, depth));
    forall tag: nat ensures Busy(r, tag) <==> Busy(s, tag) {
    }
  }

  lemma ApplyOk(s: Tags, op: Op)
    requires Ok(s)
    ensures Ok(Apply(s, op))
  {
    SizedStays(s, op);
    if Enabled(s, op) {
      match op {
        case TestAndSet(true, bit) =>
          if !Taken(s.reserved, bit) {
            ReservedOk(s, bit);
          }
        case TestAndSet(false, bit) =>
          if !Taken(s.normal, bit) {
            NormalOk(s, bit);
          }
        case Put(tag) => PutOk(s, tag);
        case Resize(depth) => ResizeOk(s, depth);
      }
    }
  }

  ghost function Run(nrTags: nat, nrReserved: nat, ops: seq<Op>): Tags
    requires nrReserved <= nrTags
  {
    if ops == [] then Start(nrTags, nrReserved)
    else Apply(Run(nrTags, nrReserved, ops[..|ops| - 1]), ops[|ops| - 1])
  }

  /** In every interleaving outstanding tags are distinct, and a tag is outstanding exactly while its bit is set. */
  lemma {:induction false} TagsDistinct(nrTags: nat, nrReserved: nat, ops: seq<Op>)
    requires nrReserved <= nrTags
    ensures Ok(Run(nrTags, nrReserved, ops))
  {
    if ops == [] {
      StartOk(nrTags, nrReserved);
    } else {
      TagsDistinct(nrTags, nrReserved, ops[..|ops| - 1]);
      ApplyOk(Run(nrTags, nrReserved, ops[..|ops| - 1]), ops[|ops| - 1]);
    }
  }
}
