/**
 What the mapping of block/blk-mq.c makes of the condition on offline handlers. blk_mq_init_hctx registers a handler for
 every hardware queue, and every handler is called for every CPU that goes away.
 */
module MqOffline {
  import MqMap
  import opened MqPending

  /** The software queues as blk_mq_map_swqueue leaves them, all CPUs being online. */
  ghost predicate Online(m: MqMap.Cpus) { MqMap.Valid(m) && forall c :: 0 <= c < |m.hw| ==> m.online[c] }

  ghost function Swqueues(m: MqMap.Cpus): Ctxs
    requires Online(m)
  {
    Ctxs(m.hw, seq(|m.hw|, c requires 0 <= c < |m.hw| => MqMap.IndexHw(m, c)))
  }

  /** The mapping gives every software queue a slot of its own. */
  lemma SwqueuesValid(m: MqMap.Cpus)
    requires Online(m)
    ensures Valid(Swqueues(m))
  {
    var x := Swqueues(m);
    forall a, b | 0 <= a < b < |x.hw| ensures Slot(x, a) != Slot(x, b) {
      if m.hw[a] == m.hw[b] {
        MqMap.SlotsDistinct(m, a, b);
      }
    }
  }

  /** Every handler for every software queue. */
  ghost function AllCalls(m: MqMap.Cpus, nrHw: nat): set<(nat, nat)> {
    set h, c | 0 <= h < nrHw && 0 <= c < |m.hw| :: (h, c)
  }

  ghost predicate OneHardwareQueue(m: MqMap.Cpus) { forall a, b :: 0 <= a < |m.hw| && 0 <= b < |m.hw| ==> m.hw[a] == m.hw[b] }

  /** The first software queue of a hardware queue has slot 0. */
  lemma FirstSlot(m: MqMap.Cpus, a: nat) returns (c: nat)
    requires Online(m) && a < |m.hw|
    ensures c < |m.hw| && Slot(Swqueues(m), c) == (m.hw[a], 0)
  {
    MqMap.MappedGrows(m, m.hw[a], a + 1, |m.hw|);
    c := MqMap.SlotUsed(m, m.hw[a], |m.hw|, 0);
  }

  /** With two hardware queues in use the handler of one clears, for the first software queue of the other, the bit of its
      own first. */
  lemma ForeignBit(m: MqMap.Cpus, a: nat, b: nat) returns (c: nat)
    requires Online(m) && a < |m.hw| && b < |m.hw| && m.hw[a] != m.hw[b]
    ensures c < |m.hw| && !ClearsOwnBit(Swqueues(m), m.hw[b], c)
  {
    c := FirstSlot(m, a);
    var e := FirstSlot(m, b);
    assert Slot(Swqueues(m), e) == (m.hw[b], Swqueues(m).index[c]);
  }

  lemma OneQueueIsSafe(m: MqMap.Cpus, h: nat, c: nat)
    requires Online(m) && OneHardwareQueue(m) && c < |m.hw|
    ensures ClearsOwnBit(Swqueues(m), h, c)
  {
    SwqueuesValid(m);
    if h == m.hw[c] {
      OwnHandlerIsSafe(Swqueues(m), c);
    }
  }

  /** No run of insertions, flushes and offline handlers strands a request if and only if all software queues are on one
      hardware queue. */
  lemma OfflineSafeIff(m: MqMap.Cpus, nrHw: nat, flushers: nat)
    requires Online(m) && forall c :: 0 <= c < |m.hw| ==> m.hw[c] < nrHw
    ensures NeverStranded(Swqueues(m), flushers, AllCalls(m, nrHw)) <==> OneHardwareQueue(m)
  {
    SwqueuesValid(m);
    NeverStrandedIff(Swqueues(m), flushers, AllCalls(m, nrHw));
    if OneHardwareQueue(m) {
      forall call | call in AllCalls(m, nrHw) ensures ClearsOwnBit(Swqueues(m), call.0, call.1) {
        OneQueueIsSafe(m, call.0, call.1);
      }
    } else {
      var a, b :| 0 <= a < |m.hw| && 0 <= b < |m.hw| && m.hw[a] != m.hw[b];
      var c := ForeignBit(m, a, b);
      assert (m.hw[b], c) in AllCalls(m, nrHw);
    }
  }
}
