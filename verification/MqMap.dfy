/**
 Mapping software queues to hardware queues (block/blk-mq.c): every mapped software queue gets its own slot in the
 pending bitmap of its hardware queue.
 */
module MqMap {

  /** The hardware queue of each CPU's software queue, and whether that CPU is online. */
  datatype Cpus = Cpus(hw: seq<nat>, online: seq<bool>)

  ghost predicate Valid(m: Cpus) { |m.hw| == |m.online| }

  /** How many of the first n software queues are mapped to hardware queue h. */
  function Mapped(m: Cpus, h: nat, n: nat): nat
    requires |m.hw| == |m.online| && n <= |m.hw|
  {
    if n == 0 then 0 else Mapped(m, h, n - 1) + (if m.online[n - 1] && m.hw[n - 1] == h then 1 else 0)
  }

  /** index_hw of software queue c */
  function IndexHw(m: Cpus, c: nat): nat
    requires |m.hw| == |m.online| && c < |m.hw|
  {
    Mapped(m, m.hw[c], c)
  }

  lemma {:induction false} MappedGrows(m: Cpus, h: nat, a: nat, b: nat)
    requires Valid(m) && a <= b <= |m.hw|
    ensures Mapped(m, h, a) <= Mapped(m, h, b)
  {
    if a < b {
      MappedGrows(m, h, a, b - 1);
    }
  }

  /** Two mapped software queues of one hardware queue have different slots, both below nr_ctx. */
  lemma SlotsDistinct(m: Cpus, a: nat, b: nat)
    requires Valid(m) && a < b < |m.hw| && m.online[a] && m.online[b] && m.hw[a] == m.hw[b]
    ensures IndexHw(m, a) < IndexHw(m, b) < Mapped(m, m.hw[a], |m.hw|)
  {
    MappedGrows(m, m.hw[a], a + 1, b);
    MappedGrows(m, m.hw[b], b + 1, |m.hw|);
  }

  /** Every slot below nr_ctx belongs to a mapped software queue. */
  lemma {:induction false} SlotUsed(m: Cpus, h: nat, n: nat, i: nat) returns (c: nat)
    requires Valid(m) && n <= |m.hw| && i < Mapped(m, h, n)
    ensures c < n && m.online[c] && m.hw[c] == h && IndexHw(m, c) == i
  {
    if i == Mapped(m, h, n - 1) {
      c := n - 1;
    } else {
      c := SlotUsed(m, h, n - 1, i);
    }
  }

  /** Software queue c has its index, and is found there. */
  ghost predicate Placed(m: Cpus, indexHw: seq<nat>, ctxs: seq<seq<nat>>, c: nat)
    requires Valid(m)
  {
    && c < |m.hw| && c < |indexHw| && indexHw[c] == IndexHw(m, c)
    && m.hw[c] < |ctxs| && indexHw[c] < |ctxs[m.hw[c]]| && ctxs[m.hw[c]][indexHw[c]] == c
  }

  lemma StillPlaced(m: Cpus, indexHw: seq<nat>, ctxs: seq<seq<nat>>, c: nat, i: nat, h: nat)
    requires Valid(m) && Placed(m, indexHw, ctxs, c) && c != i && i < |indexHw| && h < |ctxs|
    ensures Placed(m, indexHw[i := |ctxs[h]|], ctxs[h := ctxs[h] + [i]], c)
  {
  }

  /** The first n software queues are mapped. */
  ghost predicate MappedSoFar(m: Cpus, nrHw: nat, indexHw: seq<nat>, ctxs: seq<seq<nat>>, n: nat)
    requires Valid(m) && n <= |m.hw|
  {
    && |indexHw| == |m.hw| && |ctxs| == nrHw
    && (forall h :: 0 <= h < nrHw ==> |ctxs[h]| == Mapped(m, h, n))
    && (forall c :: 0 <= c < n && m.online[c] ==> Placed(m, indexHw, ctxs, c))
  }

  lemma MapOne(m: Cpus, nrHw: nat, indexHw: seq<nat>, ctxs: seq<seq<nat>>, i: nat)
    requires Valid(m) && i < |m.hw| && m.hw[i] < nrHw && MappedSoFar(m, nrHw, indexHw, ctxs, i)
    ensures if m.online[i]
            then MappedSoFar(m, nrHw, indexHw[i := |ctxs[m.hw[i]]|], ctxs[m.hw[i] := ctxs[m.hw[i]] + [i]], i + 1)
            else MappedSoFar(m, nrHw, indexHw, ctxs, i + 1)
  {
    var h := m.hw[i];
    if m.online[i] {
      forall c | 0 <= c < i && m.online[c] ensures Placed(m, indexHw[i := |ctxs[h]|], ctxs[h := ctxs[h] + [i]], c) {
        StillPlaced(m, indexHw, ctxs, c, i, h);
      }
    }
  }

  /** The first loop of blk_mq_map_swqueue: index_hw of every mapped software queue, and ctxs[] of every hardware queue. */
  method MapSwqueue(m: Cpus, nrHw: nat) returns (indexHw: seq<nat>, ctxs: seq<seq<nat>>)
    requires Valid(m) && forall c :: 0 <= c < |m.hw| ==> m.hw[c] < nrHw
    ensures |indexHw| == |m.hw| && |ctxs| == nrHw
    ensures forall c :: 0 <= c < |m.hw| && m.online[c] ==> Placed(m, indexHw, ctxs, c)
    ensures forall h :: 0 <= h < nrHw ==> |ctxs[h]| == Mapped(m, h, |m.hw|)
  {
    indexHw := seq(|m.hw|, c => 0);
    ctxs := seq(nrHw, h => []);
    var i := 0;
    while i < |m.hw|
      invariant i <= |m.hw| && MappedSoFar(m, nrHw, indexHw, ctxs, i)
    {
      MapOne(m, nrHw, indexHw, ctxs, i);
      if m.online[i] {
        var h := m.hw[i];
        indexHw := indexHw[i := |ctxs[h]|];
        ctxs := ctxs[h := ctxs[h] + [i]];
      }
      i := i + 1;
    }
  }
}
