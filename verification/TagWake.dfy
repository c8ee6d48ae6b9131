/**
 Batched wakeups of the blk-mq tag allocator (block/blk-mq-tag.c): freed tags are counted against one wait queue at a
 time, and a queue is woken when its count runs out. No sleeper is forgotten.
 */
module TagWake {

  /** BT_WAIT_QUEUES and BT_WAIT_BATCH */
  const QUEUES := 8
  const BATCH := 8

  /** The wait states: whether somebody sleeps on a queue, and how many tags must be freed before it is woken. */
  datatype Wait = Wait(wakeCnt: nat, index: nat, cnt: seq<nat>, asleep: seq<bool>)

  /** wake_cnt as bt_update_count sets it. */
  function WakeCnt(depth: nat): (w: nat)
    ensures 1 <= w <= BATCH && (depth >= QUEUES ==> QUEUES * w <= depth)
  {
    if BATCH > depth / QUEUES then (if depth / QUEUES > 1 then depth / QUEUES else 1) else BATCH
  }

  /** The batch is the largest of at most 8 that all 8 queues together could see freed, and at least 1. */
  lemma BatchIsLargest(depth: nat, w: nat)
    ensures w <= BATCH && QUEUES * w <= depth ==> w <= WakeCnt(depth)
    ensures depth < QUEUES ==> WakeCnt(depth) == 1
  {
    assert depth == QUEUES * (depth / QUEUES) + depth % QUEUES;
  }

  ghost predicate Ok(s: Wait) {
    && 1 <= s.wakeCnt && s.index < QUEUES && |s.cnt| == |s.asleep| == QUEUES
    && forall i :: 0 <= i < QUEUES ==> 1 <= s.cnt[i]
  }

  /** No batch is larger than `most`. */
  ghost predicate Batched(s: Wait, most: nat)
    requires Ok(s)
  {
    s.wakeCnt <= most && forall i :: 0 <= i < QUEUES ==> s.cnt[i] <= most
  }

  /** bt_alloc, for the wait states */
  function Start(depth: nat): (s: Wait)
    ensures Ok(s)
  {
    Wait(WakeCnt(depth), 0, seq(QUEUES, i => WakeCnt(depth)), seq(QUEUES, i => false))
  }

  function Next(i: nat): nat { (i + 1) % QUEUES }

  /** How many queues on from i queue j is, going round. */
  ghost function Distance(i: nat, j: nat): nat
    requires i < QUEUES && j < QUEUES
  {
    if j >= i then j - i else j + QUEUES - i
  }

  /** The first queue with sleepers among n queues from i on, going round; QUEUES if there is none. */
  function FirstAsleep(s: Wait, i: nat, n: nat): (k: nat)
    requires |s.asleep| == QUEUES && i < QUEUES
    ensures k <= QUEUES && (k < QUEUES ==> s.asleep[k])
    decreases n
  {
    if n == 0 then QUEUES else if s.asleep[i] then i else FirstAsleep(s, Next(i), n - 1)
  }

  /** bt_clear_tag, after the bit is cleared: bt_wake_ptr, then the count of the queue it found. */
  function Free(s: Wait): (r: Wait)
    requires Ok(s)
    ensures Ok(r)
  {
    var k := FirstAsleep(s, s.index, QUEUES);
    if k == QUEUES then s
    else if s.cnt[k] > 1 then s.(index := k, cnt := s.cnt[k := s.cnt[k] - 1])
    else s.(index := Next(k), cnt := s.cnt[k := s.wakeCnt], asleep := s.asleep[k := false])
  }

  /** Somebody goes to sleep on queue i. */
  function Sleep(s: Wait, i: nat): (r: Wait)
    requires Ok(s) && i < QUEUES
    ensures Ok(r)
  {
    s.(asleep := s.asleep[i := true])
  }

  /** A sleeper on queue i that gets a tag when it tries again leaves; nobody is left there. */
  function Leave(s: Wait, i: nat): (r: Wait)
    requires Ok(s) && i < QUEUES
    ensures Ok(r)
  {
    s.(asleep := s.asleep[i := false])
  }

  /** blk_mq_tag_update_depth: a new batch size, and everybody is woken; the counts stay as they are. */
  function Resize(s: Wait, depth: nat): (r: Wait)
    requires Ok(s)
    ensures Ok(r)
  {
    s.(wakeCnt := WakeCnt(depth), asleep := seq(QUEUES, i => false))
  }

  /* ---- the search goes all the way round ---- */

  lemma {:induction false} NoneFound(s: Wait, i: nat, n: nat, d: nat)
    requires |s.asleep| == QUEUES && i < QUEUES && d < n && FirstAsleep(s, i, n) == QUEUES
    ensures !s.asleep[(i + d) % QUEUES]
    decreases n
  {
    if d > 0 {
      NoneFound(s, Next(i), n - 1, d - 1);
      assert (Next(i) + (d - 1)) % QUEUES == (i + d) % QUEUES;
    }
  }

  /** bt_wake_ptr finds nobody only if nobody sleeps. */
  lemma NobodyAsleep(s: Wait, j: nat)
    requires Ok(s) && j < QUEUES && FirstAsleep(s, s.index, QUEUES) == QUEUES
    ensures !s.asleep[j]
  {
    NoneFound(s, s.index, QUEUES, Distance(s.index, j));
  }

  /* ---- the measure ---- */

  /** Frees that queue k still needs. */
  ghost function Owed(s: Wait, k: nat): nat
    requires Ok(s) && k < QUEUES
  {
    if s.asleep[k] then s.cnt[k] else 0
  }

  /** Frees that are still needed to wake the first n queues. */
  ghost function Needed(s: Wait, n: nat): nat
    requires Ok(s) && n <= QUEUES
  {
    if n == 0 then 0 else Needed(s, n - 1) + Owed(s, n - 1)
  }

  lemma {:induction false} NeededBound(s: Wait, most: nat, n: nat)
    requires Ok(s) && Batched(s, most) && n <= QUEUES
    ensures Needed(s, n) <= n * most
  {
    if n > 0 {
      NeededBound(s, most, n - 1);
      assert n * most == (n - 1) * most + most;
    }
  }

  /** What one queue adds; changing it changes the sum by the difference. */
  lemma {:induction false} NeededUpdate(s: Wait, r: Wait, k: nat, n: nat)
    requires Ok(s) && Ok(r) && k < QUEUES && n <= QUEUES
    requires forall i :: 0 <= i < QUEUES && i != k ==> r.cnt[i] == s.cnt[i] && r.asleep[i] == s.asleep[i]
    ensures Needed(r, n) + (if k < n then Owed(s, k) else 0) == Needed(s, n) + (if k < n then Owed(r, k) else 0)
  {
    if n > 0 {
      NeededUpdate(s, r, k, n - 1);
    }
  }

  /** While anybody sleeps, a free brings the next wakeup closer by exactly one. */
  lemma FreeCounts(s: Wait)
    requires Ok(s)
    ensures Needed(Free(s), QUEUES) == if Needed(s, QUEUES) == 0 then 0 else Needed(s, QUEUES) - 1
  {
    var k := FirstAsleep(s, s.index, QUEUES);
    if k == QUEUES {
      forall j | 0 <= j < QUEUES ensures !s.asleep[j] {
        NobodyAsleep(s, j);
      }
      NeededNone(s, QUEUES);
    } else {
      NeededUpdate(s, Free(s), k, QUEUES);
      NeededAt(s, k, QUEUES);
    }
  }

  lemma {:induction false} NeededNone(s: Wait, n: nat)
    requires Ok(s) && n <= QUEUES && forall j :: 0 <= j < QUEUES ==> !s.asleep[j]
    ensures Needed(s, n) == 0
  {
    if n > 0 {
      NeededNone(s, n - 1);
    }
  }

  lemma {:induction false} NeededAt(s: Wait, k: nat, n: nat)
    requires Ok(s) && k < n <= QUEUES && s.asleep[k]
    ensures Needed(s, n) >= s.cnt[k]
  {
    if k < n - 1 {
      NeededAt(s, k, n - 1);
    }
  }

  /** n tags are freed, one after the other, and nobody new goes to sleep. */
  ghost function Frees(s: Wait, n: nat): (r: Wait)
    requires Ok(s)
    ensures Ok(r)
    decreases n
  {
    if n == 0 then s else Frees(Free(s), n - 1)
  }

  lemma {:induction false} FreesCount(s: Wait, n: nat)
    requires Ok(s)
    ensures Needed(Frees(s, n), QUEUES) == if n >= Needed(s, QUEUES) then 0 else Needed(s, QUEUES) - n
    decreases n
  {
    if n > 0 {
      FreeCounts(s);
      FreesCount(Free(s), n - 1);
    }
  }

  /** 8 batches of frees without new sleepers wake every queue. */
  lemma EverybodyWakes(s: Wait, most: nat, n: nat, j: nat)
    requires Ok(s) && Batched(s, most) && n >= QUEUES * most && j < QUEUES
    ensures !Frees(s, n).asleep[j]
  {
    NeededBound(s, most, QUEUES);
    FreesCount(s, n);
    if Frees(s, n).asleep[j] {
      NeededAt(Frees(s, n), j, QUEUES);
    }
  }

  /** With a tag space of at least 8 tags, freeing all of them is enough. */
  lemma DepthIsEnough(depth: nat, s: Wait, j: nat)
    requires depth >= QUEUES && Ok(s) && Batched(s, WakeCnt(depth)) && j < QUEUES
    ensures !Frees(s, depth).asleep[j]
  {
    EverybodyWakes(s, WakeCnt(depth), depth, j);
  }

  /** Until the count of the first queue with sleepers runs out, exactly that queue is counted down, and then it alone is
      woken, its count is set again and the next free starts behind it. */
  lemma {:induction false} OneBatch(s: Wait, k: nat)
    requires Ok(s) && k == FirstAsleep(s, s.index, QUEUES) < QUEUES
    ensures Frees(s, s.cnt[k]) == s.(index := Next(k), cnt := s.cnt[k := s.wakeCnt], asleep := s.asleep[k := false])
    decreases s.cnt[k]
  {
    if s.cnt[k] > 1 {
      var r := Free(s);
      assert FirstAsleep(r, r.index, QUEUES) == k;
      OneBatch(r, k);
      assert r.cnt[k := s.wakeCnt] == s.cnt[k := s.wakeCnt];
    } else {
      assert Frees(Free(s), 0) == Free(s);
    }
  }

  /* ---- runs ---- */

  datatype Op = OpFree | OpSleep(i: nat) | OpLeave(i: nat) | OpResize(depth: nat)

  ghost function Apply(s: Wait, op: Op): (r: Wait)
    requires Ok(s)
    ensures Ok(r)
  {
    match op
    case OpFree => Free(s)
    case OpSleep(i) => if i < QUEUES then Sleep(s, i) else s
    case OpLeave(i) => if i < QUEUES then Leave(s, i) else s
    case OpResize(depth) => Resize(s, depth)
  }

  /** Any mix of frees, sleeps, leaves and resizes keeps every wait_cnt at least 1, so it never goes below zero. */
  ghost function Run(depth: nat, ops: seq<Op>): (s: Wait)
    ensures Ok(s)
  {
    if ops == [] then Start(depth) else Apply(Run(depth, ops[..|ops| - 1]), ops[|ops| - 1])
  }

  ghost function Larger(a: nat, b: nat): nat { if a < b then b else a }

  /** The largest wake_cnt there has been; at most 8. */
  ghost function MostBatch(depth: nat, ops: seq<Op>): (w: nat)
    ensures WakeCnt(depth) <= w <= BATCH
  {
    if ops == [] then WakeCnt(depth)
    else
      var op := ops[|ops| - 1];
      Larger(MostBatch(depth, ops[..|ops| - 1]), if op.OpResize? then WakeCnt(op.depth) else 0)
  }

  lemma {:induction false} RunsBatched(depth: nat, ops: seq<Op>)
    ensures Batched(Run(depth, ops), MostBatch(depth, ops))
  {
    if ops != [] {
      RunsBatched(depth, ops[..|ops| - 1]);
    }
  }

  /** What a run goes on with. */
  ghost function After(s: Wait, more: seq<Op>): (r: Wait)
    requires Ok(s)
    ensures Ok(r)
    decreases |more|
  {
    if more == [] then s else After(Apply(s, more[0]), more[1..])
  }

  /** Tags are freed, sleepers leave and the depth changes, but nobody new goes to sleep. */
  ghost predicate Calm(more: seq<Op>) { forall i :: 0 <= i < |more| ==> !more[i].OpSleep? }

  ghost function FreesIn(more: seq<Op>): nat {
    if more == [] then 0 else (if more[0].OpFree? then 1 else 0) + FreesIn(more[1..])
  }

  /** A step that puts nobody to sleep needs no more frees than before, and one less if it is a free. */
  lemma CalmStep(s: Wait, op: Op)
    requires Ok(s) && !op.OpSleep?
    ensures Needed(Apply(s, op), QUEUES) <= Needed(s, QUEUES)
    ensures op.OpFree? && Needed(s, QUEUES) > 0 ==> Needed(Apply(s, op), QUEUES) < Needed(s, QUEUES)
  {
    match op {
      case OpFree => FreeCounts(s);
      case OpLeave(i) =>
        if i < QUEUES {
          NeededUpdate(s, Leave(s, i), i, QUEUES);
        }
      case OpResize(depth) => NeededNone(Resize(s, depth), QUEUES);
      case OpSleep(_) =>
    }
  }

  lemma {:induction false} CalmCount(s: Wait, more: seq<Op>)
    requires Ok(s) && Calm(more)
    ensures Needed(After(s, more), QUEUES) <= if FreesIn(more) >= Needed(s, QUEUES) then 0 else Needed(s, QUEUES) - FreesIn(more)
    decreases |more|
  {
    if more != [] {
      CalmStep(s, more[0]);
      CalmCount(Apply(s, more[0]), more[1..]);
    }
  }

  /** In every run, whoever sleeps is woken, or has left, by the time of the next 8 * wake_cnt frees, wake_cnt being the
      largest there has been; whatever else leaves or is resized meanwhile. */
  lemma NoSleeperLost(depth: nat, ops: seq<Op>, more: seq<Op>, j: nat)
    requires Calm(more) && FreesIn(more) >= QUEUES * MostBatch(depth, ops) && j < QUEUES
    ensures !After(Run(depth, ops), more).asleep[j]
  {
    var s := Run(depth, ops);
    RunsBatched(depth, ops);
    NeededBound(s, MostBatch(depth, ops), QUEUES);
    CalmCount(s, more);
    if After(s, more).asleep[j] {
      NeededAt(After(s, more), j, QUEUES);
    }
  }

  /** struct blk_mq_bitmap_tags, its wait part. */
  class WaitStates {
    var wakeCnt: nat
    var wakeIndex: nat
    var waitCnt: seq<nat>
    var asleep: seq<bool>

    ghost function View(): Wait
      reads this
    {
      Wait(wakeCnt, wakeIndex, waitCnt, asleep)
    }

    constructor (depth: nat)
      ensures View() == Start(depth) && Ok(View()) && forall j :: 0 <= j < QUEUES ==> !asleep[j]
    {
      wakeCnt := WakeCnt(depth);
      wakeIndex := 0;
      waitCnt := seq(QUEUES, i => WakeCnt(depth));
      asleep := seq(QUEUES, i => false);
    }

    /** The wait part of blk_mq_tag_update_depth: the batch of bt_update_count, and blk_mq_tag_wakeup_all. */
    method UpdateDepth(depth: nat)
      requires Ok(View())
      modifies this`wakeCnt, this`asleep
      ensures View() == Resize(old(View()), depth)
      ensures forall j :: 0 <= j < QUEUES ==> !asleep[j]
    {
      wakeCnt := BATCH;
      if wakeCnt > depth / QUEUES {
        wakeCnt := if depth / QUEUES > 1 then depth / QUEUES else 1;
      }
      var i, k: nat := 0, wakeIndex;
      while i < QUEUES
        invariant wakeCnt == WakeCnt(depth) && i <= QUEUES && k < QUEUES && |asleep| == QUEUES
        invariant i < QUEUES ==> Distance(wakeIndex, k) == i
        invariant forall j :: 0 <= j < QUEUES && Distance(wakeIndex, j) < i ==> !asleep[j]
      {
        if asleep[k] {
          asleep := asleep[k := false];
        }
        k := Next(k);
        i := i + 1;
      }
      assert asleep == seq(QUEUES, i => false);
    }

    /** bt_wake_ptr: the queue to count against, or QUEUES */
    method WakePtr() returns (k: nat)
      requires Ok(View())
      modifies this`wakeIndex
      ensures k == FirstAsleep(old(View()), old(wakeIndex), QUEUES)
      ensures wakeIndex == if k < QUEUES then k else old(wakeIndex)
    {
      var i := 0;
      k := wakeIndex;
      while i < QUEUES
        invariant i <= QUEUES && k < QUEUES && wakeIndex == old(wakeIndex)
        invariant FirstAsleep(old(View()), k, QUEUES - i) == FirstAsleep(old(View()), old(wakeIndex), QUEUES)
      {
        if asleep[k] {
          wakeIndex := k;
          return;
        }
        k := Next(k);
        i := i + 1;
      }
      k := QUEUES;
    }

    /** The end of bt_clear_tag */
    method ClearTag()
      requires Ok(View())
      modifies this
      ensures View() == Free(old(View()))
    {
      var k := WakePtr();
      if k == QUEUES {
        return;
      }
      waitCnt := waitCnt[k := waitCnt[k] - 1];
      if waitCnt[k] == 0 {
        waitCnt := waitCnt[k := waitCnt[k] + wakeCnt];
        wakeIndex := Next(wakeIndex);
        asleep := asleep[k := false];
      }
    }
  }
}
