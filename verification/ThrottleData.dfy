/** struct throtl_data and its groups, updated in place; each function is proved to be the operation it names. */
module ThrottleDataObject {
  import opened Lists
  import opened ThrottleQueue
  import opened ThrottleTree
  import opened ThrottleDrain
  import opened ThrottleRuns

  /** One more dispatch of the bios that are left. */
  lemma DispatchRest(p: seq<nat>, s: Td, d: Dir, i: nat)
    requires Sized(p, s) && ListsOk(p, s.At(d)) && 0 < i < |p| && s.At(d).queued[i] != []
    ensures var r := DispatchOne(p, s, d, i);
            && Held(r.At(d).queued[i], All) < Held(s.At(d).queued[i], All)
            && DispatchN(p, s, d, i, Held(s.At(d).queued[i], All)) == DispatchN(p, r, d, i, Held(r.At(d).queued[i], All))
  {
    var n := Held(s.At(d).queued[i], All);
    OneUntouched(p, s, d, i);
    OneFewer(p, s.At(d), i);
    DispatchNext(p, s, d, i, n);
  }

  lemma OneFewer(p: seq<nat>, x: Side, i: nat)
    requires Rooted(p) && Shape(p, x) && 0 < i < |p| && x.queued[i] != [] && x.queued[i][0].bios != []
    ensures Held(MoveUp(p, x, i).queued[i], All) == Held(x.queued[i], All) - 1
  {
    MoveUpHeld(p, x, i, All);
  }

  lemma DispatchNext(p: seq<nat>, s: Td, d: Dir, i: nat, n: nat)
    requires Sized(p, s) && ListsOk(p, s.At(d)) && 0 < i < |p| && s.At(d).queued[i] != [] && n > 0
    ensures DispatchN(p, s, d, i, n) == DispatchN(p, DispatchOne(p, s, d, i), d, i, n - 1)
  {
  }

  lemma OneTurn(p: seq<nat>, s: Td, d: Dir, i: nat, n: nat) returns (r: Td)
    requires Sized(p, s) && ListsOk(p, s.rd) && ListsOk(p, s.wr) && 0 < i < |p| && s.At(d).queued[i] != [] && n > 0
    ensures r == DispatchOne(p, s, d, i) && Sized(p, r) && ListsOk(p, r.rd) && ListsOk(p, r.wr)
    ensures DispatchN(p, r, d, i, n - 1) == DispatchN(p, s, d, i, n)
  {
    r := DispatchOne(p, s, d, i);
    OneUntouched(p, s, d, i);
    DispatchNext(p, s, d, i, n);
  }

  lemma NoMore(p: seq<nat>, s: Td, d: Dir, i: nat, n: nat)
    requires Sized(p, s) && ListsOk(p, s.At(d)) && 0 < i < |p| && (n == 0 || s.At(d).queued[i] == [])
    ensures DispatchN(p, s, d, i, n) == s
  {
  }

  lemma PopsStep(qs: seq<Qn>, k: nat)
    requires QsOk(qs) && qs != [] && k > 0
    ensures QsOk(Popped(qs)) && Pops(qs, k) == [qs[0].bios[0]] + Pops(Popped(qs), k - 1)
  {
    PoppedOk(qs);
  }

  lemma PopsNext(qs: seq<Qn>, k: nat, done: seq<Bio>)
    requires QsOk(qs) && qs != [] && k == Held(qs, All)
    ensures k > 0 && QsOk(Popped(qs)) && k - 1 == Held(Popped(qs), All)
    ensures done + Pops(qs, k) == done + [qs[0].bios[0]] + Pops(Popped(qs), k - 1)
  {
    PoppedHeld(qs, All);
    PopsStep(qs, k);
    Assoc(done, [qs[0].bios[0]], Pops(Popped(qs), k - 1));
  }

  /** A list with what has been popped off it, and the same one pop later. */
  ghost predicate PopsTo(a: (seq<Qn>, seq<Bio>), b: (seq<Qn>, seq<Bio>)) {
    a.0 != [] && a.0[0].bios != [] && b == (Popped(a.0), a.1 + [a.0[0].bios[0]])
  }

  /** Pop by pop until the list is empty. */
  ghost predicate PopSteps(steps: seq<(seq<Qn>, seq<Bio>)>) {
    && steps != [] && steps[|steps| - 1].0 == []
    && (forall i :: 0 <= i < |steps| - 1 ==> PopsTo(steps[i], steps[i + 1]))
  }

  lemma {:induction false} StepsToEmpty(qs: seq<Qn>, k: nat, done: seq<Bio>) returns (steps: seq<(seq<Qn>, seq<Bio>)>)
    requires QsOk(qs) && k == Held(qs, All)
    ensures PopSteps(steps) && steps[0] == (qs, done) && steps[|steps| - 1].1 == done + Pops(qs, k)
    decreases k
  {
    if qs == [] {
      steps := [(qs, done)];
      assert done + [] == done;
    } else {
      PopsNext(qs, k, done);
      var rest := StepsToEmpty(Popped(qs), k - 1, done + [qs[0].bios[0]]);
      steps := [(qs, done)] + rest;
      StepsCons(qs, done, rest);
    }
  }

  lemma StepsCons(qs: seq<Qn>, done: seq<Bio>, rest: seq<(seq<Qn>, seq<Bio>)>)
    requires PopSteps(rest) && PopsTo((qs, done), rest[0])
    ensures PopSteps([(qs, done)] + rest)
  {
    var steps := [(qs, done)] + rest;
    forall i | 0 <= i < |steps| - 1 ensures PopsTo(steps[i], steps[i + 1]) {
      if i > 0 {
        assert PopsTo(rest[i - 1], rest[i - 1 + 1]);
      }
    }
  }

  lemma PopAllSteps(qs: seq<Qn>) returns (steps: seq<(seq<Qn>, seq<Bio>)>)
    requires QsOk(qs)
    ensures PopSteps(steps) && steps[0] == (qs, []) && steps[|steps| - 1].1 == PopAll(qs)
  {
    steps := StepsToEmpty(qs, Held(qs, All), []);
    assert [] + PopAll(qs) == PopAll(qs);
  }

  /** Popping a list until it is empty. */
  method PopEach(queued: seq<Qn>) returns (bios: seq<Bio>)
    requires QsOk(queued)
    ensures bios == PopAll(queued)
  {
    ghost var steps := PopAllSteps(queued);
    bios := PopDown(queued, steps);
  }

  method PopDown(queued: seq<Qn>, ghost steps: seq<(seq<Qn>, seq<Bio>)>) returns (bios: seq<Bio>)
    requires PopSteps(steps) && steps[0] == (queued, [])
    ensures bios == steps[|steps| - 1].1
  {
    var qs := queued;
    bios := [];
    ghost var i := 0;
    while qs != []
      invariant 0 <= i < |steps| && (qs, bios) == steps[i]
      decreases |steps| - i
    {
      assert PopsTo(steps[i], steps[i + 1]);
      bios := bios + [qs[0].bios[0]];
      qs := Popped(qs);
      i := i + 1;
    }
    assert i < |steps| - 1 ==> PopsTo(steps[i], steps[i + 1]);
  }

  /** What one direction has brought to the top is issued. */
  ghost function IssuedTop(s: Td, d: Dir): Td
    requires s.At(d).queued != [] && QsOk(s.At(d).queued[0])
  {
    s.With(d, s.At(d).(queued := s.At(d).queued[0 := []])).(issued := s.issued + PopAll(s.At(d).queued[0]))
  }

  lemma BothTops(p: seq<nat>, s: Td)
    requires Sized(p, s) && ListsOk(p, s.rd) && ListsOk(p, s.wr)
    ensures IssuedTop(IssuedTop(s, Read), Write) == Issue(p, s)
  {
    var r, w := PopAll(s.rd.queued[0]), PopAll(s.wr.queued[0]);
    assert s.issued + r + w == s.issued + (r + w);
  }

  class ThrotlData {
    const parent: seq<nat>
    var rd: Side
    var wr: Side
    var pend: seq<seq<nat>>
    var disptime: seq<nat>
    var wasEmpty: seq<bool>
    var issued: seq<Bio>

    ghost function View(): Td
      reads this
    {
      Td(rd, wr, pend, disptime, wasEmpty, issued)
    }

    /** The lists are well formed; counters and pending trees may be about to follow. */
    ghost predicate Formed()
      reads this
    {
      Sized(parent, View()) && ListsOk(parent, rd) && ListsOk(parent, wr)
    }

    ghost predicate Valid()
      reads this
    {
      Ok(parent, View(), {})
    }

    /** blk_throtl_init and throtl_pd_init of each group: nothing is queued or pending anywhere. */
    constructor (parent: seq<nat>)
      requires Rooted(parent)
      ensures this.parent == parent && View() == Start(parent) && Valid()
    {
      this.parent := parent;
      var x := Side(seq(|parent|, i => []), seq(|parent|, i => 0), 0);
      rd, wr, pend := x, x, seq(|parent|, i => []);
      disptime, wasEmpty, issued := seq(|parent|, i => 0), seq(|parent|, i => false), [];
      StartOk(parent);
      new;
      assert View() == Start(parent);
    }

    /** throtl_enqueue_tg */
    method EnqueueTg(i: nat)
      requires Sized(parent, View()) && 0 < i < |parent|
      modifies this`pend
      ensures View() == Enqueue(parent, old(View()), i)
      ensures i in pend[parent[i]] && (old(ByTime(pend[parent[i]], disptime)) ==> ByTime(pend[parent[i]], disptime))
    {
      var n := parent[i];
      if ByTime(pend[n], disptime) {
        InsertByTimeOk(pend[n], disptime, i);
      }
      if i !in pend[n] {
        pend := pend[n := InsertByTime(pend[n], disptime, i)];
      }
    }

    /** throtl_dequeue_tg */
    method DequeueTg(i: nat)
      requires Sized(parent, View()) && 0 < i < |parent|
      modifies this`pend
      ensures View() == Dequeue(parent, old(View()), i)
    {
      var n := parent[i];
      if i in pend[n] {
        pend := pend[n := Remove(pend[n], i)];
      } else {
        assert pend[n := Remove(pend[n], i)] == pend;
      }
    }

    /** tg_update_disptime, given the dispatch time */
    method UpdateTgDisptime(i: nat, t: nat)
      requires Sized(parent, View()) && 0 < i < |parent|
      modifies this`pend, this`disptime, this`wasEmpty
      ensures View() == UpdateDisptime(parent, old(View()), i, t)
    {
      DequeueTg(i);
      disptime := disptime[i := t];
      EnqueueTg(i);
      wasEmpty := wasEmpty[i := false];
    }

    /** The bookkeeping of throtl_add_bio_tg around the list. */
    method NoticeTg(d: Dir, i: nat)
      requires Sized(parent, View()) && 0 < i < |parent|
      modifies this`pend, this`wasEmpty
      ensures View() == Notice(parent, old(View()), d, i)
    {
      var nr := if d == Read then rd.nr[i] else wr.nr[i];
      if nr == 0 {
        wasEmpty := wasEmpty[i := true];
      }
      EnqueueTg(i);
    }

    method SetSide(d: Dir, x: Side)
      modifies this`rd, this`wr
      ensures View() == old(View()).With(d, x)
    {
      if d == Read {
        rd := x;
      } else {
        wr := x;
      }
    }

    /** tg_dispatch_one_bio, charging apart */
    method DispatchOneBio(d: Dir, i: nat)
      requires Sized(parent, View()) && ListsOk(parent, View().At(d)) && 0 < i < |parent| && View().At(d).queued[i] != []
      modifies this
      ensures View() == DispatchOne(parent, old(View()), d, i)
    {
      var x := if d == Read then rd else wr;
      var up := parent[i];
      var bio := x.queued[i][0].bios[0];
      x := x.(queued := x.queued[i := Popped(x.queued[i])], nr := x.nr[i := x.nr[i] - 1]);
      if up == 0 {
        x := x.(queued := x.queued[0 := AddBio(x.queued[0], i, bio)], total := x.total - 1);
      } else {
        NoticeTg(d, up);
        x := x.(queued := x.queued[up := AddBio(x.queued[up], i, bio)], nr := x.nr[up := x.nr[up] + 1]);
      }
      SetSide(d, x);
    }

    /** One of the loops of throtl_dispatch_tg: up to `most` bios, as many as the group may dispatch. */
    method DispatchSome(d: Dir, i: nat, allowed: nat, most: nat)
      requires Formed() && 0 < i < |parent|
      modifies this
      ensures View() == DispatchN(parent, old(View()), d, i, Min(allowed, most)) && Formed()
    {
      var n := 0;
      var stop := Min(allowed, most);
      ghost var left, end := stop, DispatchN(parent, View(), d, i, stop);
      while n < stop && (if d == Read then rd else wr).queued[i] != []
        invariant n + left == stop && Formed() && DispatchN(parent, View(), d, i, left) == end
      {
        ghost var next := OneTurn(parent, View(), d, i, left);
        DispatchOneBio(d, i);
        assert View() == next;
        n, left := n + 1, left - 1;
      }
      NoMore(parent, View(), d, i, left);
    }

    /** throtl_dispatch_tg */
    method DispatchTg(i: nat, nrReads: nat, nrWrites: nat)
      requires Formed() && 0 < i < |parent|
      modifies this
      ensures View() == DispatchGroup(parent, old(View()), i, nrReads, nrWrites) && Formed()
    {
      DispatchSome(Read, i, nrReads, 6);
      DispatchSome(Write, i, nrWrites, 2);
    }

    /** One turn of throtl_select_dispatch */
    method SelectDispatch(n: nat, jiffies: nat, nrReads: nat, nrWrites: nat, t: nat)
      requires Valid() && n < |parent|
      modifies this
      ensures View() == Select(parent, old(View()), n, jiffies, nrReads, nrWrites, t) && Valid()
    {
      SelectOk(parent, View(), n, jiffies, nrReads, nrWrites, t);
      if pend[n] == [] {
        return;
      }
      FirstPending(parent, View(), n);
      var i := pend[n][0];
      if jiffies < disptime[i] {
        return;
      }
      DequeueOk(parent, View(), i, {});
      DequeueTg(i);
      DispatchTg(i, nrReads, nrWrites);
      if rd.nr[i] != 0 || wr.nr[i] != 0 {
        UpdateTgDisptime(i, t);
      }
    }

    /** An inner loop of tg_drain_bios */
    method DispatchRemaining(d: Dir, i: nat)
      requires Formed() && 0 < i < |parent|
      modifies this
      ensures View() == DispatchN(parent, old(View()), d, i, Held(old(View()).At(d).queued[i], All)) && Formed()
    {
      while (if d == Read then rd else wr).queued[i] != []
        invariant Formed()
        invariant DispatchN(parent, View(), d, i, Held(View().At(d).queued[i], All))
               == DispatchN(parent, old(View()), d, i, Held(old(View()).At(d).queued[i], All))
        decreases Held(View().At(d).queued[i], All)
      {
        OneUntouched(parent, View(), d, i);
        DispatchRest(parent, View(), d, i);
        DispatchOneBio(d, i);
      }
    }

    /** tg_drain_bios */
    method DrainBios(n: nat)
      requires Valid() && n < |parent|
      modifies this
      ensures View() == Drain(parent, old(View()), n) && Valid()
    {
      while pend[n] != []
        invariant Valid() && Drain(parent, View(), n) == Drain(parent, old(View()), n)
        decreases |pend[n]|
      {
        FirstPending(parent, View(), n);
        var i := pend[n][0];
        ghost var turn := DrainOne(parent, View(), n);
        DequeueOk(parent, View(), i, {});
        DequeueTg(i);
        DispatchRemaining(Read, i);
        DispatchRemaining(Write, i);
        assert View() == turn;
      }
    }

    /** Issuing what one direction has brought to the top. */
    method IssueTop(d: Dir)
      requires Formed()
      modifies this
      ensures View() == IssuedTop(old(View()), d) && Formed()
    {
      var x := if d == Read then rd else wr;
      var bios := PopEach(x.queued[0]);
      issued := issued + bios;
      SetSide(d, x.(queued := x.queued[0 := []]));
    }

    /** blk_throtl_dispatch_work_fn, and the end of blk_throtl_drain */
    method IssueAll()
      requires Valid()
      modifies this
      ensures View() == Issue(parent, old(View())) && Valid()
    {
      IssueOk(parent, View());
      BothTops(parent, View());
      IssueTop(Read);
      IssueTop(Write);
    }

    /** The walk of blk_throtl_drain over the groups. */
    method DrainGroups(order: seq<nat>)
      requires Valid() && forall k :: 0 <= k < |order| ==> order[k] < |parent|
      modifies this
      ensures View() == DrainAll(parent, old(View()), order) && Valid()
    {
      ghost var s := View();
      var k := 0;
      while k < |order|
        invariant k <= |order| && Valid() && View() == DrainAll(parent, s, order[..k])
      {
        assert order[..k + 1][..k] == order[..k];
        DrainBios(order[k]);
        k := k + 1;
      }
      assert order[..|order|] == order;
    }

    /** blk_throtl_drain, walking the groups in the given order */
    method ThrotlDrain(order: seq<nat>)
      requires Valid() && forall k :: 0 <= k < |order| ==> order[k] < |parent|
      modifies this
      ensures View() == DrainQueue(parent, old(View()), order) && Valid()
    {
      DrainGroups(order);
      DrainBios(0);
      IssueAll();
    }

    /** The end of blk_throtl_bio: the bio waits in group i. */
    method HoldBack(d: Dir, i: nat, src: nat, bio: Bio, t: nat)
      requires Sized(parent, View()) && 0 < i < |parent|
      modifies this
      ensures View() == QueueBio(parent, old(View()), d, i, src, bio, t)
    {
      var x := if d == Read then rd else wr;
      NoticeTg(d, i);
      SetSide(d, x.(queued := x.queued[i := AddBio(x.queued[i], src, bio)], nr := x.nr[i := x.nr[i] + 1],
                    total := x.total + 1));
      if wasEmpty[i] {
        UpdateTgDisptime(i, t);
      }
    }

    /** The ladder of blk_throtl_bio: the group that holds the bio back and the child it comes from, or the top. */
    method Climb(i: nat, d: Dir, ghost bio: Bio, pass: seq<bool>, ghost t: nat) returns (tg: nat, src: nat)
      requires Sized(parent, View()) && 0 < i < |parent|
      ensures tg < |parent|
      ensures Submit(parent, View(), d, i, i, bio, pass, t)
           == if tg == 0 then View().(issued := issued + [bio]) else QueueBio(parent, View(), d, tg, src, bio, t)
    {
      tg, src := i, i;
      var level := 0;
      var x := if d == Read then rd else wr;
      while tg != 0 && x.nr[tg] <= 0 && level < |pass| && pass[level]
        invariant tg < |parent| && level <= |pass|
        invariant Submit(parent, View(), d, tg, src, bio, pass[level..], t) == Submit(parent, View(), d, i, i, bio, pass, t)
        decreases tg
      {
        assert pass[level..][0] == pass[level] && pass[level..][1..] == pass[level + 1..];
        tg, src := parent[tg], tg;
        level := level + 1;
      }
      assert level < |pass| ==> pass[level..][0] == pass[level];
    }

    /** blk_throtl_bio: true if the bio is held back */
    method ThrotlBio(i: nat, d: Dir, bio: Bio, pass: seq<bool>, t: nat) returns (throttled: bool)
      requires Valid() && 0 < i < |parent|
      modifies this
      ensures View() == Submit(parent, old(View()), d, i, i, bio, pass, t) && Valid()
      ensures !throttled ==> View() == old(View()).(issued := old(View()).issued + [bio])
    {
      SubmitOk(parent, View(), d, i, i, bio, pass, t);
      var tg, src := Climb(i, d, bio, pass, t);
      throttled := tg != 0;
      if throttled {
        HoldBack(d, tg, src, bio, t);
      } else {
        issued := issued + [bio];
      }
    }
  }
}
