/** Draining, and whole runs of submissions, dispatches and drains. */
module ThrottleRuns {
  import opened Lists
  import opened ThrottleQueue
  import opened ThrottleTree
  import opened ThrottleDrain

  /* ---- draining one service queue ---- */

  /** Everything group i holds moves up: reads, then writes. */
  ghost function Empty(p: seq<nat>, s: Td, i: nat): (r: Td)
    requires Sized(p, s) && ListsOk(p, s.rd) && ListsOk(p, s.wr) && 0 < i < |p|
    ensures Sized(p, r)
  {
    var s1 := DispatchN(p, s, Read, i, Held(s.rd.queued[i], All));
    DispatchNUntouched(p, s, Read, i, Held(s.rd.queued[i], All));
    DispatchN(p, s1, Write, i, Held(s1.wr.queued[i], All))
  }

  lemma EmptyOk(p: seq<nat>, s: Td, i: nat)
    requires Ok(p, s, {i}) && 0 < i < |p|
    ensures Ok(p, Empty(p, s, i), {i})
  {
    DispatchNOk(p, s, Read, i, Held(s.rd.queued[i], All));
    var s1 := DispatchN(p, s, Read, i, Held(s.rd.queued[i], All));
    DispatchNOk(p, s1, Write, i, Held(s1.wr.queued[i], All));
  }

  /** Only the pending tree of the grandparent can change. */
  lemma EmptyFrame(p: seq<nat>, s: Td, i: nat, n: nat)
    requires Sized(p, s) && ListsOk(p, s.rd) && ListsOk(p, s.wr) && 0 < i < |p|
    requires n < |p| && (p[i] == 0 || n != p[p[i]])
    ensures Empty(p, s, i).pend[n] == s.pend[n] && Empty(p, s, i).issued == s.issued
  {
    DispatchNUntouched(p, s, Read, i, Held(s.rd.queued[i], All));
    var s1 := DispatchN(p, s, Read, i, Held(s.rd.queued[i], All));
    DispatchNUntouched(p, s1, Write, i, Held(s1.wr.queued[i], All));
  }

  lemma EmptySides(p: seq<nat>, s: Td, i: nat)
    requires Sized(p, s) && ListsOk(p, s.rd) && ListsOk(p, s.wr) && 0 < i < |p|
    ensures var r := Empty(p, s, i);
            && r.rd == MoveN(p, s.rd, i, Held(s.rd.queued[i], All))
            && r.wr == MoveN(p, s.wr, i, Held(s.wr.queued[i], All))
            && r.issued == s.issued
  {
    DispatchNUntouched(p, s, Read, i, Held(s.rd.queued[i], All));
    DispatchNSide(p, s, Read, i, Held(s.rd.queued[i], All));
    var s1 := DispatchN(p, s, Read, i, Held(s.rd.queued[i], All));
    DispatchNUntouched(p, s1, Write, i, Held(s1.wr.queued[i], All));
    DispatchNSide(p, s1, Write, i, Held(s1.wr.queued[i], All));
  }

  lemma EmptyIsEmpty(p: seq<nat>, s: Td, i: nat)
    requires Ok(p, s, {i}) && 0 < i < |p|
    ensures Ok(p, Empty(p, s, i), {})
  {
    EmptyOk(p, s, i);
    EmptySides(p, s, i);
    MoveAll(p, s.rd, i, Held(s.rd.queued[i], All));
    MoveAll(p, s.wr, i, Held(s.wr.queued[i], All));
    EmptiedOk(p, Empty(p, s, i), i);
  }

  lemma EmptyEverything(p: seq<nat>, s: Td, i: nat, w: What)
    requires Sized(p, s) && ListsOk(p, s.rd) && ListsOk(p, s.wr) && 0 < i < |p|
    ensures Everything(Empty(p, s, i), w) == Everything(s, w)
  {
    EmptySides(p, s, i);
    MoveNHeld(p, s.rd, i, Held(s.rd.queued[i], All), w);
    MoveNHeld(p, s.wr, i, Held(s.wr.queued[i], All), w);
  }

  lemma FirstPending(p: seq<nat>, s: Td, n: nat)
    requires Ok(p, s, {}) && n < |p| && s.pend[n] != []
    ensures var i := s.pend[n][0]; 0 < i < |p| && p[i] == n && Remove(s.pend[n], i) == s.pend[n][1..]
  {
    assert PendOk(p, s.pend, s.disptime, n);
    assert s.pend[n][0] in s.pend[n];
    RemoveHead(s.pend[n]);
  }

  /** One turn of tg_drain_bios: the first pending child of n. */
  ghost function DrainOne(p: seq<nat>, s: Td, n: nat): (r: Td)
    requires Ok(p, s, {}) && n < |p| && s.pend[n] != []
    ensures Ok(p, r, {}) && r.pend[n] == s.pend[n][1..]
  {
    FirstPending(p, s, n);
    var i := s.pend[n][0];
    DequeueOk(p, s, i, {});
    EmptyIsEmpty(p, Dequeue(p, s, i), i);
    EmptyFrame(p, Dequeue(p, s, i), i, n);
    Empty(p, Dequeue(p, s, i), i)
  }

  lemma DrainOneFrame(p: seq<nat>, s: Td, n: nat, m: nat)
    requires Ok(p, s, {}) && n < |p| && s.pend[n] != [] && m < |p| && m != n && (n == 0 || m != p[n])
    ensures DrainOne(p, s, n).pend[m] == s.pend[m]
  {
    FirstPending(p, s, n);
    var i := s.pend[n][0];
    DequeueOk(p, s, i, {});
    EmptyFrame(p, Dequeue(p, s, i), i, m);
  }

  lemma DrainOneEverything(p: seq<nat>, s: Td, n: nat, w: What)
    requires Ok(p, s, {}) && n < |p| && s.pend[n] != []
    ensures Everything(DrainOne(p, s, n), w) == Everything(s, w) && DrainOne(p, s, n).issued == s.issued
  {
    FirstPending(p, s, n);
    var i := s.pend[n][0];
    DequeueOk(p, s, i, {});
    EmptyEverything(p, Dequeue(p, s, i), i, w);
    EmptySides(p, Dequeue(p, s, i), i);
  }

  /** tg_drain_bios */
  ghost function Drain(p: seq<nat>, s: Td, n: nat): (r: Td)
    requires Ok(p, s, {}) && n < |p|
    ensures Ok(p, r, {}) && r.pend[n] == []
    decreases |s.pend[n]|
  {
    if s.pend[n] == [] then s else Drain(p, DrainOne(p, s, n), n)
  }

  lemma {:induction false} DrainFrame(p: seq<nat>, s: Td, n: nat, m: nat)
    requires Ok(p, s, {}) && n < |p| && m < |p| && m != n && (n == 0 || m != p[n])
    ensures Drain(p, s, n).pend[m] == s.pend[m]
    decreases |s.pend[n]|
  {
    if s.pend[n] != [] {
      DrainOneFrame(p, s, n, m);
      DrainFrame(p, DrainOne(p, s, n), n, m);
    }
  }

  lemma {:induction false} DrainEverything(p: seq<nat>, s: Td, n: nat, w: What)
    requires Ok(p, s, {}) && n < |p|
    ensures Everything(Drain(p, s, n), w) == Everything(s, w) && Drain(p, s, n).issued == s.issued
    decreases |s.pend[n]|
  {
    if s.pend[n] != [] {
      DrainOneEverything(p, s, n, w);
      DrainEverything(p, DrainOne(p, s, n), n, w);
    }
  }

  /* ---- draining all ---- */

  /** An order in which every group comes after its children, as in a post-order walk. */
  ghost predicate ChildrenFirst(p: seq<nat>, order: seq<nat>) {
    && (forall i :: 0 < i < |p| ==> i in order)
    && (forall k :: 0 <= k < |order| ==> 0 < order[k] < |p|)
    && (forall a, b :: 0 <= a < b < |order| ==> p[order[b]] != order[a])
  }

  ghost function DrainAll(p: seq<nat>, s: Td, order: seq<nat>): (r: Td)
    requires Ok(p, s, {}) && forall k :: 0 <= k < |order| ==> order[k] < |p|
    ensures Ok(p, r, {})
  {
    if order == [] then s
    else
      var n := |order| - 1;
      Drain(p, DrainAll(p, s, order[..n]), order[n])
  }

  lemma DrainedBefore(p: seq<nat>, s: Td, g: nat, m: nat)
    requires Ok(p, s, {}) && 0 < g < |p| && m < |p| && p[g] != m && (m != g ==> s.pend[m] == [])
    ensures Drain(p, s, g).pend[m] == []
  {
    if m != g {
      DrainFrame(p, s, g, m);
    }
  }

  lemma {:induction false} AllDrained(p: seq<nat>, s: Td, order: seq<nat>, k: nat)
    requires Ok(p, s, {}) && k < |order| && (forall k :: 0 <= k < |order| ==> 0 < order[k] < |p|)
    requires forall a, b :: 0 <= a < b < |order| ==> p[order[b]] != order[a]
    ensures DrainAll(p, s, order).pend[order[k]] == []
    decreases |order|
  {
    var n := |order| - 1;
    if k < n {
      AllDrained(p, s, order[..n], k);
      DrainedBefore(p, DrainAll(p, s, order[..n]), order[n], order[k]);
    }
  }

  lemma {:induction false} DrainAllEverything(p: seq<nat>, s: Td, order: seq<nat>, w: What)
    requires Ok(p, s, {}) && forall k :: 0 <= k < |order| ==> order[k] < |p|
    ensures Everything(DrainAll(p, s, order), w) == Everything(s, w) && DrainAll(p, s, order).issued == s.issued
    decreases |order|
  {
    if order != [] {
      var n := |order| - 1;
      DrainAllEverything(p, s, order[..n], w);
      DrainEverything(p, DrainAll(p, s, order[..n]), order[n], w);
    }
  }

  /** With nothing pending anywhere, only the top queue can hold bios. */
  lemma NothingPending(p: seq<nat>, s: Td, i: nat)
    requires Ok(p, s, {}) && 0 < i < |p| && s.pend[p[i]] == []
    ensures s.rd.queued[i] == [] && s.wr.queued[i] == [] && s.rd.nr[i] == 0 && s.wr.nr[i] == 0
  {
    assert i !in s.pend[p[i]];
    assert !HasBios(s, i);
    HeldNone(s.rd.queued[i]);
    HeldNone(s.wr.queued[i]);
  }

  /* ---- issuing ---- */

  /** Everything on a list, in the order throtl_pop_queued gives it. */
  ghost function PopAll(qs: seq<Qn>): seq<Bio>
    requires QsOk(qs)
  {
    Pops(qs, Held(qs, All))
  }

  /** One pop: what is left, and the bio. */
  lemma OnePop(qs: seq<Qn>, n: nat, w: What) returns (r: seq<Qn>, bio: Bio)
    requires QsOk(qs) && qs != [] && n >= Held(qs, All)
    ensures QsOk(r) && n > 0 && n - 1 >= Held(r, All)
    ensures Held(qs, w) == Held(r, w) + One(bio, w) && Tally(Pops(qs, n), w) == One(bio, w) + Tally(Pops(r, n - 1), w)
  {
    PoppedHeld(qs, All);
    PoppedHeld(qs, w);
    PopsTally(qs, n, w);
    r, bio := Popped(qs), qs[0].bios[0];
  }

  lemma PopsTally(qs: seq<Qn>, n: nat, w: What)
    requires QsOk(qs) && qs != [] && n > 0
    ensures QsOk(Popped(qs)) && Tally(Pops(qs, n), w) == One(qs[0].bios[0], w) + Tally(Pops(Popped(qs), n - 1), w)
  {
    PoppedOk(qs);
    TallyCons(qs[0].bios[0], Pops(Popped(qs), n - 1), w);
  }

  lemma {:induction false} PopsHeld(qs: seq<Qn>, n: nat, w: What)
    requires QsOk(qs) && n >= Held(qs, All)
    ensures Tally(Pops(qs, n), w) == Held(qs, w)
    decreases n
  {
    if qs != [] {
      var r, bio := OnePop(qs, n, w);
      PopsHeld(r, n - 1, w);
    }
  }

  lemma TallyCons(bio: Bio, s: seq<Bio>, w: What)
    ensures Tally([bio] + s, w) == One(bio, w) + Tally(s, w)
  {
    TallyHead([bio] + s, w);
    assert ([bio] + s)[1..] == s;
  }

  lemma {:induction false} TallyConcat(a: seq<Bio>, b: seq<Bio>, w: What)
    ensures Tally(a + b, w) == Tally(a, w) + Tally(b, w)
  {
    if b == [] {
      assert a + b == a;
    } else {
      var n := |b| - 1;
      assert (a + b)[..|a + b| - 1] == a + b[..n];
      TallyConcat(a, b[..n], w);
    }
  }

  /** The last part of blk_throtl_drain, and all of blk_throtl_dispatch_work_fn: what has reached the top is issued. */
  ghost function Issue(p: seq<nat>, s: Td): Td
    requires Sized(p, s) && ListsOk(p, s.rd) && ListsOk(p, s.wr)
  {
    s.(rd := s.rd.(queued := s.rd.queued[0 := []]), wr := s.wr.(queued := s.wr.queued[0 := []]),
       issued := s.issued + (PopAll(s.rd.queued[0]) + PopAll(s.wr.queued[0])))
  }

  lemma TopEmptied(p: seq<nat>, x: Side)
    requires SideOk(p, x) && p != []
    ensures SideOk(p, x.(queued := x.queued[0 := []]))
  {
  }

  /** New lists with the same counts leave the pending trees right. */
  lemma SameCountsOk(p: seq<nat>, s: Td, rd: Side, wr: Side, issued: seq<Bio>)
    requires Ok(p, s, {}) && SideOk(p, rd) && SideOk(p, wr) && rd.nr == s.rd.nr && wr.nr == s.wr.nr
    ensures Ok(p, s.(rd := rd, wr := wr, issued := issued), {})
  {
    var r := s.(rd := rd, wr := wr, issued := issued);
    forall n | 0 <= n < |p| ensures PendOk(p, r.pend, r.disptime, n) {
      assert PendOk(p, s.pend, s.disptime, n);
    }
    forall i | 0 < i < |p| && HasBios(r, i) ensures i in r.pend[p[i]] {
      assert HasBios(s, i);
    }
  }

  lemma IssueOk(p: seq<nat>, s: Td)
    requires Ok(p, s, {})
    ensures Ok(p, Issue(p, s), {})
  {
    TopEmptied(p, s.rd);
    TopEmptied(p, s.wr);
    SameCountsOk(p, s, Issue(p, s).rd, Issue(p, s).wr, Issue(p, s).issued);
  }

  lemma IssueEverything(p: seq<nat>, s: Td, w: What)
    requires Sized(p, s) && ListsOk(p, s.rd) && ListsOk(p, s.wr)
    ensures Everything(Issue(p, s), w) == Everything(s, w)
  {
    HeldInUpdate(s.rd.queued, 0, [], w, |s.rd.queued|);
    HeldInUpdate(s.wr.queued, 0, [], w, |s.wr.queued|);
    PopsHeld(s.rd.queued[0], Held(s.rd.queued[0], All), w);
    PopsHeld(s.wr.queued[0], Held(s.wr.queued[0], All), w);
    TallyConcat(PopAll(s.rd.queued[0]), PopAll(s.wr.queued[0]), w);
    TallyConcat(s.issued, PopAll(s.rd.queued[0]) + PopAll(s.wr.queued[0]), w);
  }

  /** blk_throtl_drain, walking the groups in the given order. */
  ghost function DrainQueue(p: seq<nat>, s: Td, order: seq<nat>): (r: Td)
    requires Ok(p, s, {}) && forall k :: 0 <= k < |order| ==> order[k] < |p|
    ensures Ok(p, r, {})
  {
    IssueOk(p, Drain(p, DrainAll(p, s, order), 0));
    Issue(p, Drain(p, DrainAll(p, s, order), 0))
  }

  lemma {:induction false} SumNrZero(nr: seq<int>, n: nat)
    requires n <= |nr| && forall i :: 0 < i < n ==> nr[i] == 0
    ensures SumNr(nr, n) == 0
  {
    if n > 1 {
      SumNrZero(nr, n - 1);
    }
  }

  lemma GroupDrained(p: seq<nat>, s: Td, order: seq<nat>, n: nat)
    requires Ok(p, s, {}) && ChildrenFirst(p, order) && 0 < n < |p|
    ensures DrainAll(p, s, order).pend[n] == []
  {
    assert n in order;
    var k :| 0 <= k < |order| && order[k] == n;
    AllDrained(p, s, order, k);
  }

  lemma AllEmpty(p: seq<nat>, s: Td, order: seq<nat>, i: nat)
    requires Ok(p, s, {}) && ChildrenFirst(p, order) && 0 < i < |p|
    ensures var r := Drain(p, DrainAll(p, s, order), 0);
            r.rd.queued[i] == [] && r.wr.queued[i] == [] && r.rd.nr[i] == 0 && r.wr.nr[i] == 0
  {
    var d := DrainAll(p, s, order);
    if p[i] > 0 {
      GroupDrained(p, s, order, p[i]);
      DrainFrame(p, d, 0, p[i]);
    }
    NothingPending(p, Drain(p, d, 0), i);
  }

  /** A drain leaves no bio queued anywhere and nothing counted. */
  lemma DrainLeavesNothing(p: seq<nat>, s: Td, order: seq<nat>)
    requires Ok(p, s, {}) && ChildrenFirst(p, order)
    ensures var r := DrainQueue(p, s, order);
            && (forall i :: 0 <= i < |p| ==> r.rd.queued[i] == [] && r.wr.queued[i] == [])
            && r.rd.total == 0 && r.wr.total == 0
  {
    var r := DrainQueue(p, s, order);
    forall i | 0 < i < |p|
      ensures r.rd.queued[i] == [] && r.wr.queued[i] == [] && r.rd.nr[i] == 0 && r.wr.nr[i] == 0
    {
      AllEmpty(p, s, order, i);
    }
    SumNrZero(r.rd.nr, |p|);
    SumNrZero(r.wr.nr, |p|);
  }

  /** Every bio that was queued, and every bio issued before, has now been issued, each as often as it was there. */
  lemma DrainIssuesEachOnce(p: seq<nat>, s: Td, order: seq<nat>, w: What)
    requires Ok(p, s, {}) && ChildrenFirst(p, order)
    ensures Tally(DrainQueue(p, s, order).issued, w) == Everything(s, w)
  {
    var d := DrainAll(p, s, order);
    var t := Drain(p, d, 0);
    DrainAllEverything(p, s, order, w);
    DrainEverything(p, d, 0, w);
    IssueEverything(p, t, w);
    DrainLeavesNothing(p, s, order);
    HeldNowhere(DrainQueue(p, s, order).rd.queued, w, |p|);
    HeldNowhere(DrainQueue(p, s, order).wr.queued, w, |p|);
  }

  lemma {:induction false} HeldNowhere(queued: seq<seq<Qn>>, w: What, n: nat)
    requires n <= |queued| && forall i :: 0 <= i < n ==> queued[i] == []
    ensures HeldIn(queued, w, n) == 0
  {
    if n > 0 {
      HeldNowhere(queued, w, n - 1);
    }
  }

  /* ---- submitting ---- */

  /** throtl_add_bio_tg, and the bio is counted as queued. */
  function AddBioTg(p: seq<nat>, s: Td, d: Dir, i: nat, src: nat, bio: Bio): (r: Td)
    requires Sized(p, s) && 0 < i < |p|
    ensures Sized(p, r)
  {
    Notice(p, s, d, i).With(d, Put(s.At(d), i, src, bio).(total := s.At(d).total + 1))
  }

  /** The end of blk_throtl_bio: the bio is out of limits and waits in group i. */
  function QueueBio(p: seq<nat>, s: Td, d: Dir, i: nat, src: nat, bio: Bio, t: nat): Td
    requires Sized(p, s) && 0 < i < |p|
  {
    var s1 := AddBioTg(p, s, d, i, src, bio);
    if s1.wasEmpty[i] then UpdateDisptime(p, s1, i, t) else s1
  }

  lemma PutInOk(p: seq<nat>, s: Td, d: Dir, i: nat, src: nat, bio: Bio)
    requires Ok(p, s, {}) && 0 < i < |p| && i in s.pend[p[i]]
    ensures Ok(p, s.With(d, Put(s.At(d), i, src, bio).(total := s.At(d).total + 1)), {})
  {
    PutOk(p, s.At(d), i, src, bio);
    WithOk(p, s, d, Put(s.At(d), i, src, bio).(total := s.At(d).total + 1), {});
  }

  lemma AddBioTgOk(p: seq<nat>, s: Td, d: Dir, i: nat, src: nat, bio: Bio)
    requires Ok(p, s, {}) && 0 < i < |p|
    ensures Ok(p, AddBioTg(p, s, d, i, src, bio), {})
  {
    var n := Notice(p, s, d, i);
    NoticeOk(p, s, d, i, {});
    assert {} - {i} == {};
    PutInOk(p, n, d, i, src, bio);
    assert n.At(d) == s.At(d);
  }

  lemma QueueBioOk(p: seq<nat>, s: Td, d: Dir, i: nat, src: nat, bio: Bio, t: nat)
    requires Ok(p, s, {}) && 0 < i < |p|
    ensures Ok(p, QueueBio(p, s, d, i, src, bio, t), {})
  {
    AddBioTgOk(p, s, d, i, src, bio);
    var s1 := AddBioTg(p, s, d, i, src, bio);
    if s1.wasEmpty[i] {
      UpdateDisptimeOk(p, s1, i, t, {});
    }
  }

  lemma QueueBioEverything(p: seq<nat>, s: Td, d: Dir, i: nat, src: nat, bio: Bio, t: nat, w: What)
    requires Sized(p, s) && 0 < i < |p|
    ensures Everything(QueueBio(p, s, d, i, src, bio, t), w) == Everything(s, w) + One(bio, w)
  {
    QueueBioSides(p, s, d, i, src, bio, t);
    PutHeld(s.At(d), i, src, bio, w);
  }

  lemma QueueBioSides(p: seq<nat>, s: Td, d: Dir, i: nat, src: nat, bio: Bio, t: nat)
    requires Sized(p, s) && 0 < i < |p|
    ensures var r, x := QueueBio(p, s, d, i, src, bio, t), Put(s.At(d), i, src, bio).(total := s.At(d).total + 1);
            r.issued == s.issued && (d == Read ==> r.rd == x && r.wr == s.wr) && (d == Write ==> r.wr == x && r.rd == s.rd)
  {
  }

  lemma PutHeld(x: Side, i: nat, src: nat, bio: Bio, w: What)
    requires i < |x.queued| && i < |x.nr|
    ensures SideHeld(Put(x, i, src, bio), w) == SideHeld(x, w) + One(bio, w)
  {
    AddBioHeld(x.queued[i], src, bio, w);
    HeldInUpdate(x.queued, i, AddBio(x.queued[i], src, bio), w, |x.queued|);
  }

  /** blk_throtl_bio from group i on: `pass` says for each level whether the bio is within its limits. A bio that passes
      every level is issued. */
  function Submit(p: seq<nat>, s: Td, d: Dir, i: nat, src: nat, bio: Bio, pass: seq<bool>, t: nat): Td
    requires Sized(p, s) && i < |p|
    decreases i
  {
    if i == 0 then s.(issued := s.issued + [bio])
    else if s.At(d).nr[i] > 0 || pass == [] || !pass[0] then QueueBio(p, s, d, i, src, bio, t)
    else Submit(p, s, d, p[i], i, bio, pass[1..], t)
  }

  lemma {:induction false} SubmitOk(p: seq<nat>, s: Td, d: Dir, i: nat, src: nat, bio: Bio, pass: seq<bool>, t: nat)
    requires Ok(p, s, {}) && i < |p|
    ensures Ok(p, Submit(p, s, d, i, src, bio, pass, t), {})
    decreases i
  {
    if i == 0 {
      IssuedOk(p, s, s.issued + [bio]);
    } else if s.At(d).nr[i] > 0 || pass == [] || !pass[0] {
      QueueBioOk(p, s, d, i, src, bio, t);
    } else {
      SubmitOk(p, s, d, p[i], i, bio, pass[1..], t);
    }
  }

  lemma IssuedOk(p: seq<nat>, s: Td, issued: seq<Bio>)
    requires Ok(p, s, {})
    ensures Ok(p, s.(issued := issued), {})
  {
    SameCountsOk(p, s, s.rd, s.wr, issued);
  }

  lemma {:induction false} SubmitEverything(p: seq<nat>, s: Td, d: Dir, i: nat, src: nat, bio: Bio, pass: seq<bool>, t: nat, w: What)
    requires Sized(p, s) && i < |p|
    ensures Everything(Submit(p, s, d, i, src, bio, pass, t), w) == Everything(s, w) + One(bio, w)
    decreases i
  {
    if i == 0 {
      TallySnoc(s.issued, bio, w);
    } else if s.At(d).nr[i] > 0 || pass == [] || !pass[0] {
      QueueBioEverything(p, s, d, i, src, bio, t, w);
    } else {
      SubmitEverything(p, s, d, p[i], i, bio, pass[1..], t, w);
    }
  }

  /* ---- dispatching ---- */

  function Min(a: nat, b: nat): nat { if a < b then a else b }

  /** throtl_dispatch_tg: at most 6 reads, then at most 2 writes, as far as the group may dispatch. */
  function DispatchGroup(p: seq<nat>, s: Td, i: nat, nrReads: nat, nrWrites: nat): (r: Td)
    requires Sized(p, s) && ListsOk(p, s.rd) && ListsOk(p, s.wr) && 0 < i < |p|
    ensures Sized(p, r)
  {
    DispatchNUntouched(p, s, Read, i, Min(nrReads, 6));
    DispatchN(p, DispatchN(p, s, Read, i, Min(nrReads, 6)), Write, i, Min(nrWrites, 2))
  }

  /** One turn of throtl_select_dispatch on service queue n. */
  function Select(p: seq<nat>, s: Td, n: nat, now: nat, nrReads: nat, nrWrites: nat, t: nat): Td
    requires Ok(p, s, {}) && n < |p|
  {
    if s.pend[n] == [] then s
    else
      FirstPending(p, s, n);
      var i := s.pend[n][0];
      if now < s.disptime[i] then s
      else
        var r := DispatchGroup(p, Dequeue(p, s, i), i, nrReads, nrWrites);
        if r.rd.nr[i] != 0 || r.wr.nr[i] != 0 then UpdateDisptime(p, r, i, t) else r
  }

  lemma DispatchGroupOk(p: seq<nat>, s: Td, i: nat, nrReads: nat, nrWrites: nat)
    requires Ok(p, s, {i}) && 0 < i < |p|
    ensures Ok(p, DispatchGroup(p, s, i, nrReads, nrWrites), {i})
  {
    DispatchNOk(p, s, Read, i, Min(nrReads, 6));
    DispatchNOk(p, DispatchN(p, s, Read, i, Min(nrReads, 6)), Write, i, Min(nrWrites, 2));
  }

  lemma DispatchGroupSides(p: seq<nat>, s: Td, i: nat, nrReads: nat, nrWrites: nat)
    requires Sized(p, s) && ListsOk(p, s.rd) && ListsOk(p, s.wr) && 0 < i < |p|
    ensures var r := DispatchGroup(p, s, i, nrReads, nrWrites);
            && r.rd == MoveN(p, s.rd, i, Min(nrReads, 6)) && r.wr == MoveN(p, s.wr, i, Min(nrWrites, 2)) && r.issued == s.issued
  {
    var s1 := DispatchN(p, s, Read, i, Min(nrReads, 6));
    DispatchNUntouched(p, s, Read, i, Min(nrReads, 6));
    DispatchNSide(p, s, Read, i, Min(nrReads, 6));
    DispatchNUntouched(p, s1, Write, i, Min(nrWrites, 2));
    DispatchNSide(p, s1, Write, i, Min(nrWrites, 2));
  }

  lemma DispatchGroupEverything(p: seq<nat>, s: Td, i: nat, nrReads: nat, nrWrites: nat, w: What)
    requires Sized(p, s) && ListsOk(p, s.rd) && ListsOk(p, s.wr) && 0 < i < |p|
    ensures Everything(DispatchGroup(p, s, i, nrReads, nrWrites), w) == Everything(s, w)
  {
    DispatchGroupSides(p, s, i, nrReads, nrWrites);
    MoveNHeld(p, s.rd, i, Min(nrReads, 6), w);
    MoveNHeld(p, s.wr, i, Min(nrWrites, 2), w);
  }

  lemma TurnOk(p: seq<nat>, r: Td, i: nat, t: nat)
    requires Ok(p, r, {i}) && 0 < i < |p|
    ensures Ok(p, if r.rd.nr[i] != 0 || r.wr.nr[i] != 0 then UpdateDisptime(p, r, i, t) else r, {})
  {
    if r.rd.nr[i] != 0 || r.wr.nr[i] != 0 {
      UpdateDisptimeOk(p, r, i, t, {i});
    } else {
      EmptiedOk(p, r, i);
    }
  }

  lemma SelectOk(p: seq<nat>, s: Td, n: nat, now: nat, nrReads: nat, nrWrites: nat, t: nat)
    requires Ok(p, s, {}) && n < |p|
    ensures Ok(p, Select(p, s, n, now, nrReads, nrWrites, t), {})
  {
    if s.pend[n] != [] {
      FirstPending(p, s, n);
      var i := s.pend[n][0];
      if s.disptime[i] <= now {
        DequeueOk(p, s, i, {});
        DispatchGroupOk(p, Dequeue(p, s, i), i, nrReads, nrWrites);
        TurnOk(p, DispatchGroup(p, Dequeue(p, s, i), i, nrReads, nrWrites), i, t);
      }
    }
  }

  /** A child of n is due. */
  ghost predicate Due(s: Td, n: nat, now: nat)
    requires n < |s.pend|
  {
    exists c :: c in s.pend[n] && Time(s.disptime, c) <= now
  }

  lemma FirstIsEarliest(t: seq<nat>, disptime: seq<nat>, c: nat)
    requires ByTime(t, disptime) && c in t
    ensures t != [] && Time(disptime, t[0]) <= Time(disptime, c)
  {
    assert c == t[0] || c in t[1..];
  }

  lemma FirstIsDue(p: seq<nat>, s: Td, n: nat, now: nat)
    requires Ok(p, s, {}) && n < |p|
    ensures Due(s, n, now) <==> s.pend[n] != [] && Time(s.disptime, s.pend[n][0]) <= now
    ensures forall c :: c in s.pend[n] ==> Time(s.disptime, s.pend[n][0]) <= Time(s.disptime, c)
  {
    assert PendOk(p, s.pend, s.disptime, n);
    forall c | c in s.pend[n] ensures Time(s.disptime, s.pend[n][0]) <= Time(s.disptime, c) {
      FirstIsEarliest(s.pend[n], s.disptime, c);
    }
    if s.pend[n] != [] {
      assert s.pend[n][0] in s.pend[n];
    }
  }

  /** Child i of n is due, no pending child is due earlier, and from s to r it has been served. */
  ghost predicate Served(p: seq<nat>, s: Td, r: Td, n: nat, i: nat, now: nat, nrReads: nat, nrWrites: nat)
    requires Sized(p, s) && Sized(p, r) && n < |p|
  {
    && 0 < i < |p| && p[i] == n && s.disptime[i] <= now
    && (forall c :: c in s.pend[n] ==> s.disptime[i] <= Time(s.disptime, c))
    && Moved(p, s.rd, r.rd, i, Min(nrReads, 6)) && Moved(p, s.wr, r.wr, i, Min(nrWrites, 2))
  }

  /** What a turn that serves i makes of the lists. */
  lemma SelectSides(p: seq<nat>, s: Td, n: nat, i: nat, now: nat, nrReads: nat, nrWrites: nat, t: nat)
    requires Ok(p, s, {}) && n < |p| && s.pend[n] != [] && i == s.pend[n][0] && 0 < i < |p| && s.disptime[i] <= now
    ensures var r := Select(p, s, n, now, nrReads, nrWrites, t);
            Sized(p, r) && r.rd == MoveN(p, s.rd, i, Min(nrReads, 6)) && r.wr == MoveN(p, s.wr, i, Min(nrWrites, 2))
  {
    DispatchGroupSides(p, Dequeue(p, s, i), i, nrReads, nrWrites);
  }

  lemma FirstServed(p: seq<nat>, s: Td, r: Td, n: nat, i: nat, now: nat, nrReads: nat, nrWrites: nat)
    requires Sized(p, s) && ListsOk(p, s.rd) && ListsOk(p, s.wr) && Sized(p, r) && 0 < i < |p| && p[i] == n
    requires s.disptime[i] <= now && forall c :: c in s.pend[n] ==> s.disptime[i] <= Time(s.disptime, c)
    requires r.rd == MoveN(p, s.rd, i, Min(nrReads, 6)) && r.wr == MoveN(p, s.wr, i, Min(nrWrites, 2))
    ensures Served(p, s, r, n, i, now, nrReads, nrWrites)
  {
    MoveNMoved(p, s.rd, i, Min(nrReads, 6));
    MoveNMoved(p, s.wr, i, Min(nrWrites, 2));
  }

  lemma ServesFirst(p: seq<nat>, s: Td, n: nat, now: nat, nrReads: nat, nrWrites: nat, t: nat)
    requires Ok(p, s, {}) && n < |p| && Due(s, n, now)
    ensures var r := Select(p, s, n, now, nrReads, nrWrites, t);
            s.pend[n] != [] && Sized(p, r) && Served(p, s, r, n, s.pend[n][0], now, nrReads, nrWrites)
  {
    FirstIsDue(p, s, n, now);
    FirstPending(p, s, n);
    SelectSides(p, s, n, s.pend[n][0], now, nrReads, nrWrites, t);
    FirstServed(p, s, Select(p, s, n, now, nrReads, nrWrites, t), n, s.pend[n][0], now, nrReads, nrWrites);
  }

  /** A turn changes something only if a pending child is due. Then it serves one that is due earliest: as many of its bios
      as it may dispatch, up to 6 reads and 2 writes, go to n, and no other group gains or loses one. A child with bios whose
      time has come is pending and due, so it is never passed over. */
  lemma SelectsEarliest(p: seq<nat>, s: Td, n: nat, now: nat, nrReads: nat, nrWrites: nat, t: nat)
    requires Ok(p, s, {}) && n < |p|
    ensures var r := Select(p, s, n, now, nrReads, nrWrites, t);
            && Sized(p, r)
            && (if Due(s, n, now) then exists i :: i in s.pend[n] && Served(p, s, r, n, i, now, nrReads, nrWrites) else r == s)
    ensures forall c :: 0 < c < |p| && p[c] == n && HasBios(s, c) && s.disptime[c] <= now ==> Due(s, n, now)
  {
    FirstIsDue(p, s, n, now);
    if Due(s, n, now) {
      ServesFirst(p, s, n, now, nrReads, nrWrites, t);
      assert s.pend[n][0] in s.pend[n];
    }
    forall c | 0 < c < |p| && p[c] == n && HasBios(s, c) && s.disptime[c] <= now ensures Due(s, n, now) {
      assert c in s.pend[n];
    }
  }

  lemma SelectEverything(p: seq<nat>, s: Td, n: nat, now: nat, nrReads: nat, nrWrites: nat, t: nat, w: What)
    requires Ok(p, s, {}) && n < |p|
    ensures Everything(Select(p, s, n, now, nrReads, nrWrites, t), w) == Everything(s, w)
  {
    if s.pend[n] != [] {
      FirstPending(p, s, n);
      var i := s.pend[n][0];
      DispatchGroupEverything(p, Dequeue(p, s, i), i, nrReads, nrWrites, w);
    }
  }

  /* ---- runs ---- */

  datatype Op =
    | OpSubmit(i: nat, d: Dir, bio: Bio, pass: seq<bool>, t: nat)
    | OpSelect(n: nat, now: nat, nrReads: nat, nrWrites: nat, t: nat)
    | OpRetime(i: nat, t: nat)
    | OpIssue
    | OpDrain(order: seq<nat>)

  ghost predicate Enabled(p: seq<nat>, op: Op) {
    match op
    case OpSubmit(i, _, _, _, _) => 0 < i < |p|
    case OpSelect(n, _, _, _, _) => n < |p|
    case OpRetime(i, _) => 0 < i < |p|
    case OpIssue => true
    case OpDrain(order) => forall k :: 0 <= k < |order| ==> order[k] < |p|
  }

  ghost function Apply(p: seq<nat>, s: Td, op: Op): (r: Td)
    requires Ok(p, s, {})
    ensures Ok(p, r, {})
  {
    if !Enabled(p, op) then s
    else match op
      case OpSubmit(i, d, bio, pass, t) => SubmitOk(p, s, d, i, i, bio, pass, t); Submit(p, s, d, i, i, bio, pass, t)
      case OpSelect(n, now, nrReads, nrWrites, t) =>
        SelectOk(p, s, n, now, nrReads, nrWrites, t); Select(p, s, n, now, nrReads, nrWrites, t)
      case OpRetime(i, t) => UpdateDisptimeOk(p, s, i, t, {}); UpdateDisptime(p, s, i, t)
      case OpIssue => IssueOk(p, s); Issue(p, s)
      case OpDrain(order) => DrainQueue(p, s, order)
  }

  ghost function Start(p: seq<nat>): Td {
    var x := Side(seq(|p|, i => []), seq(|p|, i => 0), 0);
    Td(x, x, seq(|p|, i => []), seq(|p|, i => 0), seq(|p|, i => false), [])
  }

  lemma StartOk(p: seq<nat>)
    requires Rooted(p)
    ensures Ok(p, Start(p), {})
  {
    SumNrZero(Start(p).rd.nr, |p|);
  }

  /** Every state that any run reaches has its counters right and every group with bios pending. */
  ghost function Run(p: seq<nat>, ops: seq<Op>): (r: Td)
    requires Rooted(p)
    ensures Ok(p, r, {})
  {
    if ops == [] then
      StartOk(p);
      Start(p)
    else Apply(p, Run(p, ops[..|ops| - 1]), ops[|ops| - 1])
  }

  ghost function NewBio(p: seq<nat>, op: Op): seq<Bio> { if op.OpSubmit? && Enabled(p, op) then [op.bio] else [] }

  /** The bios that were submitted. */
  ghost function Submitted(p: seq<nat>, ops: seq<Op>): seq<Bio> {
    if ops == [] then []
    else Submitted(p, ops[..|ops| - 1]) + NewBio(p, ops[|ops| - 1])
  }

  lemma ApplyEverything(p: seq<nat>, s: Td, op: Op, w: What)
    requires Ok(p, s, {})
    ensures Everything(Apply(p, s, op), w) == Everything(s, w) + (if op.OpSubmit? && Enabled(p, op) then One(op.bio, w) else 0)
  {
    if Enabled(p, op) {
      match op {
        case OpSubmit(i, d, bio, pass, t) => SubmitEverything(p, s, d, i, i, bio, pass, t, w);
        case OpSelect(n, now, nrReads, nrWrites, t) => SelectEverything(p, s, n, now, nrReads, nrWrites, t, w);
        case OpRetime(i, t) =>
        case OpIssue => IssueEverything(p, s, w);
        case OpDrain(order) => DrainQueueEverything(p, s, order, w);
      }
    }
  }

  lemma DrainQueueEverything(p: seq<nat>, s: Td, order: seq<nat>, w: What)
    requires Ok(p, s, {}) && forall k :: 0 <= k < |order| ==> order[k] < |p|
    ensures Everything(DrainQueue(p, s, order), w) == Everything(s, w)
  {
    DrainAllEverything(p, s, order, w);
    DrainEverything(p, DrainAll(p, s, order), 0, w);
    IssueEverything(p, Drain(p, DrainAll(p, s, order), 0), w);
  }

  lemma StartEverything(p: seq<nat>, w: What)
    ensures Everything(Start(p), w) == 0
  {
    HeldNowhere(Start(p).rd.queued, w, |p|);
  }

  lemma StepConserved(p: seq<nat>, s: Td, op: Op, bios: seq<Bio>, w: What)
    requires Ok(p, s, {}) && Everything(s, w) == Tally(bios, w)
    ensures Everything(Apply(p, s, op), w) == Tally(bios + NewBio(p, op), w)
  {
    ApplyEverything(p, s, op, w);
    if op.OpSubmit? && Enabled(p, op) {
      TallySnoc(bios, op.bio, w);
    } else {
      assert bios + NewBio(p, op) == bios;
    }
  }

  /** In every run each submitted bio is queued or issued exactly as often as it was submitted: none is lost or doubled. */
  lemma {:induction false} Conservation(p: seq<nat>, ops: seq<Op>, w: What)
    requires Rooted(p)
    ensures Everything(Run(p, ops), w) == Tally(Submitted(p, ops), w)
  {
    if ops == [] {
      StartEverything(p, w);
    } else {
      var n := |ops| - 1;
      Conservation(p, ops[..n], w);
      StepConserved(p, Run(p, ops[..n]), ops[n], Submitted(p, ops[..n]), w);
    }
  }

  /** In every reachable state td->nr_queued is the sum of the groups' nr_queued, each of which is the number of bios on
      the group's list, and a group with bios is on its parent's pending tree. */
  lemma RunsCountRight(p: seq<nat>, ops: seq<Op>)
    requires Rooted(p)
    ensures var s := Run(p, ops);
            && s.rd.total == SumNr(s.rd.nr, |p|) && s.wr.total == SumNr(s.wr.nr, |p|)
            && (forall i :: 0 < i < |p| ==> s.rd.nr[i] == Held(s.rd.queued[i], All) && s.wr.nr[i] == Held(s.wr.queued[i], All))
            && (forall i :: 0 < i < |p| && (s.rd.queued[i] != [] || s.wr.queued[i] != []) ==> i in s.pend[p[i]])
  {
    var s := Run(p, ops);
    forall i | 0 < i < |p| && (s.rd.queued[i] != [] || s.wr.queued[i] != []) ensures i in s.pend[p[i]] {
      HeldNone(s.rd.queued[i]);
      HeldNone(s.wr.queued[i]);
      assert HasBios(s, i);
    }
  }
}
