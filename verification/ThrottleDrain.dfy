/**
 All of throtl_data (block/blk-throttle.c): both directions, the pending trees in order of dispatch time, and the moves of
 bios from group to group that submission, dispatch and drain are made of. When a group may dispatch is the subject of
 ThrottleRate; here the verdicts are inputs.
 */
module ThrottleDrain {
  import opened Lists
  import opened ThrottleQueue
  import opened ThrottleTree

  datatype Dir = Read | Write

  /** pend[n] is the pending tree of service queue n in order of disptime; a group is on it iff THROTL_TG_PENDING is set.
      `issued` is what has left at the top. */
  datatype Td = Td(rd: Side, wr: Side, pend: seq<seq<nat>>, disptime: seq<nat>, wasEmpty: seq<bool>, issued: seq<Bio>) {
    function At(d: Dir): Side { if d == Read then rd else wr }

    function With(d: Dir, x: Side): Td { if d == Read then this.(rd := x) else this.(wr := x) }
  }

  ghost predicate HasBios(s: Td, i: nat)
    requires i < |s.rd.nr| && i < |s.wr.nr|
  {
    s.rd.nr[i] > 0 || s.wr.nr[i] > 0
  }

  ghost predicate Sized(p: seq<nat>, s: Td) {
    Rooted(p) && Shape(p, s.rd) && Shape(p, s.wr) && |s.pend| == |s.disptime| == |s.wasEmpty| == |p|
  }

  function Time(disptime: seq<nat>, i: nat): nat { if i < |disptime| then disptime[i] else 0 }

  /** A pending tree is in order of dispatch time. */
  ghost predicate ByTime(t: seq<nat>, disptime: seq<nat>) {
    t != [] ==> (forall c :: c in t[1..] ==> Time(disptime, t[0]) <= Time(disptime, c)) && ByTime(t[1..], disptime)
  }

  /** The pending tree of n: some of its children, each once, the earliest first. */
  ghost predicate PendOk(p: seq<nat>, pend: seq<seq<nat>>, disptime: seq<nat>, n: nat)
    requires n < |pend|
  {
    NoDup(pend[n]) && (forall c :: c in pend[n] ==> 0 < c < |p| && p[c] == n) && ByTime(pend[n], disptime)
  }

  /** Counters agree with the lists, pending trees are in order, and every group with bios is pending, groups in `skip`
      apart. */
  ghost predicate Ok(p: seq<nat>, s: Td, skip: set<nat>) {
    && Sized(p, s) && SideOk(p, s.rd) && SideOk(p, s.wr)
    && (forall n :: 0 <= n < |p| ==> PendOk(p, s.pend, s.disptime, n))
    && (forall i :: 0 < i < |p| && i !in skip && HasBios(s, i) ==> i in s.pend[p[i]])
  }

  /** How many of the bios that are queued anywhere, or have been issued, are counted. */
  ghost function Everything(s: Td, w: What): nat { SideHeld(s.rd, w) + SideHeld(s.wr, w) + Tally(s.issued, w) }

  /* ---- pending trees ---- */

  /** tg_service_queue_add: to the right of every group whose disptime is not later. */
  function InsertByTime(t: seq<nat>, disptime: seq<nat>, i: nat): (r: seq<nat>)
    ensures forall c :: c in r <==> c in t || c == i
    ensures NoDup(t) && i !in t ==> NoDup(r)
  {
    if t == [] then [i]
    else if Time(disptime, i) < Time(disptime, t[0]) then [i] + t
    else
      assert NoDup(t) ==> NoDup(t[1..]) && t[0] !in t[1..];
      [t[0]] + InsertByTime(t[1..], disptime, i)
  }

  lemma {:induction false} InsertByTimeOk(t: seq<nat>, disptime: seq<nat>, i: nat)
    requires ByTime(t, disptime)
    ensures ByTime(InsertByTime(t, disptime, i), disptime)
  {
    if t != [] {
      var r := InsertByTime(t, disptime, i);
      if Time(disptime, i) < Time(disptime, t[0]) {
        assert r[1..] == t;
        assert forall c :: c in t ==> c == t[0] || c in t[1..];
      } else {
        InsertByTimeOk(t[1..], disptime, i);
        assert r[1..] == InsertByTime(t[1..], disptime, i);
      }
    }
  }

  lemma {:induction false} RemoveByTime(t: seq<nat>, disptime: seq<nat>, i: nat)
    requires ByTime(t, disptime)
    ensures ByTime(Remove(t, i), disptime)
  {
    if t != [] {
      RemoveByTime(t[1..], disptime, i);
      if t[0] != i {
        assert Remove(t, i)[1..] == Remove(t[1..], i);
      }
    }
  }

  /** A new dispatch time for a group that is not on the tree. */
  lemma {:induction false} RetimeOther(t: seq<nat>, disptime: seq<nat>, i: nat, v: nat)
    requires ByTime(t, disptime) && i < |disptime| && i !in t
    ensures ByTime(t, disptime[i := v])
  {
    if t != [] {
      RetimeOther(t[1..], disptime, i, v);
    }
  }

  /** throtl_enqueue_tg */
  function Enqueue(p: seq<nat>, s: Td, i: nat): Td
    requires i < |p| && p[i] < |s.pend|
  {
    if i in s.pend[p[i]] then s
    else s.(pend := s.pend[p[i] := InsertByTime(s.pend[p[i]], s.disptime, i)])
  }

  /** throtl_dequeue_tg */
  function Dequeue(p: seq<nat>, s: Td, i: nat): Td
    requires i < |p| && p[i] < |s.pend|
  {
    s.(pend := s.pend[p[i] := Remove(s.pend[p[i]], i)])
  }

  /** tg_update_disptime, with the new dispatch time. */
  function UpdateDisptime(p: seq<nat>, s: Td, i: nat, t: nat): Td
    requires Sized(p, s) && 0 < i < |p|
  {
    var s1 := Dequeue(p, s, i);
    Enqueue(p, s1.(disptime := s1.disptime[i := t]), i).(wasEmpty := s.wasEmpty[i := false])
  }

  /** Giving one pending tree a new content. */
  lemma PendUpdateOk(p: seq<nat>, s: Td, n: nat, t: seq<nat>, pend: seq<seq<nat>>)
    requires Sized(p, s) && (forall m :: 0 <= m < |p| ==> PendOk(p, s.pend, s.disptime, m)) && n < |p|
    requires NoDup(t) && (forall c :: c in t ==> 0 < c < |p| && p[c] == n) && ByTime(t, s.disptime)
    requires pend == s.pend[n := t]
    ensures forall m :: 0 <= m < |p| ==> PendOk(p, pend, s.disptime, m)
  {
    forall m | 0 <= m < |p| ensures PendOk(p, pend, s.disptime, m) {
      assert PendOk(p, s.pend, s.disptime, m);
    }
  }

  lemma EnqueueOk(p: seq<nat>, s: Td, i: nat, skip: set<nat>)
    requires Ok(p, s, skip) && 0 < i < |p|
    ensures Ok(p, Enqueue(p, s, i), skip - {i})
  {
    assert PendOk(p, s.pend, s.disptime, p[i]);
    if i !in s.pend[p[i]] {
      InsertByTimeOk(s.pend[p[i]], s.disptime, i);
      PendUpdateOk(p, s, p[i], InsertByTime(s.pend[p[i]], s.disptime, i), Enqueue(p, s, i).pend);
    }
  }

  lemma DequeueOk(p: seq<nat>, s: Td, i: nat, skip: set<nat>)
    requires Ok(p, s, skip) && 0 < i < |p|
    ensures Ok(p, Dequeue(p, s, i), skip + {i}) && i !in Dequeue(p, s, i).pend[p[i]]
  {
    assert PendOk(p, s.pend, s.disptime, p[i]);
    RemoveByTime(s.pend[p[i]], s.disptime, i);
    PendUpdateOk(p, s, p[i], Remove(s.pend[p[i]], i), Dequeue(p, s, i).pend);
  }

  lemma RetimeOk(p: seq<nat>, s: Td, i: nat, t: nat, skip: set<nat>)
    requires Ok(p, s, skip) && 0 < i < |p| && i !in s.pend[p[i]]
    ensures Ok(p, s.(disptime := s.disptime[i := t]), skip)
  {
    var times := s.disptime[i := t];
    forall n | 0 <= n < |p| ensures PendOk(p, s.pend, times, n) {
      assert PendOk(p, s.pend, s.disptime, n);
      RetimeOther(s.pend[n], s.disptime, i, t);
    }
  }

  lemma UpdateDisptimeOk(p: seq<nat>, s: Td, i: nat, t: nat, skip: set<nat>)
    requires Ok(p, s, skip) && 0 < i < |p| && skip <= {i}
    ensures Ok(p, UpdateDisptime(p, s, i, t), {})
  {
    var s1 := Dequeue(p, s, i);
    DequeueOk(p, s, i, skip);
    assert skip + {i} == {i};
    RetimeOk(p, s1, i, t, {i});
    EnqueueOk(p, s1.(disptime := s1.disptime[i := t]), i, {i});
    FlagsOk(p, Enqueue(p, s1.(disptime := s1.disptime[i := t]), i), s.wasEmpty[i := false]);
  }

  lemma FlagsOk(p: seq<nat>, s: Td, wasEmpty: seq<bool>)
    requires Ok(p, s, {}) && |wasEmpty| == |s.wasEmpty|
    ensures Ok(p, s.(wasEmpty := wasEmpty), {})
  {
    var r := s.(wasEmpty := wasEmpty);
    forall n | 0 <= n < |p| ensures PendOk(p, r.pend, r.disptime, n) {
      assert PendOk(p, s.pend, s.disptime, n);
    }
  }

  /* ---- moving up ---- */

  /** The receiving end of a move: throtl_add_bio_tg on the parent, list apart. */
  function Notice(p: seq<nat>, s: Td, d: Dir, i: nat): Td
    requires Sized(p, s) && 0 < i < |p|
  {
    Enqueue(p, if s.At(d).nr[i] == 0 then s.(wasEmpty := s.wasEmpty[i := true]) else s, i)
  }

  /** tg_dispatch_one_bio */
  function DispatchOne(p: seq<nat>, s: Td, d: Dir, i: nat): (r: Td)
    requires Sized(p, s) && ListsOk(p, s.At(d)) && 0 < i < |p| && s.At(d).queued[i] != []
    ensures Sized(p, r) && ListsOk(p, r.At(d))
  {
    MoveUpLists(p, s.At(d), i);
    var s1 := if p[i] == 0 then s else Notice(p, s, d, p[i]);
    s1.With(d, MoveUp(p, s.At(d), i))
  }

  lemma NoticeOk(p: seq<nat>, s: Td, d: Dir, i: nat, skip: set<nat>)
    requires Ok(p, s, skip) && 0 < i < |p|
    ensures var r := Notice(p, s, d, i);
            Ok(p, r, skip - {i}) && i in r.pend[p[i]] && r.rd == s.rd && r.wr == s.wr && r.issued == s.issued
  {
    var s1 := if s.At(d).nr[i] == 0 then s.(wasEmpty := s.wasEmpty[i := true]) else s;
    assert Ok(p, s1, skip) by {
      forall n | 0 <= n < |p| ensures PendOk(p, s1.pend, s1.disptime, n) {
        assert PendOk(p, s.pend, s.disptime, n);
      }
    }
    EnqueueOk(p, s1, i, skip);
  }

  /** Replacing one side: groups that have more bios than before must be pending or skipped. */
  lemma WithOk(p: seq<nat>, s: Td, d: Dir, x: Side, skip: set<nat>)
    requires Ok(p, s, skip) && SideOk(p, x)
    requires forall i :: 0 < i < |p| && i !in skip && x.nr[i] > s.At(d).nr[i] ==> i in s.pend[p[i]]
    ensures Ok(p, s.With(d, x), skip)
  {
    var r := s.With(d, x);
    forall n | 0 <= n < |p| ensures PendOk(p, r.pend, r.disptime, n) {
      assert PendOk(p, s.pend, s.disptime, n);
    }
    forall i | 0 < i < |p| && i !in skip && HasBios(r, i) ensures i in r.pend[p[i]] {
      assert HasBios(s, i) || x.nr[i] > s.At(d).nr[i] by {
        SideNotNegative(p, s.At(d), i);
      }
    }
  }

  lemma SideNotNegative(p: seq<nat>, x: Side, i: nat)
    requires SideOk(p, x) && 0 < i < |p|
    ensures x.nr[i] >= 0
  {
  }

  lemma DispatchOneOk(p: seq<nat>, s: Td, d: Dir, i: nat)
    requires Ok(p, s, {i}) && 0 < i < |p| && s.At(d).queued[i] != []
    ensures Ok(p, DispatchOne(p, s, d, i), {i})
  {
    MoveUpOk(p, s.At(d), i);
    var x := MoveUp(p, s.At(d), i);
    assert forall j :: 0 < j < |p| && j != i && j != p[i] ==> x.nr[j] == s.At(d).nr[j];
    if p[i] == 0 {
      WithOk(p, s, d, x, {i});
    } else {
      NoticeOk(p, s, d, p[i], {i});
      assert {i} - {p[i]} == {i};
      WithOk(p, Notice(p, s, d, p[i]), d, x, {i});
    }
  }

  /** Up to n bios of group i move up. */
  function DispatchN(p: seq<nat>, s: Td, d: Dir, i: nat, n: nat): (r: Td)
    requires Sized(p, s) && ListsOk(p, s.At(d)) && 0 < i < |p|
    ensures Sized(p, r) && ListsOk(p, r.At(d))
    decreases n
  {
    if n == 0 || s.At(d).queued[i] == [] then s
    else DispatchN(p, DispatchOne(p, s, d, i), d, i, n - 1)
  }

  lemma {:induction false} DispatchNOk(p: seq<nat>, s: Td, d: Dir, i: nat, n: nat)
    requires Ok(p, s, {i}) && 0 < i < |p|
    ensures Ok(p, DispatchN(p, s, d, i, n), {i})
    decreases n
  {
    if n > 0 && s.At(d).queued[i] != [] {
      DispatchOneOk(p, s, d, i);
      DispatchNOk(p, DispatchOne(p, s, d, i), d, i, n - 1);
    }
  }

  /** What moving up leaves alone: the other direction, what was issued, and every pending tree but the grandparent's. */
  ghost predicate Untouched(p: seq<nat>, s: Td, r: Td, d: Dir, i: nat)
    requires 0 < i < |p| && p[i] < |p|
  {
    && (d == Read ==> r.wr == s.wr) && (d == Write ==> r.rd == s.rd) && r.issued == s.issued
    && |r.pend| == |s.pend|
    && (forall n :: 0 <= n < |s.pend| && (p[i] == 0 || n != p[p[i]]) ==> r.pend[n] == s.pend[n])
  }

  lemma OneUntouched(p: seq<nat>, s: Td, d: Dir, i: nat)
    requires Sized(p, s) && ListsOk(p, s.At(d)) && 0 < i < |p| && s.At(d).queued[i] != []
    ensures var r := DispatchOne(p, s, d, i); r.At(d) == MoveUp(p, s.At(d), i) && Untouched(p, s, r, d, i)
  {
  }

  lemma UntouchedTwice(p: seq<nat>, a: Td, b: Td, c: Td, d: Dir, i: nat)
    requires 0 < i < |p| && p[i] < |p| && Untouched(p, a, b, d, i) && Untouched(p, b, c, d, i)
    ensures Untouched(p, a, c, d, i)
  {
  }

  lemma {:induction false} DispatchNUntouched(p: seq<nat>, s: Td, d: Dir, i: nat, n: nat)
    requires Sized(p, s) && ListsOk(p, s.At(d)) && 0 < i < |p|
    ensures Untouched(p, s, DispatchN(p, s, d, i, n), d, i)
    decreases n
  {
    if n > 0 && s.At(d).queued[i] != [] {
      OneUntouched(p, s, d, i);
      var s1 := DispatchOne(p, s, d, i);
      DispatchNUntouched(p, s1, d, i, n - 1);
      UntouchedTwice(p, s, s1, DispatchN(p, s1, d, i, n - 1), d, i);
    }
  }

  lemma {:induction false} DispatchNSide(p: seq<nat>, s: Td, d: Dir, i: nat, n: nat)
    requires Sized(p, s) && ListsOk(p, s.At(d)) && 0 < i < |p|
    ensures DispatchN(p, s, d, i, n).At(d) == MoveN(p, s.At(d), i, n)
    decreases n
  {
    if n > 0 && s.At(d).queued[i] != [] {
      OneUntouched(p, s, d, i);
      DispatchNSide(p, DispatchOne(p, s, d, i), d, i, n - 1);
    }
  }

  lemma EmptiedOk(p: seq<nat>, s: Td, i: nat)
    requires Ok(p, s, {i}) && 0 < i < |p| && !HasBios(s, i)
    ensures Ok(p, s, {})
  {
  }
}
