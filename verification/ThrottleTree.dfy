/**
 The throttling hierarchy of block/blk-throttle.c: bios wait in groups, move up level by level and leave at the top.
 Counters always agree with what is queued, a group that has bios is on its parent's pending tree, and draining issues
 every queued bio exactly once.
 */
module ThrottleTree {
  import opened Lists
  import opened ThrottleQueue

  /** Service queues are numbered so that a parent comes before its children; 0 is the queue of throtl_data itself. */
  ghost predicate Rooted(p: seq<nat>) {
    |p| > 0 && forall i :: 0 < i < |p| ==> p[i] < i
  }

  /* ---- one direction ---- */

  /** One direction of all service queues: their qnode lists, their nr_queued, and nr_queued of throtl_data. */
  datatype Side = Side(queued: seq<seq<Qn>>, nr: seq<int>, total: int)

  /** The sum of nr_queued over the groups below n. */
  ghost function SumNr(nr: seq<int>, n: nat): int
    requires n <= |nr|
  {
    if n <= 1 then 0 else SumNr(nr, n - 1) + nr[n - 1]
  }

  /** How many of the bios in the first n service queues are counted. */
  ghost function HeldIn(queued: seq<seq<Qn>>, w: What, n: nat): nat
    requires n <= |queued|
  {
    if n == 0 then 0 else HeldIn(queued, w, n - 1) + Held(queued[n - 1], w)
  }

  ghost function SideHeld(x: Side, w: What): nat { HeldIn(x.queued, w, |x.queued|) }

  ghost predicate Shape(p: seq<nat>, x: Side) { |x.queued| == |x.nr| == |p| }

  ghost predicate ListsOk(p: seq<nat>, x: Side) {
    Shape(p, x) && forall i :: 0 <= i < |p| ==> QsOk(x.queued[i])
  }

  /** Counters agree with lists. */
  ghost predicate SideOk(p: seq<nat>, x: Side) {
    && ListsOk(p, x)
    && (forall i :: 0 < i < |p| ==> x.nr[i] == Held(x.queued[i], All))
    && x.total == SumNr(x.nr, |x.nr|)
  }

  lemma {:induction false} SumNrUpdate(nr: seq<int>, i: nat, v: int, n: nat)
    requires n <= |nr| && i < |nr|
    ensures SumNr(nr[i := v], n) == SumNr(nr, n) + (if 0 < i < n then v - nr[i] else 0)
  {
    if n > 1 {
      SumNrUpdate(nr, i, v, n - 1);
    }
  }

  lemma {:induction false} HeldInUpdate(queued: seq<seq<Qn>>, i: nat, qs: seq<Qn>, w: What, n: nat)
    requires n <= |queued| && i < |queued|
    ensures HeldIn(queued[i := qs], w, n) == HeldIn(queued, w, n) + (if i < n then Held(qs, w) - Held(queued[i], w) else 0)
  {
    if n > 0 {
      HeldInUpdate(queued, i, qs, w, n - 1);
    }
  }

  /** The list part of throtl_add_bio_tg. */
  function Put(x: Side, i: nat, src: nat, bio: Bio): Side
    requires i < |x.queued| && i < |x.nr|
  {
    x.(queued := x.queued[i := AddBio(x.queued[i], src, bio)], nr := x.nr[i := x.nr[i] + 1])
  }

  /** Popping a bio off a group's list. */
  function Take(x: Side, i: nat): Side
    requires i < |x.queued| && i < |x.nr| && x.queued[i] != [] && x.queued[i][0].bios != []
  {
    x.(queued := x.queued[i := Popped(x.queued[i])], nr := x.nr[i := x.nr[i] - 1])
  }

  /** tg_dispatch_one_bio: the next bio of group i goes to its parent, or to throtl_data and out of the count. */
  function MoveUp(p: seq<nat>, x: Side, i: nat): (r: Side)
    requires Shape(p, x) && 0 < i < |p| && p[i] < |p|
    requires x.queued[i] != [] && x.queued[i][0].bios != []
    ensures Shape(p, r)
  {
    var bio := x.queued[i][0].bios[0];
    var y := Take(x, i);
    if p[i] == 0 then y.(queued := y.queued[0 := AddBio(y.queued[0], i, bio)], total := y.total - 1)
    else Put(y, p[i], i, bio)
  }

  /** Counters and lists apart from the total. */
  lemma PutOk(p: seq<nat>, x: Side, i: nat, src: nat, bio: Bio)
    requires SideOk(p, x) && 0 < i < |p|
    ensures SideOk(p, Put(x, i, src, bio).(total := x.total + 1))
  {
    AddBioHeld(x.queued[i], src, bio, All);
    AddBioOk(x.queued[i], src, bio);
    SumNrUpdate(x.nr, i, x.nr[i] + 1, |x.nr|);
  }

  lemma TakeOk(p: seq<nat>, x: Side, i: nat)
    requires SideOk(p, x) && 0 < i < |p| && x.queued[i] != []
    ensures SideOk(p, Take(x, i).(total := x.total - 1))
  {
    PoppedHeld(x.queued[i], All);
    PoppedOk(x.queued[i]);
    SumNrUpdate(x.nr, i, x.nr[i] - 1, |x.nr|);
  }

  lemma TopOk(p: seq<nat>, x: Side, src: nat, bio: Bio)
    requires SideOk(p, x) && |p| > 0
    ensures SideOk(p, x.(queued := x.queued[0 := AddBio(x.queued[0], src, bio)]))
  {
    AddBioOk(x.queued[0], src, bio);
  }

  /** Moving a bio up keeps every counter right. */
  lemma MoveUpOk(p: seq<nat>, x: Side, i: nat)
    requires SideOk(p, x) && 0 < i < |p| && p[i] < i && x.queued[i] != []
    ensures SideOk(p, MoveUp(p, x, i))
  {
    var bio := x.queued[i][0].bios[0];
    TakeOk(p, x, i);
    var y := Take(x, i).(total := x.total - 1);
    if p[i] == 0 {
      TopOk(p, y, i, bio);
    } else {
      PutOk(p, y, p[i], i, bio);
    }
  }

  /** Moving a bio up neither loses nor doubles one. */
  lemma MoveUpHeld(p: seq<nat>, x: Side, i: nat, w: What)
    requires Shape(p, x) && 0 < i < |p| && p[i] < i && x.queued[i] != [] && x.queued[i][0].bios != []
    ensures SideHeld(MoveUp(p, x, i), w) == SideHeld(x, w)
    ensures Held(MoveUp(p, x, i).queued[i], w) == Held(x.queued[i], w) - One(x.queued[i][0].bios[0], w)
  {
    var bio := x.queued[i][0].bios[0];
    var q1 := x.queued[i := Popped(x.queued[i])];
    PoppedHeld(x.queued[i], w);
    HeldInUpdate(x.queued, i, Popped(x.queued[i]), w, |x.queued|);
    AddBioHeld(q1[p[i]], i, bio, w);
    HeldInUpdate(q1, p[i], AddBio(q1[p[i]], i, bio), w, |q1|);
  }

  lemma MoveUpLists(p: seq<nat>, x: Side, i: nat)
    requires ListsOk(p, x) && 0 < i < |p| && p[i] < i && x.queued[i] != []
    ensures ListsOk(p, MoveUp(p, x, i))
  {
    var bio := x.queued[i][0].bios[0];
    PoppedOk(x.queued[i]);
    AddBioOk(x.queued[p[i]], i, bio);
  }

  /** The next n bios of group i move up, or as many as there are. */
  function MoveN(p: seq<nat>, x: Side, i: nat, n: nat): (r: Side)
    requires ListsOk(p, x) && 0 < i < |p| && p[i] < i
    ensures ListsOk(p, r)
    decreases n
  {
    if n == 0 || x.queued[i] == [] then x
    else
      MoveUpLists(p, x, i);
      MoveN(p, MoveUp(p, x, i), i, n - 1)
  }

  lemma {:induction false} MoveNHeld(p: seq<nat>, x: Side, i: nat, n: nat, w: What)
    requires ListsOk(p, x) && 0 < i < |p| && p[i] < i
    ensures SideHeld(MoveN(p, x, i, n), w) == SideHeld(x, w)
    decreases n
  {
    if n > 0 && x.queued[i] != [] {
      MoveUpLists(p, x, i);
      MoveUpHeld(p, x, i, w);
      MoveNHeld(p, MoveUp(p, x, i), i, n - 1, w);
    }
  }

  /** A group whose bios all move up is left empty. */
  lemma {:induction false} MoveAll(p: seq<nat>, x: Side, i: nat, n: nat)
    requires SideOk(p, x) && 0 < i < |p| && p[i] < i && n >= x.nr[i]
    ensures MoveN(p, x, i, n).queued[i] == [] && MoveN(p, x, i, n).nr[i] == 0
    decreases n
  {
    HeldNone(x.queued[i]);
    if n > 0 && x.queued[i] != [] {
      MoveUpOk(p, x, i);
      MoveAll(p, MoveUp(p, x, i), i, n - 1);
    }
  }

  /** From x to y, `most` bios of group i have moved to its parent, or all it has if they are fewer, and no other list has
      changed. */
  ghost predicate Moved(p: seq<nat>, x: Side, y: Side, i: nat, most: nat)
    requires Shape(p, x) && Shape(p, y) && 0 < i < |p| && p[i] < i
  {
    var k := if most < Held(x.queued[i], All) then most else Held(x.queued[i], All);
    && Held(y.queued[i], All) == Held(x.queued[i], All) - k
    && Held(y.queued[p[i]], All) == Held(x.queued[p[i]], All) + k
    && (forall c :: 0 <= c < |p| && c != i && c != p[i] ==> y.queued[c] == x.queued[c])
  }

  lemma OneMoved(p: seq<nat>, x: Side, i: nat)
    requires ListsOk(p, x) && 0 < i < |p| && p[i] < i && x.queued[i] != []
    ensures Moved(p, x, MoveUp(p, x, i), i, 1)
  {
    var bio := x.queued[i][0].bios[0];
    PoppedHeld(x.queued[i], All);
    AddBioHeld(x.queued[p[i]], i, bio, All);
  }

  lemma MovedTwice(p: seq<nat>, x: Side, y: Side, z: Side, i: nat, most: nat)
    requires Shape(p, x) && Shape(p, y) && Shape(p, z) && 0 < i < |p| && p[i] < i && Held(x.queued[i], All) > 0
    requires Moved(p, x, y, i, 1) && Moved(p, y, z, i, most)
    ensures Moved(p, x, z, i, most + 1)
  {
  }

  lemma {:induction false} MoveNMoved(p: seq<nat>, x: Side, i: nat, n: nat)
    requires ListsOk(p, x) && 0 < i < |p| && p[i] < i
    ensures Moved(p, x, MoveN(p, x, i, n), i, n)
    decreases n
  {
    HeldNone(x.queued[i]);
    if n > 0 && x.queued[i] != [] {
      MoveUpLists(p, x, i);
      OneMoved(p, x, i);
      var y := MoveUp(p, x, i);
      MoveNMoved(p, y, i, n - 1);
      MovedTwice(p, x, y, MoveN(p, y, i, n - 1), i, n - 1);
    }
  }
}
