/**
 The qnode lists of block/blk-throttle.c: bios are kept apart by where they came from and popped round-robin, so that no
 source hogs the dispatch window.
 */
module ThrottleQueue {

  type Bio = nat

  /** struct throtl_qnode on a service queue: its source, and the bios it holds. An empty qnode is on no list. */
  datatype Qn = Qn(src: nat, bios: seq<Bio>)

  ghost predicate QsOk(qs: seq<Qn>) {
    && (forall i :: 0 <= i < |qs| ==> qs[i].bios != [])
    && (forall i, j :: 0 <= i < j < |qs| ==> qs[i].src != qs[j].src)
  }

  /** What to count: all bios, or one bio. */
  datatype What = All | Only(bio: Bio)

  ghost function One(bio: Bio, w: What): nat { if w == All || w == Only(bio) then 1 else 0 }

  ghost function Tally(s: seq<Bio>, w: What): nat {
    if s == [] then 0 else Tally(s[..|s| - 1], w) + One(s[|s| - 1], w)
  }

  /** How many of the bios on a list of qnodes are counted. */
  ghost function Held(qs: seq<Qn>, w: What): nat {
    if qs == [] then 0 else Held(qs[..|qs| - 1], w) + Tally(qs[|qs| - 1].bios, w)
  }

  /** The bios of one source, in order. */
  ghost function From(qs: seq<Qn>, src: nat): seq<Bio> {
    if qs == [] then [] else if qs[|qs| - 1].src == src then qs[|qs| - 1].bios else From(qs[..|qs| - 1], src)
  }

  /** The position of the qnode of a source, or the length of the list. */
  function Find(qs: seq<Qn>, src: nat): (k: nat)
    ensures k <= |qs| && (k < |qs| ==> qs[k].src == src) && (forall i :: 0 <= i < k ==> qs[i].src != src)
  {
    if qs == [] then 0
    else if qs[0].src == src then 0
    else
      var k := Find(qs[1..], src);
      assert forall i :: 0 <= i < k ==> qs[i + 1] == qs[1..][i];
      assert forall i :: 0 < i < k + 1 ==> qs[i] == qs[1..][i - 1];
      k + 1
  }

  /** throtl_qnode_add_bio */
  function AddBio(qs: seq<Qn>, src: nat, bio: Bio): seq<Qn> {
    var k := Find(qs, src);
    if k < |qs| then qs[k := Qn(src, qs[k].bios + [bio])] else qs + [Qn(src, [bio])]
  }

  /** throtl_pop_queued: what is left; the first qnode is dropped if it is empty now, else it goes to the end. */
  function Popped(qs: seq<Qn>): seq<Qn>
    requires qs != [] && qs[0].bios != []
  {
    if |qs[0].bios| == 1 then qs[1..] else qs[1..] + [Qn(qs[0].src, qs[0].bios[1..])]
  }

  /* ---- adding ---- */

  lemma TallySnoc(s: seq<Bio>, bio: Bio, w: What)
    ensures Tally(s + [bio], w) == Tally(s, w) + One(bio, w)
  {
    assert (s + [bio])[..|s|] == s;
  }

  lemma {:induction false} TallyHead(s: seq<Bio>, w: What)
    requires s != []
    ensures Tally(s, w) == One(s[0], w) + Tally(s[1..], w)
  {
    var n := |s| - 1;
    if n > 0 {
      assert s[1..][..n - 1] == s[..n][1..];
      TallyHead(s[..n], w);
    } else {
      assert s[..0] == [] && s[1..] == [];
    }
  }

  lemma {:induction false} TallyAll(s: seq<Bio>)
    ensures Tally(s, All) == |s|
  {
    if s != [] {
      TallyAll(s[..|s| - 1]);
    }
  }

  lemma HeldSnoc(qs: seq<Qn>, q: Qn, w: What)
    ensures Held(qs + [q], w) == Held(qs, w) + Tally(q.bios, w)
  {
    assert (qs + [q])[..|qs|] == qs;
  }

  lemma {:induction false} HeldUpdate(qs: seq<Qn>, k: nat, q: Qn, w: What)
    requires k < |qs|
    ensures Held(qs[k := q], w) == Held(qs, w) - Tally(qs[k].bios, w) + Tally(q.bios, w)
  {
    var n := |qs| - 1;
    if k == n {
      assert qs[k := q][..n] == qs[..n];
    } else {
      assert qs[k := q][..n] == qs[..n][k := q];
      HeldUpdate(qs[..n], k, q, w);
    }
  }

  /** Adding a bio adds exactly that bio, */
  lemma AddBioHeld(qs: seq<Qn>, src: nat, bio: Bio, w: What)
    ensures Held(AddBio(qs, src, bio), w) == Held(qs, w) + One(bio, w)
  {
    var k := Find(qs, src);
    if k < |qs| {
      HeldUpdate(qs, k, Qn(src, qs[k].bios + [bio]), w);
      TallySnoc(qs[k].bios, bio, w);
    } else {
      HeldSnoc(qs, Qn(src, [bio]), w);
      assert [bio][..0] == [];
    }
  }

  /** and keeps one non-empty qnode for each source. */
  lemma AddBioOk(qs: seq<Qn>, src: nat, bio: Bio)
    requires QsOk(qs)
    ensures QsOk(AddBio(qs, src, bio))
  {
  }

  lemma {:induction false} FromAt(qs: seq<Qn>, k: nat)
    requires QsOk(qs) && k < |qs|
    ensures From(qs, qs[k].src) == qs[k].bios
  {
    var n := |qs| - 1;
    if k < n {
      assert qs[..n][k] == qs[k];
      FromAt(qs[..n], k);
    }
  }

  lemma {:induction false} FromNone(qs: seq<Qn>, src: nat)
    requires forall i :: 0 <= i < |qs| ==> qs[i].src != src
    ensures From(qs, src) == []
  {
    if qs != [] {
      FromNone(qs[..|qs| - 1], src);
    }
  }

  lemma {:induction false} FromUpdate(qs: seq<Qn>, k: nat, q: Qn, src: nat)
    requires k < |qs| && q.src == qs[k].src && src != q.src
    ensures From(qs[k := q], src) == From(qs, src)
  {
    var n := |qs| - 1;
    if k == n {
      assert qs[k := q][..n] == qs[..n];
    } else {
      assert qs[k := q][..n] == qs[..n][k := q];
      FromUpdate(qs[..n], k, q, src);
    }
  }

  /** The bio goes behind the others of its source, and other sources are left alone. */
  lemma AddBioFrom(qs: seq<Qn>, src: nat, bio: Bio, other: nat)
    requires QsOk(qs)
    ensures From(AddBio(qs, src, bio), src) == From(qs, src) + [bio]
    ensures other != src ==> From(AddBio(qs, src, bio), other) == From(qs, other)
  {
    var k := Find(qs, src);
    if k < |qs| {
      FromAt(qs, k);
      AddBioOk(qs, src, bio);
      FromAt(AddBio(qs, src, bio), k);
      if other != src {
        FromUpdate(qs, k, Qn(src, qs[k].bios + [bio]), other);
      }
    } else {
      FromNone(qs, src);
      assert (qs + [Qn(src, [bio])])[..|qs|] == qs;
    }
  }

  /* ---- popping ---- */

  lemma {:induction false} HeldHead(qs: seq<Qn>, w: What)
    requires qs != []
    ensures Held(qs, w) == Tally(qs[0].bios, w) + Held(qs[1..], w)
  {
    var n := |qs| - 1;
    if n == 0 {
      assert qs[..0] == [] && qs[1..] == [];
    } else {
      assert qs[1..][..n - 1] == qs[..n][1..];
      HeldHead(qs[..n], w);
    }
  }

  /** Popping takes the first bio of the first qnode and nothing else, */
  lemma PoppedHeld(qs: seq<Qn>, w: What)
    requires qs != [] && qs[0].bios != []
    ensures Held(qs, w) == Held(Popped(qs), w) + One(qs[0].bios[0], w)
  {
    HeldHead(qs, w);
    TallyHead(qs[0].bios, w);
    if |qs[0].bios| == 1 {
      assert qs[0].bios[1..] == [];
    } else {
      HeldSnoc(qs[1..], Qn(qs[0].src, qs[0].bios[1..]), w);
    }
  }

  /** and keeps one non-empty qnode for each source. */
  lemma PoppedOk(qs: seq<Qn>)
    requires QsOk(qs) && qs != []
    ensures QsOk(Popped(qs))
  {
    var r := Popped(qs);
    forall i | 0 <= i < |r| ensures r[i].bios != [] && (i < |qs| - 1 ==> r[i] == qs[i + 1]) {
    }
  }

  /** A list that holds nothing is empty. */
  lemma HeldNone(qs: seq<Qn>)
    requires QsOk(qs)
    ensures Held(qs, All) == 0 <==> qs == []
  {
    if qs != [] {
      TallyAll(qs[|qs| - 1].bios);
    }
  }

  /* ---- round robin ---- */

  /** The bios of k pops in a row, as long as there are any. */
  ghost function Pops(qs: seq<Qn>, k: nat): seq<Bio>
    requires QsOk(qs)
    decreases k
  {
    if k == 0 || qs == [] then []
    else
      PoppedOk(qs);
      [qs[0].bios[0]] + Pops(Popped(qs), k - 1)
  }

  /** The first bio of every qnode, in list order. */
  ghost function Heads(qs: seq<Qn>): seq<Bio>
    requires QsOk(qs)
  {
    seq(|qs|, i requires 0 <= i < |qs| => qs[i].bios[0])
  }

  lemma FirstPart(a: seq<Qn>, b: seq<Qn>)
    requires QsOk(a + b)
    ensures QsOk(a)
  {
    forall i | 0 <= i < |a| ensures (a + b)[i] == a[i] {
    }
  }

  /** Where the first of `a` goes: behind `b`, if it has bios left. */
  lemma PopFront(a: seq<Qn>, b: seq<Qn>) returns (left: seq<Qn>)
    requires QsOk(a + b) && a != []
    ensures (a + b)[0] == a[0] && a[0].bios != []
    ensures QsOk(a[1..] + left) && Popped(a + b) == a[1..] + left
  {
    PoppedOk(a + b);
    assert (a + b)[0] == a[0];
    left := if |a[0].bios| == 1 then b else b + [Qn(a[0].src, a[0].bios[1..])];
    assert (a + b)[1..] == a[1..] + b;
    assert Popped(a + b) == a[1..] + left;
  }

  lemma {:induction false} PopsHeads(a: seq<Qn>, b: seq<Qn>)
    requires QsOk(a + b)
    ensures QsOk(a) && Pops(a + b, |a|) == Heads(a)
    decreases |a|
  {
    FirstPart(a, b);
    if a != [] {
      var left := PopFront(a, b);
      PopsHeads(a[1..], left);
      assert Heads(a) == [a[0].bios[0]] + Heads(a[1..]);
    }
  }

  /** Round robin: as many pops as there are sources serve every source exactly once, in list order. */
  lemma EverySourceOnce(qs: seq<Qn>)
    requires QsOk(qs)
    ensures Pops(qs, |qs|) == Heads(qs)
  {
    assert qs + [] == qs;
    PopsHeads(qs, []);
  }
}
