/**
 Where a submitted bio ends up (blk_throtl_bio in block/blk-throttle.c): it climbs from its group towards the top and is
 held at the first group that has bios of its direction waiting or whose limits it exceeds, behind those that came the same
 way; if there is no such group it is issued at once.
 */
module ThrottleSubmit {
  import opened Lists
  import opened ThrottleQueue
  import opened ThrottleTree
  import opened ThrottleDrain
  import opened ThrottleRuns

  /** The group k levels above i; 0 is throtl_data itself. */
  function Up(p: seq<nat>, i: nat, k: nat): (g: nat)
    requires Rooted(p) && i < |p|
    ensures g <= i
    decreases k
  {
    if k == 0 || i == 0 then i else Up(p, p[i], k - 1)
  }

  /** The first k groups on the way up have nothing waiting and let the bio pass. */
  ghost predicate Clear(p: seq<nat>, s: Td, d: Dir, i: nat, pass: seq<bool>, k: nat)
    requires Sized(p, s) && i < |p|
    decreases k
  {
    k > 0 ==> i > 0 && s.At(d).nr[i] <= 0 && pass != [] && pass[0] && Clear(p, s, d, p[i], pass[1..], k - 1)
  }

  /** From s to r, `bio` has gone behind those that came to group g from `src`, and no other list has changed. */
  ghost predicate Queued(p: seq<nat>, s: Td, r: Td, d: Dir, g: nat, src: nat, bio: Bio)
    requires Sized(p, s) && Sized(p, r) && g < |p|
  {
    && From(r.At(d).queued[g], src) == From(s.At(d).queued[g], src) + [bio]
    && (forall o :: o != src ==> From(r.At(d).queued[g], o) == From(s.At(d).queued[g], o))
    && (forall c :: 0 <= c < |p| && c != g ==> r.At(d).queued[c] == s.At(d).queued[c])
    && r.At(if d == Read then Write else Read) == s.At(if d == Read then Write else Read) && r.issued == s.issued
  }

  lemma QueueBioQueues(p: seq<nat>, s: Td, d: Dir, i: nat, src: nat, bio: Bio, t: nat)
    requires Sized(p, s) && ListsOk(p, s.At(d)) && 0 < i < |p|
    ensures var r := QueueBio(p, s, d, i, src, bio, t); Sized(p, r) && Queued(p, s, r, d, i, src, bio)
  {
    QueueBioSides(p, s, d, i, src, bio, t);
    forall o ensures From(AddBio(s.At(d).queued[i], src, bio), src) == From(s.At(d).queued[i], src) + [bio]
      ensures o != src ==> From(AddBio(s.At(d).queued[i], src, bio), o) == From(s.At(d).queued[i], o)
    {
      AddBioFrom(s.At(d).queued[i], src, bio, o);
    }
  }

  /** A bio that every group on the way up lets pass is issued, and nothing else changes. */
  lemma {:induction false} PassesAll(p: seq<nat>, s: Td, d: Dir, i: nat, src: nat, bio: Bio, pass: seq<bool>, t: nat, k: nat)
    requires Sized(p, s) && i < |p| && Clear(p, s, d, i, pass, k) && Up(p, i, k) == 0
    ensures Submit(p, s, d, i, src, bio, pass, t) == s.(issued := s.issued + [bio])
    decreases k
  {
    if i > 0 {
      PassesAll(p, s, d, p[i], i, bio, pass[1..], t, k - 1);
    }
  }

  /** A bio that the first k groups let pass is held at the next if that has bios waiting or is out of its limits: it goes
      behind those that came the same way. */
  lemma {:induction false} HeldAtFirst(p: seq<nat>, s: Td, d: Dir, i: nat, src: nat, bio: Bio, pass: seq<bool>, t: nat, k: nat)
    requires Sized(p, s) && ListsOk(p, s.At(d)) && i < |p| && Clear(p, s, d, i, pass, k)
    requires Up(p, i, k) > 0 && (s.At(d).nr[Up(p, i, k)] > 0 || k >= |pass| || !pass[k])
    ensures var r := Submit(p, s, d, i, src, bio, pass, t);
            Sized(p, r) && Queued(p, s, r, d, Up(p, i, k), if k == 0 then src else Up(p, i, k - 1), bio)
    decreases k
  {
    if k == 0 {
      QueueBioQueues(p, s, d, i, src, bio, t);
    } else {
      HeldAtFirst(p, s, d, p[i], i, bio, pass[1..], t, k - 1);
    }
  }

  /* ---- when a group is looked at again ---- */

  /** A bio that comes into group i of direction d has the group's dispatch time worked out anew, now or later. */
  ghost predicate Retimes(p: seq<nat>, s: Td, d: Dir, i: nat)
    requires Sized(p, s) && i < |p|
  {
    s.wasEmpty[i] || s.At(d).queued[i] == []
  }

  lemma NoneCounted(p: seq<nat>, x: Side, i: nat)
    requires SideOk(p, x) && 0 < i < |p|
    ensures x.nr[i] == 0 <==> x.queued[i] == []
  {
    HeldNone(x.queued[i]);
  }

  /** A bio held in a group gives it dispatch time t if nothing of its direction was waiting there or the time was due to be
      worked out anyway, and leaves the time alone otherwise; no other group's time changes. */
  lemma HeldBioRetimes(p: seq<nat>, s: Td, d: Dir, i: nat, src: nat, bio: Bio, t: nat)
    requires Ok(p, s, {}) && 0 < i < |p|
    ensures var r := QueueBio(p, s, d, i, src, bio, t);
            && r.disptime == (if Retimes(p, s, d, i) then s.disptime[i := t] else s.disptime)
            && r.wasEmpty == s.wasEmpty[i := false]
  {
    NoneCounted(p, s.At(d), i);
  }

  /** A bio that moves up from group i leaves all dispatch times alone and marks the parent exactly if that had nothing of this
      direction waiting. */
  lemma MovedBioMarks(p: seq<nat>, s: Td, d: Dir, i: nat)
    requires Ok(p, s, {i}) && 0 < i < |p| && s.At(d).queued[i] != []
    ensures var r := DispatchOne(p, s, d, i);
            && r.disptime == s.disptime
            && r.wasEmpty == if p[i] == 0 then s.wasEmpty else s.wasEmpty[p[i] := Retimes(p, s, d, p[i])]
  {
    if p[i] > 0 {
      NoneCounted(p, s.At(d), p[i]);
    }
  }
}
