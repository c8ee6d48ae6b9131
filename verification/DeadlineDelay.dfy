/**
 How many requests of its direction can go out before a given one. Those ahead of it in the FIFO can; and if a request
 behind it with the same deadline absorbs it, it loses its place, and all that share its deadline can but that one.
 */
module DeadlineDelay {
  import opened Arith
  import opened Lists
  import opened Deadline
  import opened DeadlineOrder

  /** The requests ahead of `h` in a FIFO. */
  ghost function AheadOf(fifo: seq<Id>, h: Id): set<Id> {
    if fifo == [] || fifo[0] == h then {} else {fifo[0]} + AheadOf(fifo[1..], h)
  }

  /** The requests that do not expire strictly later than `h`. */
  ghost function Rivals(l: Lane, h: Id): set<Id>
    requires h in l.rqs
  {
    set i | i in l.rqs && i != h && l.rqs[i].fifoTime <= l.rqs[h].fifoTime
  }

  ghost function Less(n: nat): nat { if n == 0 then 0 else n - 1 }

  ghost function Larger(a: nat, b: nat): nat { if a < b then b else a }

  /** The number of requests that can go out before `h` at FIFO selections. */
  ghost function Delay(l: Lane, h: Id): nat
    requires h in l.rqs
  {
    Larger(|AheadOf(l.fifo, h)|, Less(|Rivals(l, h)|))
  }

  /* ---- places in a FIFO ---- */

  lemma {:induction false} AheadIn(s: seq<Id>, h: Id)
    ensures forall i :: i in AheadOf(s, h) ==> i in s && i != h
  {
    if s != [] && s[0] != h {
      AheadIn(s[1..], h);
    }
  }

  lemma {:induction false} AheadRemove(s: seq<Id>, x: Id, h: Id)
    requires h != x
    ensures AheadOf(Remove(s, x), h) == AheadOf(s, h) - {x}
  {
    if s != [] {
      AheadRemove(s[1..], x, h);
      if s[0] != x {
        assert Remove(s, x)[1..] == Remove(s[1..], x);
      }
    }
  }

  /** y goes in behind x: it is ahead of whatever x is ahead of. */
  lemma {:induction false} AheadInsert(s: seq<Id>, x: Id, y: Id, h: Id)
    requires NoDup(s) && y !in s && h != y
    ensures AheadOf(InsertAfter(s, x, y), h) == if x in AheadOf(s, h) then AheadOf(s, h) + {y} else AheadOf(s, h)
  {
    if s != [] && s[0] != h {
      var r := InsertAfter(s, x, y);
      if s[0] == x {
        assert r[1..] == [y] + s[1..] && r[1..][1..] == s[1..];
      } else {
        assert r[1..] == InsertAfter(s[1..], x, y);
        AheadInsert(s[1..], x, y, h);
      }
    }
  }

  /** and behind x alone and what is ahead of it. */
  lemma {:induction false} AheadInserted(s: seq<Id>, x: Id, y: Id)
    requires NoDup(s) && y !in s && x in s
    ensures AheadOf(InsertAfter(s, x, y), y) == AheadOf(s, x) + {x}
  {
    var r := InsertAfter(s, x, y);
    if s[0] == x {
      assert r[1..] == [y] + s[1..];
    } else {
      assert r[1..] == InsertAfter(s[1..], x, y);
      AheadInserted(s[1..], x, y);
    }
  }

  lemma {:induction false} AheadSnoc(s: seq<Id>, x: Id, h: Id)
    requires h in s
    ensures AheadOf(s + [x], h) == AheadOf(s, h)
  {
    if s[0] != h {
      assert (s + [x])[1..] == s[1..] + [x];
      AheadSnoc(s[1..], x, h);
    }
  }

  lemma {:induction false} AheadAt(s: seq<Id>, k: nat)
    requires NoDup(s) && k < |s|
    ensures |AheadOf(s, s[k])| == k && forall j :: 0 <= j < |s| ==> (s[j] in AheadOf(s, s[k]) <==> j < k)
  {
    if k > 0 {
      AheadAt(s[1..], k - 1);
      AheadIn(s[1..], s[k]);
      assert s[0] !in s[1..];
      forall j | 0 <= j < |s| ensures s[j] in AheadOf(s, s[k]) <==> j < k {
        if j > 0 {
          assert s[j] == s[1..][j - 1];
        }
      }
    }
  }

  /** What is ahead does not expire later. */
  lemma AheadAreRivals(l: Lane, latest: nat, h: Id)
    requires LaneOk(l, latest) && h in l.rqs
    ensures AheadOf(l.fifo, h) <= Rivals(l, h)
  {
    assert h in l.fifo;
    var k :| 0 <= k < |l.fifo| && l.fifo[k] == h;
    AheadAt(l.fifo, k);
    AheadIn(l.fifo, h);
    forall i | i in AheadOf(l.fifo, h) ensures i in Rivals(l, h) {
      var j :| 0 <= j < |l.fifo| && l.fifo[j] == i;
      SortedAt(l.fifo, FifoTimes(l.rqs), j, k);
    }
  }

  /* ---- merges ---- */

  /** The rivals of the request that carries h after a merge. */
  ghost function Carrier(req: Id, next: Id, h: Id): Id { if h == next then req else h }

  lemma MergedRqs(l: Lane, req: Id, next: Id)
    requires req in l.rqs && next in l.rqs && req != next
    ensures var r := MergedRequests(l, req, next).rqs;
            && r.Keys == l.rqs.Keys - {next}
            && r[req].parts == l.rqs[req].parts + l.rqs[next].parts
            && r[req].fifoTime == (if l.rqs[next].fifoTime < l.rqs[req].fifoTime then l.rqs[next].fifoTime else l.rqs[req].fifoTime)
            && forall i :: i in r && i != req ==> r[i] == l.rqs[i]
  {
  }

  lemma MergedFifo(l: Lane, req: Id, next: Id)
    requires req in l.rqs && next in l.rqs && req != next
    ensures MergedRequests(l, req, next).fifo ==
              if l.rqs[next].fifoTime < l.rqs[req].fifoTime
              then Remove(InsertAfter(Remove(l.fifo, req), next, req), next) else Remove(l.fifo, next)
  {
  }

  lemma CarrierKeeps(l: Lane, req: Id, next: Id, h: Id)
    requires req in l.rqs && next in l.rqs && req != next && h in l.rqs
    ensures var r, h' := MergedRequests(l, req, next), Carrier(req, next, h);
            h' in r.rqs && l.rqs[h].parts <= r.rqs[h'].parts && r.rqs[h'].fifoTime <= l.rqs[h].fifoTime
  {
    MergedRqs(l, req, next);
  }

  /** A merge never adds to the rivals. */
  lemma RivalsAfterMerge(l: Lane, req: Id, next: Id, h: Id)
    requires req in l.rqs && next in l.rqs && req != next && h in l.rqs
    ensures Carrier(req, next, h) in MergedRequests(l, req, next).rqs
    ensures |Rivals(MergedRequests(l, req, next), Carrier(req, next, h))| <= |Rivals(l, h)|
  {
    var r, h' := MergedRequests(l, req, next), Carrier(req, next, h);
    MergedRqs(l, req, next);
    if h == next || h == req || l.rqs[next].fifoTime > l.rqs[h].fifoTime || req in Rivals(l, h) {
      CardLe(Rivals(r, h'), Rivals(l, h));
    } else {
      var swapped := Rivals(l, h) - {next} + {req};
      assert |swapped| == |Rivals(l, h)|;
      CardLe(Rivals(r, h'), swapped);
    }
  }

  /** The request loses its place only if it is absorbed by one it does not expire before, or takes over an earlier place;
      then it has one rival less. */
  ghost predicate Displaced(l: Lane, req: Id, next: Id, h: Id)
    requires req in l.rqs && next in l.rqs
  {
    (h == next && l.rqs[next].fifoTime >= l.rqs[req].fifoTime) || (h == req && l.rqs[next].fifoTime < l.rqs[req].fifoTime)
  }

  lemma FewerRivals(l: Lane, req: Id, next: Id, h: Id)
    requires req in l.rqs && next in l.rqs && req != next && h in l.rqs && Displaced(l, req, next, h)
    ensures Carrier(req, next, h) in MergedRequests(l, req, next).rqs
    ensures |Rivals(MergedRequests(l, req, next), Carrier(req, next, h))| <= |Rivals(l, h)| - 1
  {
    var r, other := MergedRequests(l, req, next), if h == next then req else next;
    MergedRqs(l, req, next);
    assert other in Rivals(l, h);
    CardLe(Rivals(r, req), Rivals(l, h) - {other});
  }

  lemma PlaceKept(l: Lane, latest: nat, req: Id, next: Id, h: Id)
    requires LaneOk(l, latest) && req in l.rqs && next in l.rqs && req != next && h in l.rqs && !Displaced(l, req, next, h)
    ensures |AheadOf(MergedRequests(l, req, next).fifo, Carrier(req, next, h))| <= |AheadOf(l.fifo, h)|
  {
    var r, rest, a := MergedRequests(l, req, next).fifo, Remove(l.fifo, req), AheadOf(l.fifo, h);
    MergedFifo(l, req, next);
    if l.rqs[next].fifoTime >= l.rqs[req].fifoTime {
      AheadRemove(l.fifo, next, h);
      CardLe(AheadOf(r, h), a);
    } else if h == next {
      AheadInserted(rest, next, req);
      AheadRemove(InsertAfter(rest, next, req), next, req);
      AheadRemove(l.fifo, req, next);
      AheadIn(rest, next);
      CardLe(AheadOf(r, req), a);
    } else {
      AheadInsert(rest, next, req, h);
      AheadRemove(InsertAfter(rest, next, req), next, h);
      AheadRemove(l.fifo, req, h);
      Swapped(a, req, next);
    }
  }

  lemma Swapped(a: set<Id>, req: Id, next: Id)
    requires req != next
    ensures |(if next in a - {req} then a - {req} + {req} else a - {req}) - {next}| <= |a|
  {
    CardLe((if next in a - {req} then a - {req} + {req} else a - {req}) - {next}, if next in a then a - {next} + {req} else a);
    if next in a {
      assert |a - {next}| == |a| - 1;
    }
  }

  lemma MergedAhead(l: Lane, latest: nat, req: Id, next: Id, h: Id)
    requires LaneOk(l, latest) && req in l.rqs && next in l.rqs && req != next && h in MergedRequests(l, req, next).rqs
    ensures var r := MergedRequests(l, req, next); |AheadOf(r.fifo, h)| <= |Rivals(r, h)|
  {
    var r := MergedRequests(l, req, next);
    MergeOk(l, req, next, latest);
    AheadAreRivals(r, latest, h);
    CardLe(AheadOf(r.fifo, h), Rivals(r, h));
  }

  /** Whatever is merged, the request that carries h can be delayed by no more than h could. */
  lemma DelayAfterMerge(l: Lane, latest: nat, req: Id, next: Id, h: Id)
    requires LaneOk(l, latest) && req in l.rqs && next in l.rqs && req != next && h in l.rqs
    ensures Carrier(req, next, h) in MergedRequests(l, req, next).rqs
    ensures Delay(MergedRequests(l, req, next), Carrier(req, next, h)) <= Delay(l, h)
  {
    var r, h' := MergedRequests(l, req, next), Carrier(req, next, h);
    RivalsAfterMerge(l, req, next, h);
    if Displaced(l, req, next, h) {
      FewerRivals(l, req, next, h);
      MergedAhead(l, latest, req, next, h');
    } else {
      PlaceKept(l, latest, req, next, h);
    }
  }

  /* ---- inserts and growth ---- */

  /** A request that is no earlier than `h` can be added behind it, and requests can grow, without delaying `h`. */
  lemma DelaySame(l: Lane, r: Lane, h: Id)
    requires h in l.rqs && h in r.rqs && r.rqs[h].fifoTime == l.rqs[h].fifoTime
    requires AheadOf(r.fifo, h) == AheadOf(l.fifo, h)
    requires forall i :: i in r.rqs && r.rqs[i].fifoTime <= r.rqs[h].fifoTime ==>
               i in l.rqs && l.rqs[i].fifoTime == r.rqs[i].fifoTime
    ensures Delay(r, h) <= Delay(l, h)
  {
    CardLe(Rivals(r, h), Rivals(l, h));
  }

  lemma DelayAfter(l: Lane, op: Op, latest: nat, h: Id) returns (h': Id)
    requires LaneOk(l, latest) && LaneEnabled(l, op) && h in l.rqs && l.rqs[h].fifoTime < latest
    ensures var r := LaneAfter(l, op, latest);
            && h' in r.rqs && l.rqs[h].parts <= r.rqs[h'].parts
            && r.rqs[h'].fifoTime <= l.rqs[h].fifoTime
            && Delay(r, h') <= Delay(l, h)
  {
    if op.Merge? {
      h' := Carrier(op.id, op.next, h);
      CarrierKeeps(l, op.id, op.next, h);
      DelayAfterMerge(l, latest, op.id, op.next, h);
    } else {
      h' := h;
      if op.Add? {
        AheadSnoc(l.fifo, op.id, h);
      }
      DelaySame(l, LaneAfter(l, op, latest), h);
    }
  }

  /* ---- dispatches ---- */

  /** Whatever else goes out, the request is not delayed further; */
  lemma DelayRemove(l: Lane, id: Id, h: Id)
    requires h in l.rqs && id != h
    ensures var r := RemoveRequest(l, id);
            h in r.rqs && r.rqs[h] == l.rqs[h] && Delay(r, h) <= Delay(l, h)
  {
    var r := RemoveRequest(l, id);
    AheadRemove(l.fifo, id, h);
    CardLe(AheadOf(r.fifo, h), AheadOf(l.fifo, h));
    CardLe(Rivals(r, h), Rivals(l, h));
  }

  /** and if the oldest goes out, less. */
  lemma DelayOldest(l: Lane, latest: nat, h: Id)
    requires LaneOk(l, latest) && h in l.rqs && l.fifo != [] && l.fifo[0] != h
    ensures var r := RemoveRequest(l, l.fifo[0]);
            h in r.rqs && r.rqs[h] == l.rqs[h] && Delay(r, h) < Delay(l, h)
  {
    AheadAreRivals(l, latest, h);
    DelayAhead(l, l.fifo[0], h);
  }

  lemma DelayAhead(l: Lane, o: Id, h: Id)
    requires h in l.rqs && o in AheadOf(l.fifo, h) && AheadOf(l.fifo, h) <= Rivals(l, h)
    ensures var r := RemoveRequest(l, o);
            h in r.rqs && r.rqs[h] == l.rqs[h] && Delay(r, h) < Delay(l, h)
  {
    var r := RemoveRequest(l, o);
    AheadRemove(l.fifo, o, h);
    RivalGone(l, r, o, h);
    OneLess(AheadOf(l.fifo, h), Rivals(l, h), o);
  }

  lemma RivalGone(l: Lane, r: Lane, o: Id, h: Id)
    requires h in l.rqs && o != h && r.rqs == l.rqs - {o}
    ensures Rivals(r, h) == Rivals(l, h) - {o}
  {
  }

  lemma OneLess(a: set<Id>, b: set<Id>, o: Id)
    requires o in a && a <= b
    ensures Larger(|a - {o}|, Less(|b - {o}|)) < Larger(|a|, Less(|b|))
  {
    CardLe(a, b);
  }

  /* ---- what the delay is ---- */

  /** The requests behind place k with the same deadline. */
  ghost function TiesBehind(l: Lane, k: nat): set<Id>
    requires Linked(l) && k < |l.fifo|
  {
    set i | i in l.rqs && i != l.fifo[k] && i !in AheadOf(l.fifo, l.fifo[k]) && l.rqs[i].fifoTime == l.rqs[l.fifo[k]].fifoTime
  }

  /** The request in place k is delayed by k requests, and by one less than the requests behind it with the same deadline. */
  lemma DelayIs(l: Lane, latest: nat, k: nat)
    requires LaneOk(l, latest) && k < |l.fifo|
    ensures Delay(l, l.fifo[k]) == k + Less(|TiesBehind(l, k)|)
  {
    var h := l.fifo[k];
    AheadAt(l.fifo, k);
    AheadAreRivals(l, latest, h);
    RivalsAre(l, latest, k);
    CardSum(AheadOf(l.fifo, h), TiesBehind(l, k));
  }

  lemma RivalsAre(l: Lane, latest: nat, k: nat)
    requires LaneOk(l, latest) && k < |l.fifo|
    ensures Rivals(l, l.fifo[k]) == AheadOf(l.fifo, l.fifo[k]) + TiesBehind(l, k)
  {
    var h := l.fifo[k];
    AheadAreRivals(l, latest, h);
    AheadAt(l.fifo, k);
    forall i | i in Rivals(l, h) && i !in AheadOf(l.fifo, h) ensures l.rqs[i].fifoTime == l.rqs[h].fifoTime {
      assert i in l.fifo;
      var j :| 0 <= j < |l.fifo| && l.fifo[j] == i;
      SortedAt(l.fifo, FifoTimes(l.rqs), k, j);
    }
  }

  lemma {:induction false} CardSum(a: set<Id>, b: set<Id>)
    requires a !! b
    ensures |a + b| == |a| + |b|
  {
  }
}
