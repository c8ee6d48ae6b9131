/** Every operation of the deadline scheduler keeps both lists in order and in step. */
module DeadlineOrder {
  import opened Lists
  import opened Deadline

  lemma ConsSorted(x: Id, s: seq<Id>, key: map<Id, nat>)
    requires SortedBy(s, key) && x in key && forall i :: i in s ==> key[x] <= key[i]
    ensures SortedBy([x] + s, key)
  {
  }

  lemma {:induction false} RemoveSorted(s: seq<Id>, x: Id, key: map<Id, nat>)
    requires SortedBy(s, key)
    ensures SortedBy(Remove(s, x), key)
  {
    if s != [] {
      assert forall i :: i in s ==> key[s[0]] <= key[i];
      RemoveSorted(s[1..], x, key);
      ConsSorted(s[0], Remove(s[1..], x), key);
    }
  }

  lemma SortedAgain(s: seq<Id>, key: map<Id, nat>, key': map<Id, nat>)
    requires SortedBy(s, key) && forall i :: i in s ==> i in key' && key'[i] == key[i]
    ensures SortedBy(s, key')
  {
  }

  lemma {:induction false} SortedAt(s: seq<Id>, key: map<Id, nat>, i: nat, j: nat)
    requires SortedBy(s, key) && i <= j < |s|
    ensures s[i] in key && s[j] in key && key[s[i]] <= key[s[j]]
  {
    if i > 0 {
      SortedAt(s[1..], key, i - 1, j - 1);
    } else if j > 0 {
      assert s[j] == s[1..][j - 1];
    }
  }

  lemma {:induction false} SnocSorted(s: seq<Id>, x: Id, key: map<Id, nat>)
    requires SortedBy(s, key) && x in key && forall i :: i in s ==> i in key && key[i] <= key[x]
    ensures SortedBy(s + [x], key)
  {
    if s == [] {
      assert s + [x] == [x];
    } else {
      assert (s + [x])[1..] == s[1..] + [x];
      SnocSorted(s[1..], x, key);
    }
  }

  lemma {:induction false} InsertIsSorted(sort: seq<Id>, rqs: map<Id, Rq>, id: Id)
    requires id in rqs && (forall i :: i in sort ==> i in rqs) && SortedBy(sort, Sectors(rqs))
    ensures SortedBy(InsertSorted(sort, rqs, id), Sectors(rqs))
  {
    if sort != [] {
      assert sort[0] in sort;
      assert forall i :: i in sort ==> Sectors(rqs)[sort[0]] <= Sectors(rqs)[i];
      if rqs[id].sector < rqs[sort[0]].sector {
        ConsSorted(id, sort, Sectors(rqs));
      } else {
        InsertIsSorted(sort[1..], rqs, id);
        ConsSorted(sort[0], InsertSorted(sort[1..], rqs, id), Sectors(rqs));
      }
    }
  }

  /** Putting y behind x, with x's key, keeps the order. */
  lemma {:induction false} InsertAfterSorted(s: seq<Id>, x: Id, y: Id, key: map<Id, nat>)
    requires SortedBy(s, key) && y in key && x in key && key[y] == key[x]
    ensures SortedBy(InsertAfter(s, x, y), key)
  {
    if s != [] {
      assert forall i :: i in s ==> key[s[0]] <= key[i];
      if s[0] == x {
        ConsSorted(y, s[1..], key);
        ConsSorted(x, [y] + s[1..], key);
        assert [x] + ([y] + s[1..]) == [x, y] + s[1..];
      } else {
        InsertAfterSorted(s[1..], x, y, key);
        ConsSorted(s[0], InsertAfter(s[1..], x, y), key);
      }
    }
  }

  lemma RemoveOk(l: Lane, id: Id, latest: nat)
    requires LaneOk(l, latest)
    ensures LaneOk(RemoveRequest(l, id), latest)
  {
    var r := RemoveRequest(l, id);
    RemoveSorted(l.fifo, id, FifoTimes(l.rqs));
    RemoveSorted(l.sort, id, Sectors(l.rqs));
    SortedAgain(r.fifo, FifoTimes(l.rqs), FifoTimes(r.rqs));
    SortedAgain(r.sort, Sectors(l.rqs), Sectors(r.rqs));
  }

  lemma AddOk(l: Lane, id: Id, rq: Rq, latest: nat)
    requires LaneOk(l, latest) && id !in l.rqs && rq.fifoTime == latest
    ensures LaneOk(AddRequest(l, id, rq), latest)
  {
    var r := AddRequest(l, id, rq);
    NoDupSnoc(l.fifo, id);
    SortedAgain(l.fifo, FifoTimes(l.rqs), FifoTimes(r.rqs));
    SnocSorted(l.fifo, id, FifoTimes(r.rqs));
    SortedAgain(l.sort, Sectors(l.rqs), Sectors(r.rqs));
    InsertIsSorted(l.sort, r.rqs, id);
  }

  lemma FrontOk(l: Lane, id: Id, grow: nat, latest: nat)
    requires LaneOk(l, latest) && id in l.rqs && l.rqs[id].sector >= grow
    ensures LaneOk(FrontMerged(l, id, grow), latest)
  {
    var r := FrontMerged(l, id, grow);
    SortedAgain(l.fifo, FifoTimes(l.rqs), FifoTimes(r.rqs));
    RemoveSorted(l.sort, id, Sectors(l.rqs));
    SortedAgain(Remove(l.sort, id), Sectors(l.rqs), Sectors(r.rqs));
    InsertIsSorted(Remove(l.sort, id), r.rqs, id);
  }

  lemma BackOk(l: Lane, id: Id, grow: nat, latest: nat)
    requires LaneOk(l, latest) && id in l.rqs
    ensures LaneOk(BackMerged(l, id, grow), latest)
  {
    var r := BackMerged(l, id, grow);
    SortedAgain(l.fifo, FifoTimes(l.rqs), FifoTimes(r.rqs));
    SortedAgain(l.sort, Sectors(l.rqs), Sectors(r.rqs));
  }

  lemma AbsorbFifo(l: Lane, req: Id, next: Id, latest: nat)
    requires LaneOk(l, latest) && req in l.rqs && next in l.rqs && req != next
    ensures var r := Absorb(l, req, next);
            SortedBy(r.fifo, FifoTimes(r.rqs)) && NoDup(r.fifo) && forall i :: i in r.fifo <==> i in l.fifo
  {
    var r := Absorb(l, req, next);
    if l.rqs[next].fifoTime < l.rqs[req].fifoTime {
      var rest := Remove(l.fifo, req);
      RemoveSorted(l.fifo, req, FifoTimes(l.rqs));
      SortedAgain(rest, FifoTimes(l.rqs), FifoTimes(r.rqs));
      InsertAfterSorted(rest, next, req, FifoTimes(r.rqs));
    } else {
      SortedAgain(l.fifo, FifoTimes(l.rqs), FifoTimes(r.rqs));
    }
  }

  lemma AbsorbRest(l: Lane, req: Id, next: Id)
    requires req in l.rqs && next in l.rqs && req != next
    ensures var r := Absorb(l, req, next);
            && r.rqs.Keys == l.rqs.Keys && r.sort == l.sort && r.next == l.next
            && Sectors(r.rqs) == Sectors(l.rqs)
            && forall i :: i in r.rqs ==> r.rqs[i].fifoTime <= l.rqs[i].fifoTime
  {
  }

  lemma AbsorbOk(l: Lane, req: Id, next: Id, latest: nat)
    requires LaneOk(l, latest) && req in l.rqs && next in l.rqs && req != next
    ensures LaneOk(Absorb(l, req, next), latest)
  {
    AbsorbFifo(l, req, next, latest);
    AbsorbRest(l, req, next);
  }

  lemma MergeOk(l: Lane, req: Id, next: Id, latest: nat)
    requires LaneOk(l, latest) && req in l.rqs && next in l.rqs && req != next
    ensures LaneOk(MergedRequests(l, req, next), latest)
  {
    AbsorbOk(l, req, next, latest);
    RemoveOk(Absorb(l, req, next), next, latest);
  }

  lemma NextOk(l: Lane, next: Option<Id>, latest: nat)
    requires LaneOk(l, latest) && (next.Some? ==> next.value in l.rqs)
    ensures LaneOk(l.(next := next), latest)
  {
  }

  lemma MoveOk(c: Config, s: Sched, d: Dir, id: Id, now: nat)
    requires Good(c, s, now) && id in s.At(d).rqs && s.batching >= 1
    ensures Good(c, MoveRequest(s, d, id), now)
  {
    var l := s.At(d);
    NextOk(l, Latter(l.sort, id), now + c.Expire(d));
    RemoveOk(l.(next := Latter(l.sort, id)), id, now + c.Expire(d));
    NextOk(s.read, None, now + c.readExpire);
    NextOk(s.write, None, now + c.writeExpire);
  }

  lemma DispatchOk(c: Config, s: Sched, now: nat)
    requires Good(c, s, now)
    ensures Good(c, Dispatch(c, s, now), now)
  {
    var go := Continuing(s);
    if go.Some? && s.batching < c.fifoBatch {
      MoveOk(c, s.(batching := s.batching + 1), go.value.0, go.value.1, now);
    } else {
      var (dir, starved) := Select(c, s);
      if dir.Some? {
        var d := dir.value;
        assert s.At(d).fifo[0] in s.At(d).fifo;
        MoveOk(c, s.(batching := 1, starved := starved), d, FindRequest(s.At(d), now), now);
      }
    }
  }

  lemma Later(c: Config, s: Sched, now: nat, now': nat)
    requires Good(c, s, now) && now <= now'
    ensures Good(c, s, now')
  {
  }

  lemma WithOk(c: Config, s: Sched, d: Dir, l: Lane, now: nat)
    requires Good(c, s, now) && LaneOk(l, now + c.Expire(d)) && (l.next.Some? ==> s.At(d).next.Some?)
    ensures Good(c, s.With(d, l), now)
  {
  }

  ghost predicate LaneEnabled(l: Lane, op: Op) {
    match op
    case Add(_, id, _, _) => id !in l.rqs
    case Front(_, id, grow) => id in l.rqs && l.rqs[id].sector >= grow
    case Back(_, id, _) => id in l.rqs
    case Merge(_, id, next) => id in l.rqs && next in l.rqs && id != next
    case Go => false
  }

  /** The lane an insert or merge leaves. */
  ghost function LaneAfter(l: Lane, op: Op, latest: nat): Lane
    requires Linked(l) && LaneEnabled(l, op)
  {
    match op
    case Add(_, id, sector, sectors) => AddRequest(l, id, Rq(sector, sectors, latest, {id}))
    case Front(_, id, grow) => FrontMerged(l, id, grow)
    case Back(_, id, grow) => BackMerged(l, id, grow)
    case Merge(_, id, next) => MergedRequests(l, id, next)
  }

  lemma LaneAfterOk(l: Lane, op: Op, latest: nat)
    requires LaneOk(l, latest) && LaneEnabled(l, op)
    ensures LaneOk(LaneAfter(l, op, latest), latest)
    ensures LaneAfter(l, op, latest).next.Some? ==> l.next.Some?
  {
    match op {
      case Add(_, id, sector, sectors) => AddOk(l, id, Rq(sector, sectors, latest, {id}), latest);
      case Front(_, id, grow) => FrontOk(l, id, grow, latest);
      case Back(_, id, grow) => BackOk(l, id, grow, latest);
      case Merge(_, id, next) => MergeOk(l, id, next, latest);
    }
  }

  lemma ApplyIsLaneAfter(c: Config, s: Sched, op: Op, now: nat)
    requires Enabled(s, op) && !op.Go?
    ensures LaneEnabled(s.At(op.d), op)
    ensures Apply(c, s, op, now) == s.With(op.d, LaneAfter(s.At(op.d), op, now + c.Expire(op.d)))
  {
  }

  /** Both FIFO lists stay sorted by deadline, each FIFO and sorted list hold the same requests, and at most one next_rq
      is set, whatever is inserted, merged or dispatched. */
  lemma ApplyOk(c: Config, s: Sched, op: Op, now: nat)
    requires Good(c, s, now)
    ensures Good(c, Apply(c, s, op, now), now)
  {
    if Enabled(s, op) {
      if op.Go? {
        DispatchOk(c, s, now);
      } else {
        ApplyIsLaneAfter(c, s, op, now);
        LaneAfterOk(s.At(op.d), op, now + c.Expire(op.d));
        WithOk(c, s, op.d, LaneAfter(s.At(op.d), op, now + c.Expire(op.d)), now);
      }
    }
  }
}
