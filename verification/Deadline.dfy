/**
 The deadline I/O scheduler (block/deadline-iosched.c), whole: per direction a FIFO list and a sector-sorted list of the
 same requests, batches of sequential dispatches, and the counter that keeps reads from starving writes.
 */
module Deadline {
  import opened Lists

  type Id = nat

  datatype Option<T> = None | Some(value: T)

  datatype Dir = Read | Write

  /** The settings; fifo_batch is never negative, the expiry times are in jiffies. */
  datatype Config = Config(readExpire: nat, writeExpire: nat, fifoBatch: nat, writesStarved: nat) {
    function Expire(d: Dir): nat { if d == Read then readExpire else writeExpire }

    /** How many dispatches one batch can hold. */
    function Batch(): nat { if fifoBatch == 0 then 1 else fifoBatch }
  }

  /** A queued request. `parts` names the requests it has absorbed, itself included. */
  datatype Rq = Rq(sector: nat, sectors: nat, fifoTime: nat, parts: set<Id>)

  /** One direction: fifo_list, sort_list and next_rq. */
  datatype Lane = Lane(fifo: seq<Id>, sort: seq<Id>, next: Option<Id>, rqs: map<Id, Rq>)

  datatype Sched = Sched(read: Lane, write: Lane, batching: nat, starved: nat, dispatched: seq<Rq>) {
    function At(d: Dir): Lane { if d == Read then read else write }

    function With(d: Dir, l: Lane): Sched { if d == Read then this.(read := l) else this.(write := l) }
  }

  const EmptyLane := Lane([], [], None, map[])
  const Init := Sched(EmptyLane, EmptyLane, 0, 0, [])

  /* ---- sorted list ---- */

  /** elv_rb_add: after every request at or before the sector. */
  function InsertSorted(sort: seq<Id>, rqs: map<Id, Rq>, id: Id): (r: seq<Id>)
    requires id in rqs && forall i :: i in sort ==> i in rqs
    ensures forall i :: i in r <==> i in sort || i == id
    ensures NoDup(sort) && id !in sort ==> NoDup(r)
  {
    if sort == [] then [id]
    else if rqs[id].sector < rqs[sort[0]].sector then [id] + sort
    else
      assert NoDup(sort) ==> NoDup(sort[1..]) && sort[0] !in sort[1..];
      [sort[0]] + InsertSorted(sort[1..], rqs, id)
  }

  /** rb_next: the request after `id` in sector order. */
  function Latter(sort: seq<Id>, id: Id): (r: Option<Id>)
    ensures r.Some? && NoDup(sort) ==> r.value in sort && r.value != id
  {
    if |sort| < 2 then None
    else if sort[0] == id then Some(sort[1])
    else
      assert NoDup(sort) ==> NoDup(sort[1..]);
      Latter(sort[1..], id)
  }

  /* ---- one lane ---- */

  /** deadline_del_rq_rb */
  function DelRb(l: Lane, id: Id): Lane {
    l.(next := if l.next == Some(id) then Latter(l.sort, id) else l.next, sort := Remove(l.sort, id))
  }

  /** deadline_remove_request */
  function RemoveRequest(l: Lane, id: Id): Lane {
    DelRb(l.(fifo := Remove(l.fifo, id)), id).(rqs := l.rqs - {id})
  }

  /** deadline_add_request */
  function AddRequest(l: Lane, id: Id, rq: Rq): Lane
    requires forall i :: i in l.sort ==> i in l.rqs
  {
    var rqs := l.rqs[id := rq];
    Lane(l.fifo + [id], InsertSorted(l.sort, rqs, id), l.next, rqs)
  }

  /** A front merge moves the start of a request, and deadline_merged_request repositions it. */
  function FrontMerged(l: Lane, id: Id, grow: nat): Lane
    requires id in l.rqs && l.rqs[id].sector >= grow && forall i :: i in l.sort ==> i in l.rqs
  {
    var rq := l.rqs[id];
    var rqs := l.rqs[id := rq.(sector := rq.sector - grow, sectors := rq.sectors + grow)];
    l.(rqs := rqs, sort := InsertSorted(Remove(l.sort, id), rqs, id))
  }

  function BackMerged(l: Lane, id: Id, grow: nat): Lane
    requires id in l.rqs
  {
    l.(rqs := l.rqs[id := l.rqs[id].(sectors := l.rqs[id].sectors + grow)])
  }

  /** list_move(&req->queuelist, &next->queuelist) on a list that no longer holds req: behind next. */
  function InsertAfter(s: seq<Id>, x: Id, y: Id): (r: seq<Id>)
    ensures forall i :: i in r <==> i in s || (i == y && x in s)
    ensures NoDup(s) && y !in s ==> NoDup(r)
  {
    if s == [] then []
    else if s[0] == x then
      assert NoDup(s) ==> NoDup(s[1..]) && x !in s[1..];
      [x, y] + s[1..]
    else
      assert NoDup(s) ==> NoDup(s[1..]) && s[0] !in s[1..];
      [s[0]] + InsertAfter(s[1..], x, y)
  }

  /** req grows by next, and takes over its place and deadline if next expires earlier. */
  function Absorb(l: Lane, req: Id, next: Id): Lane
    requires req in l.rqs && next in l.rqs
  {
    var a, b := l.rqs[req], l.rqs[next];
    var m := a.(sectors := a.sectors + b.sectors, parts := a.parts + b.parts);
    if b.fifoTime < a.fifoTime
    then l.(fifo := InsertAfter(Remove(l.fifo, req), next, req), rqs := l.rqs[req := m.(fifoTime := b.fifoTime)])
    else l.(rqs := l.rqs[req := m])
  }

  /** deadline_merged_requests: req absorbs next, which leaves the scheduler. */
  function MergedRequests(l: Lane, req: Id, next: Id): Lane
    requires req in l.rqs && next in l.rqs && req != next
  {
    RemoveRequest(Absorb(l, req, next), next)
  }

  /* ---- dispatch ---- */

  /** deadline_move_request */
  function MoveRequest(s: Sched, d: Dir, id: Id): Sched
    requires id in s.At(d).rqs
  {
    var s1 := s.(read := s.read.(next := None), write := s.write.(next := None));
    var l := s1.At(d).(next := Latter(s1.At(d).sort, id));
    s1.With(d, RemoveRequest(l, id)).(dispatched := s.dispatched + [s.At(d).rqs[id]])
  }

  /** The direction a new batch takes, and the starvation counter it leaves. */
  function Select(c: Config, s: Sched): (Option<Dir>, nat) {
    var someRead, someWrite := s.read.fifo != [], s.write.fifo != [];
    if someRead && !(someWrite && s.starved >= c.writesStarved) then (Some(Read), if someWrite then s.starved + 1 else s.starved)
    else if someWrite then (Some(Write), 0)
    else (None, s.starved)
  }

  /** The request a new batch starts with: the oldest if it has expired or there is nothing to go on from. */
  function FindRequest(l: Lane, now: nat): Id
    requires l.fifo != [] && l.fifo[0] in l.rqs
  {
    if l.rqs[l.fifo[0]].fifoTime <= now then l.fifo[0]
    else match l.next case Some(n) => n case None => l.fifo[0]
  }

  function Continuing(s: Sched): Option<(Dir, Id)> {
    if s.write.next.Some? then Some((Write, s.write.next.value))
    else if s.read.next.Some? then Some((Read, s.read.next.value))
    else None
  }

  ghost predicate Linked(l: Lane) {
    && (forall i :: i in l.fifo ==> i in l.rqs)
    && (forall i :: i in l.sort ==> i in l.rqs)
    && (l.next.Some? ==> l.next.value in l.rqs)
  }

  /** deadline_dispatch_requests */
  function Dispatch(c: Config, s: Sched, now: nat): Sched
    requires Linked(s.read) && Linked(s.write)
  {
    var go := Continuing(s);
    if go.Some? && s.batching < c.fifoBatch then
      MoveRequest(s.(batching := s.batching + 1), go.value.0, go.value.1)
    else
      var (dir, starved) := Select(c, s);
      match dir
      case None => s.(starved := starved)
      case Some(d) => MoveRequest(s.(batching := 1, starved := starved), d, FindRequest(s.At(d), now))
  }

  /* ---- runs ---- */

  datatype Op =
    | Add(d: Dir, id: Id, sector: nat, sectors: nat)
    | Front(d: Dir, id: Id, grow: nat)
    | Back(d: Dir, id: Id, grow: nat)
    | Merge(d: Dir, id: Id, next: Id)
    | Go

  ghost predicate Enabled(s: Sched, op: Op) {
    && Linked(s.read) && Linked(s.write)
    && match op
    case Add(d, id, _, _) => id !in s.At(d).rqs
    case Front(d, id, grow) => id in s.At(d).rqs && s.At(d).rqs[id].sector >= grow
    case Back(d, id, _) => id in s.At(d).rqs
    case Merge(d, id, next) => id in s.At(d).rqs && next in s.At(d).rqs && id != next
    case Go => true
  }

  ghost function Apply(c: Config, s: Sched, op: Op, now: nat): Sched {
    if !Enabled(s, op) then s
    else match op
      case Add(d, id, sector, sectors) =>
        s.With(d, AddRequest(s.At(d), id, Rq(sector, sectors, now + c.Expire(d), {id})))
      case Front(d, id, grow) => s.With(d, FrontMerged(s.At(d), id, grow))
      case Back(d, id, grow) => s.With(d, BackMerged(s.At(d), id, grow))
      case Merge(d, id, next) => s.With(d, MergedRequests(s.At(d), id, next))
      case Go => Dispatch(c, s, now)
  }

  /* ---- the invariant ---- */

  ghost function FifoTimes(rqs: map<Id, Rq>): map<Id, nat> { map i | i in rqs :: rqs[i].fifoTime }

  ghost function Sectors(rqs: map<Id, Rq>): map<Id, nat> { map i | i in rqs :: rqs[i].sector }

  ghost predicate SortedBy(s: seq<Id>, key: map<Id, nat>) {
    s != [] ==> s[0] in key && (forall i :: i in s[1..] ==> i in key && key[s[0]] <= key[i]) && SortedBy(s[1..], key)
  }

  /** Both lists hold exactly the queued requests, each in its order; nothing expires later than a new request would. */
  ghost predicate LaneOk(l: Lane, latest: nat) {
    && Linked(l)
    && NoDup(l.fifo) && NoDup(l.sort)
    && (forall i :: i in l.rqs ==> i in l.fifo && i in l.sort)
    && SortedBy(l.fifo, FifoTimes(l.rqs))
    && SortedBy(l.sort, Sectors(l.rqs))
    && (forall i :: i in l.rqs ==> l.rqs[i].fifoTime <= latest)
  }

  ghost predicate Good(c: Config, s: Sched, now: nat) {
    && LaneOk(s.read, now + c.readExpire)
    && LaneOk(s.write, now + c.writeExpire)
    && (s.read.next.None? || s.write.next.None?)
    && (s.read.next.Some? || s.write.next.Some? ==> s.batching >= 1)
    && s.starved <= c.writesStarved
  }
}
