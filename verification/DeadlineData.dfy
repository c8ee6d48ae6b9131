/** struct deadline_data, updated in place by the scheduler's hooks; each hook is proved to be the operation it names. */
module DeadlineDataObject {
  import opened Lists
  import opened Deadline
  import opened DeadlineOrder
  import opened DeadlineBound

  /** A request on the FIFO is on the sorted list. */
  ghost predicate Queued(l: Lane) { Linked(l) && forall i :: i in l.fifo ==> i in l.sort }

  lemma FirstQueued(l: Lane)
    requires Queued(l) && l.fifo != []
    ensures l.fifo[0] in l.rqs && l.fifo[0] in l.sort && l.sort != []
  {
    assert l.fifo[0] in l.fifo;
  }

  lemma GoodIsQueued(c: Config, s: Sched, now: nat)
    requires Good(c, s, now)
    ensures Queued(s.read) && Queued(s.write)
  {
  }

  /** In every run from the empty scheduler it is, so the BUG_ONs about an empty tree cannot fire. */
  lemma RunsQueued(c: Config, now: nat, ops: seq<(nat, Op)>)
    ensures var s := Run(c, Init, now, ops); Queued(s.read) && Queued(s.write)
  {
    RunsGood(c, Init, now, ops);
    GoodIsQueued(c, Run(c, Init, now, ops), End(now, ops));
  }

  class DeadlineData {
    const cfg: Config
    var read: Lane
    var write: Lane
    var batching: nat
    var starved: nat
    var dispatchQueue: seq<Rq>

    ghost function View(): Sched
      reads this
    {
      Sched(read, write, batching, starved, dispatchQueue)
    }

    /** deadline_init_queue */
    constructor (cfg: Config)
      ensures this.cfg == cfg && View() == Init && Good(cfg, View(), 0)
    {
      this.cfg := cfg;
      read, write := EmptyLane, EmptyLane;
      batching, starved, dispatchQueue := 0, 0, [];
    }

    method SetLane(d: Dir, l: Lane)
      modifies this`read, this`write
      ensures View() == old(View()).With(d, l)
    {
      if d == Read {
        read := l;
      } else {
        write := l;
      }
    }

    /** deadline_add_request */
    method AddRequest(d: Dir, id: Id, sector: nat, sectors: nat, jiffies: nat)
      requires Good(cfg, View(), jiffies) && id !in View().At(d).rqs
      modifies this
      ensures View() == Apply(cfg, old(View()), Add(d, id, sector, sectors), jiffies)
      ensures Good(cfg, View(), jiffies)
    {
      ApplyOk(cfg, View(), Add(d, id, sector, sectors), jiffies);
      var l := if d == Read then read else write;
      var rq := Rq(sector, sectors, jiffies + cfg.Expire(d), {id});
      var rqs := l.rqs[id := rq];
      SetLane(d, Lane(l.fifo + [id], InsertSorted(l.sort, rqs, id), l.next, rqs));
    }

    /** elv_rb_del, the new start of a request, and elv_rb_add. */
    method Reposition(d: Dir, id: Id, grow: nat)
      requires id in View().At(d).rqs && View().At(d).rqs[id].sector >= grow
      requires forall i :: i in View().At(d).sort ==> i in View().At(d).rqs
      modifies this`read, this`write
      ensures View() == old(View()).With(d, FrontMerged(old(View()).At(d), id, grow))
    {
      var l := if d == Read then read else write;
      var rq := l.rqs[id];
      var rqs := l.rqs[id := rq.(sector := rq.sector - grow, sectors := rq.sectors + grow)];
      SetLane(d, l.(rqs := rqs, sort := InsertSorted(Remove(l.sort, id), rqs, id)));
    }

    /** A front merge, and deadline_merged_request: the request is taken off the sorted list and put back in place. */
    method MergedRequest(d: Dir, id: Id, grow: nat, ghost jiffies: nat)
      requires Good(cfg, View(), jiffies) && id in View().At(d).rqs && View().At(d).rqs[id].sector >= grow
      modifies this`read, this`write
      ensures View() == Apply(cfg, old(View()), Front(d, id, grow), jiffies)
      ensures Good(cfg, View(), jiffies)
    {
      ApplyOk(cfg, View(), Front(d, id, grow), jiffies);
      ApplyIsLaneAfter(cfg, View(), Front(d, id, grow), jiffies);
      Reposition(d, id, grow);
    }

    /** Request req takes over what next carries, and next goes. */
    method TakeOver(d: Dir, req: Id, next: Id)
      requires req in View().At(d).rqs && next in View().At(d).rqs && req != next
      modifies this`read, this`write
      ensures View() == old(View()).With(d, Deadline.MergedRequests(old(View()).At(d), req, next))
    {
      var l := if d == Read then read else write;
      var a, b := l.rqs[req], l.rqs[next];
      var merged := a.(sectors := a.sectors + b.sectors, parts := a.parts + b.parts);
      if b.fifoTime < a.fifoTime {
        l := l.(fifo := InsertAfter(Remove(l.fifo, req), next, req));
        merged := merged.(fifoTime := b.fifoTime);
      }
      l := l.(rqs := l.rqs[req := merged]);
      assert l == Absorb(View().At(d), req, next);
      SetLane(d, RemoveRequest(l, next));
    }

    /** deadline_merged_requests */
    method MergedRequests(d: Dir, req: Id, next: Id, ghost jiffies: nat)
      requires Good(cfg, View(), jiffies) && req in View().At(d).rqs && next in View().At(d).rqs && req != next
      modifies this`read, this`write
      ensures View() == Apply(cfg, old(View()), Merge(d, req, next), jiffies)
      ensures Good(cfg, View(), jiffies)
    {
      ApplyOk(cfg, View(), Merge(d, req, next), jiffies);
      ApplyIsLaneAfter(cfg, View(), Merge(d, req, next), jiffies);
      TakeOver(d, req, next);
    }

    /** deadline_move_request */
    method MoveRequest(d: Dir, id: Id)
      requires id in View().At(d).rqs
      modifies this
      ensures View() == Deadline.MoveRequest(old(View()), d, id)
    {
      read, write := read.(next := None), write.(next := None);
      var l := if d == Read then read else write;
      var rq := l.rqs[id];
      SetLane(d, RemoveRequest(l.(next := Latter(l.sort, id)), id));
      dispatchQueue := dispatchQueue + [rq];
    }

    /** The direction of a new batch. */
    method ChooseDirection() returns (dir: Option<Dir>)
      requires Queued(read) && Queued(write)
      modifies this`starved
      ensures (dir, starved) == Select(cfg, old(View()))
    {
      if read.fifo != [] {
        FirstQueued(read);
        assert read.sort != [];
        if write.fifo == [] {
          return Some(Read);
        }
        starved := starved + 1;
        if starved - 1 < cfg.writesStarved {
          return Some(Read);
        }
      }
      if write.fifo != [] {
        FirstQueued(write);
        assert write.sort != [];
        starved := 0;
        return Some(Write);
      }
      return None;
    }

    /** deadline_dispatch_requests */
    method DispatchRequests(jiffies: nat) returns (dispatched: nat)
      requires Queued(read) && Queued(write)
      modifies this
      ensures View() == Dispatch(cfg, old(View()), jiffies)
      ensures dispatched == |dispatchQueue| - |old(dispatchQueue)|
    {
      if write.next.Some? && batching < cfg.fifoBatch {
        batching := batching + 1;
        MoveRequest(Write, write.next.value);
        return 1;
      }
      if write.next.None? && read.next.Some? && batching < cfg.fifoBatch {
        batching := batching + 1;
        MoveRequest(Read, read.next.value);
        return 1;
      }
      var dir := ChooseDirection();
      if dir.None? {
        return 0;
      }
      var l := if dir.value == Read then read else write;
      FirstQueued(l);
      batching := 1;
      if l.rqs[l.fifo[0]].fifoTime <= jiffies || l.next.None? {
        MoveRequest(dir.value, l.fifo[0]);
      } else {
        MoveRequest(dir.value, l.next.value);
      }
      return 1;
    }
  }
}
