/**
 A request and its chain of bios (block/blk-core.c, block/blk-merge.c): length, position and contiguity survive every mix
 of merges and partial completions, and every bio ends exactly once.
 */
module RequestBios {

  const SECTOR := 512

  /** A bio: where its remaining data starts, and how much there is. */
  datatype Bio = Bio(id: nat, sector: nat, size: nat)

  /** struct request: its chain, __sector and __data_len; `ended` are the bios that were ended, in order. */
  datatype Request = Request(bios: seq<Bio>, sector: nat, dataLen: int, ended: seq<nat>)

  /* ---- what must hold ---- */

  ghost function Size(bios: seq<Bio>): nat {
    if bios == [] then 0 else bios[0].size + Size(bios[1..])
  }

  /** Whole sectors, each bio starting where the one before ends. */
  ghost predicate Contiguous(bios: seq<Bio>, sector: nat) {
    bios != [] ==>
      && bios[0].sector == sector && bios[0].size > 0 && bios[0].size % SECTOR == 0
      && Contiguous(bios[1..], sector + bios[0].size / SECTOR)
  }

  ghost predicate Agrees(r: Request) { r.dataLen == Size(r.bios) && Contiguous(r.bios, r.sector) }

  lemma {:induction false} WholeSectors(bios: seq<Bio>, sector: nat)
    requires Contiguous(bios, sector)
    ensures Size(bios) % SECTOR == 0 && (bios != [] ==> Size(bios) > 0)
  {
    if bios != [] {
      WholeSectors(bios[1..], sector + bios[0].size / SECTOR);
    }
  }

  lemma {:induction false} Joined(a: seq<Bio>, b: seq<Bio>, sector: nat)
    requires Contiguous(a, sector) && Contiguous(b, sector + Size(a) / SECTOR)
    ensures Contiguous(a + b, sector) && Size(a + b) == Size(a) + Size(b)
  {
    if a == [] {
      assert a + b == b;
    } else {
      assert (a + b)[1..] == a[1..] + b;
      WholeSectors(a[1..], sector + a[0].size / SECTOR);
      Joined(a[1..], b, sector + a[0].size / SECTOR);
    }
  }

  /* ---- merging ---- */

  datatype Merge = NoMerge | Back | Front

  /** blk_try_merge */
  function TryMerge(r: Request, b: Bio): Merge
    requires r.dataLen >= 0
  {
    if r.sector + r.dataLen / SECTOR == b.sector then Back
    else if r.sector == b.sector + b.size / SECTOR then Front
    else NoMerge
  }

  /** bio_attempt_back_merge */
  function BackMerge(r: Request, b: Bio): Request { r.(bios := r.bios + [b], dataLen := r.dataLen + b.size) }

  /** bio_attempt_front_merge */
  function FrontMerge(r: Request, b: Bio): Request {
    r.(bios := [b] + r.bios, sector := b.sector, dataLen := r.dataLen + b.size)
  }

  /** attempt_merge, when both are mergeable: contiguous requests are joined. */
  function MergeRequests(r: Request, next: Request): Request
    requires r.dataLen >= 0
  {
    if r.sector + r.dataLen / SECTOR != next.sector then r
    else r.(bios := r.bios + next.bios, dataLen := r.dataLen + next.dataLen)
  }

  lemma OneBio(b: Bio)
    requires b.size > 0 && b.size % SECTOR == 0
    ensures Contiguous([b], b.sector) && Size([b]) == b.size
  {
    assert [b][1..] == [];
  }

  /** A bio that blk_try_merge accepts can be merged where it says. */
  lemma BioMergeOk(r: Request, b: Bio)
    requires Agrees(r) && r.bios != [] && b.size > 0 && b.size % SECTOR == 0
    ensures TryMerge(r, b) == Back ==> Agrees(BackMerge(r, b))
    ensures TryMerge(r, b) == Front ==> Agrees(FrontMerge(r, b))
  {
    OneBio(b);
    if TryMerge(r, b) == Back {
      Joined(r.bios, [b], r.sector);
    } else if TryMerge(r, b) == Front {
      Joined([b], r.bios, b.sector);
    }
  }

  lemma MergeRequestsOk(r: Request, next: Request)
    requires Agrees(r) && Agrees(next)
    ensures Agrees(MergeRequests(r, next))
  {
    if r.sector + r.dataLen / SECTOR == next.sector {
      Joined(r.bios, next.bios, r.sector);
    }
  }

  /** A chain that is contiguous is so from any bio on. */
  lemma {:induction false} ContiguousRest(a: seq<Bio>, b: seq<Bio>, sector: nat)
    requires Contiguous(a + b, sector)
    ensures Contiguous(a, sector) && Contiguous(b, sector + Size(a) / SECTOR)
  {
    if a == [] {
      assert a + b == b;
    } else {
      assert (a + b)[1..] == a[1..] + b;
      ContiguousRest(a[1..], b, sector + a[0].size / SECTOR);
      WholeSectors(a[1..], sector + a[0].size / SECTOR);
    }
  }

  /** blk_try_merge finds every bio that would continue the request: at the back if and only if the longer request would
      agree, and at the front if and only if that would and it does not fit at the back. */
  lemma TryMergeIff(r: Request, b: Bio)
    requires Agrees(r) && r.bios != [] && b.size > 0 && b.size % SECTOR == 0
    ensures TryMerge(r, b) == Back <==> Agrees(BackMerge(r, b))
    ensures TryMerge(r, b) == Front <==> Agrees(FrontMerge(r, b)) && !Agrees(BackMerge(r, b))
  {
    BioMergeOk(r, b);
    OneBio(b);
    if Agrees(BackMerge(r, b)) {
      ContiguousRest(r.bios, [b], r.sector);
    }
    if r.sector == b.sector + b.size / SECTOR {
      Joined([b], r.bios, b.sector);
    }
    if Agrees(FrontMerge(r, b)) {
      ContiguousRest([b], r.bios, b.sector);
    }
  }

  /** attempt_merge joins two requests if and only if their bios together are contiguous. */
  lemma JoinsIff(r: Request, next: Request)
    requires Agrees(r) && Agrees(next) && next.bios != []
    ensures MergeRequests(r, next).bios == r.bios + next.bios <==> Contiguous(r.bios + next.bios, r.sector)
    ensures !Contiguous(r.bios + next.bios, r.sector) ==> MergeRequests(r, next) == r
  {
    if r.sector + r.dataLen / SECTOR == next.sector {
      Joined(r.bios, next.bios, r.sector);
    } else if Contiguous(r.bios + next.bios, r.sector) {
      ContiguousRest(r.bios, next.bios, r.sector);
    }
  }

  /* ---- completing ---- */

  /** What the loop of blk_update_request leaves: the chain, the bios it ended, the bytes it used. */
  datatype Left = Left(bios: seq<Bio>, ended: seq<nat>, total: nat)

  /** req_bio_endio advances the bio. */
  function Advanced(b: Bio, bytes: nat): Bio
    requires bytes <= b.size
  {
    b.(sector := b.sector + bytes / SECTOR, size := b.size - bytes)
  }

  /** The loop of blk_update_request. */
  function Consume(bios: seq<Bio>, n: nat): Left {
    if bios == [] then Left([], [], 0)
    else
      var b := bios[0];
      if n < b.size then Left([Advanced(b, n)] + bios[1..], [], n)
      else if n == b.size then Left(bios[1..], [b.id], n)
      else
        var l := Consume(bios[1..], n - b.size);
        Left(l.bios, [b.id] + l.ended, b.size + l.total)
  }

  /** blk_update_request: whether there is more, and the request. `cur` is the size of the current segment afterwards. */
  function Update(r: Request, n: nat, cur: nat): (bool, Request) {
    if r.bios == [] then (false, r)
    else
      var l := Consume(r.bios, n);
      var r1 := r.(bios := l.bios, ended := r.ended + l.ended);
      if l.bios == [] then (false, r1.(dataLen := 0))
      else
        var r2 := r1.(dataLen := r.dataLen - l.total, sector := r.sector + l.total / SECTOR);
        (true, if r2.dataLen < cur then r2.(dataLen := cur) else r2)
  }

  ghost function Ids(bios: seq<Bio>): seq<nat> { if bios == [] then [] else [bios[0].id] + Ids(bios[1..]) }

  /** The loop uses up min(n, Size) bytes, takes whole bios off the front and ends exactly those. */
  lemma {:induction false} ConsumeIs(bios: seq<Bio>, sector: nat, n: nat)
    requires Contiguous(bios, sector)
    ensures var l := Consume(bios, n);
            && l.total == (if n < Size(bios) then n else Size(bios)) && Size(l.bios) == Size(bios) - l.total
            && (l.bios == [] <==> n >= Size(bios))
            && l.ended + Ids(l.bios) == Ids(bios)
  {
    if bios != [] {
      var b := bios[0];
      if n > b.size {
        ConsumeIs(bios[1..], sector + b.size / SECTOR, n - b.size);
        var l := Consume(bios[1..], n - b.size);
        assert [b.id] + l.ended + Ids(l.bios) == [b.id] + (l.ended + Ids(l.bios));
      } else if n < b.size {
        assert ([Advanced(b, n)] + bios[1..])[1..] == bios[1..];
      } else if bios[1..] != [] {
        WholeSectors(bios[1..], sector + b.size / SECTOR);
      }
    }
  }

  /** In whole sectors, what is left starts where the bytes that were used end. */
  lemma {:induction false} ConsumeContiguous(bios: seq<Bio>, sector: nat, n: nat)
    requires Contiguous(bios, sector) && n % SECTOR == 0 && n < Size(bios)
    ensures Contiguous(Consume(bios, n).bios, sector + n / SECTOR)
  {
    var b := bios[0];
    if n > b.size {
      ConsumeContiguous(bios[1..], sector + b.size / SECTOR, n - b.size);
    } else if n < b.size {
      assert ([Advanced(b, n)] + bios[1..])[1..] == bios[1..];
    }
  }

  lemma NotWhole(a: nat, b: nat)
    requires b % SECTOR == 0 && a % SECTOR != 0
    ensures b <= a ==> (a - b) % SECTOR != 0
    ensures a <= b ==> (b - a) % SECTOR != 0
  {
  }

  /** A number of bytes that is not in whole sectors leaves a bio that is not. */
  lemma {:induction false} PartSector(bios: seq<Bio>, sector: nat, n: nat, at: nat)
    requires Contiguous(bios, sector) && n % SECTOR != 0 && n < Size(bios)
    ensures !Contiguous(Consume(bios, n).bios, at)
  {
    var b := bios[0];
    NotWhole(n, b.size);
    if n > b.size {
      PartSector(bios[1..], sector + b.size / SECTOR, n - b.size, at);
    }
  }

  /** The current segment is part of the first bio. */
  ghost predicate CurOk(bios: seq<Bio>, cur: nat) { bios != [] ==> cur <= bios[0].size }

  /** "request botched" is unreachable: the request always has at least the bytes of its first bio left. */
  lemma NotBotched(r: Request, n: nat, cur: nat)
    requires Agrees(r) && r.bios != [] && CurOk(Consume(r.bios, n).bios, cur)
    ensures var l := Consume(r.bios, n); l.bios != [] ==> r.dataLen - l.total >= cur
  {
    ConsumeIs(r.bios, r.sector, n);
  }

  /** A partial completion keeps request and chain in agreement if and only if it is in whole sectors or completes all. */
  lemma UpdateAgreesIff(r: Request, n: nat, cur: nat)
    requires Agrees(r) && r.bios != [] && CurOk(Consume(r.bios, n).bios, cur)
    ensures Agrees(Update(r, n, cur).1) <==> n % SECTOR == 0 || n >= r.dataLen
  {
    ConsumeIs(r.bios, r.sector, n);
    NotBotched(r, n, cur);
    if n < r.dataLen {
      if n % SECTOR == 0 {
        ConsumeContiguous(r.bios, r.sector, n);
      } else {
        PartSector(r.bios, r.sector, n, Update(r, n, cur).1.sector);
      }
    }
  }

  /** There is more exactly if fewer bytes than the request has are completed; completing blk_rq_bytes always returns
      false. What was ended and what is left are together what was there. */
  lemma UpdateReturns(r: Request, n: nat, cur: nat)
    requires Agrees(r) && r.bios != []
    ensures var (more, u) := Update(r, n, cur);
            && (more <==> n < r.dataLen)
            && u.ended + Ids(u.bios) == r.ended + Ids(r.bios)
  {
    ConsumeIs(r.bios, r.sector, n);
    UpdateIs(r, n, cur);
    var l := Consume(r.bios, n);
    assert r.ended + l.ended + Ids(l.bios) == r.ended + (l.ended + Ids(l.bios));
  }

  lemma UpdateIs(r: Request, n: nat, cur: nat)
    requires r.bios != []
    ensures var (more, u), l := Update(r, n, cur), Consume(r.bios, n);
            u.bios == l.bios && u.ended == r.ended + l.ended && (more <==> l.bios != [])
  {
  }

  /* ---- runs ---- */

  datatype Op =
    | OpBio(b: Bio)
    | OpMerge(next: Request)
    | OpUpdate(n: nat, cur: nat)

  /** Merges are tried on a request with bios; completions are in whole sectors or complete the request. */
  ghost predicate Enabled(r: Request, op: Op) {
    match op
    case OpBio(b) => r.bios != [] && b.size > 0 && b.size % SECTOR == 0
    case OpMerge(next) => r.bios != [] && Agrees(next) && next.ended == []
    case OpUpdate(n, cur) => (n % SECTOR == 0 || n >= r.dataLen) && CurOk(Consume(r.bios, n).bios, cur)
  }

  ghost function Apply(r: Request, op: Op): (u: Request)
    requires Agrees(r)
  {
    if !Enabled(r, op) then r
    else match op
      case OpBio(b) =>
        (match TryMerge(r, b) case Back => BackMerge(r, b) case Front => FrontMerge(r, b) case NoMerge => r)
      case OpMerge(next) => MergeRequests(r, next)
      case OpUpdate(n, cur) => Update(r, n, cur).1
  }

  lemma ApplyAgrees(r: Request, op: Op)
    requires Agrees(r)
    ensures Agrees(Apply(r, op))
  {
    if Enabled(r, op) {
      match op {
        case OpBio(b) => BioMergeOk(r, b);
        case OpMerge(next) => MergeRequestsOk(r, next);
        case OpUpdate(n, cur) =>
          if r.bios != [] {
            UpdateAgreesIff(r, n, cur);
          }
      }
    }
  }

  /** Any mix of merges and completions of one request. */
  ghost function Run(r: Request, ops: seq<Op>): (u: Request)
    requires Agrees(r)
    ensures Agrees(u)
    decreases |ops|
  {
    if ops == [] then r
    else
      ApplyAgrees(r, ops[0]);
      Run(Apply(r, ops[0]), ops[1..])
  }

  ghost function Occurs(s: seq<nat>, x: nat): nat {
    if s == [] then 0 else (if s[0] == x then 1 else 0) + Occurs(s[1..], x)
  }

  lemma {:induction false} OccursConcat(a: seq<nat>, b: seq<nat>, x: nat)
    ensures Occurs(a + b, x) == Occurs(a, x) + Occurs(b, x)
  {
    if a == [] {
      assert a + b == b;
    } else {
      assert (a + b)[1..] == a[1..] + b;
      OccursConcat(a[1..], b, x);
    }
  }

  lemma {:induction false} IdsConcat(a: seq<Bio>, b: seq<Bio>)
    ensures Ids(a + b) == Ids(a) + Ids(b)
  {
    if a == [] {
      assert a + b == b;
    } else {
      assert (a + b)[1..] == a[1..] + b;
      IdsConcat(a[1..], b);
    }
  }

  /** How often bio x is in the request or has been ended by it. */
  ghost function Has(r: Request, x: nat): nat { Occurs(r.ended, x) + Occurs(Ids(r.bios), x) }

  /** What a step brings into the request. */
  ghost function Brings(r: Request, op: Op, x: nat): nat
    requires Agrees(r)
  {
    if !Enabled(r, op) then 0
    else match op
      case OpBio(b) => if TryMerge(r, b) == NoMerge then 0 else Occurs([b.id], x)
      case OpMerge(next) => if r.sector + r.dataLen / SECTOR != next.sector then 0 else Has(next, x)
      case OpUpdate(_, _) => 0
  }

  lemma BioBrings(r: Request, b: Bio, x: nat)
    ensures Has(BackMerge(r, b), x) == Has(r, x) + Occurs([b.id], x)
    ensures Has(FrontMerge(r, b), x) == Has(r, x) + Occurs([b.id], x)
  {
    IdsConcat(r.bios, [b]);
    IdsConcat([b], r.bios);
    assert [b][1..] == [];
    OccursConcat(Ids(r.bios), [b.id], x);
    OccursConcat([b.id], Ids(r.bios), x);
  }

  lemma UpdateKeeps(r: Request, n: nat, cur: nat, x: nat)
    requires Agrees(r)
    ensures Has(Update(r, n, cur).1, x) == Has(r, x)
  {
    if r.bios != [] {
      UpdateReturns(r, n, cur);
      var u := Update(r, n, cur).1;
      OccursConcat(u.ended, Ids(u.bios), x);
      OccursConcat(r.ended, Ids(r.bios), x);
    }
  }

  lemma ApplyHas(r: Request, op: Op, x: nat)
    requires Agrees(r)
    ensures Has(Apply(r, op), x) == Has(r, x) + Brings(r, op, x)
  {
    if Enabled(r, op) {
      match op {
        case OpBio(b) => BioBrings(r, b, x);
        case OpMerge(next) =>
          IdsConcat(r.bios, next.bios);
          OccursConcat(Ids(r.bios), Ids(next.bios), x);
        case OpUpdate(n, cur) => UpdateKeeps(r, n, cur, x);
      }
    }
  }

  ghost function BroughtIn(r: Request, ops: seq<Op>, x: nat): nat
    requires Agrees(r)
    decreases |ops|
  {
    if ops == [] then 0
    else
      ApplyAgrees(r, ops[0]);
      Brings(r, ops[0], x) + BroughtIn(Apply(r, ops[0]), ops[1..], x)
  }

  lemma {:induction false} RunHas(r: Request, ops: seq<Op>, x: nat)
    requires Agrees(r)
    ensures Has(Run(r, ops), x) == Has(r, x) + BroughtIn(r, ops, x)
    decreases |ops|
  {
    if ops != [] {
      ApplyAgrees(r, ops[0]);
      ApplyHas(r, ops[0], x);
      RunHas(Apply(r, ops[0]), ops[1..], x);
    }
  }

  /** After any run, completing all the bytes the request has ends every bio that ever came into it exactly as often as
      it came in, and returns false with nothing left. */
  lemma EveryBioEndsOnce(r: Request, ops: seq<Op>, cur: nat, x: nat)
    requires Agrees(r) && Run(r, ops).bios != [] && Run(r, ops).dataLen >= 0
    ensures var e := Run(r, ops);
            var (more, u) := Update(e, e.dataLen, cur);
            && !more && u.bios == [] && u.dataLen == 0
            && Occurs(u.ended, x) == Has(r, x) + BroughtIn(r, ops, x)
  {
    var e := Run(r, ops);
    RunHas(r, ops, x);
    UpdateReturns(e, e.dataLen, cur);
    UpdateKeeps(e, e.dataLen, cur, x);
    ConsumeIs(e.bios, e.sector, e.dataLen);
  }

  /* ---- in place ---- */

  class BlockRequest {
    var bios: seq<Bio>
    var sector: nat
    var dataLen: int
    var ended: seq<nat>

    ghost function View(): Request
      reads this
    {
      Request(bios, sector, dataLen, ended)
    }

    /** bio_attempt_back_merge */
    method AttemptBackMerge(b: Bio)
      requires Agrees(View()) && bios != [] && b.size > 0 && b.size % SECTOR == 0 && TryMerge(View(), b) == Back
      modifies this`bios, this`dataLen
      ensures View() == BackMerge(old(View()), b) && Agrees(View())
    {
      BioMergeOk(View(), b);
      bios := bios + [b];
      dataLen := dataLen + b.size;
    }

    /** bio_attempt_front_merge */
    method AttemptFrontMerge(b: Bio)
      requires Agrees(View()) && bios != [] && b.size > 0 && b.size % SECTOR == 0 && TryMerge(View(), b) == Front
      modifies this`bios, this`dataLen, this`sector
      ensures View() == FrontMerge(old(View()), b) && Agrees(View())
    {
      BioMergeOk(View(), b);
      bios := [b] + bios;
      sector := b.sector;
      dataLen := dataLen + b.size;
    }

    /** The loop of blk_update_request. */
    method ConsumeBios(nrBytes: nat) returns (total: nat)
      modifies this`bios, this`ended
      ensures var l := Consume(old(bios), nrBytes); bios == l.bios && ended == old(ended) + l.ended && total == l.total
    {
      total := 0;
      var n: nat := nrBytes;
      var stop := false;
      ghost var whole := Consume(bios, nrBytes);
      while bios != [] && !stop
        invariant stop ==> bios == whole.bios && total == whole.total && ended == old(ended) + whole.ended
        invariant !stop ==> whole.bios == Consume(bios, n).bios && whole.total == total + Consume(bios, n).total
        invariant !stop ==> old(ended) + whole.ended == ended + Consume(bios, n).ended
        decreases |bios|, !stop
      {
        var b := bios[0];
        var bytes := if b.size < n then b.size else n;
        ghost var rest := Consume(bios, n);
        if bytes == b.size {
          assert ended + rest.ended == ended + [b.id] + rest.ended[1..];
          bios := bios[1..];
          ended := ended + [b.id];
        } else {
          bios := [Advanced(b, bytes)] + bios[1..];
        }
        total := total + bytes;
        n := n - bytes;
        stop := n == 0;
      }
    }

    /** blk_update_request: true if the request has more data */
    method UpdateRequest(nrBytes: nat, cur: nat) returns (more: bool)
      modifies this
      ensures (more, View()) == Update(old(View()), nrBytes, cur)
    {
      if bios == [] {
        return false;
      }
      var total := ConsumeBios(nrBytes);
      if bios == [] {
        dataLen := 0;
        return false;
      }
      dataLen := dataLen - total;
      sector := sector + total / SECTOR;
      if dataLen < cur {
        dataLen := cur;
      }
      more := true;
    }
  }
}
