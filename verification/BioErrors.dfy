/**
 What becomes of errors in chained bios (block/bio.c): whatever finishes in one walk up takes over the error the walk starts
 with. So for a bio that was split, the error of a piece is reported exactly if no later piece succeeds.
 */
module BioErrors {
  import opened BioChain

  /** From bs to r, a bio chained to k has been finished. */
  ghost predicate FromBelow(bs: Bios, r: Bios, k: nat)
    requires |r| == |bs|
  {
    exists c :: 0 <= c < |bs| && bs[c].parent == k && !Finished(bs[c]) && Finished(r[c])
  }

  /** A completion leaves every bio's parent, and what is finished finished. */
  lemma {:induction false} EndioKeeps(bs: Bios, i: nat, k: nat)
    requires OkBut(bs, i) && k < |bs|
    ensures var r := Endio(bs, i);
            r[k].parent == bs[k].parent && r[k].done == bs[k].done && (Finished(bs[k]) ==> Finished(r[k])) && (k > i ==> r[k] == bs[k])
    decreases i
  {
    var (last, b) := RemainingDone(bs[i]);
    if last && b.parent >= 0 {
      PassUp(bs, i);
      var bs1 := bs[i := b.(puts := b.puts + 1)];
      EndioKeeps(bs1[b.parent := bs1[b.parent].(error := b.error)], b.parent, k);
    }
  }

  /** A completion reaches the bio it is for and every bio that it finishes one below: these take over its error, and no other
      error changes. */
  lemma {:induction false} ErrorsGoUp(bs: Bios, i: nat, k: nat)
    requires OkBut(bs, i) && k < |bs|
    ensures var r := Endio(bs, i);
            r[k].error == if k == i || FromBelow(bs, r, k) then bs[i].error else bs[k].error
    decreases i
  {
    var (last, b) := RemainingDone(bs[i]);
    var r := Endio(bs, i);
    if last && b.parent >= 0 {
      PassUp(bs, i);
      var bs1 := bs[i := b.(puts := b.puts + 1)];
      var bs2 := bs1[b.parent := bs1[b.parent].(error := b.error)];
      ErrorsGoUp(bs2, b.parent, k);
      forall c | 0 <= c < |bs| ensures r[c].parent == bs[c].parent && (c >= i ==> r[c] == bs2[c]) {
        EndioKeeps(bs2, b.parent, c);
      }
      if k == b.parent {
        assert Finished(r[i]);
      }
    }
  }

  lemma CompleteErrors(bs: Bios, i: nat, error: int, k: nat)
    requires Ok(bs) && i < |bs| && !bs[i].done && k < |bs|
    ensures var r := Complete(bs, i, error);
            && |r| == |bs| && Ok(r)
            && r[k].parent == bs[k].parent && r[k].done == (bs[k].done || k == i)
            && r[k].error == if k == i || FromBelow(bs, r, k) then Settled(bs[i], error).error else bs[k].error
  {
    var bs1 := bs[i := Settled(bs[i], error)];
    SettledDue(bs, i, error);
    CompleteOk(bs, i, error);
    EndioKeeps(bs1, i, k);
    ErrorsGoUp(bs1, i, k);
  }

  /* ---- a bio that was split ---- */

  /** The pieces 1, 2, ... are chained to bio 0; of the bios that have completed, `done` says which. */
  ghost predicate Split(bs: Bios, done: set<nat>) {
    && |bs| >= 1 && Ok(bs) && bs[0].parent < 0
    && (forall k :: 0 <= k < |bs| ==> (bs[k].done <==> k in done))
    && (forall c :: 0 < c < |bs| ==> bs[c].parent == 0 && (c !in done ==> bs[c].error == 0))
  }

  /** A piece is finished as soon as it has completed. */
  lemma PieceFinished(bs: Bios, done: set<nat>, c: nat)
    requires Split(bs, done) && 0 < c < |bs|
    ensures Finished(bs[c]) <==> c in done
  {
    FinishedIsSubtreeDone(bs, c);
  }

  /** One more completion of a split bio: a piece writes its own outcome into bio 0, and bio 0 itself only a failure. */
  lemma PieceCompletes(bs: Bios, done: set<nat>, i: nat, error: int)
    requires Split(bs, done) && i < |bs| && i !in done
    ensures var r := Complete(bs, i, error);
            Split(r, done + {i}) && r[0].error == if i > 0 || error != 0 then error else bs[0].error
  {
    var r := Complete(bs, i, error);
    CompleteErrors(bs, i, error, 0);
    forall k | 0 <= k < |bs|
      ensures r[k].parent == bs[k].parent && r[k].done == (bs[k].done || k == i)
      ensures k > 0 && k != i ==> r[k].error == bs[k].error
    {
      CompleteErrors(bs, i, error, k);
    }
    if i > 0 {
      PieceFinished(bs, done, i);
      PieceFinished(r, done + {i}, i);
      assert FromBelow(bs, r, 0);
    } else {
      forall c | 0 < c < |bs| ensures Finished(bs[c]) <==> Finished(r[c]) {
        PieceFinished(bs, done, c);
        PieceFinished(r, done + {i}, c);
      }
    }
  }

  /* ---- runs ---- */

  /** Completions in order: which bio, and with which error. */
  type Outcomes = seq<(nat, int)>

  ghost function Ids(o: Outcomes): set<nat> { set k | 0 <= k < |o| :: o[k].0 }

  /** No bio completes twice. */
  ghost predicate EachOnce(o: Outcomes, n: nat) {
    (forall k :: 0 <= k < |o| ==> o[k].0 < n) && forall k, m :: 0 <= k < m < |o| ==> o[k].0 != o[m].0
  }

  /** Splitting a bio k - 1 times. */
  ghost function Splits(k: nat): seq<Op> { if k <= 1 then [] else Splits(k - 1) + [OpChain(k - 1, 0)] }

  /** A bio is split into n, and these complete. */
  ghost function Program(n: nat, o: Outcomes): seq<Op> {
    if o == [] then Splits(n) else Program(n, o[..|o| - 1]) + [OpComplete(o[|o| - 1].0, o[|o| - 1].1)]
  }

  lemma RunSnoc(n: nat, ops: seq<Op>, op: Op)
    ensures Run(n, ops + [op]) == Apply(Run(n, ops), op)
  {
    assert (ops + [op])[..|ops|] == ops;
  }

  /** Nothing has completed yet, and the first k are bio 0 and its pieces. */
  ghost predicate Ready(bs: Bios, k: nat) {
    && (forall c :: 0 <= c < |bs| ==> !bs[c].done && bs[c].error == 0 && bs[c].ends == 0 && bs[c].puts == 0)
    && (forall c :: 0 <= c < |bs| ==> bs[c].parent == if 0 < c < k then 0 else -1)
  }

  lemma StartReady(n: nat)
    ensures Ready(Start(n), 1)
  {
    assert forall c :: 0 <= c < n ==> Start(n)[c] == Fresh;
  }

  lemma ChainReady(bs: Bios, k: nat)
    requires Ok(bs) && Ready(bs, k) && 1 <= k < |bs|
    ensures Ready(Apply(bs, OpChain(k, 0)), k + 1)
  {
  }

  lemma {:induction false} SplitReached(n: nat, k: nat)
    requires 1 <= k <= n
    ensures Ready(Run(n, Splits(k)), k)
  {
    if k == 1 {
      StartReady(n);
    } else {
      SplitReached(n, k - 1);
      RunSnoc(n, Splits(k - 1), OpChain(k - 1, 0));
      ChainReady(Run(n, Splits(k - 1)), k - 1);
    }
  }

  /** Some completion failed, and no piece that completed later succeeded. */
  ghost predicate Reported(o: Outcomes) {
    exists k :: 0 <= k < |o| && o[k].1 != 0 && forall m :: k < m < |o| ==> o[m].1 != 0 || o[m].0 == 0
  }

  lemma ReportedSnoc(o: Outcomes, i: nat, error: int)
    ensures Reported(o + [(i, error)]) <==> error != 0 || (i == 0 && Reported(o))
  {
    var p := o + [(i, error)];
    assert p[|o|] == (i, error);
    if error == 0 && Reported(p) {
      var k :| 0 <= k < |p| && p[k].1 != 0 && forall m :: k < m < |p| ==> p[m].1 != 0 || p[m].0 == 0;
      assert o[k] == p[k];
      assert forall m :: k < m < |o| ==> o[m] == p[m];
    }
    if i == 0 && Reported(o) {
      var k :| 0 <= k < |o| && o[k].1 != 0 && forall m :: k < m < |o| ==> o[m].1 != 0 || o[m].0 == 0;
      assert p[k] == o[k];
      assert forall m :: k < m < |o| ==> p[m] == o[m];
    }
  }

  lemma IdsSnoc(o: Outcomes, i: nat, error: int, n: nat)
    requires EachOnce(o + [(i, error)], n)
    ensures EachOnce(o, n) && i < n && i !in Ids(o) && Ids(o + [(i, error)]) == Ids(o) + {i}
  {
    var p := o + [(i, error)];
    assert p[|o|] == (i, error);
    assert forall k :: 0 <= k < |o| ==> p[k] == o[k];
    forall x | x in Ids(o) + {i} ensures x in Ids(p) {
      if x == i {
        assert p[|o|].0 == x;
      } else {
        var k :| 0 <= k < |o| && o[k].0 == x;
        assert p[k].0 == x;
      }
    }
  }

  lemma {:induction false} SplitRuns(n: nat, o: Outcomes)
    requires n >= 1 && EachOnce(o, n)
    ensures var bs := Run(n, Program(n, o)); Split(bs, Ids(o)) && (bs[0].error != 0 <==> Reported(o))
  {
    if o == [] {
      SplitReached(n, n);
      assert Program(n, o) == Splits(n) && Ids(o) == {} && !Reported(o);
    } else {
      var q, i, error := o[..|o| - 1], o[|o| - 1].0, o[|o| - 1].1;
      assert o == q + [(i, error)];
      IdsSnoc(q, i, error, n);
      SplitRuns(n, q);
      RunSnoc(n, Program(n, q), OpComplete(i, error));
      PieceCompletes(Run(n, Program(n, q)), Ids(q), i, error);
      ReportedSnoc(q, i, error);
    }
  }

  /** A bio is split into any number of pieces and these complete in any order: when the bio itself is finished, which is when
      all have completed, it has an error if and only if one of them failed and no piece completed successfully after it. */
  lemma ErrorReportedIff(n: nat, o: Outcomes)
    requires n >= 1 && EachOnce(o, n)
    ensures var bio := Run(n, Program(n, o))[0];
            && (bio.ends == 1 <==> forall i :: 0 <= i < n ==> i in Ids(o))
            && (bio.error != 0 <==> Reported(o))
  {
    SplitRuns(n, o);
    EndsOnceAfterSubtree(n, Program(n, o), 0);
    var bs := Run(n, Program(n, o));
    forall c | 0 < c < n ensures SubtreeDone(bs, c) <==> c in Ids(o) {
      PieceFinished(bs, Ids(o), c);
      FinishedIsSubtreeDone(bs, c);
    }
  }

  /** The error of a piece is lost if the next piece succeeds. */
  lemma ErrorLost()
    ensures var bio := Run(3, Program(3, [(1, -5), (2, 0), (0, 0)]))[0]; bio.ends == 1 && bio.error == 0
  {
    var o: Outcomes := [(1, -5), (2, 0), (0, 0)];
    ErrorReportedIff(3, o);
    assert o[0].0 in Ids(o) && o[1].0 in Ids(o) && o[2].0 in Ids(o);
    assert !Reported(o);
  }
}
