/**
 The cached position of the tag search (__bt_get in block/blk-mq-tag.c): what the next search starts with, and which tags
 somebody who gets and puts one tag at a time goes through.
 */
module TagCache {
  import opened Arith
  import opened TagMap

  /** The cached tag is got whenever it is offered and free. */
  lemma CachedFirst(m: Map, cache: nat, rr: bool)
    requires Roomy(m) && Offered(m, cache) && !Taken(m, cache)
    ensures Get(m, cache, rr, true).0 == cache
  {
    Compose(cache, m.perWord);
    var w := m.words[TagToIndex(cache, m.perWord)];
    assert NextZero(w, TagToBit(cache, m.perWord)) == TagToBit(cache, m.perWord);
  }

  /** Two maps for the same tags. */
  ghost predicate SameTags(m: Map, later: Map) {
    Laid(m) && Laid(later) && later.depth == m.depth && later.perWord == m.perWord && |later.words| == |m.words|
  }

  lemma MovesBehind(m: Map, cache: nat, rr: bool)
    requires Laid(m) && HasBit(m, cache) && m.depth >= 2
    requires Get(m, cache, rr, true).0 >= 0 && (rr || Get(m, cache, rr, true).0 == cache)
    ensures var (tag, r, c) := Get(m, cache, rr, true); c == if tag + 2 < m.depth then tag + 1 else 0
  {
  }

  /** After a search in round robin, or one that found the cached tag, the next one starts behind the tag that was found: if that
      is free by then, whatever else has been got and put, it is the next. The last tag is never the one to start with. */
  lemma GoesOn(m: Map, cache: nat, rr: bool, later: Map)
    requires SameTags(m, later) && HasBit(m, cache) && m.depth >= 2 && m.depth <= Times(|m.words|, m.perWord)
    requires Get(m, cache, rr, true).0 >= 0 && (rr || Get(m, cache, rr, true).0 == cache)
    ensures var (tag, r, c) := Get(m, cache, rr, true);
            var next := if tag + 2 < m.depth then tag + 1 else 0;
            Offered(later, next) && (!Taken(later, next) ==> HasBit(later, c) && Get(later, c, rr, true).0 == next)
  {
    var next := Get(m, cache, rr, true).2;
    MovesBehind(m, cache, rr);
    OfferedIs(later, next);
    if !Taken(later, next) {
      CachedFirst(later, next, rr);
    }
  }

  /** After a search that had to take another tag than the cached one, without round robin, the next one tries the cached tag
      again. */
  lemma TriesAgain(m: Map, cache: nat, later: Map)
    requires SameTags(m, later) && Offered(later, cache) && HasBit(m, cache)
    requires Get(m, cache, false, true).0 >= 0 && Get(m, cache, false, true).0 != cache && !Taken(later, cache)
    ensures Get(later, Get(m, cache, false, true).2, false, true).0 == cache
  {
    CachedFirst(later, cache, false);
  }

  /** A search over n words that do not include `skip` finds nothing in it. */
  lemma {:induction false} SearchElsewhere(m: Map, index: nat, rr: bool, n: nat, skip: nat)
    requires Roomy(m) && index < |m.words| && n <= |m.words| && Search(m, index, 0, rr, n) >= 0
    requires forall d :: 0 <= d < n ==> Around(m, index, d) != skip
    ensures TagToIndex(Search(m, index, 0, rr, n), m.perWord) != skip
    decreases n
  {
    var b := GetWord(m.words[index], 0, rr);
    if b >= 0 {
      assert Around(m, index, 0) == index;
      assert m.words[index].depth <= m.perWord;
      Decompose(index, b, m.perWord);
    } else {
      var next := NextWord(m, index);
      forall d | 0 <= d < n - 1 ensures Around(m, next, d) != skip {
        assert Around(m, next, d) == Around(m, index, d + 1);
      }
      SearchElsewhere(m, next, rr, n - 1, skip);
    }
  }

  /** A search in round robin never goes back within the word it starts in. */
  lemma NeverBack(m: Map, cache: nat)
    requires Roomy(m) && HasBit(m, cache) && Get(m, cache, true, true).0 >= 0
    ensures var tag := Get(m, cache, true, true).0; TagToIndex(tag, m.perWord) == TagToIndex(cache, m.perWord) ==> tag >= cache
  {
    var index, from, t := TagToIndex(cache, m.perWord), TagToBit(cache, m.perWord), m.perWord;
    Compose(cache, t);
    var b := GetWord(m.words[index], from, true);
    if b < 0 {
      var next := NextWord(m, index);
      forall d | 0 <= d < |m.words| - 1 ensures Around(m, next, d) != index {
        assert Around(m, next, d) == Around(m, index, d + 1);
      }
      SearchElsewhere(m, next, true, |m.words| - 1, index);
    }
  }

  /* ---- one tag at a time ---- */

  /** The cached tag after n tags have been got, each put back before the next. */
  ghost function CacheAfter(m: Map, cache: nat, rr: bool, n: nat): nat
    requires Roomy(m)
  {
    if n == 0 then cache
    else
      var c := CacheAfter(m, cache, rr, n - 1);
      if HasBit(m, c) then Get(m, c, rr, true).2 else 0
  }

  /** n steps round k places from c on. */
  ghost function Round(c: nat, n: nat, k: nat): (r: nat)
    requires c < k
    ensures r < k
  {
    if n == 0 then c
    else
      var d := Round(c, n - 1, k);
      if d + 1 >= k then 0 else d + 1
  }

  lemma NextInTurn(c: nat, n: nat, k: nat)
    requires k >= 1 && c == n % k
    ensures (n + 1) % k == if c + 1 >= k then 0 else c + 1
  {
    var q := n / k;
    if c + 1 >= k {
      assert n + 1 == (q + 1) * k;
      OneMore(q, k);
      SameQuotient(q + 1, (n + 1) / k, k, 0, (n + 1) % k);
    } else {
      SameQuotient(q, (n + 1) / k, k, c + 1, (n + 1) % k);
    }
  }

  lemma {:induction false} RoundIsMod(c: nat, n: nat, k: nat)
    requires c < k
    ensures Round(c, n, k) == (c + n) % k
  {
    if n > 0 {
      RoundIsMod(c, n - 1, k);
      NextInTurn(Round(c, n - 1, k), c + n - 1, k);
    }
  }

  /** The map has words for its depth and no tag that it offers is taken. */
  ghost predicate Idle(m: Map) {
    Laid(m) && m.depth <= Times(|m.words|, m.perWord) && forall tag: nat :: Offered(m, tag) ==> !Taken(m, tag)
  }

  lemma OneTurn(m: Map, c: nat, rr: bool)
    requires Idle(m) && c + 1 < m.depth
    ensures HasBit(m, c) && Get(m, c, rr, true).0 == c && Get(m, c, rr, true).2 == if c + 1 >= m.depth - 1 then 0 else c + 1
  {
    OfferedIs(m, c);
    CachedFirst(m, c, rr);
  }

  lemma {:induction false} CacheGoesRound(m: Map, cache: nat, rr: bool, n: nat)
    requires Idle(m) && cache + 1 < m.depth
    ensures CacheAfter(m, cache, rr, n) == Round(cache, n, m.depth - 1)
  {
    if n > 0 {
      CacheGoesRound(m, cache, rr, n - 1);
      OneTurn(m, Round(cache, n - 1, m.depth - 1), rr);
    }
  }

  /** Whoever gets and puts one tag at a time, with nobody else about, goes through all tags but the last in turn. */
  lemma OneAtATime(m: Map, cache: nat, rr: bool, n: nat)
    requires Idle(m) && cache + 1 < m.depth
    ensures var c := CacheAfter(m, cache, rr, n);
            c == (cache + n) % (m.depth - 1) && HasBit(m, c) && Get(m, c, rr, true).0 == c
  {
    CacheGoesRound(m, cache, rr, n);
    RoundIsMod(cache, n, m.depth - 1);
    OneTurn(m, Round(cache, n, m.depth - 1), rr);
  }
}
