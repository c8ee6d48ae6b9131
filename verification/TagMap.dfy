/**
 The tag bitmap of blk-mq (block/blk-mq-tag.c): tags spread over words, searched from a cached position. A tag is a
 (word, bit) pair, a search that fails has seen every tag taken, and a freed tag restores the map.
 */
module TagMap {
  import opened Arith

  /** struct blk_align_bitmap */
  datatype Word = Word(depth: nat, bits: set<nat>)

  /** struct blk_mq_bitmap_tags; perWord is 1 << bits_per_word. */
  datatype Map = Map(perWord: nat, words: seq<Word>, depth: nat)

  /* ---- words and bits ---- */

  /** TAG_TO_INDEX */
  function TagToIndex(tag: nat, t: nat): nat { if t == 0 || tag < t then 0 else TagToIndex(tag - t, t) + 1 }

  /** TAG_TO_BIT */
  function TagToBit(tag: nat, t: nat): nat { if t == 0 || tag < t then tag else TagToBit(tag - t, t) }

  /** Shift and mask are quotient and remainder. */
  lemma {:induction false} ShiftAndMask(tag: nat, t: nat)
    requires t >= 1
    ensures TagToIndex(tag, t) == tag / t && TagToBit(tag, t) == tag % t
  {
    if tag >= t {
      ShiftAndMask(tag - t, t);
      Quotient(tag - t, t);
    }
  }

  lemma Quotient(n: nat, t: nat)
    requires t >= 1
    ensures (n + t) / t == n / t + 1 && (n + t) % t == n % t
  {
    OneMore(n / t, t);
    SameQuotient(n / t + 1, (n + t) / t, t, n % t, (n + t) % t);
  }

  /** A tag is its word and its bit, */
  lemma {:induction false} Compose(tag: nat, t: nat)
    requires t >= 1
    ensures tag == Times(TagToIndex(tag, t), t) + TagToBit(tag, t) && TagToBit(tag, t) < t
  {
    if tag >= t {
      Compose(tag - t, t);
    }
  }

  /** and every word and bit is a tag. */
  lemma {:induction false} Decompose(i: nat, r: nat, t: nat)
    requires r < t
    ensures TagToIndex(Times(i, t) + r, t) == i && TagToBit(Times(i, t) + r, t) == r
  {
    if i > 0 {
      Decompose(i - 1, r, t);
    }
  }

  /** The first n words hold the tags below n * t. */
  lemma {:induction false} BelowCap(tag: nat, t: nat, n: nat)
    requires t >= 1
    ensures TagToIndex(tag, t) < n <==> tag < Times(n, t)
  {
    if n > 0 && tag >= t {
      BelowCap(tag - t, t, n - 1);
    }
  }

  /* ---- layout ---- */

  /** What is left of `depth` for word i. */
  function WordDepth(depth: nat, i: nat, perWord: nat): nat {
    if depth <= Times(i, perWord) then 0
    else if depth - Times(i, perWord) < perWord then depth - Times(i, perWord)
    else perWord
  }

  /** bt_update_count: a depth of 0 leaves the words as they are. */
  function UpdateCount(m: Map, depth: nat): Map {
    if depth == 0 then m.(depth := 0)
    else m.(depth := depth, words := seq(|m.words|, i requires 0 <= i < |m.words| =>
                                         m.words[i].(depth := WordDepth(depth, i, m.perWord))))
  }

  /** The loop of bt_alloc that spreads a small tag space over more words. */
  function PerWord(depth: nat, t: nat): (r: nat)
    requires t >= 1
    ensures 1 <= r <= t
  {
    if depth >= 4 && t * 4 > depth && t > 1 then PerWord(depth, t / 2) else t
  }

  /** bt_alloc on a machine with 64-bit words */
  function Alloc(depth: nat): (m: Map)
    ensures m.perWord >= 1
  {
    var t := PerWord(depth, 64);
    UpdateCount(Map(t, seq(if depth == 0 then 0 else (depth + t - 1) / t, i => Word(0, {})), depth), depth)
  }

  ghost predicate Laid(m: Map) {
    m.perWord >= 1 && forall i :: 0 <= i < |m.words| ==> m.words[i].depth == WordDepth(m.depth, i, m.perWord)
  }

  /** No word offers more tags than it has bits. */
  ghost predicate Roomy(m: Map) {
    m.perWord >= 1 && forall i :: 0 <= i < |m.words| ==> m.words[i].depth <= m.perWord
  }

  lemma LaidIsRoomy(m: Map)
    requires Laid(m)
    ensures Roomy(m)
  {
  }

  /** The map has a bit for the tag. */
  predicate HasBit(m: Map, tag: nat) { m.perWord >= 1 && TagToIndex(tag, m.perWord) < |m.words| }

  /** The search can come up with the tag. */
  predicate Offered(m: Map, tag: nat) { HasBit(m, tag) && TagToBit(tag, m.perWord) < m.words[TagToIndex(tag, m.perWord)].depth }

  predicate Taken(m: Map, tag: nat)
    requires HasBit(m, tag)
  {
    TagToBit(tag, m.perWord) in m.words[TagToIndex(tag, m.perWord)].bits
  }

  lemma OfferedIs(m: Map, tag: nat)
    requires Laid(m)
    ensures Offered(m, tag) <==> tag < m.depth && tag < Times(|m.words|, m.perWord)
  {
    BelowCap(tag, m.perWord, |m.words|);
    Compose(tag, m.perWord);
    var i := TagToIndex(tag, m.perWord);
    if i < |m.words| {
      assert m.words[i].depth == WordDepth(m.depth, i, m.perWord);
    }
  }

  lemma UpdateLaid(m: Map, depth: nat)
    requires m.perWord >= 1 && depth > 0
    ensures Laid(UpdateCount(m, depth))
  {
  }

  /** After bt_update_count the words offer exactly the tags below the depth, if and only if there are words for
      it. */
  lemma OffersExactly(m: Map, depth: nat)
    requires m.perWord >= 1 && depth > 0
    ensures (forall tag: nat :: Offered(UpdateCount(m, depth), tag) <==> tag < depth) <==> depth <= Times(|m.words|, m.perWord)
  {
    var r := UpdateCount(m, depth);
    UpdateLaid(m, depth);
    forall tag: nat ensures Offered(r, tag) <==> tag < depth && tag < Times(|m.words|, m.perWord) {
      OfferedIs(r, tag);
    }
    if depth > Times(|m.words|, m.perWord) {
      OfferedIs(r, Times(|m.words|, m.perWord));
    }
  }

  lemma RoundUp(depth: nat, t: nat)
    requires t >= 1
    ensures depth <= (depth + t - 1) / t * t
  {
    assert depth + t - 1 == (depth + t - 1) / t * t + (depth + t - 1) % t;
  }

  lemma AllocFits(depth: nat)
    ensures var m := Alloc(depth); Laid(m) && m.depth == depth && depth <= Times(|m.words|, m.perWord)
  {
    var t := PerWord(depth, 64);
    var n := if depth == 0 then 0 else (depth + t - 1) / t;
    RoundUp(depth, t);
    TimesIsMul(n, t);
  }

  /* ---- one word ---- */

  /** find_next_zero_bit: the first clear bit from `from` on, or the depth. */
  function NextZero(w: Word, from: nat): (t: nat)
    ensures t < w.depth ==> from <= t && t !in w.bits
    ensures t >= w.depth ==> t == w.depth && forall b :: from <= b < w.depth ==> b in w.bits
    decreases w.depth - from
  {
    if from >= w.depth then w.depth else if from !in w.bits then from else NextZero(w, from + 1)
  }

  /** __bt_get_word with nobody else about: it tries again from 0 unless it may not wrap or started there. */
  function GetWord(w: Word, last: nat, nowrap: bool): (b: int)
    ensures b >= 0 ==> b < w.depth && b !in w.bits
    ensures b < 0 ==> b == -1 && forall t :: 0 <= t < w.depth ==> t in w.bits || (nowrap && t < last)
  {
    var t := NextZero(w, last);
    if t < w.depth then t
    else if last != 0 && !nowrap && NextZero(w, 0) < w.depth then NextZero(w, 0)
    else -1
  }

  /* ---- all words ---- */

  function NextWord(m: Map, index: nat): nat { if index + 1 >= |m.words| then 0 else index + 1 }

  /** The loop of __bt_get over n words from `index` on; the first is searched from bit `from`. */
  function Search(m: Map, index: nat, from: nat, rr: bool, n: nat): (tag: int)
    requires index < |m.words|
    ensures tag >= -1
    decreases n
  {
    if n == 0 then -1
    else
      var b := GetWord(m.words[index], from, rr);
      if b >= 0 then Times(index, m.perWord) + b else Search(m, NextWord(m, index), 0, rr, n - 1)
  }

  /** The word d places on, going round. */
  ghost function Around(m: Map, index: nat, d: nat): nat
    requires index < |m.words| && d <= |m.words|
  {
    if index + d < |m.words| then index + d else index + d - |m.words|
  }

  lemma {:induction false} SearchFailed(m: Map, index: nat, from: nat, rr: bool, n: nat, d: nat)
    requires index < |m.words| && d < n <= |m.words| && Search(m, index, from, rr, n) < 0
    ensures GetWord(m.words[Around(m, index, d)], if d == 0 then from else 0, rr) < 0
    decreases n
  {
    if d > 0 {
      SearchFailed(m, NextWord(m, index), 0, rr, n - 1, d - 1);
      assert Around(m, NextWord(m, index), d - 1) == Around(m, index, d);
    }
  }

  /** A search that fails has seen every offered tag taken, except below the starting bit when it may not wrap. */
  lemma SearchComplete(m: Map, index: nat, from: nat, rr: bool, tag: nat)
    requires index < |m.words| && Search(m, index, from, rr, |m.words|) < 0 && Offered(m, tag)
    ensures Taken(m, tag) || (rr && TagToIndex(tag, m.perWord) == index && TagToBit(tag, m.perWord) < from)
  {
    var i := TagToIndex(tag, m.perWord);
    var d := if i >= index then i - index else i + |m.words| - index;
    SearchFailed(m, index, from, rr, |m.words|, d);
    assert Around(m, index, d) == i;
  }

  lemma {:induction false} SearchFound(m: Map, index: nat, from: nat, rr: bool, n: nat)
    requires index < |m.words| && Roomy(m) && Search(m, index, from, rr, n) >= 0
    ensures var tag := Search(m, index, from, rr, n); Offered(m, tag) && !Taken(m, tag)
    decreases n
  {
    var b := GetWord(m.words[index], from, rr);
    if b >= 0 {
      assert m.words[index].depth <= m.perWord;
      Decompose(index, b, m.perWord);
    } else {
      SearchFound(m, NextWord(m, index), 0, rr, n - 1);
    }
  }

  /* ---- getting and putting ---- */

  function SetBit(m: Map, tag: nat): Map
    requires HasBit(m, tag)
  {
    var i := TagToIndex(tag, m.perWord);
    m.(words := m.words[i := m.words[i].(bits := m.words[i].bits + {TagToBit(tag, m.perWord)})])
  }

  function ClearBit(m: Map, tag: nat): Map
    requires HasBit(m, tag)
  {
    var i := TagToIndex(tag, m.perWord);
    m.(words := m.words[i := m.words[i].(bits := m.words[i].bits - {TagToBit(tag, m.perWord)})])
  }

  /** Where the next search starts after a tag was taken; depth - 1 is unsigned. */
  function NewCache(depth: nat, tag: nat): nat {
    if depth > 0 && tag + 1 >= depth - 1 then 0 else tag + 1
  }

  /** __bt_get: the tag or -1, the map and the cached tag it leaves. */
  function Get(m: Map, cache: nat, rr: bool, mayQueue: bool): (int, Map, nat)
    requires Roomy(m) && HasBit(m, cache)
  {
    if !mayQueue then (-1, m, cache)
    else
      var tag := Search(m, TagToIndex(cache, m.perWord), TagToBit(cache, m.perWord), rr, |m.words|);
      if tag < 0 then (-1, m, 0)
      else
        SearchFound(m, TagToIndex(cache, m.perWord), TagToBit(cache, m.perWord), rr, |m.words|);
        (tag, SetBit(m, tag), if tag == cache || rr then NewCache(m.depth, tag) else cache)
  }

  /** Changing one bit changes one tag. */
  lemma OneTag(m: Map, tag: nat, other: nat)
    requires HasBit(m, tag) && HasBit(m, other)
    ensures HasBit(SetBit(m, tag), other) && (Taken(SetBit(m, tag), other) <==> Taken(m, other) || other == tag)
    ensures HasBit(ClearBit(m, tag), other) && (Taken(ClearBit(m, tag), other) <==> Taken(m, other) && other != tag)
  {
    Compose(tag, m.perWord);
    Compose(other, m.perWord);
  }

  /** A tag that was got is one the words offer, was free, and is the only one that changed. */
  lemma GetTakesFree(m: Map, cache: nat, rr: bool, other: nat)
    requires Roomy(m) && HasBit(m, cache) && HasBit(m, other) && Get(m, cache, rr, true).0 >= 0
    ensures var (tag, r, c) := Get(m, cache, rr, true);
            && Offered(m, tag) && !Taken(m, tag) && (Laid(m) ==> tag < m.depth)
            && HasBit(r, other) && (Taken(r, other) <==> Taken(m, other) || other == tag)
  {
    var tag := Get(m, cache, rr, true).0;
    SearchFound(m, TagToIndex(cache, m.perWord), TagToBit(cache, m.perWord), rr, |m.words|);
    if Laid(m) {
      OfferedIs(m, tag);
    }
    OneTag(m, tag, other);
  }

  lemma ClearUndoesSet(m: Map, tag: nat)
    requires HasBit(m, tag) && !Taken(m, tag)
    ensures HasBit(SetBit(m, tag), tag) && ClearBit(SetBit(m, tag), tag) == m
  {
    var i, b := TagToIndex(tag, m.perWord), TagToBit(tag, m.perWord);
    assert m.words[i].bits + {b} - {b} == m.words[i].bits;
    assert ClearBit(SetBit(m, tag), tag).words == m.words;
  }

  /** Putting a tag back undoes getting it. */
  lemma PutUndoesGet(m: Map, cache: nat, rr: bool)
    requires Roomy(m) && HasBit(m, cache) && Get(m, cache, rr, true).0 >= 0
    ensures var (tag, r, _) := Get(m, cache, rr, true); HasBit(r, tag) && ClearBit(r, tag) == m
  {
    SearchFound(m, TagToIndex(cache, m.perWord), TagToBit(cache, m.perWord), rr, |m.words|);
    ClearUndoesSet(m, Get(m, cache, rr, true).0);
  }

  /** Under FIFO a search fails if and only if every tag is taken, wherever it starts. */
  lemma FifoFailsWhenFull(m: Map, cache: nat)
    requires Roomy(m) && HasBit(m, cache)
    ensures Get(m, cache, false, true).0 < 0 <==> forall tag: nat :: Offered(m, tag) ==> Taken(m, tag)
  {
    if Get(m, cache, false, true).0 < 0 {
      forall tag: nat | Offered(m, tag) ensures Taken(m, tag) {
        SearchComplete(m, TagToIndex(cache, m.perWord), TagToBit(cache, m.perWord), false, tag);
      }
    } else {
      SearchFound(m, TagToIndex(cache, m.perWord), TagToBit(cache, m.perWord), false, |m.words|);
    }
  }

  /** Under round robin a failed search starts the next one at 0, and two failures in a row mean that every tag is taken. */
  lemma RoundRobinFailsTwiceWhenFull(m: Map, cache: nat)
    requires Roomy(m) && HasBit(m, cache) && Get(m, cache, true, true).0 < 0
    ensures var (_, r, c) := Get(m, cache, true, true);
            && r == m && c == 0 && HasBit(m, 0)
            && (Get(m, 0, true, true).0 < 0 <==> forall tag: nat :: Offered(m, tag) ==> Taken(m, tag))
  {
    assert TagToIndex(0, m.perWord) == 0 && TagToBit(0, m.perWord) == 0;
    if Get(m, 0, true, true).0 < 0 {
      forall tag: nat | Offered(m, tag) ensures Taken(m, tag) {
        SearchComplete(m, 0, 0, true, tag);
      }
    } else {
      SearchFound(m, 0, 0, true, |m.words|);
    }
  }

  /** Where the words agree with the depth, and there are words for it, the cached tag keeps a word. */
  lemma CacheInRange(m: Map, cache: nat, rr: bool, mayQueue: bool)
    requires Laid(m) && Roomy(m) && HasBit(m, cache) && m.depth <= Times(|m.words|, m.perWord)
    ensures HasBit(m, Get(m, cache, rr, mayQueue).2)
  {
    var (tag, _, c) := Get(m, cache, rr, mayQueue);
    assert TagToIndex(0, m.perWord) == 0;
    if c != cache && c != 0 {
      GetTakesFree(m, cache, rr, cache);
      BelowCap(c, m.perWord, |m.words|);
    }
  }
}
