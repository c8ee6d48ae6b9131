/** struct blk_mq_bitmap_tags, updated in place; the search loops are proved to be the searches they stand for. */
module TagDataObject {
  import opened Arith
  import opened TagMap

  class BitmapTags {
    var perWord: nat
    var words: seq<Word>
    var depth: nat

    ghost function View(): Map
      reads this
    {
      Map(perWord, words, depth)
    }

    /** The search of __bt_get_word, with find_next_zero_bit written out. */
    method GetWordBit(w: Word, lastTag: nat, nowrap: bool) returns (bit: int)
      ensures bit == GetWord(w, lastTag, nowrap)
    {
      var orgLast, last := lastTag, lastTag;
      while true
        invariant orgLast == last && (last == lastTag || (last == 0 && !nowrap && lastTag != 0 && NextZero(w, lastTag) >= w.depth))
        decreases if last == 0 then 0 else 1
      {
        var t := last;
        while t < w.depth && t in w.bits
          invariant NextZero(w, t) == NextZero(w, last)
        {
          t := t + 1;
        }
        if t < w.depth {
          return t;
        }
        if orgLast == 0 || last == 0 || nowrap {
          return -1;
        }
        last, orgLast := 0, 0;
      }
    }

    /** The end of __bt_get: the bit is set, and the cache moves on if it was hit or under round robin. */
    method TakeTag(tag: nat, cache: nat, rr: bool) returns (newCache: nat)
      requires HasBit(View(), tag)
      modifies this`words
      ensures View() == SetBit(old(View()), tag)
      ensures newCache == if tag == cache || rr then NewCache(depth, tag) else cache
    {
      newCache := cache;
      if tag == cache || rr {
        newCache := tag + 1;
        if depth > 0 && newCache >= depth - 1 {
          newCache := 0;
        }
      }
      var word := TagToIndex(tag, perWord);
      words := words[word := words[word].(bits := words[word].bits + {TagToBit(tag, perWord)})];
    }

    /** __bt_get */
    method GetTag(cache: nat, rr: bool, mayQueue: bool) returns (tag: int, newCache: nat)
      requires Roomy(View()) && HasBit(View(), cache)
      modifies this`words
      ensures (tag, View(), newCache) == Get(old(View()), cache, rr, mayQueue)
    {
      if !mayQueue {
        return -1, cache;
      }
      var index: nat, from: nat := TagToIndex(cache, perWord), TagToBit(cache, perWord);
      SearchSound(View(), cache, rr);
      var i := 0;
      while i < |words|
        invariant i <= |words| && index < |words| && words == old(words)
        invariant Search(View(), index, from, rr, |words| - i)
               == Search(View(), TagToIndex(cache, perWord), TagToBit(cache, perWord), rr, |words|)
      {
        var bit := GetWordBit(words[index], from, rr);
        if bit >= 0 {
          tag := Times(index, perWord) + bit;
          newCache := TakeTag(tag, cache, rr);
          return;
        }
        index := index + 1;
        from := 0;
        if index >= |words| {
          index := 0;
        }
        i := i + 1;
      }
      return -1, 0;
    }

    /** bt_clear_tag, the bit; wakeups are those of TagWake */
    method ClearTag(tag: nat)
      requires HasBit(View(), tag)
      modifies this`words
      ensures View() == ClearBit(old(View()), tag) && HasBit(View(), tag) && !Taken(View(), tag)
      ensures forall other :: HasBit(old(View()), other) && other != tag ==>
                HasBit(View(), other) && (Taken(View(), other) <==> Taken(old(View()), other))
    {
      ghost var m := View();
      forall other: nat | HasBit(m, other)
        ensures HasBit(ClearBit(m, tag), other) && (Taken(ClearBit(m, tag), other) <==> Taken(m, other) && other != tag)
      {
        OneTag(m, tag, other);
      }
      var index := TagToIndex(tag, perWord);
      words := words[index := words[index].(bits := words[index].bits - {TagToBit(tag, perWord)})];
    }

    /** bt_update_count, the words */
    method UpdateDepth(newDepth: nat)
      requires perWord >= 1
      modifies this`words, this`depth
      ensures View() == UpdateCount(old(View()), newDepth)
    {
      if newDepth > 0 {
        var mapDepth, i := newDepth, 0;
        ghost var target := UpdateCount(View(), newDepth).words;
        while i < |words|
          invariant i <= |words| == |old(words)| && mapDepth == if newDepth <= Times(i, perWord) then 0 else newDepth - Times(i, perWord)
          invariant forall k :: 0 <= k < i ==> words[k] == target[k]
          invariant forall k :: i <= k < |words| ==> words[k] == old(words)[k]
        {
          var d := if mapDepth < perWord then mapDepth else perWord;
          words := words[i := words[i].(depth := d)];
          mapDepth := mapDepth - d;
          i := i + 1;
        }
        assert words == target;
      }
      depth := newDepth;
    }
  }

  lemma SearchSound(m: Map, cache: nat, rr: bool)
    requires Roomy(m) && HasBit(m, cache)
    ensures var tag := Search(m, TagToIndex(cache, m.perWord), TagToBit(cache, m.perWord), rr, |m.words|);
            tag >= 0 ==> HasBit(m, tag)
  {
    if Search(m, TagToIndex(cache, m.perWord), TagToBit(cache, m.perWord), rr, |m.words|) >= 0 {
      SearchFound(m, TagToIndex(cache, m.perWord), TagToBit(cache, m.perWord), rr, |m.words|);
    }
  }
}
