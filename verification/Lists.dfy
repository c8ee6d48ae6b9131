/** Kernel lists as sequences: the few facts about unlinking an element that the queue models share. */
module Lists {

  ghost predicate NoDup<T>(s: seq<T>) {
    s != [] ==> s[0] !in s[1..] && NoDup(s[1..])
  }

  /** list_del: the list without `x`. */
  function Remove<T(==,!new)>(s: seq<T>, x: T): (r: seq<T>)
    ensures forall y :: y in r <==> y in s && y != x
    ensures NoDup(s) ==> NoDup(r)
    ensures x !in s ==> r == s
    ensures |r| <= |s|
  {
    if s == [] then []
    else if s[0] == x then Remove(s[1..], x)
    else
      var t := Remove(s[1..], x);
      assert NoDup(s) ==> NoDup(s[1..]) && s[0] !in s[1..];
      assert x !in s ==> x !in s[1..] && s == [s[0]] + s[1..];
      [s[0]] + t
  }

  lemma RemoveHead<T(!new)>(s: seq<T>)
    requires s != [] && NoDup(s)
    ensures Remove(s, s[0]) == s[1..]
  {
    assert s[0] !in s[1..];
  }

  /** list_add_tail of an element that is not on the list. */
  lemma {:induction false} NoDupSnoc<T>(s: seq<T>, x: T)
    requires NoDup(s) && x !in s
    ensures NoDup(s + [x])
  {
    if s == [] {
      assert s + [x] == [x];
    } else {
      assert (s + [x])[1..] == s[1..] + [x];
      NoDupSnoc(s[1..], x);
    }
  }

  lemma Assoc<T>(a: seq<T>, b: seq<T>, c: seq<T>)
    ensures (a + b) + c == a + (b + c)
  {
  }

  lemma {:induction false} CardLe<T>(a: set<T>, b: set<T>)
    requires a <= b
    ensures |a| <= |b|
  {
    if a != {} {
      var x :| x in a;
      CardLe(a - {x}, b - {x});
    }
  }
}
