/** The two array operations setParent is built from: indexOf, and splice of one element. */
module Lists {
  /** Array.prototype.indexOf: the index of the first element equal to x, or -1. */
  function IndexOf<T(==)>(s: seq<T>, x: T): (i: int)
    ensures -1 <= i < |s|
    ensures i == -1 <==> x !in s
    ensures 0 <= i ==> s[i] == x && forall k :: 0 <= k < i ==> s[k] != x
  {
    if |s| == 0 then -1
    else if s[0] == x then 0
    else
      var j := IndexOf(s[1..], x);
      if j == -1 then -1 else j + 1
  }

  /** The list with its first occurrence of x taken out (the list itself when x is absent). */
  function RemoveFirst<T(==)>(s: seq<T>, x: T): seq<T>
  {
    if |s| == 0 then []
    else if s[0] == x then s[1..]
    else [s[0]] + RemoveFirst(s[1..], x)
  }

  /** When indexOf finds nothing, setParent leaves the list alone, and so does taking out the
    * first occurrence. */
  lemma {:induction false} SpliceAbsent<T>(s: seq<T>, x: T)
    requires IndexOf(s, x) < 0
    ensures RemoveFirst(s, x) == s
  {
    if |s| > 0 {
      SpliceAbsent(s[1..], x);
      assert s == [s[0]] + s[1..];
    }
  }

  /** When indexOf finds x, setParent splices out the element there, which is taking out the
    * first occurrence. */
  lemma {:induction false} SplicePresent<T>(s: seq<T>, x: T)
    requires 0 <= IndexOf(s, x)
    ensures RemoveFirst(s, x) == s[..IndexOf(s, x)] + s[IndexOf(s, x) + 1..]
  {
    if s[0] == x {
      assert s[..0] + s[1..] == s[1..];
    } else {
      var j := IndexOf(s[1..], x);
      assert IndexOf(s, x) == j + 1;
      assert RemoveFirst(s, x) == [s[0]] + RemoveFirst(s[1..], x);
      SplicePresent(s[1..], x);
      SpliceBehindHead(s, j);
    }
  }

  /** Removing the element at j + 1 of s is keeping the head and removing the element at j
    * of the tail. */
  lemma SpliceBehindHead<T>(s: seq<T>, j: int)
    requires 0 <= j && j + 1 < |s|
    ensures [s[0]] + (s[1..][..j] + s[1..][j + 1..]) == s[..j + 1] + s[j + 2..]
  {
    assert s[..j + 1] == [s[0]] + s[1..][..j];
    assert s[j + 2..] == s[1..][j + 1..];
  }

  /** Taking out the first occurrence drops exactly one x. */
  lemma {:induction false} RemoveFirstCounts<T>(s: seq<T>, x: T)
    requires x in s
    ensures multiset(RemoveFirst(s, x)) == multiset(s) - multiset{x}
  {
    assert s == [s[0]] + s[1..];
    if s[0] != x {
      RemoveFirstCounts(s[1..], x);
    }
  }

  /** Taking out the first occurrence shortens the list by one. */
  lemma {:induction false} RemoveFirstLength<T>(s: seq<T>, x: T)
    requires x in s
    ensures |RemoveFirst(s, x)| == |s| - 1
  {
    SplicePresent(s, x);
  }
}
