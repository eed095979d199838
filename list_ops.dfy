/** The three operations of .NET's List<T> that the tracker relies on
    (IndexOf, RemoveAt and Remove), modelled on sequences. */
module ListOps {

  /** List<T>.IndexOf: the index of the first element equal to x, or -1. */
  function IndexOf<T(==)>(s: seq<T>, x: T): (r: int)
    ensures -1 <= r < |s|
    ensures r < 0 <==> x !in s
    ensures 0 <= r ==> s[r] == x && x !in s[..r]
  {
    if s == [] then -1
    else if s[0] == x then 0
    else
      var k := IndexOf(s[1..], x);
      assert s[1..][..if k < 0 then 0 else k] == s[1..1 + (if k < 0 then 0 else k)];
      if k < 0 then -1 else k + 1
  }

  /** List<T>.RemoveAt: drop the element at index i, shifting the rest down. */
  function RemoveAt<T>(s: seq<T>, i: nat): (r: seq<T>)
    requires i < |s|
    ensures |r| == |s| - 1
    ensures forall k :: 0 <= k < i ==> r[k] == s[k]
    ensures forall k :: i <= k < |r| ==> r[k] == s[k + 1]
    ensures multiset(r) == multiset(s) - multiset{s[i]}
  {
    assert s == s[..i] + [s[i]] + s[i + 1..];
    s[..i] + s[i + 1..]
  }

  /** List<T>.Remove: drop the first element equal to x, if there is one. */
  function Remove<T(==)>(s: seq<T>, x: T): (r: seq<T>)
    ensures x !in s ==> r == s
    // the first occurrence is cut out and everything else keeps its order
    ensures x in s ==> r == RemoveAt(s, IndexOf(s, x))
    ensures x in s ==> |r| == |s| - 1
    ensures multiset(r) == multiset(s) - multiset{x}
  {
    var i := IndexOf(s, x);
    if i < 0 then s else RemoveAt(s, i)
  }

  /** Removing the first element after a prefix joins prefix and rest. */
  lemma RemoveAtJoin<T>(p: seq<T>, s: seq<T>)
    requires s != []
    ensures RemoveAt(p + s, |p|) == p + s[1..]
  {
    assert (p + s)[..|p|] == p;
    assert (p + s)[|p| + 1..] == s[1..];
  }

  /** An element found right after a prefix that does not contain it is
      found at the prefix's length. */
  lemma IndexOfAfterPrefix<T>(p: seq<T>, s: seq<T>, x: T)
    requires x !in p && s != [] && s[0] == x
    ensures IndexOf(p + s, x) == |p|
  {
    assert (p + s)[|p|] == x;
  }

  /** An element at index k with no earlier occurrence is found at k. */
  lemma IndexOfAt<T>(s: seq<T>, x: T, k: nat)
    requires k < |s| && s[k] == x && x !in s[..k]
    ensures IndexOf(s, x) == k
  {
  }

  /** Moving one element from the head of a suffix onto the end of its
      prefix leaves the whole sequence unchanged. Stated on its own so that
      proofs with many facts in scope need not rediscover associativity. */
  lemma ShiftIntoPrefix<T>(p: seq<T>, x: T, s: seq<T>)
    ensures (p + [x]) + s == p + ([x] + s)
  {
  }
}
