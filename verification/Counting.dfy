/** Facts about sizes that several modules count with. */
module Counting {
  function Bit(b: bool): nat { if b then 1 else 0 }

  /** The size of a set after one element has been put in or taken out. */
  lemma SizeAfter<T>(before: set<T>, after: set<T>, x: T, member: bool)
    requires after == if member then before + {x} else before - {x}
    ensures |after| == |before| - Bit(x in before) + Bit(member)
  {
  }

  lemma SubsetOfSameSize<T>(a: set<T>, b: set<T>)
    requires a <= b && |a| >= |b|
    ensures a == b
  {
    assert b == a + (b - a);
    assert |b - a| == 0;
  }

  /** A set that holds the first n numbers has at least n elements. */
  lemma {:induction false} FirstNumbers(s: set<nat>, n: nat)
    requires forall k: nat :: k < n ==> k in s
    ensures n <= |s|
  {
    if n > 0 {
      FirstNumbers(s - {n - 1}, n - 1);
    }
  }
}
