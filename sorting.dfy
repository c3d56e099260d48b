/** The in-place `Array.prototype.sort` calls of the pages, which all order records by a
    string key, greatest first. Modelled as an insertion sort by adjacent swaps. */
module Sorting {
  import opened Text

  /** Each element's key is at least the next one's (character-by-character order, as Text.Compare). */
  predicate DescendingBy<T>(s: seq<T>, key: T -> string)
  {
    forall i :: 0 < i < |s| ==> Compare(key(s[i - 1]), key(s[i])) >= 0
  }

  /** Adjacent order gives order between any two positions. */
  lemma {:induction false} DescendingAllPairs<T>(s: seq<T>, key: T -> string, i: int, j: int)
    requires DescendingBy(s, key) && 0 <= i <= j < |s|
    ensures Compare(key(s[i]), key(s[j])) >= 0
    decreases j - i
  {
    if i < j {
      DescendingAllPairs(s, key, i, j - 1);
      CompareTransitive(key(s[i]), key(s[j - 1]), key(s[j]));
    }
  }

  /** Exchanges two elements of `a`. */
  method Swap<T>(a: array<T>, i: int, j: int)
    requires 0 <= i < a.Length && 0 <= j < a.Length
    modifies a
    ensures a[..] == old(a[..])[i := old(a[j])][j := old(a[i])]
    ensures multiset(a[..]) == multiset(old(a[..]))
  {
    a[i], a[j] := a[j], a[i];
  }

  /** The first `n` elements have non-increasing keys. */
  predicate SortedPrefix<T>(s: seq<T>, key: T -> string, n: int)
    requires n <= |s|
  {
    forall k :: 0 < k < n ==> Compare(key(s[k - 1]), key(s[k])) >= 0
  }

  /** While the element taken from position `i` moves left, every adjacent pair up to `i`
      is ordered except at its current position `j`. */
  predicate OrderedExcept<T>(s: seq<T>, key: T -> string, i: int, j: int)
    requires i < |s|
  {
    forall k :: 0 < k <= i && k != j ==> Compare(key(s[k - 1]), key(s[k])) >= 0
  }

  /** The neighbours on either side of the moving element are ordered with each other. */
  predicate Bridged<T>(s: seq<T>, key: T -> string, i: int, j: int)
    requires 0 <= j <= i < |s|
  {
    0 < j < i ==> Compare(key(s[j - 1]), key(s[j + 1])) >= 0
  }

  /** Swapping the moving element with a smaller-keyed left neighbour moves the gap one
      place left and keeps the rest ordered. */
  lemma SwapStep<T>(s: seq<T>, key: T -> string, i: int, j: int)
    requires 0 < j <= i < |s|
    requires OrderedExcept(s, key, i, j) && Bridged(s, key, i, j)
    requires Compare(key(s[j - 1]), key(s[j])) < 0
    ensures var t := s[j - 1 := s[j]][j := s[j - 1]];
      OrderedExcept(t, key, i, j - 1) && Bridged(t, key, i, j - 1)
  {
    CompareAntisymmetric(key(s[j - 1]), key(s[j]));
    var t := s[j - 1 := s[j]][j := s[j - 1]];
    forall k | 0 < k <= i && k != j - 1
      ensures Compare(key(t[k - 1]), key(t[k])) >= 0
    {
      if k == j {
        assert t[k - 1] == s[j] && t[k] == s[j - 1];
      } else if k == j + 1 {
        assert t[k - 1] == s[j - 1] && t[k] == s[j + 1];
      } else {
        assert t[k - 1] == s[k - 1] && t[k] == s[k];
      }
    }
    if 0 < j - 1 {
      assert t[j - 2] == s[j - 2] && t[j] == s[j - 1];
    }
  }

  /** Moves `a[i]` left past every smaller key, extending the descending prefix by one. */
  method InsertAt<T>(a: array<T>, i: int, key: T -> string)
    requires 0 <= i < a.Length
    requires SortedPrefix(a[..], key, i)
    modifies a
    ensures SortedPrefix(a[..], key, i + 1)
    ensures multiset(a[..]) == multiset(old(a[..]))
  {
    var j := i;
    while j > 0 && Compare(key(a[j - 1]), key(a[j])) < 0
      invariant 0 <= j <= i
      invariant OrderedExcept(a[..], key, i, j) && Bridged(a[..], key, i, j)
      invariant multiset(a[..]) == multiset(old(a[..]))
    {
      SwapStep(a[..], key, i, j);
      Swap(a, j - 1, j);
      j := j - 1;
    }
  }

  /** Sorts `a` in place so that keys never increase; the elements are only rearranged. */
  method SortDescendingBy<T>(a: array<T>, key: T -> string)
    modifies a
    ensures DescendingBy(a[..], key)
    ensures multiset(a[..]) == multiset(old(a[..]))
  {
    var i := 0;
    while i < a.Length
      invariant 0 <= i <= a.Length
      invariant SortedPrefix(a[..], key, i)
      invariant multiset(a[..]) == multiset(old(a[..]))
    {
      InsertAt(a, i, key);
      i := i + 1;
    }
  }
}
