/** Generic folds over sequences: the filter/reduce pipelines the pages use,
    defined once and proved once. `Sum` folds left to right, as `reduce` does. */
module Seqs {

  /** Σ f(x) over `s`, accumulated from the left (`s.reduce((acc, x) => acc + f(x), 0)`). */
  function Sum<T>(s: seq<T>, f: T -> real): real
  {
    if s == [] then 0.0 else Sum(s[..|s| - 1], f) + f(s[|s| - 1])
  }

  /** The elements of `s` that satisfy `p`, in their original order (`s.filter(p)`). */
  function Filter<T>(s: seq<T>, p: T -> bool): (r: seq<T>)
    ensures |r| <= |s|
    ensures forall x :: x in r ==> x in s && p(x)
  {
    if s == [] then []
    else
      var rest := Filter(s[..|s| - 1], p);
      if p(s[|s| - 1]) then rest + [s[|s| - 1]] else rest
  }

  /** `r` can be obtained from `s` by deleting elements; order is kept. */
  predicate Subsequence<T(==)>(r: seq<T>, s: seq<T>)
  {
    if r == [] then true
    else if s == [] then false
    else if r[|r| - 1] == s[|s| - 1] then Subsequence(r[..|r| - 1], s[..|s| - 1])
    else Subsequence(r, s[..|s| - 1])
  }

  /** The negation of a predicate. */
  function Not<T>(p: T -> bool): T -> bool
  {
    x => !p(x)
  }

  /** The conjunction of two predicates. */
  function And<T>(p: T -> bool, q: T -> bool): T -> bool
  {
    x => p(x) && q(x)
  }

  /** `f` where `p` holds and 0 elsewhere. */
  function Where<T>(p: T -> bool, f: T -> real): T -> real
  {
    x => if p(x) then f(x) else 0.0
  }

  /** The pointwise difference of two amounts. */
  function Minus<T>(f: T -> real, g: T -> real): T -> real
  {
    x => f(x) - g(x)
  }

  lemma {:induction false} SumAppend<T>(a: seq<T>, b: seq<T>, f: T -> real)
    ensures Sum(a + b, f) == Sum(a, f) + Sum(b, f)
  {
    if b != [] {
      assert (a + b)[..|a + b| - 1] == a + b[..|b| - 1];
      SumAppend(a, b[..|b| - 1], f);
    } else {
      assert a + b == a;
    }
  }

  lemma SumSingle<T>(x: T, f: T -> real)
    ensures Sum([x], f) == f(x)
  {
    assert [x][..0] == [];
  }

  lemma {:induction false} FilterAppend<T>(a: seq<T>, b: seq<T>, p: T -> bool)
    ensures Filter(a + b, p) == Filter(a, p) + Filter(b, p)
  {
    if b != [] {
      assert (a + b)[..|a + b| - 1] == a + b[..|b| - 1];
      FilterAppend(a, b[..|b| - 1], p);
    } else {
      assert a + b == a;
    }
  }

  lemma FilterSingle<T>(x: T, p: T -> bool)
    ensures Filter([x], p) == if p(x) then [x] else []
  {
    assert [x][..0] == [];
  }

  /** Membership in a filter is exactly membership in the input plus the predicate. */
  lemma {:induction false} FilterMembership<T>(s: seq<T>, p: T -> bool, x: T)
    ensures x in Filter(s, p) <==> x in s && p(x)
  {
    if s != [] {
      FilterMembership(s[..|s| - 1], p, x);
      assert s == s[..|s| - 1] + [s[|s| - 1]];
    }
  }

  /** A filter whose predicate holds everywhere keeps the whole sequence. */
  lemma {:induction false} FilterAll<T>(s: seq<T>, p: T -> bool)
    requires forall i :: 0 <= i < |s| ==> p(s[i])
    ensures Filter(s, p) == s
  {
    if s != [] {
      FilterAll(s[..|s| - 1], p);
      assert s == s[..|s| - 1] + [s[|s| - 1]];
    }
  }

  /** A filter whose predicate holds nowhere keeps nothing. */
  lemma {:induction false} FilterNone<T>(s: seq<T>, p: T -> bool)
    requires forall i :: 0 <= i < |s| ==> !p(s[i])
    ensures Filter(s, p) == []
  {
    if s != [] {
      FilterNone(s[..|s| - 1], p);
    }
  }

  /** Filtering twice is filtering by the conjunction. */
  lemma {:induction false} FilterFilter<T>(s: seq<T>, p: T -> bool, q: T -> bool)
    ensures Filter(Filter(s, p), q) == Filter(s, And(p, q))
  {
    if s != [] {
      var init := s[..|s| - 1];
      var x := s[|s| - 1];
      FilterFilter(init, p, q);
      if p(x) {
        FilterAppend(Filter(init, p), [x], q);
        FilterSingle(x, q);
      }
    }
  }

  /** A filter is a subsequence of its input. */
  lemma {:induction false} FilterIsSubsequence<T>(s: seq<T>, p: T -> bool)
    ensures Subsequence(Filter(s, p), s)
  {
    if s != [] {
      var init := s[..|s| - 1];
      FilterIsSubsequence(init, p);
      if !p(s[|s| - 1]) {
        var r := Filter(init, p);
        if r != [] {
          SubsequenceAppend(r, init, s[|s| - 1]);
        }
      } else {
        var r := Filter(s, p);
        assert r[..|r| - 1] == Filter(init, p);
      }
    }
  }

  /** Appending an element to the larger sequence keeps a subsequence a subsequence. */
  lemma {:induction false} SubsequenceAppend<T>(r: seq<T>, s: seq<T>, x: T)
    requires Subsequence(r, s)
    ensures Subsequence(r, s + [x])
  {
    assert (s + [x])[..|s|] == s;
    if r != [] && r[|r| - 1] == x {
      SubsequenceDropLast(r, s);
    }
  }

  /** Dropping the last element of a subsequence leaves a subsequence. */
  lemma {:induction false} SubsequenceDropLast<T>(r: seq<T>, s: seq<T>)
    requires r != [] && Subsequence(r, s)
    ensures Subsequence(r[..|r| - 1], s)
    decreases |s|
  {
    var r', s' := r[..|r| - 1], s[..|s| - 1];
    if r[|r| - 1] != s[|s| - 1] {
      SubsequenceDropLast(r, s');
    }
    if r' != [] && r'[|r'| - 1] == s[|s| - 1] {
      SubsequenceDropLast(r', s');
    }
  }

  /** `t` is `s` extended by one element at the end. */
  lemma SubsequenceGrow<T>(r: seq<T>, s: seq<T>, t: seq<T>)
    requires Subsequence(r, s) && t != [] && t[..|t| - 1] == s
    ensures Subsequence(r, t)
  {
    assert t == s + [t[|t| - 1]];
    SubsequenceAppend(r, s, t[|t| - 1]);
  }

  /** Splitting a sum along a predicate and its negation loses nothing. */
  lemma {:induction false} SumSplit<T>(s: seq<T>, p: T -> bool, f: T -> real)
    ensures Sum(s, f) == Sum(Filter(s, p), f) + Sum(Filter(s, Not(p)), f)
  {
    if s != [] {
      var init := s[..|s| - 1];
      var x := s[|s| - 1];
      SumSplit(init, p, f);
      if p(x) {
        SumAppend(Filter(init, p), [x], f);
        SumSingle(x, f);
      } else {
        SumAppend(Filter(init, Not(p)), [x], f);
        SumSingle(x, f);
      }
    }
  }

  /** Summing the filtered sequence is summing the whole one with the rejected terms as 0. */
  lemma {:induction false} SumFilterWhere<T>(s: seq<T>, p: T -> bool, f: T -> real)
    ensures Sum(Filter(s, p), f) == Sum(s, Where(p, f))
  {
    if s != [] {
      var init := s[..|s| - 1];
      SumFilterWhere(init, p, f);
      SumFilterStep(init, s[|s| - 1], p, f);
      assert init + [s[|s| - 1]] == s;
    }
  }

  /** The sum of differences is the difference of the sums. */
  lemma {:induction false} SumMinus<T>(s: seq<T>, f: T -> real, g: T -> real)
    ensures Sum(s, Minus(f, g)) == Sum(s, f) - Sum(s, g)
  {
    if s != [] {
      SumMinus(s[..|s| - 1], f, g);
    }
  }

  /** The multiplicity of an element in a filter: all of its copies when it passes, none
      otherwise. */
  lemma {:induction false} FilterMultiplicity<T>(s: seq<T>, p: T -> bool, x: T)
    ensures multiset(Filter(s, p))[x] == if p(x) then multiset(s)[x] else 0
  {
    if s != [] {
      var init := s[..|s| - 1];
      assert s == init + [s[|s| - 1]];
      FilterMultiplicity(init, p, x);
    }
  }

  /** Every sequence is a subsequence of itself. */
  lemma {:induction false} SubsequenceRefl<T>(s: seq<T>)
    ensures Subsequence(s, s)
  {
    if s != [] {
      SubsequenceRefl(s[..|s| - 1]);
    }
  }

  /** A sum of non-negative terms is non-negative. */
  lemma {:induction false} SumNonNegative<T>(s: seq<T>, f: T -> real)
    requires forall i :: 0 <= i < |s| ==> f(s[i]) >= 0.0
    ensures Sum(s, f) >= 0.0
  {
    if s != [] {
      SumNonNegative(s[..|s| - 1], f);
    }
  }

  /** The sum does not depend on where a zero-contribution element sits. */
  lemma SumInsert<T>(a: seq<T>, x: T, b: seq<T>, f: T -> real)
    ensures Sum(a + [x] + b, f) == Sum(a + b, f) + f(x)
  {
    SumAppend(a + [x], b, f);
    SumAppend(a, [x], f);
    SumAppend(a, b, f);
    SumSingle(x, f);
  }

  lemma FilterInsert<T>(a: seq<T>, x: T, b: seq<T>, p: T -> bool)
    ensures Filter(a + [x] + b, p) == Filter(a, p) + Filter([x], p) + Filter(b, p)
  {
    FilterAppend(a + [x], b, p);
    FilterAppend(a, [x], p);
  }

  /** One more element: the filter grows by it exactly when it satisfies `p`. */
  lemma FilterStep<T>(s: seq<T>, x: T, p: T -> bool)
    ensures Filter(s + [x], p) == if p(x) then Filter(s, p) + [x] else Filter(s, p)
  {
    assert (s + [x])[..|s|] == s;
  }

  /** One more element: a filtered sum grows by `f(x)` exactly when `x` satisfies `p`. */
  lemma SumFilterStep<T>(s: seq<T>, x: T, p: T -> bool, f: T -> real)
    ensures Sum(Filter(s + [x], p), f) == Sum(Filter(s, p), f) + (if p(x) then f(x) else 0.0)
  {
    FilterStep(s, x, p);
    if p(x) {
      assert (Filter(s, p) + [x])[..|Filter(s, p)|] == Filter(s, p);
    }
  }

  /** An element the predicate rejects leaves the filter as if it were not there. */
  lemma FilterSkip<T>(a: seq<T>, x: T, b: seq<T>, p: T -> bool)
    requires !p(x)
    ensures Filter(a + [x] + b, p) == Filter(a + b, p)
  {
    FilterInsert(a, x, b, p);
    FilterSingle(x, p);
    FilterAppend(a, b, p);
  }

  /** A subsequence of a subsequence is a subsequence. */
  lemma {:induction false} SubsequenceTrans<T>(r: seq<T>, s: seq<T>, t: seq<T>)
    requires Subsequence(r, s) && Subsequence(s, t)
    ensures Subsequence(r, t)
    decreases |t|
  {
    if r != [] && t != [] {
      var s', t' := s[..|s| - 1], t[..|t| - 1];
      if s[|s| - 1] == t[|t| - 1] {
        if r[|r| - 1] == s[|s| - 1] {
          SubsequenceTrans(r[..|r| - 1], s', t');
        } else {
          SubsequenceTrans(r, s', t');
          SubsequenceGrow(r, t', t);
        }
      } else {
        SubsequenceTrans(r, s, t');
        SubsequenceGrow(r, t', t);
      }
    }
  }
}
