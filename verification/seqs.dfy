/** Sequence filtering as JavaScript's `Array.prototype.filter` does it, and the facts about it
    that the pages rely on: membership, preserved order, counting. */
module Seqs {

  /** The elements of `s` that satisfy `p`, in their original order. */
  function Filter<T>(s: seq<T>, p: T -> bool): (r: seq<T>)
    ensures |r| <= |s|
  {
    if |s| == 0 then [] else (if p(s[0]) then [s[0]] else []) + Filter(s[1..], p)
  }

  /** The result holds exactly the elements of `s` that satisfy `p`. */
  lemma {:induction false} FilterMembers<T>(s: seq<T>, p: T -> bool)
    ensures forall i :: 0 <= i < |Filter(s, p)| ==> Filter(s, p)[i] in s && p(Filter(s, p)[i])
    ensures forall i :: 0 <= i < |s| && p(s[i]) ==> s[i] in Filter(s, p)
  {
    if |s| > 0 {
      FilterMembers(s[1..], p);
      var rest := Filter(s[1..], p);
      if p(s[0]) {
        assert Filter(s, p) == [s[0]] + rest;
      } else {
        assert Filter(s, p) == rest;
      }
      forall i | 0 <= i < |s| && p(s[i])
        ensures s[i] in Filter(s, p)
      {
        if i > 0 {
          assert s[1..][i - 1] == s[i];
        }
      }
    }
  }

  /** `a` is obtained from `b` by deleting elements, so `a` keeps the relative order of `b`. */
  ghost predicate IsSubseq<T>(a: seq<T>, b: seq<T>)
    decreases |b|
  {
    if |a| == 0 then true
    else if |b| == 0 then false
    else if a[0] == b[0] then IsSubseq(a[1..], b[1..])
    else IsSubseq(a, b[1..])
  }

  /** Filtering never reorders: the result is a subsequence of the input. */
  lemma {:induction false} FilterIsSubseq<T>(s: seq<T>, p: T -> bool)
    ensures IsSubseq(Filter(s, p), s)
  {
    if |s| > 0 {
      FilterIsSubseq(s[1..], p);
      var rest := Filter(s[1..], p);
      if p(s[0]) {
        assert Filter(s, p) == [s[0]] + rest;
        assert ([s[0]] + rest)[1..] == rest;
      } else {
        assert Filter(s, p) == rest;
        if |rest| > 0 {
          FilterMembers(s[1..], p);
          assert rest[0] in rest;
          assert rest[0] != s[0];
        }
      }
    }
  }

  /** A filter that every element passes returns the input unchanged. */
  lemma {:induction false} FilterAll<T>(s: seq<T>, p: T -> bool)
    requires forall i :: 0 <= i < |s| ==> p(s[i])
    ensures Filter(s, p) == s
  {
    if |s| > 0 {
      FilterAll(s[1..], p);
      assert [s[0]] + s[1..] == s;
    }
  }

  /** The result depends only on the predicate's values on the elements of `s`. */
  lemma {:induction false} FilterExt<T>(s: seq<T>, p: T -> bool, q: T -> bool)
    requires forall i :: 0 <= i < |s| ==> p(s[i]) == q(s[i])
    ensures Filter(s, p) == Filter(s, q)
  {
    if |s| > 0 {
      FilterExt(s[1..], p, q);
    }
  }

  /** Two filters with disjoint predicates select, together, what their disjunction selects. */
  lemma {:induction false} FilterDisjointCount<T>(s: seq<T>, p: T -> bool, q: T -> bool)
    requires forall i :: 0 <= i < |s| ==> !(p(s[i]) && q(s[i]))
    ensures |Filter(s, p)| + |Filter(s, q)| == |Filter(s, x => p(x) || q(x))|
  {
    if |s| > 0 {
      FilterDisjointCount(s[1..], p, q);
    }
  }

  /** When exactly the element at `k` fails `p`, filtering deletes exactly that position. */
  lemma {:induction false} FilterDropsOne<T>(s: seq<T>, p: T -> bool, k: nat)
    requires k < |s|
    requires !p(s[k])
    requires forall j :: 0 <= j < |s| && j != k ==> p(s[j])
    ensures Filter(s, p) == s[..k] + s[k + 1..]
  {
    if k == 0 {
      FilterAll(s[1..], p);
      assert Filter(s, p) == Filter(s[1..], p);
      assert s[..0] + s[1..] == s[1..];
    } else {
      var t := s[1..];
      FilterDropsOne(t, p, k - 1);
      assert Filter(s, p) == [s[0]] + Filter(t, p);
      assert t[..k - 1] == s[1..k];
      assert t[k - 1 + 1..] == s[k + 1..];
      assert [s[0]] + (s[1..k] + s[k + 1..]) == s[..k] + s[k + 1..];
    }
  }

  /** `s.reduce((acc, x) => acc + f(x), 0)`: a left fold of `f` from zero. */
  function Sum<T>(s: seq<T>, f: T -> int): int
  {
    if |s| == 0 then 0 else Sum(s[..|s| - 1], f) + f(s[|s| - 1])
  }

  /** The fold splits over concatenation. */
  lemma {:induction false} SumAppend<T>(a: seq<T>, b: seq<T>, f: T -> int)
    ensures Sum(a + b, f) == Sum(a, f) + Sum(b, f)
  {
    if |b| > 0 {
      SumAppend(a, b[..|b| - 1], f);
      assert (a + b)[..|a + b| - 1] == a + b[..|b| - 1];
    } else {
      assert a + b == a;
    }
  }

  /** Replacing one element changes the fold by exactly the difference of the two terms. */
  lemma {:induction false} SumUpdate<T>(s: seq<T>, k: nat, x: T, f: T -> int)
    requires k < |s|
    ensures Sum(s[k := x], f) == Sum(s, f) - f(s[k]) + f(x)
  {
    var n := |s| - 1;
    if k < n {
      SumUpdate(s[..n], k, x, f);
      assert s[k := x][..n] == s[..n][k := x];
    } else {
      assert s[k := x][..n] == s[..n];
    }
  }

  /** Deleting one position removes exactly its term from the fold. */
  lemma {:induction false} SumDropOne<T>(s: seq<T>, k: nat, f: T -> int)
    requires k < |s|
    ensures Sum(s[..k] + s[k + 1..], f) == Sum(s, f) - f(s[k])
  {
    var a, b := s[..k], s[k + 1..];
    assert s == (a + [s[k]]) + b;
    SumAppend(a + [s[k]], b, f);
    assert (a + [s[k]])[..|a|] == a;
    SumAppend(a, b, f);
  }

  /** The fold of one element is its term. */
  lemma SumSingleton<T>(s: seq<T>, f: T -> int)
    ensures |s| == 1 ==> Sum(s, f) == f(s[0])
  {
    if |s| == 1 {
      assert s[..0] == [];
    }
  }

  /** When every term is at least one, the fold is at least the length. */
  lemma {:induction false} SumAtLeastLength<T>(s: seq<T>, f: T -> int)
    requires forall i :: 0 <= i < |s| ==> f(s[i]) >= 1
    ensures Sum(s, f) >= |s|
  {
    if |s| > 0 {
      SumAtLeastLength(s[..|s| - 1], f);
    }
  }

  /** When every term is zero or more, so is the fold. */
  lemma {:induction false} SumNonNegative<T>(s: seq<T>, f: T -> int)
    requires forall i :: 0 <= i < |s| ==> f(s[i]) >= 0
    ensures Sum(s, f) >= 0
  {
    if |s| > 0 {
      SumNonNegative(s[..|s| - 1], f);
    }
  }

  /** Filtering an element followed by more: keep it if it passes, then filter the rest. */
  lemma FilterCons<T>(x: T, s: seq<T>, p: T -> bool)
    ensures Filter([x] + s, p) == (if p(x) then [x] else []) + Filter(s, p)
  {
    assert ([x] + s)[0] == x && ([x] + s)[1..] == s;
  }

  /** Filtering distributes over concatenation. */
  lemma {:induction false} FilterAppend<T>(a: seq<T>, b: seq<T>, p: T -> bool)
    ensures Filter(a + b, p) == Filter(a, p) + Filter(b, p)
  {
    if |a| == 0 {
      assert a + b == b;
    } else {
      var x, t := a[0], a[1..];
      FilterAppend(t, b, p);
      var ft, fb, ftb := Filter(t, p), Filter(b, p), Filter(t + b, p);
      assert ftb == ft + fb;
      if p(x) {
        assert Filter(a, p) == [x] + ft by { assert a == [x] + t; FilterCons(x, t, p); }
        assert Filter(a + b, p) == [x] + ftb by { assert a + b == [x] + (t + b); FilterCons(x, t + b, p); }
        assert [x] + (ft + fb) == ([x] + ft) + fb;
      } else {
        assert Filter(a, p) == ft by { assert a == [x] + t; FilterCons(x, t, p); }
        assert Filter(a + b, p) == ftb by { assert a + b == [x] + (t + b); FilterCons(x, t + b, p); }
      }
    }
  }

  /** Two folds agree when their terms agree element by element. */
  lemma {:induction false} SumExt<T>(s: seq<T>, f: T -> int, g: T -> int)
    requires forall i :: 0 <= i < |s| ==> f(s[i]) == g(s[i])
    ensures Sum(s, f) == Sum(s, g)
  {
    if |s| > 0 {
      SumExt(s[..|s| - 1], f, g);
    }
  }

  /** `f` on the elements that satisfy `p`, zero on the others. */
  function Masked<T>(p: T -> bool, f: T -> int): T -> int {
    x => if p(x) then f(x) else 0
  }

  /** Summing over a filtered list is summing over the whole list with the rejected elements
      counted as zero. */
  lemma {:induction false} SumFilter<T>(s: seq<T>, p: T -> bool, f: T -> int)
    ensures Sum(Filter(s, p), f) == Sum(s, Masked(p, f))
  {
    if |s| > 0 {
      var n := |s| - 1;
      SumFilter(s[..n], p, f);
      assert s == s[..n] + [s[n]];
      FilterAppend(s[..n], [s[n]], p);
      assert [s[n]][1..] == [];
      var tail := Filter([s[n]], p);
      assert tail == if p(s[n]) then [s[n]] else [];
      SumAppend(Filter(s[..n], p), tail, f);
      if p(s[n]) {
        assert tail[..0] == [];
      }
    }
  }

  /** The term of a count: one per element. */
  function One<T>(x: T): int {
    1
  }

  /** Counting one per element gives the length. */
  lemma {:induction false} SumOfOnes<T>(s: seq<T>)
    ensures Sum(s, One) == |s|
  {
    if |s| > 0 {
      SumOfOnes(s[..|s| - 1]);
    }
  }

  /** The length of a filtered list counts the elements that satisfy `p`. */
  lemma FilterCount<T>(s: seq<T>, p: T -> bool)
    ensures |Filter(s, p)| == Sum(s, Masked(p, One))
  {
    SumFilter(s, p, One);
    SumOfOnes(Filter(s, p));
  }

  /** Filtering twice is filtering once by both conditions. */
  lemma {:induction false} FilterBoth<T>(s: seq<T>, p: T -> bool, q: T -> bool, pq: T -> bool)
    requires forall i :: 0 <= i < |s| ==> pq(s[i]) == (p(s[i]) && q(s[i]))
    ensures Filter(s, pq) == Filter(Filter(s, p), q)
  {
    if |s| > 0 {
      FilterBoth(s[1..], p, q, pq);
      var rest := Filter(s[1..], p);
      if p(s[0]) {
        assert Filter(s, p) == [s[0]] + rest;
        assert ([s[0]] + rest)[0] == s[0];
        assert ([s[0]] + rest)[1..] == rest;
      } else {
        assert Filter(s, p) == rest;
      }
    }
  }
}
