/** Generic list operations used by the rollups: `filter`, counting, a
    numeric `reduce`, and the stable sort by a numeric key that the rollups
    apply before reducing. */
module Seqs {

  /** The elements of `s` that satisfy `p`, in their original order. */
  function Filter<T>(s: seq<T>, p: T -> bool): (r: seq<T>)
    ensures |r| <= |s|
    ensures forall x :: x in r ==> p(x) && x in s
  {
    if s == [] then []
    else if p(s[0]) then [s[0]] + Filter(s[1..], p)
    else Filter(s[1..], p)
  }

  /** The number of elements of `s` that satisfy `p`. */
  function Count<T>(s: seq<T>, p: T -> bool): (n: nat)
    ensures n <= |s|
  {
    |Filter(s, p)|
  }

  /** Filtering keeps exactly the elements that satisfy `p`. */
  lemma {:induction false} FilterMembership<T>(s: seq<T>, p: T -> bool, x: T)
    ensures x in Filter(s, p) <==> x in s && p(x)
  {
    if s != [] {
      FilterMembership(s[1..], p, x);
      assert s == [s[0]] + s[1..];
    }
  }

  /** Filtering keeps every copy of an element that satisfies `p` and none of
      the others. */
  lemma {:induction false} FilterMultiplicity<T>(s: seq<T>, p: T -> bool, x: T)
    ensures multiset(Filter(s, p))[x] == if p(x) then multiset(s)[x] else 0
  {
    if s != [] {
      FilterMultiplicity(s[1..], p, x);
      assert s == [s[0]] + s[1..];
    }
  }

  /** Filtering distributes over concatenation. */
  lemma {:induction false} FilterAppend<T>(a: seq<T>, b: seq<T>, p: T -> bool)
    ensures Filter(a + b, p) == Filter(a, p) + Filter(b, p)
  {
    if a == [] {
      assert a + b == b;
    } else {
      assert (a + b)[1..] == a[1..] + b;
      FilterAppend(a[1..], b, p);
    }
  }

  /** A filter that every element passes returns the sequence unchanged. */
  lemma {:induction false} FilterKeepsAll<T>(s: seq<T>, p: T -> bool)
    requires forall x :: x in s ==> p(x)
    ensures Filter(s, p) == s
  {
    if s != [] {
      FilterKeepsAll(s[1..], p);
    }
  }

  /** A filter that no element passes returns the empty sequence. */
  lemma {:induction false} FilterDropsAll<T>(s: seq<T>, p: T -> bool)
    requires forall x :: x in s ==> !p(x)
    ensures Filter(s, p) == []
  {
    if s != [] {
      FilterDropsAll(s[1..], p);
    }
  }

  /** Reordering the input reorders the output only: the filtered multisets agree. */
  lemma FilterPermutation<T>(s: seq<T>, t: seq<T>, p: T -> bool)
    requires multiset(s) == multiset(t)
    ensures multiset(Filter(s, p)) == multiset(Filter(t, p))
  {
    forall x ensures multiset(Filter(s, p))[x] == multiset(Filter(t, p))[x] {
      FilterMultiplicity(s, p, x);
      FilterMultiplicity(t, p, x);
      assert multiset(s)[x] == multiset(t)[x];
    }
    MultisetExt(multiset(Filter(s, p)), multiset(Filter(t, p)));
  }

  /** Two multisets with the same multiplicities are equal. */
  lemma MultisetExt<T>(a: multiset<T>, b: multiset<T>)
    requires forall x :: a[x] == b[x]
    ensures a == b
  {
  }

  /** A weaker condition counts at least as many elements. */
  lemma {:induction false} CountMonotone<T>(s: seq<T>, p: T -> bool, q: T -> bool)
    requires forall x :: p(x) ==> q(x)
    ensures Count(s, p) <= Count(s, q)
  {
    if s != [] {
      CountMonotone(s[1..], p, q);
    }
  }

  /** When `q` and `u` never hold together and each implies `p`, the elements
      counted by `q` and by `u` are among those counted by `p`. */
  lemma {:induction false} CountDisjoint<T>(s: seq<T>, p: T -> bool, q: T -> bool, u: T -> bool)
    requires forall x :: q(x) ==> p(x)
    requires forall x :: u(x) ==> p(x)
    requires forall x :: !(q(x) && u(x))
    ensures Count(s, q) + Count(s, u) <= Count(s, p)
  {
    if s != [] {
      CountDisjoint(s[1..], p, q, u);
    }
  }

  /** Counting is additive over concatenation. */
  lemma CountAppend<T>(a: seq<T>, b: seq<T>, p: T -> bool)
    ensures Count(a + b, p) == Count(a, p) + Count(b, p)
  {
    FilterAppend(a, b, p);
  }

  /** Counting does not depend on the order of the input. */
  lemma CountPermutation<T>(s: seq<T>, t: seq<T>, p: T -> bool)
    requires multiset(s) == multiset(t)
    ensures Count(s, p) == Count(t, p)
  {
    FilterPermutation(s, t, p);
    assert |multiset(Filter(s, p))| == |multiset(Filter(t, p))|;
  }

  /** The sum of `f` over the elements of `s` (a `reduce` from 0). */
  function SumBy<T>(s: seq<T>, f: T -> real): real
  {
    if s == [] then 0.0 else f(s[0]) + SumBy(s[1..], f)
  }

  /** Summing is additive over concatenation. */
  lemma {:induction false} SumByAppend<T>(a: seq<T>, b: seq<T>, f: T -> real)
    ensures SumBy(a + b, f) == SumBy(a, f) + SumBy(b, f)
  {
    if a == [] {
      assert a + b == b;
    } else {
      assert (a + b)[1..] == a[1..] + b;
      SumByAppend(a[1..], b, f);
    }
  }

  /** The sum does not depend on the order of the elements. */
  lemma {:induction false} SumByPermutation<T>(s: seq<T>, t: seq<T>, f: T -> real)
    requires multiset(s) == multiset(t)
    ensures SumBy(s, f) == SumBy(t, f)
    decreases |s|
  {
    if s == [] {
      assert |t| == |multiset(t)| == 0;
    } else {
      var x := s[0];
      assert x in multiset(t) by { assert x in multiset(s); }
      var i :| 0 <= i < |t| && t[i] == x;
      var rest := t[..i] + t[i + 1..];
      assert t == t[..i] + [x] + t[i + 1..];
      assert s == [x] + s[1..];
      assert multiset(s[1..]) == multiset(rest) by {
        calc {
          multiset(t);
          multiset(t[..i] + [x] + t[i + 1..]);
          multiset(t[..i]) + multiset([x]) + multiset(t[i + 1..]);
          multiset(rest) + multiset{x};
        }
        calc {
          multiset(s);
          multiset([x] + s[1..]);
          multiset{x} + multiset(s[1..]);
        }
        assert multiset(s[1..]) == multiset(s) - multiset{x};
        assert multiset(rest) == multiset(t) - multiset{x};
      }
      SumByPermutation(s[1..], rest, f);
      SumByAppend(t[..i] + [x], t[i + 1..], f);
      SumByAppend(t[..i], [x], f);
      SumByAppend(t[..i], t[i + 1..], f);
      assert SumBy([x], f) == f(x);
    }
  }

  /** When every `f(x)` lies in [lo, hi], the sum lies in [n * lo, n * hi]. */
  lemma {:induction false} SumByBounds<T>(s: seq<T>, f: T -> real, lo: real, hi: real)
    requires forall x :: x in s ==> lo <= f(x) <= hi
    ensures |s| as real * lo <= SumBy(s, f) <= |s| as real * hi
  {
    if s != [] {
      SumByBounds(s[1..], f, lo, hi);
      assert s[0] in s;
    }
  }

  /** `s` is in non-decreasing order of `rank`. */
  predicate SortedBy<T>(s: seq<T>, rank: T -> int)
  {
    forall i, j :: 0 <= i < j < |s| ==> rank(s[i]) <= rank(s[j])
  }

  /** Prepending an element no greater than every element keeps the order. */
  lemma SortedCons<T>(a: T, t: seq<T>, rank: T -> int)
    requires SortedBy(t, rank)
    requires forall j :: 0 <= j < |t| ==> rank(a) <= rank(t[j])
    ensures SortedBy([a] + t, rank)
  {
  }

  /** Inserts `x` before the first element of the sorted `s` whose rank is
      not smaller. */
  function Insert<T>(x: T, s: seq<T>, rank: T -> int): (r: seq<T>)
    requires SortedBy(s, rank)
    ensures SortedBy(r, rank)
    ensures multiset(r) == multiset(s) + multiset{x}
  {
    if s == [] then [x]
    else if rank(x) <= rank(s[0]) then
      SortedCons(x, s, rank);
      [x] + s
    else
      var tail := Insert(x, s[1..], rank);
      assert s == [s[0]] + s[1..];
      InsertLowerBound(x, s, tail, rank);
      SortedCons(s[0], tail, rank);
      [s[0]] + tail
  }

  /** Every element of the insertion into the tail of `s` ranks at least
      as high as the head of `s`. */
  lemma InsertLowerBound<T>(x: T, s: seq<T>, tail: seq<T>, rank: T -> int)
    requires |s| > 0 && SortedBy(s, rank) && rank(s[0]) < rank(x)
    requires multiset(tail) == multiset(s[1..]) + multiset{x}
    ensures forall j :: 0 <= j < |tail| ==> rank(s[0]) <= rank(tail[j])
  {
    forall j | 0 <= j < |tail| ensures rank(s[0]) <= rank(tail[j]) {
      var y := tail[j];
      assert y in multiset(tail);
      if y != x {
        assert y in multiset(s[1..]);
        var k :| 0 <= k < |s[1..]| && s[1..][k] == y;
        assert s[k + 1] == y;
      }
    }
  }

  /** A stable sort by ascending `rank`: the model of `Array.prototype.sort`
      with a numeric comparator. */
  function SortBy<T>(s: seq<T>, rank: T -> int): (r: seq<T>)
    ensures SortedBy(r, rank)
    ensures multiset(r) == multiset(s)
  {
    if s == [] then []
    else
      assert s == [s[0]] + s[1..];
      Insert(s[0], SortBy(s[1..], rank), rank)
  }
}
