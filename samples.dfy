/** Finite samples of reals and the reductions the source takes from numpy: sum, mean, maximum,
    minimum, counts against a threshold, element-wise `a - s`, and sorting. */
module Samples {

  /** Sum of the sample, accumulated from the front as a left-to-right loop does. */
  function Sum(s: seq<real>): real {
    if |s| == 0 then 0.0 else Sum(s[..|s| - 1]) + s[|s| - 1]
  }

  /** `np.mean`; numpy yields NaN for an empty sample, which the callers never pass. */
  function Mean(s: seq<real>): real
    requires |s| > 0
  {
    Sum(s) / |s| as real
  }

  /** `np.max`: an element of the sample that no element exceeds. */
  function Max(s: seq<real>): (m: real)
    requires |s| > 0
    ensures m in s
    ensures forall i :: 0 <= i < |s| ==> s[i] <= m
  {
    if |s| == 1 then s[0]
    else
      var m := Max(s[..|s| - 1]);
      assert forall i :: 0 <= i < |s| - 1 ==> s[i] == s[..|s| - 1][i];
      if s[|s| - 1] > m then s[|s| - 1] else m
  }

  /** `np.min`: an element of the sample that exceeds no element. */
  function Min(s: seq<real>): (m: real)
    requires |s| > 0
    ensures m in s
    ensures forall i :: 0 <= i < |s| ==> m <= s[i]
  {
    if |s| == 1 then s[0]
    else
      var m := Min(s[..|s| - 1]);
      assert forall i :: 0 <= i < |s| - 1 ==> s[i] == s[..|s| - 1][i];
      if s[|s| - 1] < m then s[|s| - 1] else m
  }

  /** Number of elements strictly below `a` (the true entries of `s < a`). */
  function CountBelow(s: seq<real>, a: real): (c: nat)
    ensures c <= |s|
  {
    if |s| == 0 then 0 else CountBelow(s[..|s| - 1], a) + (if s[|s| - 1] < a then 1 else 0)
  }

  /** Number of elements strictly above `a` (the true entries of `s > a`). */
  function CountAbove(s: seq<real>, a: real): (c: nat)
    ensures c <= |s|
  {
    if |s| == 0 then 0 else CountAbove(s[..|s| - 1], a) + (if s[|s| - 1] > a then 1 else 0)
  }

  /** Number of elements equal to `a`. */
  function CountEqual(s: seq<real>, a: real): (c: nat)
    ensures c <= |s|
  {
    if |s| == 0 then 0 else CountEqual(s[..|s| - 1], a) + (if s[|s| - 1] == a then 1 else 0)
  }

  /** Every element is below, equal to or above `a`, and exactly one of these. */
  lemma {:induction false} CountsPartition(s: seq<real>, a: real)
    ensures CountBelow(s, a) + CountEqual(s, a) + CountAbove(s, a) == |s|
  {
    if |s| > 0 {
      CountsPartition(s[..|s| - 1], a);
    }
  }

  /** No element equals `a` exactly when the count of equal elements is zero. */
  lemma {:induction false} CountEqualZero(s: seq<real>, a: real)
    ensures CountEqual(s, a) == 0 <==> forall i :: 0 <= i < |s| ==> s[i] != a
  {
    if |s| > 0 {
      var p := s[..|s| - 1];
      CountEqualZero(p, a);
      assert forall i :: 0 <= i < |p| ==> p[i] == s[i];
    }
  }

  /** Raising the threshold never increases the number of elements above it. */
  lemma {:induction false} CountAboveAntitone(s: seq<real>, a: real, b: real)
    requires a <= b
    ensures CountAbove(s, b) <= CountAbove(s, a)
  {
    if |s| > 0 {
      CountAboveAntitone(s[..|s| - 1], a, b);
    }
  }

  /** The element-wise difference `a - s`, which numpy writes as `aset - times`. */
  function SubFrom(a: real, s: seq<real>): (r: seq<real>)
    ensures |r| == |s|
    ensures forall i :: 0 <= i < |s| ==> r[i] == a - s[i]
  {
    seq(|s|, i requires 0 <= i < |s| => a - s[i])
  }

  /** Summing `a - s` gives |s| copies of `a` less the sum of `s`. */
  lemma {:induction false} SumSubFrom(a: real, s: seq<real>)
    ensures Sum(SubFrom(a, s)) == |s| as real * a - Sum(s)
  {
    if |s| > 0 {
      var p := s[..|s| - 1];
      SumSubFrom(a, p);
      assert SubFrom(a, s)[..|s| - 1] == SubFrom(a, p);
    }
  }

  /** The mean of `a - s` is `a` less the mean of `s`. */
  lemma MeanSubFrom(a: real, s: seq<real>)
    requires |s| > 0
    ensures Mean(SubFrom(a, s)) == a - Mean(s)
  {
    SumSubFrom(a, s);
    var n := |s| as real;
    var t := Sum(s);
    assert (n * a - t) / n == a - t / n;
  }

  /** The smallest of `a - s` is `a` less the largest of `s`. */
  lemma MinSubFrom(a: real, s: seq<real>)
    requires |s| > 0
    ensures Min(SubFrom(a, s)) == a - Max(s)
  {
    var r := SubFrom(a, s);
    var k :| 0 <= k < |s| && s[k] == Max(s);
    var j :| 0 <= j < |r| && r[j] == Min(r);
    assert r[k] == a - Max(s);
    assert Min(r) <= r[k];
    assert s[j] <= Max(s);
  }

  /** The mean lies between the smallest and the largest element. */
  lemma {:induction false} MeanBetweenMinMax(s: seq<real>)
    requires |s| > 0
    ensures Min(s) <= Mean(s) <= Max(s)
  {
    SumBounds(s, Min(s), Max(s));
    DivideBounds(Sum(s), |s| as real, Min(s), Max(s));
  }

  lemma DivideBounds(t: real, n: real, lo: real, hi: real)
    requires 0.0 < n && n * lo <= t <= n * hi
    ensures lo <= t / n <= hi
  {
    var q := t / n;
    assert t == n * q;
  }

  lemma {:induction false} SumBounds(s: seq<real>, lo: real, hi: real)
    requires forall i :: 0 <= i < |s| ==> lo <= s[i] <= hi
    ensures |s| as real * lo <= Sum(s) <= |s| as real * hi
  {
    if |s| > 0 {
      SumBounds(s[..|s| - 1], lo, hi);
    }
  }

  /** Non-decreasing order. */
  ghost predicate Sorted(s: seq<real>) {
    forall i, j :: 0 <= i <= j < |s| ==> s[i] <= s[j]
  }

  /** Insertion of one element into a sorted sequence. */
  function Insert(x: real, s: seq<real>): (r: seq<real>)
    requires Sorted(s)
    ensures Sorted(r)
    ensures multiset(r) == multiset(s) + multiset{x}
    ensures |r| == |s| + 1
  {
    if |s| == 0 then [x]
    else if x <= s[0] then
      PrependSorted(x, s);
      [x] + s
    else
      var u := s[1..];
      var t := Insert(x, u);
      assert s == [s[0]] + u;
      assert multiset(u + [x]) == multiset(u) + multiset{x};
      MultisetLowerBound(t, u + [x], s[0]);
      PrependSorted(s[0], t);
      [s[0]] + t
  }

  /** A sorted sequence stays sorted under a new first element no larger than its first. */
  lemma PrependSorted(b: real, t: seq<real>)
    requires Sorted(t) && (0 < |t| ==> b <= t[0])
    ensures Sorted([b] + t)
  {
    var r := [b] + t;
    forall i, j | 0 <= i <= j < |r|
      ensures r[i] <= r[j]
    {
      if 0 < i {
        assert r[i] == t[i - 1] && r[j] == t[j - 1];
      } else if 0 < j {
        assert r[j] == t[j - 1];
      }
    }
  }

  /** A lower bound of every element carries over to any rearrangement. */
  lemma MultisetLowerBound(t: seq<real>, u: seq<real>, b: real)
    requires multiset(t) == multiset(u)
    requires forall i :: 0 <= i < |u| ==> b <= u[i]
    ensures forall k :: 0 <= k < |t| ==> b <= t[k]
  {
    forall k | 0 <= k < |t|
      ensures b <= t[k]
    {
      SameElements(t, u, t[k]);
    }
  }

  /** Two sequences with one multiset hold the same elements. */
  lemma SameElements(t: seq<real>, u: seq<real>, v: real)
    requires multiset(t) == multiset(u) && v in t
    ensures v in u
  {
    assert v in multiset(t);
  }

  /** The sample in non-decreasing order, as numpy sorts it before taking percentiles. */
  function Sort(s: seq<real>): (r: seq<real>)
    ensures Sorted(r)
    ensures multiset(r) == multiset(s)
    ensures |r| == |s|
  {
    if |s| == 0 then []
    else
      assert s == s[..|s| - 1] + [s[|s| - 1]];
      Insert(s[|s| - 1], Sort(s[..|s| - 1]))
  }

  /** The first element of the sorted sample is its minimum and the last its maximum. */
  lemma SortEnds(s: seq<real>)
    requires |s| > 0
    ensures Sort(s)[0] == Min(s)
    ensures Sort(s)[|s| - 1] == Max(s)
  {
    SortFirst(s, Sort(s));
    SortLast(s, Sort(s));
  }

  lemma SortFirst(s: seq<real>, r: seq<real>)
    requires |s| > 0 && |r| == |s| && Sorted(r) && multiset(r) == multiset(s)
    ensures r[0] == Min(s)
  {
    var lo := Min(s);
    SameElements(s, r, lo);
    SortedEnds(r, lo);
    SameElements(r, s, r[0]);
    InSampleBetween(s, r[0]);
  }

  lemma SortLast(s: seq<real>, r: seq<real>)
    requires |s| > 0 && |r| == |s| && Sorted(r) && multiset(r) == multiset(s)
    ensures r[|r| - 1] == Max(s)
  {
    var hi := Max(s);
    SameElements(s, r, hi);
    SortedEnds(r, hi);
    SameElements(r, s, r[|r| - 1]);
    InSampleBetween(s, r[|r| - 1]);
  }

  /** In a sorted sequence every element lies between the first and the last. */
  lemma SortedEnds(r: seq<real>, v: real)
    requires Sorted(r) && v in r
    ensures r[0] <= v <= r[|r| - 1]
  {
    var i :| 0 <= i < |r| && r[i] == v;
  }

  /** Every element of a sample lies between its minimum and its maximum. */
  lemma InSampleBetween(s: seq<real>, v: real)
    requires v in s
    ensures Min(s) <= v <= Max(s)
  {
    var i :| 0 <= i < |s| && s[i] == v;
  }
}
