/**
 * `_median` and `_mad` of `src/winnow/_util.py`, over exact reals.
 * Python's `sorted` is modelled by an insertion sort; every property below
 * is stated about the sorted order, not about this particular sort.
 */
module Stats {
  import opened Wrappers

  predicate Sorted(s: seq<real>) {
    forall i, j :: 0 <= i <= j < |s| ==> s[i] <= s[j]
  }

  function Insert(x: real, s: seq<real>): (r: seq<real>)
    requires Sorted(s)
    ensures Sorted(r) && multiset(r) == multiset(s) + multiset{x}
    ensures |r| == |s| + 1 && (r[0] == x || (|s| > 0 && r[0] == s[0]))
  {
    if |s| == 0 then [x]
    else if x <= s[0] then
      ConsSorted(x, s);
      [x] + s
    else
      var tail := Insert(x, s[1..]);
      assert s == [s[0]] + s[1..];
      ConsSorted(s[0], tail);
      [s[0]] + tail
  }

  /** A head no larger than the first element of a sorted tail keeps it sorted. */
  lemma ConsSorted(h: real, t: seq<real>)
    requires Sorted(t) && (|t| > 0 ==> h <= t[0])
    ensures Sorted([h] + t)
  {
  }

  /** Python's `sorted(values)`. */
  function Sort(s: seq<real>): (r: seq<real>)
    ensures Sorted(r) && multiset(r) == multiset(s)
  {
    if |s| == 0 then []
    else
      assert s == [s[0]] + s[1..];
      Insert(s[0], Sort(s[1..]))
  }

  /** A multiset has exactly one sorted arrangement. */
  lemma {:induction false} SortedUnique(a: seq<real>, b: seq<real>)
    requires Sorted(a) && Sorted(b) && multiset(a) == multiset(b)
    ensures a == b
    decreases |a|
  {
    assert |a| == |multiset(a)| == |multiset(b)| == |b|;
    if |a| > 0 {
      SortedHeads(a, b);
      SortedHeads(b, a);
      TailMultiset(a);
      TailMultiset(b);
      SortedUnique(a[1..], b[1..]);
      assert a == [a[0]] + a[1..] && b == [b[0]] + b[1..];
    }
  }

  /** The head of a sorted sequence is at most anything in a sequence with the same multiset. */
  lemma SortedHeads(a: seq<real>, b: seq<real>)
    requires Sorted(a) && multiset(a) == multiset(b) && |a| > 0 && |b| > 0
    ensures a[0] <= b[0]
  {
    assert b[0] in multiset(a);
    var i :| 0 <= i < |a| && a[i] == b[0];
  }

  lemma TailMultiset(a: seq<real>)
    requires |a| > 0
    ensures multiset(a[1..]) == multiset(a) - multiset{a[0]}
  {
    assert a == [a[0]] + a[1..];
  }

  function Min(s: seq<real>): (m: real)
    requires |s| > 0
    ensures m in s && forall i :: 0 <= i < |s| ==> m <= s[i]
  {
    if |s| == 1 then s[0] else var m := Min(s[1..]); if s[0] <= m then s[0] else m
  }

  function Max(s: seq<real>): (m: real)
    requires |s| > 0
    ensures m in s && forall i :: 0 <= i < |s| ==> s[i] <= m
  {
    if |s| == 1 then s[0] else var m := Max(s[1..]); if m <= s[0] then s[0] else m
  }

  /** `_median(values)`: ValueError (None) on an empty sequence. */
  function Median(values: seq<real>): (r: Option<real>)
    ensures r.None? <==> |values| == 0
    ensures |values| > 0 ==> r.Some? && Min(values) <= r.value <= Max(values)
    ensures |values| % 2 == 1 ==> r.Some? && r.value in values
  {
    if |values| == 0 then None
    else
      var s := Sort(values);
      assert forall k :: 0 <= k < |s| ==> s[k] in multiset(values);
      Some(Middle(s))
  }

  /** The middle element of `s`, or the mean of its two middle elements. */
  function Middle(s: seq<real>): real
    requires |s| > 0
  {
    var mid := |s| / 2;
    if |s| % 2 == 0 then (s[mid - 1] + s[mid]) / 2.0 else s[mid]
  }

  /**
   * Whatever sorted arrangement of the values one takes, the median is its
   * middle element (odd length) or the mean of its two middle elements
   * (even length).
   */
  lemma MedianOfSortedArrangement(values: seq<real>, sorted: seq<real>)
    requires Sorted(sorted) && multiset(sorted) == multiset(values) && |values| > 0
    ensures |sorted| == |values|
    ensures |values| % 2 == 1 ==> Median(values) == Some(sorted[|values| / 2])
    ensures |values| % 2 == 0 ==>
      Median(values) == Some((sorted[|values| / 2 - 1] + sorted[|values| / 2]) / 2.0)
  {
    assert |sorted| == |multiset(sorted)| == |multiset(values)| == |values|;
    SortedUnique(Sort(values), sorted);
  }

  /** The median of a sequence already in order is its middle. */
  lemma SortedMedianIsMiddle(xs: seq<real>)
    requires Sorted(xs) && |xs| > 0
    ensures Median(xs) == Some(Middle(xs))
  {
    SortedUnique(Sort(xs), xs);
  }


  /** The median depends only on the multiset of the values. */
  lemma MedianPermutation(a: seq<real>, b: seq<real>)
    requires multiset(a) == multiset(b)
    ensures Median(a) == Median(b)
  {
    assert |a| == |multiset(a)| == |multiset(b)| == |b|;
    SortedUnique(Sort(a), Sort(b));
    assert Sort(a) == Sort(b);
  }

  /** A constant sequence has that constant as its median. */
  lemma MedianConstant(values: seq<real>, c: real)
    requires |values| > 0 && forall i :: 0 <= i < |values| ==> values[i] == c
    ensures Median(values) == Some(c)
  {
    assert Sorted(values);
    MedianOfSortedArrangement(values, values);
    var n := |values|;
    if n % 2 == 0 {
      assert values[n / 2 - 1] == c && values[n / 2] == c;
    } else {
      assert values[n / 2] == c;
    }
  }

  function Abs(x: real): real {
    if x < 0.0 then -x else x
  }

  /** `[abs(v - center) for v in values]`. */
  function Deviations(values: seq<real>, center: real): (d: seq<real>)
    ensures |d| == |values|
    ensures forall i :: 0 <= i < |d| ==> d[i] == Abs(values[i] - center) && d[i] >= 0.0
  {
    seq(|values|, i requires 0 <= i < |values| => Abs(values[i] - center))
  }

  /** `_mad(values, median)`: ValueError (None) on an empty sequence. */
  function Mad(values: seq<real>, center: real): (r: Option<real>)
    ensures r.None? <==> |values| == 0
    ensures r.Some? ==> r.value >= 0.0
  {
    if |values| == 0 then None
    else
      var d := Deviations(values, center);
      assert Min(d) in d;
      Median(d)
  }

  /** The MAD of a constant sequence about that constant is zero. */
  lemma MadConstant(values: seq<real>, c: real)
    requires |values| > 0 && forall i :: 0 <= i < |values| ==> values[i] == c
    ensures Mad(values, c) == Some(0.0)
  {
    MedianConstant(Deviations(values, c), 0.0);
  }

  lemma DeviationsConcat(a: seq<real>, b: seq<real>, center: real)
    ensures Deviations(a + b, center) == Deviations(a, center) + Deviations(b, center)
  {
  }

  /** Rearranging the values rearranges their deviations the same way. */
  lemma {:induction false} DeviationsPermutation(a: seq<real>, b: seq<real>, center: real)
    requires multiset(a) == multiset(b)
    ensures multiset(Deviations(a, center)) == multiset(Deviations(b, center))
    decreases |a|
  {
    if |a| == 0 {
      assert |b| == |multiset(b)| == 0;
    } else {
      var x := a[0];
      assert x in multiset(b);
      var k :| 0 <= k < |b| && b[k] == x;
      DeviationsRemoveAt(b, k, center);
      assert [b[k]] == [x];
      assert a == [x] + a[1..];
      DeviationsConcat([x], a[1..], center);
      DeviationsPermutation(a[1..], b[..k] + b[k + 1..], center);
    }
  }

  /** Taking the value at `k` out of the values takes its deviation out of the deviations. */
  lemma DeviationsRemoveAt(b: seq<real>, k: nat, center: real)
    requires k < |b|
    ensures multiset(b[..k] + b[k + 1..]) == multiset(b) - multiset([b[k]])
    ensures multiset(Deviations(b, center)) ==
      multiset(Deviations(b[..k] + b[k + 1..], center)) + multiset(Deviations([b[k]], center))
  {
    var b1, b2 := b[..k], b[k + 1..];
    assert b == b1 + [b[k]] + b2;
    MultisetSplit(b, b1, [b[k]], b2);
    DeviationsConcat(b1 + [b[k]], b2, center);
    DeviationsConcat(b1, [b[k]], center);
    DeviationsConcat(b1, b2, center);
    MultisetSplit(Deviations(b, center), Deviations(b1, center), Deviations([b[k]], center), Deviations(b2, center));
  }

  /** Cutting a piece out of a sequence cuts its elements out of the multiset. */
  lemma MultisetSplit(s: seq<real>, s1: seq<real>, m: seq<real>, s2: seq<real>)
    requires s == s1 + m + s2
    ensures multiset(s) == multiset(s1 + s2) + multiset(m)
    ensures multiset(s1 + s2) == multiset(s) - multiset(m)
  {
  }

  /** For a fixed center the MAD ignores the order of the values. */
  lemma MadPermutation(a: seq<real>, b: seq<real>, center: real)
    requires multiset(a) == multiset(b)
    ensures Mad(a, center) == Mad(b, center)
  {
    assert |a| == |multiset(a)| == |multiset(b)| == |b|;
    DeviationsPermutation(a, b, center);
    MedianPermutation(Deviations(a, center), Deviations(b, center));
  }

  /**
   * `1 / (1 + 1.4826 * mad / abs(estimate))`: one over one plus the robust
   * coefficient of variation, 1.4826 scaling the MAD to a standard deviation.
   */
  function RobustConfidence(mad: real, estimate: real): (c: real)
    requires mad >= 0.0 && estimate != 0.0
    ensures 0.0 < c <= 1.0
    ensures c == 1.0 <==> mad == 0.0
    ensures c * (Abs(estimate) + 1.4826 * mad) == Abs(estimate)
  {
    var cv := 1.4826 * mad / Abs(estimate);
    assert cv * Abs(estimate) == 1.4826 * mad;
    var c := 1.0 / (1.0 + cv);
    assert c * (1.0 + cv) == 1.0;
    c
  }

  /** A wider spread about the same estimate never gives more confidence. */
  lemma RobustConfidenceAntitone(mad1: real, mad2: real, estimate: real)
    requires 0.0 <= mad1 <= mad2 && estimate != 0.0
    ensures RobustConfidence(mad2, estimate) <= RobustConfidence(mad1, estimate)
  {
    var e := Abs(estimate);
    var c1, c2 := RobustConfidence(mad1, estimate), RobustConfidence(mad2, estimate);
    var d1, d2 := e + 1.4826 * mad1, e + 1.4826 * mad2;
    assert 0.0 < d1 <= d2;
    assert c1 * d1 == e && c2 * d2 == e;
    assert c2 * d1 <= c2 * d2;
    assert (c2 - c1) * d1 <= 0.0;
  }
}
