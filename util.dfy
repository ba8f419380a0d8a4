/**
 * `median` and `mad` of `src/winnow/util.py`, a second copy of the helpers in
 * `src/winnow/_util.py`.  They are written out again here and proved to agree
 * with `Stats.Median` and `Stats.Mad` on every input, so every property proved
 * in `Stats` carries over.
 */
module Util {
  import opened Wrappers
  import Stats

  /** `median(values)`: ValueError (None) on an empty sequence. */
  function Median(values: seq<real>): (r: Option<real>)
    ensures r == Stats.Median(values)
    ensures r.None? <==> |values| == 0
  {
    if |values| == 0 then None
    else
      var sortedValues := Stats.Sort(values);
      var n := |sortedValues|;
      var mid := n / 2;
      if n % 2 == 0 then Some((sortedValues[mid - 1] + sortedValues[mid]) / 2.0)
      else Some(sortedValues[mid])
  }

  /** `mad(values, center)`: the median of `abs(v - center)`; ValueError (None) on empty. */
  function Mad(values: seq<real>, center: real): (r: Option<real>)
    ensures r == Stats.Mad(values, center)
    ensures r.None? <==> |values| == 0
    ensures r.Some? ==> r.value >= 0.0
  {
    if |values| == 0 then None
    else
      var deviations := seq(|values|, i requires 0 <= i < |values| => Stats.Abs(values[i] - center));
      assert deviations == Stats.Deviations(values, center);
      Median(deviations)
  }

  /** The properties of `Stats` hold for this copy: permutation, bounds, membership. */
  lemma UtilMedianProperties(a: seq<real>, b: seq<real>)
    requires multiset(a) == multiset(b) && |a| > 0
    ensures Median(a) == Median(b)
    ensures Median(a).Some? && Stats.Min(a) <= Median(a).value <= Stats.Max(a)
    ensures |a| % 2 == 1 ==> Median(a).value in a
  {
    Stats.MedianPermutation(a, b);
  }
}
