/**
 * `NumericalEstimator` of `src/winnow/estimator/numerical.py`: the median,
 * and a confidence derived from the robust coefficient of variation.
 */
module NumericalEstimator {
  import opened Wrappers
  import Stats
  import Types

  /** `_median(samples)`; None where it raises (no samples). */
  function Estimate(samples: seq<real>): (r: Option<real>)
    ensures r.None? <==> |samples| == 0
    ensures r.Some? ==> Stats.Min(samples) <= r.value <= Stats.Max(samples)
  {
    Stats.Median(samples)
  }

  predicate AllZero(samples: seq<real>) {
    forall x :: x in samples ==> x == 0.0
  }

  /**
   * `compute_confidence`: 0 below two samples; 1 when every sample is zero
   * (checked before the estimate is looked at); 0 for a zero estimate of
   * samples that are not all zero; otherwise the robust confidence of the
   * MAD about the estimate.
   */
  function Confidence(samples: seq<real>, estimate: real): (c: real)
    ensures 0.0 <= c <= 1.0
    ensures |samples| < 2 ==> c == 0.0
    ensures |samples| >= 2 && AllZero(samples) ==> c == 1.0
    ensures |samples| >= 2 && !AllZero(samples) && estimate == 0.0 ==> c == 0.0
    ensures |samples| >= 2 && !AllZero(samples) && estimate != 0.0 ==>
      c > 0.0 && (c == 1.0 <==> Stats.Mad(samples, estimate) == Some(0.0))
    ensures |samples| >= 2 && !AllZero(samples) && estimate != 0.0 ==>
      c == Stats.RobustConfidence(Stats.Mad(samples, estimate).value, estimate)
  {
    if |samples| < 2 then 0.0
    else if AllZero(samples) then 1.0
    else if estimate == 0.0 then 0.0
    else Stats.RobustConfidence(Stats.Mad(samples, estimate).value, estimate)
  }

  /** Identical non-zero samples: the estimate is that value, with full confidence. */
  lemma IdenticalSamplesFullConfidence(samples: seq<real>, v: real)
    requires |samples| >= 2 && v != 0.0
    requires forall i :: 0 <= i < |samples| ==> samples[i] == v
    ensures Estimate(samples) == Some(v)
    ensures Confidence(samples, v) == 1.0
  {
    Stats.MedianConstant(samples, v);
    Stats.MadConstant(samples, v);
    assert samples[0] in samples;
  }

  /** For a fixed estimate, the order of the samples does not matter. */
  lemma ConfidencePermutation(a: seq<real>, b: seq<real>, estimate: real)
    requires multiset(a) == multiset(b)
    ensures Estimate(a) == Estimate(b)
    ensures Confidence(a, estimate) == Confidence(b, estimate)
  {
    assert |a| == |multiset(a)| == |multiset(b)| == |b|;
    assert forall x :: x in a <==> x in b by {
      forall x ensures x in a <==> x in b {
        assert x in a <==> x in multiset(a);
        assert x in b <==> x in multiset(b);
      }
    }
    Stats.MedianPermutation(a, b);
    Stats.MadPermutation(a, b, estimate);
  }

  /** More spread about the same estimate never raises confidence. */
  lemma SpreadLowersConfidence(a: seq<real>, b: seq<real>, estimate: real)
    requires |a| >= 2 && |b| >= 2 && !AllZero(a) && !AllZero(b) && estimate != 0.0
    requires Stats.Mad(a, estimate).value <= Stats.Mad(b, estimate).value
    ensures Confidence(b, estimate) <= Confidence(a, estimate)
  {
    Stats.RobustConfidenceAntitone(Stats.Mad(a, estimate).value, Stats.Mad(b, estimate).value, estimate);
  }

  /** Three zero samples: full confidence. */
  lemma AllZeroSamples()
    ensures Confidence([0.0, 0.0, 0.0], 0.0) == 1.0
  {
  }

  /** Samples spread around a zero median: no confidence. */
  lemma ZeroMedianOfSpreadSamples()
    ensures Confidence([-5.0, 0.0, 5.0], 0.0) == 0.0
  {
    assert 5.0 in [-5.0, 0.0, 5.0];
  }

  /** The estimator as the sampling engine calls it. */
  function AsEstimator(): (e: Types.Estimator<real>)
    ensures forall s :: e.estimate(s) == Estimate(s)
    ensures forall s, v :: e.confidence(s, Some(v)) == Confidence(s, v)
  {
    Types.Estimator(
      s => Estimate(s),
      (s, est: Option<real>) => if est.Some? then Confidence(s, est.value) else 0.0)
  }
}
