/** `BooleanEstimator` of `src/winnow/estimator/boolean.py`: majority vote and agreement. */
module BooleanEstimator {
  import opened Wrappers
  import opened Counting
  import opened Reals
  import Types

  /** `sum(samples) > len(samples) / 2`: true exactly when true answers are a strict majority. */
  function Estimate(samples: seq<bool>): (r: bool)
    ensures r <==> Count(samples, true) > Count(samples, false)
    ensures |samples| == 0 ==> !r
  {
    CountBoolPartition(samples);
    Count(samples, true) as real > |samples| as real / 2.0
  }

  /** The fraction of samples equal to the estimate; 0 on no samples. */
  function Confidence(samples: seq<bool>, estimate: bool): (c: real)
    ensures 0.0 <= c <= 1.0
    ensures |samples| == 0 ==> c == 0.0
    ensures |samples| > 0 ==> c == Count(samples, estimate) as real / |samples| as real
  {
    if |samples| == 0 then 0.0
    else
      Fraction(Count(samples, estimate), |samples|);
      Count(samples, estimate) as real / |samples| as real
  }

  /** An exact tie is decided for false. */
  lemma TieGivesFalse(samples: seq<bool>)
    requires Count(samples, true) == Count(samples, false)
    ensures !Estimate(samples)
  {
  }

  /** The majority is never a minority: confidence in the estimate is at least one half. */
  lemma SelfConfidenceAtLeastHalf(samples: seq<bool>)
    requires |samples| > 0
    ensures Confidence(samples, Estimate(samples)) >= 0.5
  {
    CountBoolPartition(samples);
    RatioAtLeast(Count(samples, Estimate(samples)), |samples|, 1, 2);
  }

  /** Unanimous samples make that value the estimate, with confidence 1. */
  lemma UnanimousFullConfidence(samples: seq<bool>, v: bool)
    requires |samples| > 0 && forall i :: 0 <= i < |samples| ==> samples[i] == v
    ensures Estimate(samples) == v
    ensures Confidence(samples, v) == 1.0
  {
    CountUnanimous(samples, v);
    CountBoolPartition(samples);
    RatioAtLeast(|samples|, |samples|, 1, 1);
  }

  /** Estimate and confidence depend only on how many of each answer there are. */
  lemma PermutationInvariant(a: seq<bool>, b: seq<bool>, estimate: bool)
    requires multiset(a) == multiset(b)
    ensures Estimate(a) == Estimate(b)
    ensures Confidence(a, estimate) == Confidence(b, estimate)
  {
    assert |a| == |multiset(a)| == |multiset(b)| == |b|;
    CountPermutation(a, b, true);
    CountPermutation(a, b, false);
    CountPermutation(a, b, estimate);
  }

  /** The estimator as the sampling engine calls it; the estimate is never None. */
  function AsEstimator(): (e: Types.Estimator<bool>)
    ensures forall s :: e.estimate(s) == Some(Estimate(s))
    ensures forall s, v :: e.confidence(s, Some(v)) == Confidence(s, v)
  {
    Types.Estimator(
      s => Some(Estimate(s)),
      (s, est: Option<bool>) => if est.Some? then Confidence(s, est.value) else 0.0)
  }
}
