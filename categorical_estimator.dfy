/**
 * `CategoricalEstimator` of `src/winnow/estimator/categorical.py`: the mode,
 * ties going to the value seen first, and agreement normalised against
 * guessing uniformly among the valid options.
 */
module CategoricalEstimator {
  import opened Wrappers
  import opened Counting
  import opened Reals
  import Types

  /** Position of the first occurrence of `v`. */
  function FirstIndex<T(==)>(s: seq<T>, v: T): (i: nat)
    requires v in s
    ensures i < |s| && s[i] == v
    ensures forall k :: 0 <= k < i ==> s[k] != v
  {
    if s[0] == v then 0 else 1 + FirstIndex(s[1..], v)
  }

  /** The sample at `b` is at least as common as the one at `k`, and not later on a tie. */
  predicate Beats<T(==)>(s: seq<T>, b: nat, k: nat)
    requires b < |s| && k < |s|
  {
    Count(s, s[k]) < Count(s, s[b]) || (Count(s, s[k]) == Count(s, s[b]) && b <= k)
  }

  /**
   * The order in which a `Counter` meets its keys is the order of first
   * occurrence, and `most_common` keeps that order among equal counts:
   * scanning the samples left to right and replacing the leader only on a
   * strictly larger count finds the same key.
   */
  function ModeScan<T(==)>(s: seq<T>, i: nat, b: nat): (r: nat)
    requires b < i <= |s|
    requires forall k :: 0 <= k < i ==> Beats(s, b, k)
    ensures r < |s|
    ensures forall k :: 0 <= k < |s| ==> Beats(s, r, k)
    decreases |s| - i
  {
    if i == |s| then b
    else if Count(s, s[i]) > Count(s, s[b]) then
      assert forall k :: 0 <= k < i + 1 ==> Beats(s, i, k) by {
        forall k | 0 <= k < i + 1 ensures Beats(s, i, k) {
          if k < i { assert Beats(s, b, k); }
        }
      }
      ModeScan(s, i + 1, i)
    else ModeScan(s, i + 1, b)
  }

  lemma LeaderIsFirstSeen<T>(s: seq<T>, b: nat)
    requires b < |s| && forall k :: 0 <= k < |s| ==> Beats(s, b, k)
    ensures FirstIndex(s, s[b]) == b
    ensures forall v :: v in s ==> Count(s, v) <= Count(s, s[b])
    ensures forall v :: v in s && Count(s, v) == Count(s, s[b]) ==> b <= FirstIndex(s, v)
  {
    assert Beats(s, b, FirstIndex(s, s[b]));
    forall v | v in s
      ensures Count(s, v) <= Count(s, s[b])
      ensures Count(s, v) == Count(s, s[b]) ==> b <= FirstIndex(s, v)
    {
      assert Beats(s, b, FirstIndex(s, v));
    }
  }

  /** `Counter(samples).most_common(1)[0][0]`; None where that raises IndexError (no samples). */
  function Mode<T(==)>(samples: seq<T>): (r: Option<T>)
    ensures r.None? <==> |samples| == 0
    ensures r.Some? ==> r.value in samples
    ensures r.Some? ==> forall v :: v in samples ==> Count(samples, v) <= Count(samples, r.value)
    ensures r.Some? ==> forall v :: v in samples && Count(samples, v) == Count(samples, r.value) ==>
      FirstIndex(samples, r.value) <= FirstIndex(samples, v)
  {
    if |samples| == 0 then None
    else
      var b := ModeScan(samples, 1, 0);
      LeaderIsFirstSeen(samples, b);
      Some(samples[b])
  }

  /**
   * `compute_confidence`: 0 on no samples, 1 when there is a single valid
   * option, otherwise `(agreement - 1/k) / (1 - 1/k)`.  None where Python
   * divides by zero: samples but no valid options.
   */
  function Confidence<T(==)>(samples: seq<T>, estimate: T, validOptions: set<T>): (r: Option<real>)
    ensures r.None? <==> |samples| > 0 && |validOptions| == 0
    ensures |samples| == 0 ==> r == Some(0.0)
    ensures |samples| > 0 && |validOptions| == 1 ==> r == Some(1.0)
    ensures r.Some? ==> r.value <= 1.0
    ensures |samples| > 0 && |validOptions| >= 2 ==>
      r == Some((Count(samples, estimate) as real / |samples| as real - 1.0 / |validOptions| as real)
                / (1.0 - 1.0 / |validOptions| as real))
  {
    if |samples| == 0 then Some(0.0)
    else if |validOptions| == 0 then None
    else
      var agreement := Count(samples, estimate) as real / |samples| as real;
      var baseline := 1.0 / |validOptions| as real;
      if baseline >= 1.0 then Some(1.0)
      else
        Fraction(Count(samples, estimate), |samples|);
        NormalisedAtMostOne(agreement, baseline);
        Some((agreement - baseline) / (1.0 - baseline))
  }

  lemma NormalisedAtMostOne(a: real, b: real)
    requires a <= 1.0 && b < 1.0
    ensures (a - b) / (1.0 - b) <= 1.0
  {
    var d := 1.0 - b;
    var q := (a - b) / d;
    assert q * d == a - b;
  }

  lemma NormalisedAtLeastZero(a: real, b: real)
    requires b <= a && b < 1.0
    ensures (a - b) / (1.0 - b) >= 0.0
  {
    var d := 1.0 - b;
    var q := (a - b) / d;
    assert q * d == a - b;
  }

  /**
   * The contract of the estimator protocol: when every sample is a valid
   * option and the estimate is the mode, confidence lies in [0, 1].
   */
  lemma ConfidenceInUnitInterval<T>(samples: seq<T>, validOptions: set<T>)
    requires |samples| > 0
    requires forall x :: x in samples ==> x in validOptions
    ensures Mode(samples).Some?
    ensures Confidence(samples, Mode(samples).value, validOptions).Some?
    ensures 0.0 <= Confidence(samples, Mode(samples).value, validOptions).value <= 1.0
  {
    var m := Mode(samples).value;
    var top := Count(samples, m);
    assert samples[0] in validOptions;
    forall v | v in validOptions ensures Count(samples, v) <= top {
      if v in samples {
        assert Count(samples, v) <= top;
      }
    }
    Pigeonhole(samples, validOptions, top);
    var k, n := |validOptions|, |samples|;
    if k > 1 {
      RatioAtLeast(top, n, 1, k);
      NormalisedAtLeastZero(top as real / n as real, 1.0 / k as real);
    }
  }

  /** Unanimous samples: the value is the mode, with confidence 1 for any non-empty option set. */
  lemma UnanimousFullConfidence<T>(samples: seq<T>, v: T, validOptions: set<T>)
    requires |samples| > 0 && forall i :: 0 <= i < |samples| ==> samples[i] == v
    requires |validOptions| > 0
    ensures Mode(samples) == Some(v)
    ensures Confidence(samples, v, validOptions) == Some(1.0)
  {
    var u := Mode(samples).value;
    var i :| 0 <= i < |samples| && samples[i] == u;
    CountUnanimous(samples, v);
    var n := |samples| as real;
    SelfRatio(n);
    var baseline := 1.0 / |validOptions| as real;
    if baseline < 1.0 {
      SelfRatio(1.0 - baseline);
    }
  }

  lemma SelfRatio(d: real)
    requires d > 0.0
    ensures d / d == 1.0
  {
  }

  /** Confidence depends on how often the estimate occurs, not where. */
  lemma ConfidencePermutation<T>(a: seq<T>, b: seq<T>, estimate: T, validOptions: set<T>)
    requires multiset(a) == multiset(b)
    ensures Confidence(a, estimate, validOptions) == Confidence(b, estimate, validOptions)
  {
    assert |a| == |multiset(a)| == |multiset(b)| == |b|;
    CountPermutation(a, b, estimate);
  }

  /** Three of four samples agreeing, two valid options: confidence (0.75 - 0.5) / 0.5. */
  lemma ThreeOfFourAgree()
    ensures Mode(["a", "a", "a", "b"]) == Some("a")
    ensures Confidence(["a", "a", "a", "b"], "a", {"a", "b"}) == Some(0.5)
  {
    var s := ["a", "a", "a", "b"];
    assert Count(s, "a") == 3 && Count(s, "b") == 1;
    assert |{"a", "b"}| == 2;
  }

  /** A tie goes to the value seen first. */
  lemma TieGoesToFirstSeen()
    ensures Mode(["b", "a", "a", "b"]) == Some("b")
  {
    var s := ["b", "a", "a", "b"];
    assert Count(s, "a") == 2 && Count(s, "b") == 2;
    assert FirstIndex(s, "b") == 0 && FirstIndex(s, "a") == 1;
  }

  /**
   * The estimator as the sampling engine calls it.  Python accepts an empty
   * option set and only fails when it divides; here it is excluded up front.
   */
  function AsEstimator<T(==,!new)>(validOptions: set<T>): (e: Types.Estimator<T>)
    requires |validOptions| > 0
    ensures forall s :: e.estimate(s) == Mode(s)
    ensures forall s, v :: e.confidence(s, Some(v)) == Confidence(s, v, validOptions).value
  {
    Types.Estimator(
      s => Mode(s),
      (s, est: Option<T>) => if est.Some? then Confidence(s, est.value, validOptions).value else 0.0)
  }
}
