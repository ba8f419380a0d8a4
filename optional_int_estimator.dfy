/**
 * `OptionalIntEstimator` of `src/winnow/estimator/optional_int.py`: samples
 * are integers or None; None wins a strict majority, otherwise the rounded
 * median of the integers is the estimate.
 */
module OptionalIntEstimator {
  import opened Wrappers
  import opened Counting
  import opened Reals
  import Stats
  import Util
  import Types

  function NoneCount(samples: seq<Option<int>>): nat {
    Count(samples, None)
  }

  /** `[s for s in samples if s is not None]`. */
  function Numeric(samples: seq<Option<int>>): (r: seq<int>)
    ensures |r| + NoneCount(samples) == |samples|
  {
    if |samples| == 0 then []
    else
      var rest := Numeric(samples[1..]);
      assert forall x :: Some(x) in samples <==> Some(x) == samples[0] || Some(x) in samples[1..];
      match samples[0]
      case None => rest
      case Some(v) => [v] + rest
  }

  /** Each integer occurs among the integer samples as often as it was sampled. */
  lemma {:induction false} NumericCounts(samples: seq<Option<int>>, x: int)
    ensures Count(Numeric(samples), x) == Count(samples, Some(x))
  {
    if |samples| > 0 {
      NumericCounts(samples[1..], x);
      match samples[0]
      case None =>
      case Some(v) => assert ([v] + Numeric(samples[1..]))[1..] == Numeric(samples[1..]);
    }
  }

  /** The integer samples are exactly the integers that were sampled. */
  lemma NumericMembers(samples: seq<Option<int>>)
    ensures forall x :: x in Numeric(samples) <==> Some(x) in samples
  {
    forall x ensures x in Numeric(samples) <==> Some(x) in samples {
      NumericCounts(samples, x);
    }
  }

  /**
   * The filter keeps the samples' order: the integers of a concatenation are
   * those of the first part followed by those of the second.
   */
  lemma {:induction false} NumericConcat(a: seq<Option<int>>, b: seq<Option<int>>)
    ensures Numeric(a + b) == Numeric(a) + Numeric(b)
  {
    if |a| > 0 {
      assert (a + b)[1..] == a[1..] + b;
      NumericConcat(a[1..], b);
    } else {
      assert a + b == b;
    }
  }

  /** `[float(s) for s in numeric]`. */
  function AsReals(xs: seq<int>): (r: seq<real>)
    ensures |r| == |xs| && forall i :: 0 <= i < |xs| ==> r[i] == xs[i] as real
  {
    seq(|xs|, i requires 0 <= i < |xs| => xs[i] as real)
  }

  /** Converting to floats keeps every multiplicity: a real occurs as often as the integer it equals. */
  lemma {:induction false} AsRealsCounts(xs: seq<int>, r: real)
    ensures Count(AsReals(xs), r) == if r.Floor as real == r then Count(xs, r.Floor) else 0
  {
    if |xs| > 0 {
      AsRealsCounts(xs[1..], r);
      assert AsReals(xs)[1..] == AsReals(xs[1..]);
    }
  }

  /** Integer samples with the same multiset give float lists with the same multiset. */
  lemma AsRealsPermutation(a: seq<int>, b: seq<int>)
    requires multiset(a) == multiset(b)
    ensures multiset(AsReals(a)) == multiset(AsReals(b))
  {
    forall r ensures multiset(AsReals(a))[r] == multiset(AsReals(b))[r] {
      CountIsMultiplicity(AsReals(a), r);
      CountIsMultiplicity(AsReals(b), r);
      AsRealsCounts(a, r);
      AsRealsCounts(b, r);
      CountPermutation(a, b, r.Floor);
    }
  }

  /** Python's `round(x)` on a float: the nearest integer, halves going to the even one. */
  function RoundHalfEven(x: real): (r: int)
    ensures -0.5 <= r as real - x <= 0.5
    ensures (r as real - x == 0.5 || r as real - x == -0.5) ==> r % 2 == 0
  {
    var f := x.Floor;
    var d := x - f as real;
    if d < 0.5 then f
    else if d > 0.5 then f + 1
    else if f % 2 == 0 then f
    else f + 1
  }

  /** Rounding lands on one of the two integers around `x`, so it stays inside integer bounds of `x`. */
  lemma RoundWithinIntegerBounds(x: real, lo: int, hi: int)
    requires lo as real <= x <= hi as real
    ensures lo <= RoundHalfEven(x) <= hi
  {
  }

  /** 56.5 rounds down to 56 and 57.5 up to 58. */
  lemma RoundHalfEvenExamples()
    ensures RoundHalfEven(56.5) == 56
    ensures RoundHalfEven(57.5) == 58
  {
    assert (56.5).Floor == 56;
    assert (57.5).Floor == 57;
  }

  /**
   * `compute_estimate`: None when the None samples outnumber the integers,
   * or when there is no integer at all; otherwise the median of the
   * integers, rounded half to even.
   */
  function Estimate(samples: seq<Option<int>>): (r: Option<int>)
    ensures r.None? <==> 2 * NoneCount(samples) > |samples| || NoneCount(samples) == |samples|
    ensures r.Some? ==> |Numeric(samples)| > 0
    ensures r.Some? ==>
      var xs := AsReals(Numeric(samples));
      Stats.Min(xs) <= r.value as real <= Stats.Max(xs)
    ensures r.Some? ==> r.value == RoundHalfEven(Stats.Median(AsReals(Numeric(samples))).value)
  {
    var numeric := Numeric(samples);
    if NoneCount(samples) > |numeric| then None
    else if |numeric| == 0 then None
    else
      var xs := AsReals(numeric);
      var m := Util.Median(xs).value;
      var lo, hi := Stats.Min(xs), Stats.Max(xs);
      assert lo.Floor as real == lo && hi.Floor as real == hi by {
        var i :| 0 <= i < |xs| && xs[i] == lo;
        var j :| 0 <= j < |xs| && xs[j] == hi;
      }
      RoundWithinIntegerBounds(m, lo.Floor, hi.Floor);
      Some(RoundHalfEven(m))
  }

  /** The estimate depends only on how often each sample occurs, not on their order. */
  lemma EstimatePermutation(a: seq<Option<int>>, b: seq<Option<int>>)
    requires multiset(a) == multiset(b)
    ensures Estimate(a) == Estimate(b)
  {
    assert |a| == |multiset(a)| == |multiset(b)| == |b|;
    CountPermutation(a, b, None);
    forall x ensures multiset(Numeric(a))[x] == multiset(Numeric(b))[x] {
      CountIsMultiplicity(Numeric(a), x);
      CountIsMultiplicity(Numeric(b), x);
      NumericCounts(a, x);
      NumericCounts(b, x);
      CountPermutation(a, b, Some(x));
    }
    assert multiset(Numeric(a)) == multiset(Numeric(b));
    AsRealsPermutation(Numeric(a), Numeric(b));
    Stats.MedianPermutation(AsReals(Numeric(a)), AsReals(Numeric(b)));
  }

  /** `[55, 56, 57, 58]`: the median 56.5 rounds to the even 56. */
  lemma RoundedEvenMedian()
    ensures Estimate([Some(55), Some(56), Some(57), Some(58)]) == Some(56)
  {
    var s := [Some(55), Some(56), Some(57), Some(58)];
    FourIntegers(s, 55, 56, 57, 58);
    MedianOfFour(AsReals(Numeric(s)));
    RoundHalfEvenExamples();
  }

  lemma FourIntegers(s: seq<Option<int>>, a: int, b: int, c: int, d: int)
    requires s == [Some(a), Some(b), Some(c), Some(d)]
    ensures NoneCount(s) == 0
    ensures var xs := AsReals(Numeric(s));
      |xs| == 4 && xs[0] == a as real && xs[1] == b as real && xs[2] == c as real && xs[3] == d as real
  {
    assert s[1..] == [Some(b), Some(c), Some(d)];
    assert s[2..] == [Some(c), Some(d)];
    assert s[3..] == [Some(d)];
    assert Numeric(s[3..]) == [d];
    assert Numeric(s[2..]) == [c, d];
    assert Numeric(s[1..]) == [b, c, d];
    assert Numeric(s) == [a, b, c, d];
  }

  lemma MedianOfFour(xs: seq<real>)
    requires |xs| == 4 && xs[0] <= xs[1] <= xs[2] <= xs[3]
    ensures Stats.Median(xs) == Some((xs[1] + xs[2]) / 2.0)
  {
    assert Stats.Sorted(xs) by {
      forall i, j | 0 <= i <= j < |xs| ensures xs[i] <= xs[j] {
        assert i == 0 || i == 1 || i == 2 || i == 3;
      }
    }
    Stats.SortedMedianIsMiddle(xs);
    MiddleOfFour(xs);
  }


  lemma MiddleOfFour(xs: seq<real>)
    requires |xs| == 4
    ensures Stats.Middle(xs) == (xs[1] + xs[2]) / 2.0
  {
  }

  lemma MedianOfThree(xs: seq<real>)
    requires |xs| == 3 && xs[0] <= xs[2] <= xs[1]
    ensures Stats.Median(xs) == Some(xs[2])
  {
    var sorted := [xs[0], xs[2], xs[1]];
    assert Stats.Sorted(sorted);
    assert xs == [xs[0], xs[1], xs[2]];
    assert multiset(sorted) == multiset(xs);
    Stats.MedianOfSortedArrangement(xs, sorted);
  }

  /** `[55, 60, 58, None, None]`: the integers outnumber the Nones and their median 58 is the estimate. */
  lemma OddMedianWithNones()
    ensures Estimate([Some(55), Some(60), Some(58), None, None]) == Some(58)
  {
    var s := [Some(55), Some(60), Some(58), None, None];
    ThreeIntegers(s, 55, 60, 58);
    MedianOfThree(AsReals(Numeric(s)));
    assert (58.0).Floor == 58;
  }

  lemma ThreeIntegers(s: seq<Option<int>>, a: int, b: int, c: int)
    requires s == [Some(a), Some(b), Some(c), None, None]
    ensures NoneCount(s) == 2
    ensures var xs := AsReals(Numeric(s));
      |xs| == 3 && xs[0] == a as real && xs[1] == b as real && xs[2] == c as real
  {
    assert s[1..] == [Some(b), Some(c), None, None];
    assert s[2..] == [Some(c), None, None];
    assert s[3..] == [None, None];
    assert s[4..] == [None];
    assert Numeric(s[3..]) == [];
    assert Numeric(s[2..]) == [c];
    assert Numeric(s[1..]) == [b, c];
    assert Numeric(s) == [a, b, c];
  }

  /** An even split between None and integers goes to the integers. */
  lemma EqualSplitIsNumeric(samples: seq<Option<int>>)
    requires |samples| > 0 && 2 * NoneCount(samples) == |samples|
    ensures Estimate(samples).Some?
  {
  }

  function Max0(x: real): real {
    if x > 0.0 then x else 0.0
  }

  /**
   * Confidence in the integer value itself: for a zero estimate, 1 if every
   * integer is zero and 0 otherwise; 1 if every integer equals the estimate;
   * otherwise the robust confidence of the MAD about the estimate.
   */
  function ValueConfidence(numeric: seq<real>, estimate: int): (v: real)
    requires |numeric| > 0
    ensures 0.0 <= v <= 1.0
    ensures estimate == 0 ==> (v == 1.0 <==> forall x :: x in numeric ==> x == 0.0)
    ensures estimate == 0 ==> (v == 0.0 || v == 1.0)
    ensures (forall x :: x in numeric ==> x == estimate as real) ==> v == 1.0
    ensures estimate != 0 ==> v > 0.0
    ensures estimate != 0 && !(forall x :: x in numeric ==> x == estimate as real) ==>
      v == Stats.RobustConfidence(Util.Mad(numeric, estimate as real).value, estimate as real)
  {
    if estimate == 0 then
      if exists x :: x in numeric && x != 0.0 then 0.0 else 1.0
    else if forall x :: x in numeric ==> x == estimate as real then 1.0
    else Stats.RobustConfidence(Util.Mad(numeric, estimate as real).value, estimate as real)
  }

  /** `max(0, (share - 0.5) / 0.5)` for a share `part / n`: how far the share is past one half. */
  function MajorityConfidence(part: nat, n: nat): (c: real)
    requires 0 < n && part <= n
    ensures 0.0 <= c <= 1.0
    ensures c == 1.0 <==> part == n
    ensures c == 0.0 <==> 2 * part <= n
    ensures c == Max0((2 * part - n) as real / n as real)
  {
    var share := part as real / n as real;
    var nr := n as real;
    assert share * nr == part as real;
    DivAtMostOne(part as real, nr);
    var q := (2 * part - n) as real / nr;
    assert q * nr == (2 * part - n) as real;
    assert (2.0 * share - 1.0) * nr == (2 * part - n) as real;
    CancelPositive(q, 2.0 * share - 1.0, nr);
    DivSign((2 * part - n) as real, nr);
    Max0((share - 0.5) / 0.5)
  }

  /**
   * `compute_confidence`: 0 below two samples; for a None estimate, the
   * normalised share of None samples; for an integer estimate, 0 below two
   * integers, and otherwise the normalised share of integers times the
   * confidence in the value.
   */
  function Confidence(samples: seq<Option<int>>, estimate: Option<int>): (c: real)
    ensures 0.0 <= c <= 1.0
    ensures |samples| < 2 ==> c == 0.0
    ensures |samples| >= 2 && estimate.None? ==>
      (c == 1.0 <==> NoneCount(samples) == |samples|) && (c == 0.0 <==> 2 * NoneCount(samples) <= |samples|)
    ensures estimate.Some? && c > 0.0 ==>
      |Numeric(samples)| >= 2 && 2 * |Numeric(samples)| > |samples|
    ensures |samples| >= 2 && estimate.None? ==>
      c == Max0((2 * NoneCount(samples) - |samples|) as real / |samples| as real)
    ensures |samples| >= 2 && estimate.Some? && |Numeric(samples)| < 2 ==> c == 0.0
    ensures |samples| >= 2 && estimate.Some? && |Numeric(samples)| >= 2 ==>
      c == Product(MajorityConfidence(|Numeric(samples)|, |samples|),
                   ValueConfidence(AsReals(Numeric(samples)), estimate.value))
  {
    if |samples| < 2 then 0.0
    else if estimate.None? then MajorityConfidence(NoneCount(samples), |samples|)
    else if |Numeric(samples)| < 2 then 0.0
    else
      var a := MajorityConfidence(|Numeric(samples)|, |samples|);
      var v := ValueConfidence(AsReals(Numeric(samples)), estimate.value);
      Product(a, v)
  }

  /** All samples None: full confidence in a None estimate. */
  lemma AllNoneFullConfidence(samples: seq<Option<int>>)
    requires |samples| >= 2 && forall i :: 0 <= i < |samples| ==> samples[i].None?
    ensures Estimate(samples).None?
    ensures Confidence(samples, None) == 1.0
  {
    CountUnanimous(samples, None);
  }

  /** Identical integer samples: that integer is the estimate, with full confidence. */
  lemma IdenticalIntegersFullConfidence(samples: seq<Option<int>>, v: int)
    requires |samples| >= 2 && forall i :: 0 <= i < |samples| ==> samples[i] == Some(v)
    ensures Confidence(samples, Some(v)) == 1.0
  {
    CountUnanimous(samples, Some(v));
    NumericMembers(samples);
    var xs := AsReals(Numeric(samples));
    forall x | x in xs ensures x == v as real {
      var i :| 0 <= i < |xs| && xs[i] == x;
      assert Numeric(samples)[i] in Numeric(samples);
    }
  }

  /**
   * When at least two integers are sampled and all of them equal the estimate,
   * the confidence is the normalised share of integers alone.
   */
  lemma AgreeingIntegersConfidence(samples: seq<Option<int>>, v: int)
    requires |samples| >= 2 && |Numeric(samples)| >= 2
    requires forall x :: x in Numeric(samples) ==> x == v
    ensures Confidence(samples, Some(v)) == MajorityConfidence(|Numeric(samples)|, |samples|)
  {
    var xs := AsReals(Numeric(samples));
    forall x | x in xs ensures x == v as real {
      var i :| 0 <= i < |xs| && xs[i] == x;
      assert Numeric(samples)[i] in Numeric(samples);
    }
    assert ValueConfidence(xs, v) == 1.0;
  }

  /** `[55, 55, 55, None, None]` with estimate 55: share 3/5 normalises to 0.2, value confidence 1. */
  lemma SlimNumericMajority()
    ensures Confidence([Some(55), Some(55), Some(55), None, None], Some(55)) == 0.2
  {
    var s := [Some(55), Some(55), Some(55), None, None];
    SlimSamples();
    AgreeingIntegersConfidence(s, 55);
    assert MajorityConfidence(3, 5) == 0.2;
  }

  lemma SlimSamples()
    ensures Numeric([Some(55), Some(55), Some(55), None, None]) == [55, 55, 55]
  {
    var s := [Some(55), Some(55), Some(55), None, None];
    assert s[1..] == [Some(55), Some(55), None, None];
    assert s[2..] == [Some(55), None, None];
    assert s[3..] == [None, None];
  }

  /** The estimator as the sampling engine calls it: Python's None estimate is None here too. */
  function AsEstimator(): (e: Types.Estimator<Option<int>>)
    ensures forall s :: e.estimate(s).None? <==> Estimate(s).None?
    ensures forall s :: Estimate(s).Some? ==> e.estimate(s) == Some(Estimate(s))
    ensures forall s :: e.confidence(s, None) == Confidence(s, None)
    ensures forall s, v :: e.confidence(s, Some(Some(v))) == Confidence(s, Some(v))
  {
    Types.Estimator(
      s => if Estimate(s).Some? then Some(Estimate(s)) else None,
      (s, est: Option<Option<int>>) =>
        if est.Some? && est.value.Some? then Confidence(s, est.value) else Confidence(s, None))
  }
}
