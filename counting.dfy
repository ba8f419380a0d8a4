/**
 * Counting occurrences, as the estimators do with
 * `sum(1 for s in samples if s == v)` and `Counter(samples)[v]`.
 */
module Counting {

  function Count<T(==)>(s: seq<T>, v: T): (n: nat)
    ensures n <= |s|
    ensures n == 0 <==> v !in s
  {
    if |s| == 0 then 0 else (if s[0] == v then 1 else 0) + Count(s[1..], v)
  }

  /** A count is the multiplicity in the multiset of the samples, so it ignores order. */
  lemma {:induction false} CountIsMultiplicity<T>(s: seq<T>, v: T)
    ensures Count(s, v) == multiset(s)[v]
  {
    if |s| > 0 {
      CountIsMultiplicity(s[1..], v);
      assert s == [s[0]] + s[1..];
    }
  }

  lemma CountPermutation<T>(a: seq<T>, b: seq<T>, v: T)
    requires multiset(a) == multiset(b)
    ensures Count(a, v) == Count(b, v)
  {
    CountIsMultiplicity(a, v);
    CountIsMultiplicity(b, v);
  }

  /** Unanimous samples: every sample is counted. */
  lemma {:induction false} CountUnanimous<T>(s: seq<T>, v: T)
    requires forall i :: 0 <= i < |s| ==> s[i] == v
    ensures Count(s, v) == |s|
  {
    if |s| > 0 { CountUnanimous(s[1..], v); }
  }

  /** Every boolean sample is either true or false. */
  lemma {:induction false} CountBoolPartition(s: seq<bool>)
    ensures Count(s, true) + Count(s, false) == |s|
  {
    if |s| > 0 {
      CountBoolPartition(s[1..]);
      assert Count(s, true) == (if s[0] then 1 else 0) + Count(s[1..], true);
      assert Count(s, false) == (if s[0] then 0 else 1) + Count(s[1..], false);
    }
  }

  /** The samples other than `v`, in order. */
  function Without<T(==)>(s: seq<T>, v: T): (r: seq<T>)
    ensures |r| == |s| - Count(s, v)
    ensures forall w :: w in s && w != v ==> Count(r, w) == Count(s, w)
    ensures forall x :: x in r ==> x in s && x != v
  {
    if |s| == 0 then []
    else if s[0] == v then Without(s[1..], v)
    else
      var r := [s[0]] + Without(s[1..], v);
      assert r[1..] == Without(s[1..], v);
      r
  }

  /**
   * Pigeonhole: samples drawn from `k` options, none occurring more than
   * `m` times, number at most `k * m`.
   */
  lemma {:induction false} Pigeonhole<T>(s: seq<T>, options: set<T>, m: nat)
    requires forall x :: x in s ==> x in options
    requires forall v :: v in options ==> Count(s, v) <= m
    ensures |s| <= |options| * m
    decreases |s|
  {
    if |s| > 0 {
      var v := s[0];
      var rest, others := Without(s, v), options - {v};
      forall w | w in others ensures Count(rest, w) <= m {
        if w in s { assert Count(rest, w) == Count(s, w); }
      }
      Pigeonhole(rest, others, m);
      assert |options| == |others| + 1;
      MulSucc(|others|, m);
    }
  }

  lemma MulSucc(k: nat, m: nat)
    ensures (k + 1) * m == k * m + m
  {
  }
}
