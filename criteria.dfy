/**
 * The stopping-criterion tree of `src/winnow/stopping/`: five leaf tests on a
 * question's sampling state, the `All` / `Any` combinators, and the `&` / `|`
 * operators that build them.
 */
module Criteria {
  import opened Wrappers
  import opened Types

  datatype Criterion =
    | MinSamples(n: int)
    | MaxQueries(n: int)
    | ConfidenceReached(threshold: real)
    | ConsecutiveDeclines(n: int)
    | UnanimousAgreement(minSamples: int)
    | All(children: seq<Criterion>)
    | Any(children: seq<Criterion>)

  /** `should_stop(state, estimator)`, by structural recursion over the tree. */
  function ShouldStop<T(==)>(c: Criterion, state: SampleState<T>, estimator: Estimator<T>): bool
    decreases c
  {
    match c
    case MinSamples(n) => |state.samples| >= n
    case MaxQueries(n) => state.QueryCount() >= n
    case ConfidenceReached(threshold) =>
      |state.samples| >= 2 &&
      estimator.confidence(state.samples, estimator.estimate(state.samples)) >= threshold
    case ConsecutiveDeclines(n) => state.consecutiveDeclines >= n
    case UnanimousAgreement(m) =>
      |state.samples| >= m && |(set x | x in state.samples)| == 1
    case All(children) => forall i :: 0 <= i < |children| ==> ShouldStop(children[i], state, estimator)
    case Any(children) => exists i :: 0 <= i < |children| && ShouldStop(children[i], state, estimator)
  }

  /** `a & b`. */
  function And(a: Criterion, b: Criterion): (c: Criterion)
    ensures c.All? && c.children == [a, b]
  {
    All([a, b])
  }

  /** `a | b`. */
  function Or(a: Criterion, b: Criterion): (c: Criterion)
    ensures c.Any? && c.children == [a, b]
  {
    Any([a, b])
  }

  lemma AndStopsIffBoth<T>(a: Criterion, b: Criterion, state: SampleState<T>, estimator: Estimator<T>)
    ensures ShouldStop(And(a, b), state, estimator) <==>
      ShouldStop(a, state, estimator) && ShouldStop(b, state, estimator)
  {
    var ch := [a, b];
    assert ch[0] == a && ch[1] == b;
  }

  lemma OrStopsIffEither<T>(a: Criterion, b: Criterion, state: SampleState<T>, estimator: Estimator<T>)
    ensures ShouldStop(Or(a, b), state, estimator) <==>
      ShouldStop(a, state, estimator) || ShouldStop(b, state, estimator)
  {
    var ch := [a, b];
    assert ch[0] == a && ch[1] == b;
  }

  /** `All()` always stops, `Any()` never does, and a single child decides alone. */
  lemma CombinatorEdgeCases<T>(c: Criterion, state: SampleState<T>, estimator: Estimator<T>)
    ensures ShouldStop(All([]), state, estimator)
    ensures !ShouldStop(Any([]), state, estimator)
    ensures ShouldStop(All([c]), state, estimator) == ShouldStop(c, state, estimator)
    ensures ShouldStop(Any([c]), state, estimator) == ShouldStop(c, state, estimator)
  {
    assert [c][0] == c;
  }

  /** `len(set(samples)) == 1`: there is at least one sample and all are the same. */
  lemma UnanimousMeansAllEqual<T>(samples: seq<T>)
    ensures |(set x | x in samples)| == 1 <==>
      |samples| > 0 && forall i :: 0 <= i < |samples| ==> samples[i] == samples[0]
  {
    var distinct := set x | x in samples;
    if |samples| > 0 {
      if forall i :: 0 <= i < |samples| ==> samples[i] == samples[0] {
        assert distinct == {samples[0]};
      } else {
        var i :| 0 <= i < |samples| && samples[i] != samples[0];
        assert {samples[0], samples[i]} <= distinct;
        assert |{samples[0], samples[i]}| == 2;
        SubsetCardinality({samples[0], samples[i]}, distinct);
      }
    } else {
      assert distinct == {};
    }
  }

  lemma SubsetCardinality<T>(a: set<T>, b: set<T>)
    requires a <= b
    ensures |a| <= |b|
  {
    assert b == a + (b - a);
  }

  /** A confidence test never stops with fewer than two answers. */
  lemma ConfidenceNeedsTwoSamples<T>(threshold: real, state: SampleState<T>, estimator: Estimator<T>)
    requires |state.samples| < 2
    ensures !ShouldStop(ConfidenceReached(threshold), state, estimator)
  {
  }

  /** Five answers, three declines and two parse failures stop `(MinSamples(3) & MaxQueries(10)) | MinSamples(20)`. */
  lemma NestedExample(estimator: Estimator<real>)
    ensures ShouldStop(Or(And(MinSamples(3), MaxQueries(10)), MinSamples(20)),
      SampleState([1.0, 2.0, 3.0, 4.0, 5.0], 3, 2, 0, None, 0.0), estimator)
  {
    var s := SampleState([1.0, 2.0, 3.0, 4.0, 5.0], 3, 2, 0, None, 0.0);
    AndStopsIffBoth(MinSamples(3), MaxQueries(10), s, estimator);
    OrStopsIffEither(And(MinSamples(3), MaxQueries(10)), MinSamples(20), s, estimator);
  }

  /**
   * A tree is budgeted by `n` when some path of `Any` choices (and every
   * child of an `All`) ends in a `MaxQueries(m)` with `m <= n`.
   */
  predicate BudgetedBy(c: Criterion, n: int)
    decreases c
  {
    match c
    case MaxQueries(m) => m <= n
    case All(children) => forall i :: 0 <= i < |children| ==> BudgetedBy(children[i], n)
    case Any(children) => exists i :: 0 <= i < |children| && BudgetedBy(children[i], n)
    case _ => false
  }

  /** A budgeted tree stops once the question has used its budget, whatever the answers. */
  lemma {:induction false} BudgetForcesStop<T>(c: Criterion, n: int, state: SampleState<T>, estimator: Estimator<T>)
    requires BudgetedBy(c, n) && state.QueryCount() >= n
    ensures ShouldStop(c, state, estimator)
    decreases c
  {
    match c
    case MaxQueries(m) =>
    case All(children) =>
      forall i | 0 <= i < |children| ensures ShouldStop(children[i], state, estimator) {
        BudgetForcesStop(children[i], n, state, estimator);
      }
    case Any(children) =>
      var i :| 0 <= i < |children| && BudgetedBy(children[i], n);
      BudgetForcesStop(children[i], n, state, estimator);
  }

  /** Trees made only of `MinSamples` and `MaxQueries` leaves. */
  predicate CountsOnly(c: Criterion)
    decreases c
  {
    match c
    case MinSamples(_) => true
    case MaxQueries(_) => true
    case All(children) => forall i :: 0 <= i < |children| ==> CountsOnly(children[i])
    case Any(children) => forall i :: 0 <= i < |children| ==> CountsOnly(children[i])
    case _ => false
  }

  /** `later` has at least the answers and the queries of `earlier`. */
  predicate Grown<T>(earlier: SampleState<T>, later: SampleState<T>) {
    |later.samples| >= |earlier.samples| && later.QueryCount() >= earlier.QueryCount()
  }

  /** Once a tree of sample and query counts says stop, it keeps saying stop as the counts grow. */
  lemma {:induction false} CountsOnlyStopPersists<T>(
    c: Criterion, earlier: SampleState<T>, later: SampleState<T>, estimator: Estimator<T>)
    requires CountsOnly(c) && Grown(earlier, later) && ShouldStop(c, earlier, estimator)
    ensures ShouldStop(c, later, estimator)
    decreases c
  {
    match c
    case MinSamples(_) =>
    case MaxQueries(_) =>
    case All(children) =>
      forall i | 0 <= i < |children| ensures ShouldStop(children[i], later, estimator) {
        CountsOnlyStopPersists(children[i], earlier, later, estimator);
      }
    case Any(children) =>
      var i :| 0 <= i < |children| && ShouldStop(children[i], earlier, estimator);
      CountsOnlyStopPersists(children[i], earlier, later, estimator);
  }
}
