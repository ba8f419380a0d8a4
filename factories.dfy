/**
 * The preset trees of `src/winnow/stopping/factories.py`, with every
 * parameter explicit.
 */
module Factories {
  import opened Types
  import opened Criteria

  /** `standard_stopping`: `(MinSamples & ConfidenceReached) | MaxQueries | ConsecutiveDeclines`. */
  function Standard(minSamples: int, confidence: real, maxQueries: int, maxConsecutiveDeclines: int): (c: Criterion)
    ensures BudgetedBy(c, maxQueries)
  {
    var budget := MaxQueries(maxQueries);
    var c := Or(Or(And(MinSamples(minSamples), ConfidenceReached(confidence)), budget),
                ConsecutiveDeclines(maxConsecutiveDeclines));
    assert c.children[0].children[1] == budget;
    assert BudgetedBy(c.children[0], maxQueries);
    c
  }

  /** The defaults `standard_stopping` takes from the configuration: 5, 0.90, 20, 5. */
  function StandardDefault(): (c: Criterion)
    ensures BudgetedBy(c, 20)
  {
    Standard(5, 0.90, 20, 5)
  }

  /** `categorical_stopping`: `UnanimousAgreement | (MinSamples & ConfidenceReached) | MaxQueries`. */
  function Categorical(unanimousAfter: int, minSamples: int, confidence: real, maxQueries: int): (c: Criterion)
    ensures BudgetedBy(c, maxQueries)
  {
    var budget := MaxQueries(maxQueries);
    var c := Or(Or(UnanimousAgreement(unanimousAfter), And(MinSamples(minSamples), ConfidenceReached(confidence))),
                budget);
    assert c.children[1] == budget;
    c
  }

  /** `relaxed_stopping`: built the same way as the standard tree. */
  function Relaxed(minSamples: int, confidence: real, maxQueries: int, maxConsecutiveDeclines: int): (c: Criterion)
    ensures BudgetedBy(c, maxQueries)
  {
    var budget := MaxQueries(maxQueries);
    var c := Or(Or(And(MinSamples(minSamples), ConfidenceReached(confidence)), budget),
                ConsecutiveDeclines(maxConsecutiveDeclines));
    assert c.children[0].children[1] == budget;
    assert BudgetedBy(c.children[0], maxQueries);
    c
  }

  /** When the standard tree stops, as one boolean formula over the state. */
  lemma StandardDecision<T>(
    minSamples: int, confidence: real, maxQueries: int, maxConsecutiveDeclines: int,
    state: SampleState<T>, estimator: Estimator<T>)
    ensures ShouldStop(Standard(minSamples, confidence, maxQueries, maxConsecutiveDeclines), state, estimator) <==>
      (|state.samples| >= minSamples && ShouldStop(ConfidenceReached(confidence), state, estimator))
      || state.QueryCount() >= maxQueries
      || state.consecutiveDeclines >= maxConsecutiveDeclines
  {
    var inner := And(MinSamples(minSamples), ConfidenceReached(confidence));
    AndStopsIffBoth(MinSamples(minSamples), ConfidenceReached(confidence), state, estimator);
    OrStopsIffEither(inner, MaxQueries(maxQueries), state, estimator);
    OrStopsIffEither(Or(inner, MaxQueries(maxQueries)), ConsecutiveDeclines(maxConsecutiveDeclines), state, estimator);
  }

  /** The standard tree stops on the query budget or on a run of declines, whatever the answers. */
  lemma StandardStopsOnBudgetOrDeclines<T>(
    minSamples: int, confidence: real, maxQueries: int, maxConsecutiveDeclines: int,
    state: SampleState<T>, estimator: Estimator<T>)
    requires state.QueryCount() >= maxQueries || state.consecutiveDeclines >= maxConsecutiveDeclines
    ensures ShouldStop(Standard(minSamples, confidence, maxQueries, maxConsecutiveDeclines), state, estimator)
  {
    StandardDecision(minSamples, confidence, maxQueries, maxConsecutiveDeclines, state, estimator);
  }

  /** Below the budget and the decline limit, the standard tree stops only on enough samples and confidence. */
  lemma StandardConfidenceBranch<T>(
    minSamples: int, confidence: real, maxQueries: int, maxConsecutiveDeclines: int,
    state: SampleState<T>, estimator: Estimator<T>)
    requires state.QueryCount() < maxQueries && state.consecutiveDeclines < maxConsecutiveDeclines
    requires ShouldStop(Standard(minSamples, confidence, maxQueries, maxConsecutiveDeclines), state, estimator)
    ensures |state.samples| >= minSamples && |state.samples| >= 2
    ensures estimator.confidence(state.samples, estimator.estimate(state.samples)) >= confidence
  {
    StandardDecision(minSamples, confidence, maxQueries, maxConsecutiveDeclines, state, estimator);
  }

  /** When the categorical tree stops, as one boolean formula over the state. */
  lemma CategoricalDecision<T>(
    unanimousAfter: int, minSamples: int, confidence: real, maxQueries: int,
    state: SampleState<T>, estimator: Estimator<T>)
    ensures ShouldStop(Categorical(unanimousAfter, minSamples, confidence, maxQueries), state, estimator) <==>
      ShouldStop(UnanimousAgreement(unanimousAfter), state, estimator)
      || (|state.samples| >= minSamples && ShouldStop(ConfidenceReached(confidence), state, estimator))
      || state.QueryCount() >= maxQueries
  {
    var inner := And(MinSamples(minSamples), ConfidenceReached(confidence));
    AndStopsIffBoth(MinSamples(minSamples), ConfidenceReached(confidence), state, estimator);
    OrStopsIffEither(UnanimousAgreement(unanimousAfter), inner, state, estimator);
    OrStopsIffEither(Or(UnanimousAgreement(unanimousAfter), inner), MaxQueries(maxQueries), state, estimator);
  }

  /** At least `unanimousAfter` identical answers stop the categorical tree. */
  lemma CategoricalStopsOnUnanimity<T>(
    unanimousAfter: int, minSamples: int, confidence: real, maxQueries: int,
    state: SampleState<T>, estimator: Estimator<T>)
    requires |state.samples| > 0 && |state.samples| >= unanimousAfter
    requires forall i :: 0 <= i < |state.samples| ==> state.samples[i] == state.samples[0]
    ensures ShouldStop(Categorical(unanimousAfter, minSamples, confidence, maxQueries), state, estimator)
  {
    UnanimousMeansAllEqual(state.samples);
    CategoricalDecision(unanimousAfter, minSamples, confidence, maxQueries, state, estimator);
  }

  /**
   * The categorical tree has no decline leaf: with no answers yet, however
   * many declines there were, only the query budget stops it.
   */
  lemma CategoricalIgnoresDeclines<T>(
    unanimousAfter: int, minSamples: int, confidence: real, maxQueries: int,
    state: SampleState<T>, estimator: Estimator<T>)
    requires state.samples == []
    ensures ShouldStop(Categorical(unanimousAfter, minSamples, confidence, maxQueries), state, estimator) <==>
      state.QueryCount() >= maxQueries
  {
    UnanimousMeansAllEqual(state.samples);
    CategoricalDecision(unanimousAfter, minSamples, confidence, maxQueries, state, estimator);
  }

  /** The relaxed tree is the standard tree for the same parameters, so it decides the same way. */
  lemma RelaxedIsStandard<T>(
    minSamples: int, confidence: real, maxQueries: int, maxConsecutiveDeclines: int,
    state: SampleState<T>, estimator: Estimator<T>)
    ensures Relaxed(minSamples, confidence, maxQueries, maxConsecutiveDeclines)
         == Standard(minSamples, confidence, maxQueries, maxConsecutiveDeclines)
    ensures ShouldStop(Relaxed(minSamples, confidence, maxQueries, maxConsecutiveDeclines), state, estimator)
         == ShouldStop(Standard(minSamples, confidence, maxQueries, maxConsecutiveDeclines), state, estimator)
  {
  }
}
