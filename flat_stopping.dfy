/**
 * The flat `StoppingCriterion` of `src/winnow/stopping.py`: four thresholds
 * tested by ordered early returns.
 */
module FlatStopping {
  import opened Types
  import Criteria
  import Factories

  datatype FlatCriterion = FlatCriterion(
    minSamples: int,
    confidenceThreshold: real,
    maxQueries: int,
    maxConsecutiveDeclines: int)
  {
    /** The dataclass defaults: 5 samples, 0.90 confidence, 20 queries, 5 declines in a row. */
    static function Default(): (c: FlatCriterion)
      ensures c.minSamples >= 2
    {
      FlatCriterion(5, 0.90, 20, 5)
    }

    /**
     * Stop on the query budget, then on a run of declines; otherwise keep
     * going below `minSamples` answers; otherwise stop iff the estimator's
     * confidence in its own estimate reaches the threshold.
     */
    function ShouldStop<T>(state: SampleState<T>, estimator: Estimator<T>): (stop: bool)
      ensures state.QueryCount() >= maxQueries ==> stop
      ensures state.consecutiveDeclines >= maxConsecutiveDeclines ==> stop
      ensures (state.QueryCount() < maxQueries && state.consecutiveDeclines < maxConsecutiveDeclines
               && |state.samples| < minSamples) ==> !stop
      ensures (state.QueryCount() < maxQueries && state.consecutiveDeclines < maxConsecutiveDeclines
               && |state.samples| >= minSamples) ==>
               (stop <==> estimator.confidence(state.samples, estimator.estimate(state.samples)) >= confidenceThreshold)
    {
      var totalQueries := |state.samples| + state.declineCount + state.parseFailureCount;
      if totalQueries >= maxQueries then true
      else if state.consecutiveDeclines >= maxConsecutiveDeclines then true
      else if |state.samples| < minSamples then false
      else
        var estimate := estimator.estimate(state.samples);
        var confidence := estimator.confidence(state.samples, estimate);
        confidence >= confidenceThreshold
    }

    /** The same thresholds as a tree: `MaxQueries | ConsecutiveDeclines | (MinSamples & ConfidenceReached)`. */
    function AsTree(): (c: Criteria.Criterion)
      ensures Criteria.BudgetedBy(c, maxQueries)
    {
      var c := Criteria.Any([
        Criteria.MaxQueries(maxQueries),
        Criteria.ConsecutiveDeclines(maxConsecutiveDeclines),
        Criteria.And(Criteria.MinSamples(minSamples), Criteria.ConfidenceReached(confidenceThreshold))]);
      assert c.children[0] == Criteria.MaxQueries(maxQueries);
      c
    }
  }

  /**
   * With at least two required samples the early returns decide exactly as
   * the tree does; below two the tree's confidence test refuses to stop
   * where the flat test may.
   */
  lemma FlatIsTree<T>(f: FlatCriterion, state: SampleState<T>, estimator: Estimator<T>)
    requires f.minSamples >= 2
    ensures f.ShouldStop(state, estimator) == Criteria.ShouldStop(f.AsTree(), state, estimator)
  {
    var ch := f.AsTree().children;
    var inner := Criteria.And(Criteria.MinSamples(f.minSamples), Criteria.ConfidenceReached(f.confidenceThreshold));
    assert ch == [Criteria.MaxQueries(f.maxQueries), Criteria.ConsecutiveDeclines(f.maxConsecutiveDeclines), inner];
    assert Criteria.ShouldStop(f.AsTree(), state, estimator) <==>
      Criteria.ShouldStop(ch[0], state, estimator) || Criteria.ShouldStop(ch[1], state, estimator) ||
      Criteria.ShouldStop(ch[2], state, estimator);
    Criteria.AndStopsIffBoth(Criteria.MinSamples(f.minSamples), Criteria.ConfidenceReached(f.confidenceThreshold), state, estimator);
  }

  /** ... and exactly as the standard preset with the same four parameters. */
  lemma FlatIsStandard<T>(f: FlatCriterion, state: SampleState<T>, estimator: Estimator<T>)
    requires f.minSamples >= 2
    ensures f.ShouldStop(state, estimator) ==
      Criteria.ShouldStop(
        Factories.Standard(f.minSamples, f.confidenceThreshold, f.maxQueries, f.maxConsecutiveDeclines),
        state, estimator)
  {
    FlatIsTree(f, state, estimator);
    Factories.StandardDecision(f.minSamples, f.confidenceThreshold, f.maxQueries, f.maxConsecutiveDeclines, state, estimator);
  }

  /**
   * With one required sample the two disagree: one answer, in which the
   * estimator is confident enough, stops only the flat test.
   */
  lemma FlatDiffersBelowTwo<T>(state: SampleState<T>, estimator: Estimator<T>)
    requires |state.samples| == 1 && state.QueryCount() == 1 && state.consecutiveDeclines == 0
    requires estimator.confidence(state.samples, estimator.estimate(state.samples)) >= 0.5
    ensures FlatCriterion(1, 0.5, 20, 5).ShouldStop(state, estimator)
    ensures !Criteria.ShouldStop(FlatCriterion(1, 0.5, 20, 5).AsTree(), state, estimator)
  {
    var f := FlatCriterion(1, 0.5, 20, 5);
    var ch := f.AsTree().children;
    var inner := Criteria.And(Criteria.MinSamples(1), Criteria.ConfidenceReached(0.5));
    assert ch == [Criteria.MaxQueries(20), Criteria.ConsecutiveDeclines(5), inner];
    Criteria.AndStopsIffBoth(Criteria.MinSamples(1), Criteria.ConfidenceReached(0.5), state, estimator);
  }
}
