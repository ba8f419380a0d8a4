/**
 * The sampling loop of `src/winnow/collect.py`.  The language model and the
 * question's parser together are an outcome stream: the `k`-th query of the
 * whole run ends in `oracle[k]`, a parsed answer, a decline or a parse
 * failure.  A run that needs more queries than the stream holds ends in
 * `OracleExhausted`, which stands for an error raised by the query function.
 * `random.choice` in `select_next` is the injected `choices(turn)`.
 */
module Collect {
  import opened Wrappers
  import opened Types
  import opened Question
  import Criteria

  /** The final per-question result: the current estimate and its confidence. */
  datatype Collected<T> = Collected(value: T, confidence: real)

  datatype CollectError = EstimationFailed(questionUid: string) | OracleExhausted

  /** `_state_for_samples`: the given samples, no counters, no estimate. */
  function StateForSamples<T>(samples: seq<T>): (s: SampleState<T>)
    ensures s.samples == samples && s.QueryCount() == |samples|
    ensures s.consecutiveDeclines == 0 && s.currentEstimate == None && s.currentConfidence == 0.0
  {
    SampleState(samples, 0, 0, 0, None, 0.0)
  }

  /** The uids of the bank's questions. */
  function Uids<T>(questions: seq<Question<T>>): set<string> {
    set i | 0 <= i < |questions| :: questions[i].uid
  }

  /** The dictionary `collect` starts from: every uid with an empty state. */
  function InitialStates<T>(bank: QuestionBank<T>): (states: map<string, SampleState<T>>)
    ensures Covers(bank.questions, states) && states.Keys == Uids(bank.questions)
    ensures forall u :: u in states ==>
      states[u].samples == [] && states[u].QueryCount() == 0 && states[u].consecutiveDeclines == 0 &&
      states[u].currentEstimate == None && states[u].currentConfidence == 0.0
  {
    map u | u in Uids(bank.questions) :: StateForSamples([])
  }

  /** Declines in a row never outnumber declines in all. */
  predicate Consistent<T(==)>(s: SampleState<T>) {
    s.consecutiveDeclines <= s.declineCount
  }

  /** `later` follows `earlier`: the samples extend, no counter shrinks. */
  predicate Extends<T(==)>(earlier: SampleState<T>, later: SampleState<T>) {
    earlier.samples <= later.samples &&
    earlier.declineCount <= later.declineCount &&
    earlier.parseFailureCount <= later.parseFailureCount
  }

  /** `_record_sample`: one more answer, the streak of declines broken, the new estimate stored. */
  function RecordSample<T(==)>(state: SampleState<T>, value: T, estimate: Option<T>, confidence: real): (r: SampleState<T>)
    ensures r.samples == state.samples + [value]
    ensures r.declineCount == state.declineCount && r.parseFailureCount == state.parseFailureCount
    ensures r.consecutiveDeclines == 0
    ensures r.currentEstimate == estimate && r.currentConfidence == confidence
    ensures r.QueryCount() == state.QueryCount() + 1
    ensures Extends(state, r) && Consistent(r)
  {
    state.(samples := state.samples + [value], consecutiveDeclines := 0,
           currentEstimate := estimate, currentConfidence := confidence)
  }

  /** `_record_decline`: one more decline, in all and in a row; nothing else changes. */
  function RecordDecline<T(==)>(state: SampleState<T>): (r: SampleState<T>)
    ensures r.declineCount == state.declineCount + 1
    ensures r.consecutiveDeclines == state.consecutiveDeclines + 1
    ensures r.samples == state.samples && r.parseFailureCount == state.parseFailureCount
    ensures r.currentEstimate == state.currentEstimate && r.currentConfidence == state.currentConfidence
    ensures r.QueryCount() == state.QueryCount() + 1
    ensures Extends(state, r) && (Consistent(state) ==> Consistent(r))
  {
    state.(declineCount := state.declineCount + 1, consecutiveDeclines := state.consecutiveDeclines + 1)
  }

  /** `_record_parse_failure`: one more failure, the streak of declines broken. */
  function RecordParseFailure<T(==)>(state: SampleState<T>): (r: SampleState<T>)
    ensures r.parseFailureCount == state.parseFailureCount + 1
    ensures r.consecutiveDeclines == 0
    ensures r.samples == state.samples && r.declineCount == state.declineCount
    ensures r.currentEstimate == state.currentEstimate && r.currentConfidence == state.currentConfidence
    ensures r.QueryCount() == state.QueryCount() + 1
    ensures Extends(state, r) && Consistent(r)
  {
    state.(parseFailureCount := state.parseFailureCount + 1, consecutiveDeclines := 0)
  }

  /**
   * The stored estimate is the estimator's estimate of the samples, and the
   * stored confidence its confidence in it; with no samples, none is stored.
   */
  predicate Current<T(==)>(q: Question<T>, s: SampleState<T>) {
    if s.samples == [] then s.currentEstimate == None && s.currentConfidence == 0.0
    else
      s.currentEstimate == q.estimator.estimate(s.samples) &&
      s.currentConfidence == q.estimator.confidence(s.samples, s.currentEstimate)
  }

  /** One query of question `q`, ending in `outcome` (the body of the `try`). */
  function Step<T(==)>(q: Question<T>, state: SampleState<T>, outcome: Outcome<T>): (r: SampleState<T>)
    ensures r.QueryCount() == state.QueryCount() + 1
    ensures Extends(state, r) && (Consistent(state) ==> Consistent(r))
    ensures outcome.Answer? ==> r.samples == state.samples + [outcome.value] && Current(q, r)
    ensures !outcome.Answer? ==> r.samples == state.samples
    ensures (Current(q, state) ==> Current(q, r))
    ensures r.declineCount == state.declineCount + (if outcome.Declined? then 1 else 0)
    ensures outcome.Declined? <==> r.consecutiveDeclines > 0
  {
    match outcome
    case Answer(v) =>
      var temp := StateForSamples(state.samples + [v]);
      var estimate := q.estimator.estimate(temp.samples);
      var confidence := q.estimator.confidence(temp.samples, estimate);
      RecordSample(state, v, estimate, confidence)
    case Declined => RecordDecline(state)
    case ParseFailed => RecordParseFailure(state)
  }

  /** One turn of the loop: question `i` is asked and only its state is replaced. */
  function Turn<T(==)>(bank: QuestionBank<T>, states: map<string, SampleState<T>>, i: nat, outcome: Outcome<T>)
    : (r: map<string, SampleState<T>>)
    requires Covers(bank.questions, states) && i < |bank.questions|
    ensures r.Keys == states.Keys && Covers(bank.questions, r)
    ensures var u := bank.questions[i].uid;
      r[u].QueryCount() == states[u].QueryCount() + 1 && Extends(states[u], r[u])
    ensures r[bank.questions[i].uid] == Step(bank.questions[i], states[bank.questions[i].uid], outcome)
    ensures forall u :: u in states && u != bank.questions[i].uid ==> r[u] == states[u]
  {
    var q := bank.questions[i];
    states[q.uid := Step(q, states[q.uid], outcome)]
  }

  /**
   * The loop from turn `turn` on: select a question; stop when none is left;
   * otherwise query it and go on.  The final states, or `OracleExhausted`.
   */
  function Run<T(==)>(bank: QuestionBank<T>, states: map<string, SampleState<T>>,
                      oracle: seq<Outcome<T>>, choices: nat -> nat, turn: nat)
    : (r: Result<map<string, SampleState<T>>, CollectError>)
    requires Covers(bank.questions, states) && turn <= |oracle|
    ensures r.Success? ==> r.value.Keys == states.Keys && Covers(bank.questions, r.value)
    ensures r.Success? ==> forall i :: 0 <= i < |bank.questions| ==> Complete(bank.questions, r.value, i)
    ensures r.Failure? ==> r.error == OracleExhausted
    decreases |oracle| - turn
  {
    match SelectNext(bank, states, choices(turn))
    case None => Success(states)
    case Some(i) =>
      if turn == |oracle| then Failure(OracleExhausted)
      else Run(bank, Turn(bank, states, i, oracle[turn]), oracle, choices, turn + 1)
  }

  /** A question with at least one sample and an estimate. */
  predicate Ready<T>(s: SampleState<T>) {
    |s.samples| > 0 && s.currentEstimate.Some?
  }

  /** The uids of the questions from position `i` on. */
  function UidsFrom<T>(questions: seq<Question<T>>, i: nat): set<string> {
    set k | i <= k < |questions| :: questions[k].uid
  }

  lemma UidsFromStep<T>(questions: seq<Question<T>>, i: nat)
    requires i < |questions|
    ensures UidsFrom(questions, i) == {questions[i].uid} + UidsFrom(questions, i + 1)
  {
  }

  /**
   * `_build_estimates` from position `i` on, `acc` holding the entries so far:
   * the first question that is not ready fails the whole call.
   */
  function EstimatesFrom<T>(questions: seq<Question<T>>, states: map<string, SampleState<T>>, i: nat,
                            acc: map<string, Collected<T>>)
    : (r: Result<map<string, Collected<T>>, CollectError>)
    requires Covers(questions, states) && i <= |questions|
    ensures r.Success? <==> forall k :: i <= k < |questions| ==> Ready(states[questions[k].uid])
    ensures r.Success? ==> r.value.Keys == acc.Keys + UidsFrom(questions, i)
    ensures r.Success? ==> forall u :: u in acc && u !in UidsFrom(questions, i) ==>
      r.value[u] == acc[u]
    ensures r.Success? ==> forall k :: i <= k < |questions| ==>
      r.value[questions[k].uid] ==
        Collected(states[questions[k].uid].currentEstimate.value, states[questions[k].uid].currentConfidence)
    ensures r.Failure? ==>
      exists k :: i <= k < |questions| && !Ready(states[questions[k].uid]) &&
        r.error == EstimationFailed(questions[k].uid) &&
        forall l :: i <= l < k ==> Ready(states[questions[l].uid])
    decreases |questions| - i
  {
    if i == |questions| then Success(acc)
    else
      var u := questions[i].uid;
      var state := states[u];
      if |state.samples| == 0 || state.currentEstimate.None? then Failure(EstimationFailed(u))
      else
        var r := EstimatesFrom(questions, states, i + 1, acc[u := Collected(state.currentEstimate.value, state.currentConfidence)]);
        UidsFromStep(questions, i);
        assert r.Success? ==> r.value[u] == Collected(state.currentEstimate.value, state.currentConfidence) by {
          if r.Success? && u in UidsFrom(questions, i + 1) {
            var k :| i + 1 <= k < |questions| && questions[k].uid == u;
          }
        }
        r
  }

  /**
   * What `_build_estimates` returns: the estimate and confidence of every
   * question, keyed by uid, or `EstimationFailedError` for the first question
   * without samples or without an estimate.
   */
  function Estimates<T>(questions: seq<Question<T>>, states: map<string, SampleState<T>>)
    : (r: Result<map<string, Collected<T>>, CollectError>)
    requires Covers(questions, states)
    ensures r.Success? <==> forall k :: 0 <= k < |questions| ==> Ready(states[questions[k].uid])
    ensures r.Success? ==> r.value.Keys == Uids(questions)
    ensures r.Success? ==> forall k :: 0 <= k < |questions| ==>
      r.value[questions[k].uid] ==
        Collected(states[questions[k].uid].currentEstimate.value, states[questions[k].uid].currentConfidence)
    ensures r.Failure? ==>
      exists k :: 0 <= k < |questions| && !Ready(states[questions[k].uid]) &&
        r.error == EstimationFailed(questions[k].uid) &&
        forall l :: 0 <= l < k ==> Ready(states[questions[l].uid])
  {
    EstimatesFrom(questions, states, 0, map[])
  }

  /** `_build_estimates`: the loop over the questions filling the dictionary. */
  method BuildEstimates<T>(questions: seq<Question<T>>, states: map<string, SampleState<T>>)
    returns (r: Result<map<string, Collected<T>>, CollectError>)
    requires Covers(questions, states)
    ensures r == Estimates(questions, states)
  {
    var estimates: map<string, Collected<T>> := map[];
    var i := 0;
    while i < |questions|
      invariant 0 <= i <= |questions|
      invariant EstimatesFrom(questions, states, i, estimates) == Estimates(questions, states)
    {
      var u := questions[i].uid;
      var state := states[u];
      if |state.samples| == 0 || state.currentEstimate.None? {
        return Failure(EstimationFailed(u));
      }
      estimates := estimates[u := Collected(state.currentEstimate.value, state.currentConfidence)];
      i := i + 1;
    }
    r := Success(estimates);
  }

  /** The result of `collect`: run the loop from the initial states, then build the estimates. */
  function CollectResult<T(==)>(bank: QuestionBank<T>, oracle: seq<Outcome<T>>, choices: nat -> nat)
    : Result<map<string, Collected<T>>, CollectError>
  {
    match Run(bank, InitialStates(bank), oracle, choices, 0)
    case Failure(e) => Failure(e)
    case Success(final) => Estimates(bank.questions, final)
  }

  /** `collect`: the `while True` loop replacing one state per turn, then `_build_estimates`. */
  method CollectAll<T(==)>(bank: QuestionBank<T>, oracle: seq<Outcome<T>>, choices: nat -> nat)
    returns (r: Result<map<string, Collected<T>>, CollectError>)
    ensures r == CollectResult(bank, oracle, choices)
  {
    var states := InitialStates(bank);
    var turn := 0;
    while true
      invariant Covers(bank.questions, states) && turn <= |oracle|
      invariant Run(bank, states, oracle, choices, turn) == Run(bank, InitialStates(bank), oracle, choices, 0)
      decreases |oracle| - turn
    {
      var next := SelectNext(bank, states, choices(turn));
      if next.None? {
        break;
      }
      if turn == |oracle| {
        return Failure(OracleExhausted);
      }
      var q := bank.questions[next.value];
      states := states[q.uid := Step(q, states[q.uid], oracle[turn])];
      turn := turn + 1;
    }
    r := BuildEstimates(bank.questions, states);
  }

  /** No two questions of the bank share a uid. */
  predicate DistinctUids<T>(questions: seq<Question<T>>) {
    forall i, j :: 0 <= i < j < |questions| ==> questions[i].uid != questions[j].uid
  }

  predicate AllConsistent<T(==)>(states: map<string, SampleState<T>>) {
    forall u :: u in states ==> Consistent(states[u])
  }

  predicate AllCurrent<T(==)>(questions: seq<Question<T>>, states: map<string, SampleState<T>>)
    requires Covers(questions, states)
  {
    forall i :: 0 <= i < |questions| ==> Current(questions[i], states[questions[i].uid])
  }

  /** Every state of `later` follows the state of `earlier` under the same uid. */
  predicate AllExtend<T(==)>(earlier: map<string, SampleState<T>>, later: map<string, SampleState<T>>) {
    earlier.Keys == later.Keys && forall u :: u in earlier ==> Extends(earlier[u], later[u])
  }

  /**
   * The invariants of the loop: declines in a row never exceed declines, the
   * stored estimate is always the estimator's view of the samples so far, and
   * no sample is lost and no counter goes down from one turn to any later one.
   */
  lemma {:induction false} RunInvariants<T>(bank: QuestionBank<T>, states: map<string, SampleState<T>>,
                                                oracle: seq<Outcome<T>>, choices: nat -> nat, turn: nat)
    requires Covers(bank.questions, states) && turn <= |oracle| && DistinctUids(bank.questions)
    requires AllConsistent(states) && AllCurrent(bank.questions, states)
    ensures var r := Run(bank, states, oracle, choices, turn);
      r.Success? ==> AllConsistent(r.value) && AllCurrent(bank.questions, r.value) && AllExtend(states, r.value)
    decreases |oracle| - turn
  {
    match SelectNext(bank, states, choices(turn))
    case None =>
    case Some(i) =>
      if turn < |oracle| {
        var next := Turn(bank, states, i, oracle[turn]);
        TurnKeepsCurrent(bank, states, i, oracle[turn]);
        RunInvariants(bank, next, oracle, choices, turn + 1);
        var r := Run(bank, next, oracle, choices, turn + 1);
        if r.Success? {
          forall u | u in states ensures Extends(states[u], r.value[u]) {
            assert Extends(states[u], next[u]) && Extends(next[u], r.value[u]);
            assert states[u].samples <= next[u].samples <= r.value[u].samples;
          }
        }
      }
  }

  /** A turn keeps every stored estimate current, since it touches one uid and uids are distinct. */
  lemma TurnKeepsCurrent<T>(bank: QuestionBank<T>, states: map<string, SampleState<T>>, i: nat, outcome: Outcome<T>)
    requires Covers(bank.questions, states) && i < |bank.questions| && DistinctUids(bank.questions)
    requires AllCurrent(bank.questions, states)
    ensures AllCurrent(bank.questions, Turn(bank, states, i, outcome))
  {
    var qs := bank.questions;
    var next := Turn(bank, states, i, outcome);
    forall j | 0 <= j < |qs| ensures Current(qs[j], next[qs[j].uid]) {
      if j != i {
        assert qs[j].uid != qs[i].uid;
      }
    }
  }

  /** Queries still allowed to a state by a budget of `n`. */
  function Left<T>(s: SampleState<T>, n: nat): nat {
    if s.QueryCount() >= n then 0 else n - s.QueryCount()
  }

  /** Queries still allowed to all the questions together. */
  function Remaining<T>(questions: seq<Question<T>>, states: map<string, SampleState<T>>, n: nat): nat
    requires Covers(questions, states)
  {
    if |questions| == 0 then 0 else Left(states[questions[0].uid], n) + Remaining(questions[1..], states, n)
  }

  /** Replacing the state of one uid changes the total by the change of that state alone. */
  lemma {:induction false} RemainingUpdate<T>(questions: seq<Question<T>>, states: map<string, SampleState<T>>,
                                              u: string, s: SampleState<T>, n: nat)
    requires Covers(questions, states) && DistinctUids(questions) && u in states
    ensures u in Uids(questions) ==>
      Remaining(questions, states[u := s], n) == Remaining(questions, states, n) - Left(states[u], n) + Left(s, n)
    ensures u !in Uids(questions) ==> Remaining(questions, states[u := s], n) == Remaining(questions, states, n)
  {
    if |questions| > 0 {
      var tail := questions[1..];
      RemainingUpdate(tail, states, u, s, n);
      assert Uids(questions) == {questions[0].uid} + Uids(tail) by {
        forall v | v in Uids(questions) ensures v in {questions[0].uid} + Uids(tail) {
          var k :| 0 <= k < |questions| && questions[k].uid == v;
          if k > 0 { assert tail[k - 1].uid == v; }
        }
      }
      if questions[0].uid == u {
        forall k | 0 <= k < |tail| ensures tail[k].uid != u {
          assert questions[k + 1].uid != questions[0].uid;
        }
      }
    }
  }

  /** Each question starts with its whole budget. */
  lemma {:induction false} RemainingFull<T>(questions: seq<Question<T>>, states: map<string, SampleState<T>>, n: nat)
    requires Covers(questions, states)
    requires forall i :: 0 <= i < |questions| ==> states[questions[i].uid].QueryCount() == 0
    ensures Remaining(questions, states, n) == |questions| * n
  {
    if |questions| > 0 {
      RemainingFull(questions[1..], states, n);
      assert |questions| * n == n + (|questions| - 1) * n;
    }
  }

  /**
   * When every criterion is budgeted by `MaxQueries(n)` under `Any`, the loop
   * ends as long as the outcome stream holds the queries still allowed, and no
   * question has been asked more than `n` times when it ends.
   */
  lemma {:induction false} RunWithinBudget<T>(bank: QuestionBank<T>, states: map<string, SampleState<T>>,
                                                  oracle: seq<Outcome<T>>, choices: nat -> nat, turn: nat, n: nat)
    requires Covers(bank.questions, states) && turn <= |oracle| && DistinctUids(bank.questions)
    requires forall i :: 0 <= i < |bank.questions| ==> Criteria.BudgetedBy(bank.questions[i].stoppingCriterion, n)
    requires forall i :: 0 <= i < |bank.questions| ==> states[bank.questions[i].uid].QueryCount() <= n
    requires |oracle| - turn >= Remaining(bank.questions, states, n)
    ensures Run(bank, states, oracle, choices, turn).Success?
    ensures var r := Run(bank, states, oracle, choices, turn);
      forall i :: 0 <= i < |bank.questions| ==> r.value[bank.questions[i].uid].QueryCount() <= n
    decreases |oracle| - turn
  {
    match SelectNext(bank, states, choices(turn))
    case None =>
    case Some(i) =>
      BudgetTurn(bank, states, oracle, choices, turn, n, i);
      RunWithinBudget(bank, Turn(bank, states, i, oracle[turn]), oracle, choices, turn + 1, n);
  }

  /** One turn of the loop under a budget: an outcome is left, and the budget still covers what remains. */
  lemma BudgetTurn<T>(bank: QuestionBank<T>, states: map<string, SampleState<T>>,
                      oracle: seq<Outcome<T>>, choices: nat -> nat, turn: nat, n: nat, i: nat)
    requires Covers(bank.questions, states) && turn <= |oracle| && DistinctUids(bank.questions)
    requires forall i :: 0 <= i < |bank.questions| ==> Criteria.BudgetedBy(bank.questions[i].stoppingCriterion, n)
    requires forall i :: 0 <= i < |bank.questions| ==> states[bank.questions[i].uid].QueryCount() <= n
    requires |oracle| - turn >= Remaining(bank.questions, states, n)
    requires SelectNext(bank, states, choices(turn)) == Some(i)
    ensures turn < |oracle| && i < |bank.questions|
    ensures var next := Turn(bank, states, i, oracle[turn]);
      Covers(bank.questions, next) &&
      (forall j :: 0 <= j < |bank.questions| ==> next[bank.questions[j].uid].QueryCount() <= n) &&
      |oracle| - (turn + 1) >= Remaining(bank.questions, next, n)
  {
    var qs := bank.questions;
    var u := qs[i].uid;
    if states[u].QueryCount() >= n {
      Criteria.BudgetForcesStop(qs[i].stoppingCriterion, n, states[u], qs[i].estimator);
    }
    assert u in Uids(qs);
    var s := Step(qs[i], states[u], if turn < |oracle| then oracle[turn] else Declined);
    RemainingUpdate(qs, states, u, s, n);
    assert Left(states[u], n) == Left(s, n) + 1;
    var next := Turn(bank, states, i, oracle[turn]);
    assert next == states[u := s];
  }

  /**
   * From the start: with every criterion budgeted by `n` and uids distinct,
   * `collect` never runs out of outcomes when it has `n` per question, every
   * question then stops after at most `n` queries, and the stored estimates
   * are consistent with the samples.
   */
  lemma CollectWithinBudget<T>(bank: QuestionBank<T>, oracle: seq<Outcome<T>>, choices: nat -> nat, n: nat)
    requires DistinctUids(bank.questions)
    requires forall i :: 0 <= i < |bank.questions| ==> Criteria.BudgetedBy(bank.questions[i].stoppingCriterion, n)
    requires |oracle| >= |bank.questions| * n
    ensures var r := Run(bank, InitialStates(bank), oracle, choices, 0);
      r.Success? &&
      forall i :: 0 <= i < |bank.questions| ==>
        r.value[bank.questions[i].uid].QueryCount() <= n &&
        Complete(bank.questions, r.value, i)
  {
    var states := InitialStates(bank);
    RemainingFull(bank.questions, states, n);
    RunWithinBudget(bank, states, oracle, choices, 0, n);
  }

  /** The entry `e` reports what question `q`'s estimator makes of the answers in `s`. */
  predicate Reports<T(==)>(q: Question<T>, s: SampleState<T>, e: Collected<T>) {
    s.samples != [] && Consistent(s) &&
    q.estimator.estimate(s.samples) == Some(e.value) &&
    q.estimator.confidence(s.samples, Some(e.value)) == e.confidence
  }

  /**
   * What `collect` returns, when it returns: for every question, the value and
   * confidence its estimator gives on all the answers collected for it, which
   * are at least one.
   */
  lemma CollectReportsEstimates<T>(bank: QuestionBank<T>, oracle: seq<Outcome<T>>, choices: nat -> nat)
    requires DistinctUids(bank.questions) && CollectResult(bank, oracle, choices).Success?
    ensures Run(bank, InitialStates(bank), oracle, choices, 0).Success?
    ensures forall i :: 0 <= i < |bank.questions| ==>
      Reports(bank.questions[i], Run(bank, InitialStates(bank), oracle, choices, 0).value[bank.questions[i].uid],
              CollectResult(bank, oracle, choices).value[bank.questions[i].uid])
  {
    var qs := bank.questions;
    var states := InitialStates(bank);
    assert AllCurrent(qs, states);
    RunInvariants(bank, states, oracle, choices, 0);
    var final := Run(bank, states, oracle, choices, 0).value;
    var r := Estimates(qs, final);
    forall i | 0 <= i < |qs| ensures Reports(qs[i], final[qs[i].uid], r.value[qs[i].uid]) {
      assert Ready(final[qs[i].uid]) && Current(qs[i], final[qs[i].uid]);
    }
  }

  /** No answer was collected in `s`, or `q`'s estimator makes no estimate of them. */
  predicate Unanswerable<T>(q: Question<T>, s: SampleState<T>) {
    s.samples == [] || q.estimator.estimate(s.samples).None?
  }

  /**
   * `EstimationFailedError` names a question that, when every question had
   * stopped, had no answer or whose estimator gave no estimate.
   */
  lemma CollectFailureExplained<T>(bank: QuestionBank<T>, oracle: seq<Outcome<T>>, choices: nat -> nat)
    requires DistinctUids(bank.questions)
    requires CollectResult(bank, oracle, choices).Failure?
    requires CollectResult(bank, oracle, choices).error.EstimationFailed?
    ensures Run(bank, InitialStates(bank), oracle, choices, 0).Success?
    ensures var final := Run(bank, InitialStates(bank), oracle, choices, 0).value;
      exists i :: 0 <= i < |bank.questions| && Unanswerable(bank.questions[i], final[bank.questions[i].uid]) &&
        bank.questions[i].uid == CollectResult(bank, oracle, choices).error.questionUid
  {
    var qs := bank.questions;
    var states := InitialStates(bank);
    assert AllCurrent(qs, states);
    RunInvariants(bank, states, oracle, choices, 0);
    var run := Run(bank, states, oracle, choices, 0);
    assert run.Success?;
    var final := run.value;
    var r := Estimates(qs, final);
    assert r == CollectResult(bank, oracle, choices);
    var k :| 0 <= k < |qs| && !Ready(final[qs[k].uid]) && r.error == EstimationFailed(qs[k].uid);
    assert Current(qs[k], final[qs[k].uid]);
    assert Unanswerable(qs[k], final[qs[k].uid]);
  }
}
