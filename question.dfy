/**
 * `Question` and `QuestionBank` of `src/winnow/question.py`.  A question pairs
 * a query with its estimator and its stopping criterion; its parser is folded
 * into the outcomes the sampling loop receives (see `Collect`).  The bank's
 * random choice among the questions still to be asked is an injected number:
 * `SelectNext` takes the choice and every incomplete question is the result of
 * some choice.
 */
module Question {
  import opened Wrappers
  import opened Types
  import Criteria

  datatype Question<!T> = Question(
    uid: string,
    query: string,
    estimator: Estimator<T>,
    stoppingCriterion: Criteria.Criterion)

  /** The bank keeps the caller's questions as given, in order. */
  datatype QuestionBank<!T> = QuestionBank(questions: seq<Question<T>>)

  /** Every question of the bank has a sampling state. */
  predicate Covers<T>(questions: seq<Question<T>>, states: map<string, SampleState<T>>) {
    forall i :: 0 <= i < |questions| ==> questions[i].uid in states
  }

  /** Whether question `i`'s criterion says stop on its current state. */
  predicate Complete<T(==)>(questions: seq<Question<T>>, states: map<string, SampleState<T>>, i: nat)
    requires i < |questions| && questions[i].uid in states
  {
    Criteria.ShouldStop(questions[i].stoppingCriterion, states[questions[i].uid], questions[i].estimator)
  }

  /** The positions from `from` on whose question is not complete, in bank order. */
  function IncompleteFrom<T(==)>(questions: seq<Question<T>>, states: map<string, SampleState<T>>, from: nat): (r: seq<nat>)
    requires Covers(questions, states) && from <= |questions|
    ensures forall k :: 0 <= k < |r| ==> from <= r[k] < |questions| && !Complete(questions, states, r[k])
    ensures forall i :: from <= i < |questions| && !Complete(questions, states, i) ==> i in r
    ensures forall k, l :: 0 <= k < l < |r| ==> r[k] < r[l]
    decreases |questions| - from
  {
    if from == |questions| then []
    else
      var rest := IncompleteFrom(questions, states, from + 1);
      if Complete(questions, states, from) then rest else [from] + rest
  }

  /** The list comprehension `incomplete` of `select_next`, as positions in the bank. */
  function Incomplete<T(==)>(bank: QuestionBank<T>, states: map<string, SampleState<T>>): (r: seq<nat>)
    requires Covers(bank.questions, states)
    ensures forall k :: 0 <= k < |r| ==> r[k] < |bank.questions| && !Complete(bank.questions, states, r[k])
    ensures forall i: nat :: i < |bank.questions| && !Complete(bank.questions, states, i) ==> i in r
    ensures forall k, l :: 0 <= k < l < |r| ==> r[k] < r[l]
  {
    IncompleteFrom(bank.questions, states, 0)
  }

  /**
   * `select_next(states)`: None when every question is complete, otherwise
   * the incomplete question at position `choice % len(incomplete)`, which
   * stands for `random.choice`.
   */
  function SelectNext<T(==)>(bank: QuestionBank<T>, states: map<string, SampleState<T>>, choice: nat): (r: Option<nat>)
    requires Covers(bank.questions, states)
    ensures r.None? <==> forall i :: 0 <= i < |bank.questions| ==> Complete(bank.questions, states, i)
    ensures r.Some? ==> r.value < |bank.questions| && !Complete(bank.questions, states, r.value)
  {
    var incomplete := Incomplete(bank, states);
    if |incomplete| == 0 then None
    else
      assert incomplete[choice % |incomplete|] in incomplete;
      Some(incomplete[choice % |incomplete|])
  }

  /** Every incomplete question can be chosen: the choice is free among them. */
  lemma EveryIncompleteSelectable<T>(bank: QuestionBank<T>, states: map<string, SampleState<T>>, i: nat)
    requires Covers(bank.questions, states) && i < |bank.questions|
    requires !Complete(bank.questions, states, i)
    ensures exists choice: nat :: SelectNext(bank, states, choice) == Some(i)
  {
    var incomplete := Incomplete(bank, states);
    assert i in incomplete;
    var k :| 0 <= k < |incomplete| && incomplete[k] == i;
    ModOfSmaller(k, |incomplete|);
    assert SelectNext(bank, states, k) == Some(i);
  }

  lemma ModOfSmaller(k: nat, n: nat)
    requires k < n
    ensures k % n == k
  {
  }
}
