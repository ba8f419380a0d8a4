# winnow, modelled in Dafny

winnow estimates answers by asking a language model the same questions many
times. Each question has three parts:

- a **parser**, which turns a raw response into a value, a decline or a parse
  failure;
- a **consensus estimator**, which gives a point estimate of the samples and a
  confidence in it;
- a **stopping criterion**, which says when the question has been asked enough.

The `collect` loop keeps one immutable **sample state** per question. On each
turn it picks a question that has not stopped, at random. It then replaces
that question's state with the record of the new answer, decline or parse
failure. When every question has stopped, it reports each question's last
estimate and confidence.

The model covers that engine, with one module per source file:

- **`Types`**: the sample state with its query count, and the archetype
  enumeration. An estimator is a pair of functions of the sample sequence.
  A query ends in one of three outcomes: `Answer(v)`, `Declined` or
  `ParseFailed`.
- **`Stats` and `Util`**: median and MAD over exact reals. `Util` is proved to
  equal `Stats` on every input.
- **The four estimators**: boolean, categorical, numerical and
  optional-integer.
- **`Criteria`, `Factories` and `FlatStopping`**: the stopping-criterion tree,
  its three preset trees, and the flat criterion with early returns.
- **`Question`**: the question bank and `select_next`.
- **`Collect`**: the record functions, one turn, the whole run as a function,
  and the `collect` and `_build_estimates` loops as methods proved equal to it.
- **The parsers**: the decline check of the parser base class; the boolean,
  literal and optional-bounded-integer parsers; and `parse_string`,
  `parse_boolean`, `StringListParser` and `StringChoiceParser`.
  `LiteralParser` and `StringChoiceParser` are classes whose constructors
  build their lookup tables in loops. Their keyword arguments keep Python's
  defaults: the literal parser ignores case, and the choice parser splits on
  `","`, rejects an empty list and respects case.

## How the model reads the code

- **Responses as outcomes.** The language model and each question's parser together become a sequence of
  outcomes, `oracle`.
  - Running out of outcomes (`OracleExhausted`) stands for the query function
    raising, which ends `collect` with that error.
  - `random.choice` is an injected function `choices` from turn numbers to
    naturals. `Question.EveryIncompleteSelectable` shows that every incomplete
    question is the result of some choice.
- **Six state fields.** `SampleState` declares four fields in
  `src/winnow/types.py:19-31`. `collect` builds and reads two more,
  `current_estimate` and `current_confidence`. The model has all six.
- **Two fields of `Estimate`.** `Estimate` declares six fields, and `collect`
  passes two of them: value and confidence (`src/winnow/collect.py:154-157`).
  The other four (`archetype`, `sample_count`, `decline_count`, `samples`,
  `src/winnow/types.py:34-44`) have no defaults, so as written that
  constructor call raises TypeError. The model's `Collected` record has the
  two fields `collect` passes.
- **The flat criterion cannot be imported.** `src/winnow/stopping.py` shares
  its name with the package directory `src/winnow/stopping/`, which has an
  `__init__.py`. Python's import system picks the package, so nothing can
  import the flat module, and no other code uses it. `FlatStopping` models
  that module as written. `FlatStopping.FlatIsStandard` compares the tree
  with this unreachable code, to show where the two would differ.
- **Lists, not dicts.** `collect` calls `.values()` on `bank.questions`
  (`src/winnow/collect.py:40`), which is a list. As written, that call raises
  AttributeError before any sampling. The model iterates over the list, in
  order.
- **States built with their six fields.** `_state_for_samples`
  (`src/winnow/collect.py:78-87`) and the initial states pass
  `current_estimate` and `current_confidence`, which `SampleState` does not
  declare, so as written the constructor raises TypeError. The model's state
  has all six fields (see above).
- **Stopping defaults passed explicitly.** The defaults of
  `categorical_stopping` and `relaxed_stopping`
  (`src/winnow/stopping/factories.py:37-40,58-61`) read
  `default_config.categorical_*` and `default_config.relaxed_*`.
  `WinnowConfig` (`src/winnow/config.py:6-25`) has only the `standard_*`
  fields, so importing the module raises AttributeError, and so does
  importing `winnow.stopping` (`src/winnow/stopping/__init__.py:6-8`). The
  model's `Factories.Categorical` and `Factories.Relaxed` take every
  parameter explicitly and have no defaults.
- **The parser base class.** `src/winnow/parsers.py:3` imports `Parser` from
  `types.py`, which defines no `Parser`, so as written importing the module
  raises ImportError. The model reads that name as the parser base class of
  `src/winnow/parser/base.py:11` taken as a base class that adds nothing to
  these four parsers: no decline check and no abstract `parse`. That is how
  `tests/test_parsers.py` uses them. `parse_string` and `parse_boolean` are
  plain functions, and both list parsers define their own `__call__`
  (`src/winnow/parsers.py:42,84`), so none of the four checks for decline
  keywords. With `parser/base.py`'s `Parser` as the base, `parse` would stay
  abstract in both list classes and constructing them would raise TypeError.
- **The parser package imports.** `src/winnow/parser/__init__.py:4` imports
  `ParserError` from `src/winnow/parser/base.py`, which defines only
  `Parser`. Python runs a package's `__init__` before any of its submodules,
  so as written importing `winnow.parser.base`, `.boolean`, `.categorical` or
  `.optional_bounded` raises ImportError, and so does importing `winnow`
  (`src/winnow/__init__.py:18`). The model treats the parser package as
  importable, with `ParserError` an alias of `ParseFailedError`, as
  `tests/parser/test_base.py:74-83` expects. No modelled path uses that
  alias.
- **One estimator interface.** Estimators are called with `state=` in
  `collect` and with `samples=` in the stopping criteria. Either way, the
  model passes them the sample sequence.
- **Every parse failure is `ParseFailed`.** Every `raise ParseFailedError` is
  the `ParseFailed` outcome, whatever arguments it is given.
- **Default decline keywords.** The default set is `{"DECLINE"}`, from
  `src/winnow/config.py:14,22-25`. The tests disagree with the code:
  `tests/parser/test_base.py:16-46` and `tests/parser/test_boolean.py:100-106`
  expect "UNKNOWN" to decline. The model follows the code, so "UNKNOWN" does
  not decline by default.
- **One answer type.** All questions of a bank share one answer type `T`.
  Python mixes them freely.
- **Distinct uids.** The loop lemmas assume that question uids are distinct.
  With duplicates, Python's states dict merges the questions, and the model
  would do the same.
- **Exact arithmetic.** Confidence formulas are over `real`, with 1.4826 as an
  exact constant. Python's `round` is modelled as round-half-to-even.
- **ASCII text.** `strip`, `lower` and `upper` are ASCII-only.
- **Options in iteration order.** A `frozenset` of options is taken in the
  order Python iterates it, since on colliding keys the later option wins.

## Model

| member | source | states |
|---|---|---|
| Stats.Sort | src/winnow/_util.py:18 | `sorted(values)` is sorted and a permutation of the values |
| Stats.SortedUnique | src/winnow/_util.py:18 | two sorted arrangements of the same multiset are equal, so "the" sorted order is well defined |
| Stats.Median | src/winnow/_util.py:9-24 | fails (None) exactly on empty input; otherwise lies between the minimum and maximum; for odd length it is a member of the input |
| Stats.MedianOfSortedArrangement | src/winnow/_util.py:18-24 | for any sorted arrangement, the median is the middle element (odd length) or the mean of the two middle elements (even length) |
| Stats.MedianPermutation | src/winnow/_util.py:18 | the median depends only on the multiset of the values |
| Stats.MedianConstant | src/winnow/_util.py:18-24 | a constant sequence has that constant as median |
| Stats.Mad | src/winnow/_util.py:27-44 | fails (None) exactly on empty input; otherwise it is non-negative |
| Stats.MadConstant | src/winnow/_util.py:43-44 | the MAD of a constant sequence about that constant is 0 |
| Stats.MadPermutation | src/winnow/_util.py:43-44 | for a fixed center the MAD ignores the order of the values |
| Stats.RobustConfidence | src/winnow/estimator/numerical.py:42-45 | the confidence `c` satisfies `c * (abs(estimate) + 1.4826*mad) == abs(estimate)`, which is `1/(1+1.4826*mad/abs(estimate))`; it lies in (0, 1] and is 1 exactly when the MAD is 0 |
| Stats.RobustConfidenceAntitone | src/winnow/estimator/numerical.py:42-45 | a larger MAD about the same estimate never gives a larger confidence |
| Util.Median | src/winnow/util.py:9-24 | equals `Stats.Median` on every input; fails exactly on empty input |
| Util.Mad | src/winnow/util.py:27-44 | equals `Stats.Mad` on every input; fails exactly on empty input; non-negative |
| Util.UtilMedianProperties | src/winnow/util.py:18-24 | the copy is permutation-invariant, between min and max, and a member of the input for odd length |
| Types.AutoValue | src/winnow/types.py:10-16 | each archetype's `auto()` value is between 1 and 4 |
| Types.ArchetypeExactlyFour | src/winnow/types.py:10-16 | there are exactly four archetypes, all distinct, numbered in declaration order |
| Types.SampleState.QueryCount | src/winnow/types.py:28-31 | the query count is at least the number of samples, declines and failures; it is 0 iff the state is empty |
| BooleanEstimator.Estimate | src/winnow/estimator/boolean.py:16-18 | true iff true answers strictly outnumber false ones; false on no samples |
| BooleanEstimator.Confidence | src/winnow/estimator/boolean.py:20-29 | in [0, 1]; 0 on no samples; otherwise the number of samples equal to the estimate over the number of samples |
| BooleanEstimator.TieGivesFalse | src/winnow/estimator/boolean.py:18 | an exact tie is decided for false |
| BooleanEstimator.SelfConfidenceAtLeastHalf | src/winnow/estimator/boolean.py:16-29 | on non-empty samples the confidence in the estimate is at least 1/2 |
| BooleanEstimator.UnanimousFullConfidence | src/winnow/estimator/boolean.py:16-29 | unanimous samples give that value with confidence 1 |
| BooleanEstimator.PermutationInvariant | src/winnow/estimator/boolean.py:16-29 | estimate and confidence ignore the order of the samples |
| BooleanEstimator.AsEstimator | src/winnow/estimator/boolean.py:9-29 | the estimator the engine calls never gives a None estimate, and its confidence in a value is `BooleanEstimator.Confidence` of that value |
| CategoricalEstimator.ModeScan | src/winnow/estimator/categorical.py:28-29 | scanning in sample order finds a value at least as common as every other, first seen among ties |
| CategoricalEstimator.LeaderIsFirstSeen | src/winnow/estimator/categorical.py:28-29 | the scan's leader is the first occurrence of its value, and no equally common value was seen earlier |
| CategoricalEstimator.Mode | src/winnow/estimator/categorical.py:26-29 | undefined (None) exactly on no samples; a sample with the highest count, the first seen among equal counts |
| CategoricalEstimator.Confidence | src/winnow/estimator/categorical.py:31-50 | 0 on no samples, 1 with one valid option, undefined (division by zero) exactly with samples but no options, and with k >= 2 options exactly `(agreement - 1/k)/(1 - 1/k)`, where agreement is the share of samples equal to the estimate, at most 1 |
| CategoricalEstimator.ConfidenceInUnitInterval | src/winnow/estimator/categorical.py:44-50 | with all samples valid options and the mode as estimate, the confidence is in [0, 1] |
| CategoricalEstimator.UnanimousFullConfidence | src/winnow/estimator/categorical.py:26-50 | unanimous samples have that value as mode, with confidence 1 |
| CategoricalEstimator.ConfidencePermutation | src/winnow/estimator/categorical.py:44 | the confidence ignores the order of the samples |
| CategoricalEstimator.ThreeOfFourAgree | src/winnow/estimator/categorical.py:44-50 | `[a,a,a,b]` with two options has mode `a` and confidence 0.5 |
| CategoricalEstimator.TieGoesToFirstSeen | src/winnow/estimator/categorical.py:28-29 | `[b,a,a,b]` has mode `b`, the value seen first |
| CategoricalEstimator.AsEstimator | src/winnow/estimator/categorical.py:12-50 | the engine's estimator uses the mode and this confidence |
| NumericalEstimator.Estimate | src/winnow/estimator/numerical.py:18-20 | the median: undefined exactly on no samples, otherwise between min and max |
| NumericalEstimator.Confidence | src/winnow/estimator/numerical.py:22-45 | in [0, 1]; 0 below two samples; 1 on all-zero samples; 0 for a zero estimate otherwise; else exactly `Stats.RobustConfidence` of the MAD about the estimate, positive, and 1 iff the MAD is 0 |
| NumericalEstimator.IdenticalSamplesFullConfidence | src/winnow/estimator/numerical.py:18-45 | identical non-zero samples give that value with confidence 1 |
| NumericalEstimator.ConfidencePermutation | src/winnow/estimator/numerical.py:18-45 | estimate and, for a fixed estimate, confidence ignore the order of the samples |
| NumericalEstimator.SpreadLowersConfidence | src/winnow/estimator/numerical.py:42-45 | more spread about the same estimate never raises confidence |
| NumericalEstimator.AllZeroSamples | src/winnow/estimator/numerical.py:35-36 | three zero samples give confidence 1 |
| NumericalEstimator.ZeroMedianOfSpreadSamples | src/winnow/estimator/numerical.py:39-40 | `[-5, 0, 5]` about 0 gives confidence 0 |
| NumericalEstimator.AsEstimator | src/winnow/estimator/numerical.py:11-45 | the engine's estimator uses the median and this confidence |
| OptionalIntEstimator.Numeric | src/winnow/estimator/optional_int.py:22-23 | the integer samples and the None samples add up to all samples |
| OptionalIntEstimator.NumericCounts | src/winnow/estimator/optional_int.py:23 | each integer occurs among the integer samples exactly as often as it was sampled |
| OptionalIntEstimator.NumericMembers | src/winnow/estimator/optional_int.py:23 | the integer samples are exactly the integers present |
| OptionalIntEstimator.NumericConcat | src/winnow/estimator/optional_int.py:23 | the filter keeps order: the integers of a concatenation are those of each part in turn |
| OptionalIntEstimator.AsReals | src/winnow/estimator/optional_int.py:31 | the integers converted one by one, in order |
| OptionalIntEstimator.AsRealsCounts | src/winnow/estimator/optional_int.py:31 | a float occurs as often as the integer it equals, and not at all if it is not whole |
| OptionalIntEstimator.AsRealsPermutation | src/winnow/estimator/optional_int.py:31 | integer lists with the same multiset convert to float lists with the same multiset |
| OptionalIntEstimator.RoundHalfEven | src/winnow/estimator/optional_int.py:32 | the result is within 1/2 of the input, and it is even on an exact half |
| OptionalIntEstimator.RoundWithinIntegerBounds | src/winnow/estimator/optional_int.py:31-32 | rounding stays within any integer bounds of its input |
| OptionalIntEstimator.RoundHalfEvenExamples | src/winnow/estimator/optional_int.py:32 | 56.5 rounds to 56 and 57.5 to 58 |
| OptionalIntEstimator.Estimate | src/winnow/estimator/optional_int.py:19-32 | None iff None samples outnumber the integers or there is no integer; otherwise the median of the integers, rounded half to even, which lies between the smallest and largest integer |
| OptionalIntEstimator.EstimatePermutation | src/winnow/estimator/optional_int.py:19-32 | the estimate depends only on the multiset of samples, not their order |
| OptionalIntEstimator.RoundedEvenMedian | src/winnow/estimator/optional_int.py:31-32 | `[55, 56, 57, 58]` has median 56.5, which rounds to 56 |
| OptionalIntEstimator.OddMedianWithNones | src/winnow/estimator/optional_int.py:19-32 | `[55, 60, 58, None, None]` gives 58 |
| OptionalIntEstimator.MedianOfFour | src/winnow/_util.py:18-24 | four values in order have the mean of the middle two as median |
| OptionalIntEstimator.MedianOfThree | src/winnow/_util.py:18-24 | three values whose last lies between the first two have that last value as median |
| Stats.SortedMedianIsMiddle | src/winnow/_util.py:18-24 | the median of a sequence already in order is its middle element, or the mean of its two middle elements |
| OptionalIntEstimator.EqualSplitIsNumeric | src/winnow/estimator/optional_int.py:25-32 | an even None/integer split yields an integer |
| OptionalIntEstimator.ValueConfidence | src/winnow/estimator/optional_int.py:62-71 | in [0, 1]; for a zero estimate, 1 iff all integers are 0, else 0; 1 when all equal the estimate; for a non-zero estimate that not all integers equal, exactly `Stats.RobustConfidence` of the MAD about the estimate, `1/(1+1.4826*mad/abs(estimate))`, which is positive |
| OptionalIntEstimator.MajorityConfidence | src/winnow/estimator/optional_int.py:49-52 | `max(0, (share-0.5)/0.5)` is in [0, 1], is 1 iff the share is whole and 0 iff it is at most half |
| OptionalIntEstimator.Confidence | src/winnow/estimator/optional_int.py:34-74 | in [0, 1]; 0 below two samples; for None, exactly `max(0, (2*none - n)/n)`, so 1 iff all None and 0 iff None is not a strict majority; for an integer, 0 below two integers, and otherwise the integers' majority confidence times the confidence in the value; a positive integer confidence needs at least two integers forming a strict majority |
| OptionalIntEstimator.AllNoneFullConfidence | src/winnow/estimator/optional_int.py:49-52 | all-None samples give estimate None with confidence 1 |
| OptionalIntEstimator.IdenticalIntegersFullConfidence | src/winnow/estimator/optional_int.py:54-74 | identical integers give confidence 1 in that integer |
| OptionalIntEstimator.SlimNumericMajority | src/winnow/estimator/optional_int.py:54-74 | `[55,55,55,None,None]` with estimate 55 gives 0.2 |
| OptionalIntEstimator.AsEstimator | src/winnow/estimator/optional_int.py:11-74 | the engine's estimator is None exactly where the estimate is None, and its confidence in None or in an integer is `OptionalIntEstimator.Confidence` of that estimate |
| Criteria.And | src/winnow/stopping/base.py:23-27 | `a & b` is `All` with children `[a, b]` in that order |
| Criteria.Or | src/winnow/stopping/base.py:29-33 | `a \| b` is `Any` with children `[a, b]` in that order |
| Criteria.AndStopsIffBoth | src/winnow/stopping/base.py:23-27 | `a & b` stops iff both stop |
| Criteria.OrStopsIffEither | src/winnow/stopping/base.py:29-33 | `a \| b` stops iff either stops |
| Criteria.CombinatorEdgeCases | src/winnow/stopping/combinators.py:19-46 | `All()` stops, `Any()` does not, and one child decides alone |
| Criteria.UnanimousMeansAllEqual | src/winnow/stopping/primitives.py:89-91 | `len(set(samples)) == 1` iff there are samples and all are equal |
| Criteria.ConfidenceNeedsTwoSamples | src/winnow/stopping/primitives.py:55-56 | `ConfidenceReached` never stops below two samples |
| Criteria.NestedExample | src/winnow/stopping/combinators.py:28-46 | 5 samples and 10 queries stop `(MinSamples(3) & MaxQueries(10)) \| MinSamples(20)` |
| Criteria.BudgetForcesStop | src/winnow/stopping/primitives.py:40 | a tree with a `MaxQueries(m)`, `m <= n`, reachable through `Any`s and `All`s stops once `n` queries were made |
| Criteria.CountsOnlyStopPersists | src/winnow/stopping/primitives.py:19-40 | a tree of `MinSamples`/`MaxQueries` leaves keeps stopping as samples and queries grow |
| Factories.Standard | src/winnow/stopping/factories.py:14-32 | the standard tree is budgeted by its `max_queries` |
| Factories.StandardDefault | src/winnow/config.py:17-20 | the default standard tree is budgeted by 20 queries |
| Factories.Categorical | src/winnow/stopping/factories.py:35-53 | the categorical tree is budgeted by its `max_queries` |
| Factories.Relaxed | src/winnow/stopping/factories.py:56-74 | the relaxed tree is budgeted by its `max_queries` |
| Factories.StandardDecision | src/winnow/stopping/factories.py:28-32 | the standard tree stops iff (enough samples and confidence) or budget reached or too many declines in a row |
| Factories.StandardStopsOnBudgetOrDeclines | src/winnow/stopping/factories.py:28-32 | budget or decline run alone stops the standard tree |
| Factories.StandardConfidenceBranch | src/winnow/stopping/factories.py:29 | below budget and decline limit, a stop implies at least `min_samples` (and two) samples and the confidence reached |
| Factories.CategoricalDecision | src/winnow/stopping/factories.py:49-53 | the categorical tree stops iff unanimous, or (enough samples and confidence), or budget reached |
| Factories.CategoricalStopsOnUnanimity | src/winnow/stopping/factories.py:49-53 | at least `unanimous_after` identical samples stop it |
| Factories.CategoricalIgnoresDeclines | src/winnow/stopping/factories.py:49-53 | with no samples, it stops iff the query budget is reached, whatever the declines |
| Factories.RelaxedIsStandard | src/winnow/stopping/factories.py:70-74 | the relaxed tree equals the standard tree for the same parameters |
| FlatStopping.FlatCriterion.Default | src/winnow/stopping.py:23-26 | the defaults require at least two samples |
| FlatStopping.FlatCriterion.ShouldStop | src/winnow/stopping.py:28-53 | budget stops; decline run stops; otherwise too few samples do not; otherwise it stops iff the confidence in the estimate reaches the threshold |
| FlatStopping.FlatCriterion.AsTree | src/winnow/stopping.py:34-53 | the equivalent tree is budgeted by `max_queries` |
| FlatStopping.FlatIsTree | src/winnow/stopping.py:34-53 | with `min_samples >= 2` the flat criterion decides exactly as `Any(MaxQueries, ConsecutiveDeclines, All(MinSamples, ConfidenceReached))` |
| FlatStopping.FlatIsStandard | src/winnow/stopping.py:34-53 | with `min_samples >= 2` it decides exactly as `standard_stopping` with the same parameters |
| FlatStopping.FlatDiffersBelowTwo | src/winnow/stopping.py:44-53 | with `min_samples == 1`, one answer whose confidence reaches the threshold stops the flat criterion but not the tree |
| Question.IncompleteFrom | src/winnow/question.py:49-53 | exactly the positions from `from` whose criterion does not stop, in increasing order |
| Question.Incomplete | src/winnow/question.py:49-53 | exactly the positions whose criterion does not stop, in bank order |
| Question.SelectNext | src/winnow/question.py:40-58 | None iff every question's criterion stops; otherwise a question in the bank whose criterion does not stop |
| Question.EveryIncompleteSelectable | src/winnow/question.py:58 | every question whose criterion does not stop is picked by some choice |
| Collect.StateForSamples | src/winnow/collect.py:78-87 | the given samples, no declines or failures, no estimate, confidence 0 |
| Collect.InitialStates | src/winnow/collect.py:32-42 | one state per uid of the bank, each empty with no estimate and confidence 0 |
| Collect.RecordSample | src/winnow/collect.py:99-114 | appends the value, keeps decline/failure counts, resets the decline run, stores estimate and confidence; one more query; counters grow; the decline run stays within the decline count |
| Collect.RecordDecline | src/winnow/collect.py:117-126 | one more decline in all and in a row; all else kept; one more query; counters grow and stay consistent |
| Collect.RecordParseFailure | src/winnow/collect.py:129-138 | one more failure; decline run reset; all else kept; one more query; counters grow and stay consistent |
| Collect.Step | src/winnow/collect.py:52-70 | one turn on one question: exactly one more query, counters grow and stay consistent, an answer is appended and the stored estimate and confidence are the estimator's on the new samples, other outcomes keep the samples, the decline count grows iff declined, the decline run is positive iff declined |
| Collect.Turn | src/winnow/collect.py:44-70 | the chosen question's state is replaced by `Step` of it on the outcome, one more query that extends it; every other state is unchanged; no uid is added or removed |
| Collect.Run | src/winnow/collect.py:44-73 | the loop as a function: on success the states cover the bank and every criterion stops; the only failure is running out of responses |
| Collect.RunInvariants | src/winnow/collect.py:44-73 | from consistent, current states, every state of a successful run has grown, stays consistent and holds the estimator's estimate of its samples |
| Collect.RunWithinBudget | src/winnow/collect.py:44-73 | with every criterion budgeted by `n` and enough responses, the run succeeds and asks no question more than `n` times |
| Collect.CollectWithinBudget | src/winnow/collect.py:32-75 | from the initial states, `\|questions\| * n` responses suffice; every question is asked at most `n` times and has stopped |
| Collect.EstimatesFrom | src/winnow/collect.py:146-157 | succeeds iff every remaining question has samples and an estimate; then adds one entry per uid holding its estimate and confidence; otherwise names the first failing uid |
| Collect.Estimates | src/winnow/collect.py:141-159 | `_build_estimates`: succeeds iff every question has samples and an estimate; one entry per uid with its estimate and confidence; otherwise fails on the first question without |
| Collect.BuildEstimates | src/winnow/collect.py:141-159 | the loop returns exactly `Estimates` |
| Collect.CollectAll | src/winnow/collect.py:14-75 | the `while True` loop over the states map returns exactly the run followed by `_build_estimates` |
| Collect.CollectReportsEstimates | src/winnow/collect.py:44-75 | on success every question's reported value and confidence are its estimator's estimate of, and confidence in, its final samples, of which there is at least one |
| Collect.CollectFailureExplained | src/winnow/collect.py:148-152 | an estimation failure names a question whose final state has no samples or no estimate |
| ParserBase.Call | src/winnow/parser/base.py:20-31 | declined iff some keyword occurs in the stripped, upper-cased response; otherwise `parse` of the original response, or a parse failure exactly when `parse` fails |
| ParserBase.DeclineIgnoresCase | src/winnow/parser/base.py:28 | lower-casing, upper-casing or stripping the response does not change whether it declines |
| ParserBase.KeywordAnywhereDeclines | src/winnow/parser/base.py:28-30 | an upper-case keyword anywhere in the response makes the call a decline |
| ParserBase.DefaultKeywords | src/winnow/config.py:22-25 | with the default keywords, "I must decline." declines and "UNKNOWN" does not |
| DeclineFinding.CallAsWritten | src/winnow/parser/base.py:20-31 | as written, a decline is the returned value None and never a decline outcome |
| DeclineFinding.DeclineRecordedAsSample | src/winnow/collect.py:52-70 | as written a declining response is appended as the sample None with both decline counters unmoved; corrected, it counts one more decline in all and in a row |
| DeclineFinding.ConsecutiveDeclinesNeverFireAsWritten | src/winnow/collect.py:52-70 | as written, `ConsecutiveDeclines(n)` with `n >= 1` never stops a question after a turn |
| DeclineFinding.ConsecutiveDeclinesFireCorrected | src/winnow/stopping/primitives.py:74 | corrected, a decline after `n - 1` in a row reaches `ConsecutiveDeclines(n)` |
| DeclineFinding.DeclineExample | src/winnow/parser/base.py:28-30 | the response "DECLINE" is a decline, returned as None as written and as a decline outcome corrected |
| BooleanParser.TruthyFalsyDisjoint | src/winnow/parser/boolean.py:10-11 | no word is both truthy and falsy |
| BooleanParser.Parse | src/winnow/parser/boolean.py:13-24 | true iff the normalised response is truthy, false iff falsy, a parse failure iff neither |
| BooleanParser.IgnoresCaseAndPadding | src/winnow/parser/boolean.py:19 | upper- or lower-casing the response and padding it with whitespace do not change the result |
| BooleanParser.PaddedUpperYes | src/winnow/parser/boolean.py:19-21 | " YES " is true |
| BooleanParser.ShortNoAndUnknownWord | src/winnow/parser/boolean.py:19-24 | "N" is false and "maybe" fails |
| LiteralParser.TableKeys | src/winnow/parser/categorical.py:31-33 | every option's key is in the table, and every entry is stored under its own key |
| LiteralParser.TableEntriesFromOrder | src/winnow/parser/categorical.py:31-33 | every entry of the table is one of the options |
| LiteralParser.LiteralParser.constructor | src/winnow/parser/categorical.py:14-33 | the loop leaves the table of the options in iteration order; `caseSensitive` defaults to false |
| LiteralParser.LiteralParser.Parse | src/winnow/parser/categorical.py:35-47 | a result is an option whose key is the response's key; a parse failure iff no option has that key |
| LiteralParser.TableFindsLastWithKey | src/winnow/parser/categorical.py:31-33 | an option is found by its key unless a later option has the same key, so the last one wins |
| LiteralParser.CaseInsensitiveExample | src/winnow/parser/categorical.py:31-41 | with keys lower-cased, as by default, "  YES " finds the option "Yes" |
| OptionalBoundedParser.ParseInt | src/winnow/parser/optional_bounded.py:21-24 | an accepted integer text has no surrounding whitespace |
| OptionalBoundedParser.NatToString | src/winnow/parser/optional_bounded.py:22 | decimal digits whose value is the number |
| OptionalBoundedParser.IntToString | src/winnow/parser/optional_bounded.py:22 | `int(str(x)) == x` |
| OptionalBoundedParser.Parse | src/winnow/parser/optional_bounded.py:14-29 | None iff the normalised response is "none"; a returned integer is within the bounds and is what the text denotes; a parse failure iff not "none" and not an integer in bounds |
| OptionalBoundedParser.IntegerRoundTrip | src/winnow/parser/optional_bounded.py:14-29 | any integer, written out and padded, parses to itself within the bounds and fails outside them |
| OptionalBoundedParser.NoneAndNonIntegers | src/winnow/parser/optional_bounded.py:16-24 | " NONE " is None; "abc" and "5.5" fail |
| Text.Strip | src/winnow/parsers.py:44 | `str.strip()`: the slice between the first and last non-space characters |
| Text.Split | src/winnow/parsers.py:44 | `str.split(sep)`: at least one part, none containing the separator |
| Text.JoinSplit | src/winnow/parsers.py:44 | joining the parts of a split with the separator gives the text back |
| Text.SplitJoin | src/winnow/parsers.py:44 | splitting a join of separator-free parts on a one-character separator gives the parts back |
| Parsers.ParseString | src/winnow/parsers.py:7-11 | fails iff the response is empty or all whitespace; otherwise the response unchanged |
| Parsers.ParseBoolean | src/winnow/parsers.py:14-20 | true iff "true"/"yes", false iff "false"/"no" after strip and lower; a failure otherwise |
| Parsers.ParseBooleanIgnoresCaseAndPadding | src/winnow/parsers.py:16 | upper- or lower-casing the response and padding it with whitespace do not change the result, on every input |
| Parsers.ParseBooleanExamples | src/winnow/parsers.py:16-20 | "TrUe" is true, "\t no \t" is false, and "1", which `BooleanParser` accepts, fails |
| Parsers.StrippedNonEmpty | src/winnow/parsers.py:43-45 | no more items than parts; every item is non-empty, stripped and free of the separator |
| Parsers.Items | src/winnow/parsers.py:42-45 | every item is non-empty, stripped and free of the separator |
| Parsers.StringListParser.Call | src/winnow/parsers.py:42-48 | fails iff there are no items and none are allowed; otherwise the items |
| Parsers.StrippedNonEmptyOfClean | src/winnow/parsers.py:43-45 | clean items pass through stripping and filtering unchanged |
| Parsers.ItemsOfJoin | src/winnow/parsers.py:42-45 | clean items joined by a one-character separator parse back to themselves, in order |
| Parsers.FirstExists | src/winnow/parsers.py:76 | a non-empty set of variants has a first element in the canonical order |
| Parsers.ChooseCanonical | src/winnow/parsers.py:73-76 | `choose_canonical`: a variant that comes first in the order "all-lowercase first, then code-point order" |
| Parsers.LowerMap | src/winnow/parsers.py:67-80 | keys are the lower-cased choices; each maps to `CanonicalOf` its key: the key itself when it is a choice, else the least variant in code-point order |
| Parsers.CanonicalOf | src/winnow/parsers.py:73-80 | a choice with the key: the key itself if it is a choice, else the least variant in code-point order |
| Parsers.GroupCanonical | src/winnow/parsers.py:73-76 | the canonical variant of a group is the lowercase one when present, else the least |
| Parsers.Groups | src/winnow/parsers.py:68-71 | the groups of the choices seen so far: one non-empty group per lower-cased key |
| Parsers.GroupsAdd | src/winnow/parsers.py:69-71 | adding a choice to its key's group (created if missing) gives the groups of the larger set |
| Parsers.BuildGroups | src/winnow/parsers.py:68-71 | the grouping loop yields the groups of all choices |
| Parsers.Canonicalise | src/winnow/parsers.py:92-98 | the result loop yields the canonical choice of every item's key, or fails on the first unknown key |
| Parsers.ChoiceResult | src/winnow/parsers.py:84-98 | case-sensitive: the items iff all are choices; case-insensitive: parses iff every key is known, then per item the canonical choice `CanonicalOf` its lower-cased key |
| Parsers.CanonicalIdempotent | src/winnow/parsers.py:91-98 | parsing the canonical choices again gives them back |
| Parsers.StringChoiceParser.constructor | src/winnow/parsers.py:52-82 | builds the map from each lower-cased key to its canonical choice when case-insensitive, and no map otherwise; defaults: separator `","`, empty list rejected, case-sensitive |
| Parsers.DefaultCaseRules | src/winnow/parser/categorical.py:14-19 | built with their defaults, the literal parser ignores case, while the choice parser respects it and splits on `","` without allowing an empty list (also src/winnow/parsers.py:37-38,52-58) |
| Parsers.StringChoiceParser.Call | src/winnow/parsers.py:84-98 | the list parse, failed as it fails, otherwise checked against the choices and canonicalised by `ChoiceResult` |

## Left out

- The client and API factory (`src/winnow/client.py`, `src/winnow/api.py`) are not part of this model. They hold network calls, key lookup, sleeping and random back-off.
- `parse_float` and `parse_integer` (`src/winnow/parsers.py:23-34`) and `FloatParser` are left out. They are Python's `float()`/`int()` and a regular expression.
- `_build_prompt`, the `on_progress` callback and the `async` query function are left out. They are I/O; the responses are the given outcome sequence.
- IEEE floating point is not modelled: every formula is over exact reals.
- Unicode whitespace and case mapping are not modelled: strings are ASCII for `strip`, `lower` and `upper`.
- The probability distribution of `random.choice` is not modelled: the choice is an injected number.
- The four extra fields of `Estimate` are left out, as are archetype classification and decline-penalised confidence. The code sets none of them, and as written the two-argument `Estimate(...)` call at `src/winnow/collect.py:154-157` raises TypeError, since those fields have no defaults.
- The `parser` field of a question is not a field of the model's `Question`: it is applied before the loop sees an outcome.
- OptionalBoundedParser.ParseInt: accepts only an optional sign and ASCII digits; Python's `int()` also accepts underscores between digits and non-ASCII digits.
- CategoricalEstimator.AsEstimator: requires a non-empty option set; Python only fails once it divides by zero, which `CategoricalEstimator.Confidence` models as None.
- BooleanEstimator.AsEstimator: the confidence in a None estimate is 0; Python never produces a None estimate here. The numerical and categorical estimators are treated the same way.
- Parsers.StringListParser.Call: requires a non-empty separator; Python's `split("")` raises ValueError.
- Collect.RunInvariants: assumes distinct question uids; with repeated uids Python's dict merges the states of those questions.
- Collect.Run: the run ends in `OracleExhausted` when the response sequence runs out, which stands for an exception from the query function; the model does not otherwise bound the loop.
- Collect.CollectAll: consumes a sequence of outcomes in which a decline is `Declined`, as the corrected `ParserBase.Call` yields them; nothing in the model feeds responses through `Call` into the loop, and the as-written path is the finding below.
- DeclineFinding.DeclineRecordedAsSample: covers only estimators that accept a None sample (categorical, optional integer). For the optional-integer parser the model keeps a declined response (`None`) apart from a parsed "none" (`Some(None)`); in Python both are the same `None`, so as written a decline counts as a "none" vote for `OptionalIntEstimator`, and that merge is not modelled. As written, with the boolean or numerical estimator, the None sample makes `sum` (`src/winnow/estimator/boolean.py:18`) or `sorted` (`src/winnow/_util.py:18`) raise TypeError inside the `try` of `src/winnow/collect.py:52-70`, which catches only the two parser errors, so `collect` aborts; that abort is not modelled.

## Findings

| source | as written | input that shows it | evidently intended | confidence | as-written member | corrected member |
|---|---|---|---|---|---|---|
| src/winnow/parser/base.py:29-30 | with the readings under "How the model reads the code" applied, `Parser.__call__` returns `None` on a decline; `collect` (`src/winnow/collect.py:67-68`) counts a decline only when `ModelDeclinedError` is raised, so it hands `None` to the estimator as a sample and neither decline counter moves; an estimator that accepts None stores it as an answer, while the boolean and numerical estimators raise TypeError on it (`sum`, `sorted`), which `collect` does not catch, so the whole run aborts (the path of the responses `["31", "DECLINE", ...]` with `NumericalEstimator`) | the response "DECLINE" with the default keywords | a decline is counted by `_record_decline`, so `ConsecutiveDeclines(n)` can stop a question | not executed | DeclineFinding.ConsecutiveDeclinesNeverFireAsWritten | DeclineFinding.ConsecutiveDeclinesFireCorrected |
