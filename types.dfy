/**
 * The records of `src/winnow/types.py`, the estimator protocol of
 * `src/winnow/estimator/base.py`, and the three ways one query can end.
 */
module Types {
  import opened Wrappers

  /** Classification of sampling convergence behaviour. */
  datatype Archetype = Confident | Acceptable | Uncertain | InsufficientData

  /** The value `enum.auto()` gives each member: 1, 2, 3, 4 in declaration order. */
  function AutoValue(a: Archetype): (v: nat)
    ensures 1 <= v <= 4
  {
    match a
    case Confident => 1
    case Acceptable => 2
    case Uncertain => 3
    case InsufficientData => 4
  }

  /** The members in declaration order. */
  const AllArchetypes: seq<Archetype> := [Confident, Acceptable, Uncertain, InsufficientData]

  /** The enumeration has exactly four members, all distinct, numbered in order. */
  lemma ArchetypeExactlyFour()
    ensures forall a: Archetype :: a in AllArchetypes
    ensures |AllArchetypes| == 4
    ensures forall i, j :: 0 <= i < j < |AllArchetypes| ==>
      AutoValue(AllArchetypes[i]) < AutoValue(AllArchetypes[j])
  {
    forall a: Archetype ensures a in AllArchetypes {
      match a
      case Confident => assert AllArchetypes[0] == a;
      case Acceptable => assert AllArchetypes[1] == a;
      case Uncertain => assert AllArchetypes[2] == a;
      case InsufficientData => assert AllArchetypes[3] == a;
    }
  }

  /**
   * The per-question sampling state.  The first four fields are those of the
   * dataclass; `currentEstimate` and `currentConfidence` are the two further
   * fields `src/winnow/collect.py` stores in it after every answer.  `None`
   * for the estimate is Python's `None`.
   */
  datatype SampleState<T> = SampleState(
    samples: seq<T>,
    declineCount: nat,
    parseFailureCount: nat,
    consecutiveDeclines: nat,
    currentEstimate: Option<T>,
    currentConfidence: real)
  {
    /** Every query made for the question: answers, declines and parse failures. */
    function QueryCount(): (n: nat)
      ensures n >= |samples| && n >= declineCount && n >= parseFailureCount
      ensures n == 0 <==> samples == [] && declineCount == 0 && parseFailureCount == 0
      ensures n - |samples| == declineCount + parseFailureCount
    {
      |samples| + declineCount + parseFailureCount
    }
  }

  /**
   * A consensus estimator as the rest of the engine uses it: a point estimate
   * of a sample sequence (None where the Python code returns None or raises)
   * and a confidence in a given estimate.
   */
  datatype Estimator<!T> = Estimator(
    estimate: seq<T> -> Option<T>,
    confidence: (seq<T>, Option<T>) -> real)

  /** How one query ends: a parsed answer, a decline, or a response that would not parse. */
  datatype Outcome<T> = Answer(value: T) | Declined | ParseFailed
}
