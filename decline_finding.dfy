/**
 * How a decline reaches the sampling loop, once the code is read as the
 * README describes it: the parser package importable (as written,
 * `src/winnow/parser/__init__.py:4` imports a `ParserError` that
 * `parser/base.py` does not define), questions iterated as a list, states
 * built with all six fields.  (As written, `collect` also fails at
 * `src/winnow/collect.py:40`, calling `.values()` on a list.)  `Parser.__call__`
 * (`src/winnow/parser/base.py:29-30`) returns `None` on a decline, while
 * `collect` (`src/winnow/collect.py:67-68`) counts a decline only when the
 * parser raises `ModelDeclinedError`.  As written, a declining response is
 * therefore handed to the estimator as the sample `None`, and neither decline
 * counter moves.  With an estimator that accepts a None sample (categorical,
 * optional integer) it is stored as that answer, which is what the members
 * below model.  For the optional-integer parser, whose answers are already
 * optional, Python's single `None` merges a decline with a parsed "none", so
 * a decline counts as a "none" vote; the members below keep the two apart
 * (`Answer(None)` against `Answer(Some(None))`) and do not model that
 * merge.  With the boolean or numerical estimator, `sum` or `sorted` over
 * the samples raises TypeError, which neither `except` clause catches, so
 * `collect` aborts; that path is not modelled.  The sampling loop of
 * `Collect` consumes outcomes in which a decline is `Declined`, as the
 * corrected `ParserBase.Call` yields them.
 */
module DeclineFinding {
  import opened Wrappers
  import opened Types
  import opened ParserBase
  import Criteria
  import Collect
  import Question

  /**
   * `__call__` as written, seen from `collect`: a decline is the returned
   * value `None`, which `collect` records as an answer.
   */
  function CallAsWritten<T>(keywords: set<string>, parse: string -> Parsed<T>, response: string)
    : (r: Outcome<Option<T>>)
    ensures IsDecline(keywords, response) ==> r == Answer(None)
    ensures !IsDecline(keywords, response) && parse(response).Parsed? ==> r == Answer(Some(parse(response).value))
    ensures r.ParseFailed? <==> !IsDecline(keywords, response) && parse(response).Failed?
    ensures !r.Declined?
  {
    if IsDecline(keywords, response) then Answer(None)
    else match parse(response)
      case Parsed(v) => Answer(Some(v))
      case Failed => ParseFailed
  }

  /**
   * On a declining response the code as written appends `None` to the
   * samples and leaves both decline counters where they were; the corrected
   * call counts one more decline, in all and in a row, and keeps the samples.
   */
  lemma DeclineRecordedAsSample<T>(
    keywords: set<string>, parse: string -> Parsed<T>, response: string,
    q: Question.Question<Option<T>>, s: SampleState<Option<T>>,
    q': Question.Question<T>, s': SampleState<T>)
    requires IsDecline(keywords, response)
    ensures var r := Collect.Step(q, s, CallAsWritten(keywords, parse, response));
      r.samples == s.samples + [None] && r.declineCount == s.declineCount && r.consecutiveDeclines == 0
    ensures var r' := Collect.Step(q', s', Call(keywords, parse, response));
      r'.samples == s'.samples && r'.declineCount == s'.declineCount + 1 &&
      r'.consecutiveDeclines == s'.consecutiveDeclines + 1
  {
  }

  /**
   * As written, `ConsecutiveDeclines(n)` for any `n >= 1` never stops a
   * question after a query, whatever the model answers; with the corrected
   * call, `n` declines in a row from a fresh state do stop it.
   */
  lemma ConsecutiveDeclinesNeverFireAsWritten<T>(
    keywords: set<string>, parse: string -> Parsed<T>, response: string, n: int,
    q: Question.Question<Option<T>>, s: SampleState<Option<T>>)
    requires n >= 1
    ensures !Criteria.ShouldStop(Criteria.ConsecutiveDeclines(n),
                                 Collect.Step(q, s, CallAsWritten(keywords, parse, response)), q.estimator)
  {
  }

  /** With the corrected call, a decline after `n - 1` in a row reaches `ConsecutiveDeclines(n)`. */
  lemma ConsecutiveDeclinesFireCorrected<T>(
    keywords: set<string>, parse: string -> Parsed<T>, response: string, n: int,
    q: Question.Question<T>, s: SampleState<T>)
    requires IsDecline(keywords, response) && s.consecutiveDeclines + 1 >= n
    ensures Criteria.ShouldStop(Criteria.ConsecutiveDeclines(n),
                                Collect.Step(q, s, Call(keywords, parse, response)), q.estimator)
  {
  }

  /** The input that shows it: the response "DECLINE" under the default keywords. */
  lemma DeclineExample<T>(parse: string -> Parsed<T>)
    ensures IsDecline(DefaultDeclineKeywords, "DECLINE")
    ensures CallAsWritten(DefaultDeclineKeywords, parse, "DECLINE") == Answer(None)
    ensures Call(DefaultDeclineKeywords, parse, "DECLINE") == Declined
  {
    KeywordAnywhereDeclines(DefaultDeclineKeywords, parse, "", "DECLINE", "");
    assert "" + "DECLINE" + "" == "DECLINE";
  }
}
