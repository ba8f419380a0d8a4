/**
 * `Parser.__call__` of `src/winnow/parser/base.py`: decline-keyword detection
 * on the stripped, upper-cased response, then delegation to the subclass's
 * `parse` on the original response.  A subclass's `parse` is a function to a
 * `Parsed` value, `Failed` standing for `ParseFailedError`.
 */
module ParserBase {
  import opened Text
  import opened Types

  /** What a subclass's `parse` makes of a response. */
  datatype Parsed<T> = Parsed(value: T) | Failed

  /** `WinnowConfig.decline_keyword`. */
  const DeclineKeyword: string := "DECLINE"

  /** `default_config.decline_keywords`, the class-level default of every parser. */
  const DefaultDeclineKeywords: set<string> := {DeclineKeyword}

  /** `any(keyword in normalised for keyword in decline_keywords)`. */
  predicate IsDecline(keywords: set<string>, response: string) {
    exists keyword :: keyword in keywords && Contains(Upper(Strip(response)), keyword)
  }

  /**
   * `__call__` as the three ways a query can end: a decline, the parsed
   * value, or a parse failure.
   */
  function Call<T>(keywords: set<string>, parse: string -> Parsed<T>, response: string): (r: Outcome<T>)
    ensures r.Declined? <==> IsDecline(keywords, response)
    ensures !IsDecline(keywords, response) && parse(response).Parsed? ==> r == Answer(parse(response).value)
    ensures r.ParseFailed? <==> !IsDecline(keywords, response) && parse(response).Failed?
  {
    if IsDecline(keywords, response) then Declined
    else match parse(response)
      case Parsed(v) => Answer(v)
      case Failed => ParseFailed
  }

  /** Detection ignores the case of the response and whitespace at its ends. */
  lemma DeclineIgnoresCase(keywords: set<string>, response: string)
    ensures IsDecline(keywords, Lower(response)) == IsDecline(keywords, response)
    ensures IsDecline(keywords, Upper(response)) == IsDecline(keywords, response)
    ensures IsDecline(keywords, Strip(response)) == IsDecline(keywords, response)
  {
    LowerStripCommute(response);
    UpperOfLower(Strip(response));
    UpperStripCommute(response);
    UpperIdempotent(Strip(response));
    StripIdempotent(response);
  }

  /**
   * An upper-case keyword anywhere in the response, starting and ending with
   * a non-whitespace character, makes the call a decline, whatever `parse`
   * would have made of it.
   */
  lemma {:induction false} KeywordAnywhereDeclines<T>(
    keywords: set<string>, parse: string -> Parsed<T>, before: string, keyword: string, after: string)
    requires keyword in keywords && |keyword| > 0 && Upper(keyword) == keyword
    requires !IsSpace(keyword[0]) && !IsSpace(keyword[|keyword| - 1])
    ensures Call(keywords, parse, before + keyword + after) == Declined
  {
    var s := before + keyword + after;
    var a, b := |before|, |before| + |keyword|;
    assert s[a..b] == keyword;
    StrippedKeeps(s, a, b);
    UpperKeeps(Strip(s), keyword, a - StripStart(s));
  }

  /** Text between two non-whitespace characters survives stripping, shifted. */
  lemma StrippedKeeps(s: string, a: nat, b: nat)
    requires a < b <= |s| && !IsSpace(s[a]) && !IsSpace(s[b - 1])
    ensures StripStart(s) <= a && b <= StripEnd(s)
    ensures OccursAt(s[a..b], Strip(s), a - StripStart(s))
  {
    var i, j := StripStart(s), StripEnd(s);
    NonSpaceInsideStrip(s, a);
    NonSpaceInsideStrip(s, b - 1);
    SliceOfSlice(s, i, j, a, b);
    assert Strip(s) == s[i..j];
  }

  lemma SliceOfSlice(s: string, i: nat, j: nat, a: nat, b: nat)
    requires i <= a < b <= j <= |s|
    ensures OccursAt(s[a..b], s[i..j], a - i)
  {
    var t := s[i..j];
    forall k | 0 <= k < b - a ensures t[a - i..b - i][k] == s[a..b][k] {
      assert t[a - i + k] == s[a + k];
    }
    assert t[a - i..b - i] == s[a..b];
  }

  /** An upper-case occurrence survives upper-casing. */
  lemma UpperKeeps(hay: string, needle: string, pos: int)
    requires OccursAt(needle, hay, pos) && Upper(needle) == needle
    ensures OccursAt(needle, Upper(hay), pos)
  {
    var upper := Upper(hay);
    forall k | 0 <= k < |needle| ensures upper[pos + k] == needle[k] {
      assert hay[pos + k] == needle[k];
      assert Upper(needle)[k] == UpperChar(needle[k]);
    }
    assert upper[pos..pos + |needle|] == needle;
  }

  /** The default set declines on "decline" in any case, and not on "UNKNOWN". */
  lemma DefaultKeywords<T>(parse: string -> Parsed<T>)
    ensures Call(DefaultDeclineKeywords, parse, "I must decline.") == Declined
    ensures !IsDecline(DefaultDeclineKeywords, "UNKNOWN")
  {
    LowerCaseKeywordDeclines();
    UnknownIsNoDecline();
  }

  lemma LowerCaseKeywordDeclines()
    ensures IsDecline(DefaultDeclineKeywords, "I must decline.")
  {
    var s := "I must decline.";
    StripClean(s);
    var u := Upper(s);
    assert u[7] == 'D' && u[8] == 'E' && u[9] == 'C' && u[10] == 'L';
    assert u[11] == 'I' && u[12] == 'N' && u[13] == 'E';
    assert u[7..14] == DeclineKeyword;
    assert OccursAt(DeclineKeyword, Upper(Strip(s)), 7);
  }

  lemma UnknownIsNoDecline()
    ensures !IsDecline(DefaultDeclineKeywords, "UNKNOWN")
  {
    var s := "UNKNOWN";
    StripClean(s);
    var u := Upper(s);
    assert |u| == 7 && u[0] == 'U';
    forall k ensures !OccursAt(DeclineKeyword, u, k) {
      if 0 <= k && k + |DeclineKeyword| <= |u| {
        assert u[k..k + |DeclineKeyword|][0] == 'U';
      }
    }
  }
}
