/** `BooleanParser.parse` of `src/winnow/parser/boolean.py`. */
module BooleanParser {
  import opened Text
  import opened ParserBase

  const Truthy: set<string> := {"yes", "true", "1", "y"}
  const Falsy: set<string> := {"no", "false", "0", "n"}

  /** The two word sets share no word, so no response is both. */
  lemma TruthyFalsyDisjoint()
    ensures Truthy * Falsy == {}
  {
  }

  /** The stripped, lower-cased response looked up in the truthy, then the falsy set. */
  function Parse(response: string): (r: Parsed<bool>)
    ensures r == Parsed(true) <==> Lower(Strip(response)) in Truthy
    ensures r == Parsed(false) <==> Lower(Strip(response)) in Falsy
    ensures r.Failed? <==> Lower(Strip(response)) !in Truthy + Falsy
  {
    TruthyFalsyDisjoint();
    var normalised := Lower(Strip(response));
    if normalised in Truthy then Parsed(true)
    else if normalised in Falsy then Parsed(false)
    else Failed
  }

  /** Case and surrounding whitespace do not matter. */
  lemma IgnoresCaseAndPadding(response: string, before: string, after: string)
    requires forall k :: 0 <= k < |before| ==> IsSpace(before[k])
    requires forall k :: 0 <= k < |after| ==> IsSpace(after[k])
    ensures Parse(before + Upper(response) + after) == Parse(response)
    ensures Parse(before + Lower(response) + after) == Parse(response)
  {
    StripPadded(before, Upper(response), after);
    StripPadded(before, Lower(response), after);
    UpperStripCommute(response);
    LowerStripCommute(response);
    LowerOfUpper(Strip(response));
    LowerIdempotent(Strip(response));
  }

  /** " YES " is true: case and padding are ignored. */
  lemma PaddedUpperYes()
    ensures Parse(" YES ") == Parsed(true)
  {
    var s := " YES ";
    StripWindow(s, 1, 4);
    assert s[1..4] == "YES";
    var l := Lower("YES");
    assert l[0] == 'y' && l[1] == 'e' && l[2] == 's';
    assert l == "yes";
  }

  /** "N" is false and "maybe" is a parse failure. */
  lemma ShortNoAndUnknownWord()
    ensures Parse("N") == Parsed(false)
    ensures Parse("maybe").Failed?
  {
    StripClean("N");
    assert Lower("N") == "n";
    StripClean("maybe");
    assert Lower("maybe") == "maybe";
  }
}
