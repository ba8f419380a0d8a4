/**
 * `OptionalBoundedIntParser.parse` of `src/winnow/parser/optional_bounded.py`.
 * Python's `int()` on the normalised text is an optional sign followed by
 * ASCII decimal digits.
 */
module OptionalBoundedParser {
  import opened Wrappers
  import opened Text
  import opened ParserBase

  predicate IsDigit(c: char) {
    '0' <= c <= '9'
  }

  predicate AllDigits(s: string) {
    forall k :: 0 <= k < |s| ==> IsDigit(s[k])
  }

  function DigitValue(c: char): nat
    requires IsDigit(c)
  {
    c as int - '0' as int
  }

  /** The number a non-empty run of decimal digits denotes. */
  function DigitsValue(s: string): (n: nat)
    requires AllDigits(s)
    decreases |s|
  {
    if |s| == 0 then 0 else 10 * DigitsValue(s[..|s| - 1]) + DigitValue(s[|s| - 1])
  }

  /** `int(s)`: an optional `+` or `-`, then at least one digit; otherwise ValueError (None). */
  function ParseInt(s: string): (r: Option<int>)
    ensures r.Some? ==> |s| > 0 && !IsSpace(s[0]) && !IsSpace(s[|s| - 1])
  {
    if |s| == 0 then None
    else
      var negative := s[0] == '-';
      var digits := if s[0] == '-' || s[0] == '+' then s[1..] else s;
      if |digits| == 0 || !AllDigits(digits) then None
      else
        assert IsDigit(s[|s| - 1]) by { assert s[|s| - 1] == digits[|digits| - 1]; }
        var magnitude: int := DigitsValue(digits);
        Some(if negative then -magnitude else magnitude)
  }

  function DigitChar(d: nat): (c: char)
    requires d < 10
    ensures IsDigit(c) && DigitValue(c) == d
  {
    ('0' as int + d) as char
  }

  /** The decimal digits of a natural number, without leading zeros. */
  function NatToString(n: nat): (s: string)
    ensures |s| > 0 && AllDigits(s) && DigitsValue(s) == n
    decreases n
  {
    if n < 10 then [DigitChar(n)]
    else
      var s := NatToString(n / 10) + [DigitChar(n % 10)];
      assert s[..|s| - 1] == NatToString(n / 10);
      s
  }

  /** `str(x)` for an integer. */
  function IntToString(x: int): (s: string)
    ensures ParseInt(s) == Some(x)
  {
    if x < 0 then
      var s := "-" + NatToString(-x);
      assert s[1..] == NatToString(-x);
      s
    else NatToString(x)
  }

  /** `parse`: "none" is None, an integer in the bounds is itself, everything else fails. */
  function Parse(minValue: int, maxValue: int, response: string): (r: Parsed<Option<int>>)
    ensures r == Parsed(None) <==> Lower(Strip(response)) == "none"
    ensures r.Parsed? && r.value.Some? ==>
      minValue <= r.value.value <= maxValue && ParseInt(Lower(Strip(response))) == Some(r.value.value)
    ensures r.Failed? <==>
      Lower(Strip(response)) != "none" &&
      (ParseInt(Lower(Strip(response))).None? ||
       ParseInt(Lower(Strip(response))).value < minValue || ParseInt(Lower(Strip(response))).value > maxValue)
  {
    var normalised := Lower(Strip(response));
    if normalised == "none" then Parsed(None)
    else match ParseInt(normalised)
      case None => Failed
      case Some(value) =>
        if value < minValue || value > maxValue then Failed else Parsed(Some(value))
  }

  /** Lower-casing leaves the text of an integer as it is. */
  lemma LowerKeepsInteger(x: int)
    ensures Lower(IntToString(x)) == IntToString(x)
  {
    var s := IntToString(x);
    forall k | 0 <= k < |s| ensures LowerChar(s[k]) == s[k] {
      if x < 0 && k > 0 { assert s[k] == NatToString(-x)[k - 1]; }
    }
  }

  /**
   * Any integer, written out and padded with whitespace, parses to itself
   * when it is within the bounds and fails otherwise.
   */
  lemma IntegerRoundTrip(minValue: int, maxValue: int, x: int, before: string, after: string)
    requires forall k :: 0 <= k < |before| ==> IsSpace(before[k])
    requires forall k :: 0 <= k < |after| ==> IsSpace(after[k])
    ensures minValue <= x <= maxValue ==> Parse(minValue, maxValue, before + IntToString(x) + after) == Parsed(Some(x))
    ensures !(minValue <= x <= maxValue) ==> Parse(minValue, maxValue, before + IntToString(x) + after) == Failed
  {
    var s := IntToString(x);
    StripPadded(before, s, after);
    StripClean(s);
    LowerKeepsInteger(x);
    assert s != "none" by {
      if |s| == 4 { assert ParseInt(s).Some?; assert s[0] != 'n'; }
    }
  }

  /** "none" in any case and padding is None; "abc" and "5.5" fail. */
  lemma NoneAndNonIntegers(minValue: int, maxValue: int)
    ensures Parse(minValue, maxValue, " NONE ") == Parsed(None)
    ensures Parse(minValue, maxValue, "abc") == Failed
    ensures Parse(minValue, maxValue, "5.5") == Failed
  {
    PaddedUpperNone();
    NotAnInteger("abc", 0);
    NotAnInteger("5.5", 1);
  }

  lemma PaddedUpperNone()
    ensures Lower(Strip(" NONE ")) == "none"
  {
    StripWindow(" NONE ", 1, 5);
    assert " NONE "[1..5] == "NONE";
    var l := Lower("NONE");
    assert l[0] == 'n' && l[1] == 'o' && l[2] == 'n' && l[3] == 'e';
  }

  /** A clean lower-case word with a non-digit past its first character is neither "none" nor an integer. */
  lemma NotAnInteger(s: string, k: nat)
    requires k < |s| && |s| != 4 && !IsDigit(s[k]) && (k == 0 ==> s[k] != '-' && s[k] != '+')
    requires forall i :: 0 <= i < |s| ==> !IsSpace(s[i]) && !('A' <= s[i] <= 'Z')
    ensures Lower(Strip(s)) == s && s != "none" && ParseInt(s).None?
  {
    StripClean(s);
    assert Lower(s) == s;
    if k > 0 && (s[0] == '-' || s[0] == '+') {
      assert s[1..][k - 1] == s[k];
    }
  }
}
