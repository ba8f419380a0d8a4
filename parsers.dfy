/**
 * The functional parsers of `src/winnow/parsers.py`: `parse_string`,
 * `parse_boolean`, `StringListParser` and `StringChoiceParser`.
 */
module Parsers {
  import opened Wrappers
  import opened Text
  import opened ParserBase
  import LiteralParser

  /** `parse_string`: the response unchanged, unless it is empty or all whitespace. */
  function ParseString(response: string): (r: Parsed<string>)
    ensures r.Failed? <==> forall k :: 0 <= k < |response| ==> IsSpace(response[k])
    ensures r.Parsed? ==> r.value == response
  {
    if Strip(response) == [] then Failed else Parsed(response)
  }

  /** `parse_boolean`: "true"/"yes" and "false"/"no" after strip and lower; nothing else. */
  function ParseBoolean(response: string): (r: Parsed<bool>)
    ensures r == Parsed(true) <==> Lower(Strip(response)) in {"true", "yes"}
    ensures r == Parsed(false) <==> Lower(Strip(response)) in {"false", "no"}
    ensures r.Failed? <==> Lower(Strip(response)) !in {"true", "yes", "false", "no"}
  {
    var normalised := Lower(Strip(response));
    if normalised in {"true", "yes"} then Parsed(true)
    else if normalised in {"false", "no"} then Parsed(false)
    else Failed
  }

  /** `parse_boolean` ignores case and surrounding whitespace. */
  lemma ParseBooleanIgnoresCaseAndPadding(response: string, before: string, after: string)
    requires forall k :: 0 <= k < |before| ==> IsSpace(before[k])
    requires forall k :: 0 <= k < |after| ==> IsSpace(after[k])
    ensures ParseBoolean(before + Upper(response) + after) == ParseBoolean(response)
    ensures ParseBoolean(before + Lower(response) + after) == ParseBoolean(response)
  {
    StripPadded(before, Upper(response), after);
    StripPadded(before, Lower(response), after);
    UpperStripCommute(response);
    LowerStripCommute(response);
    LowerOfUpper(Strip(response));
    LowerIdempotent(Strip(response));
  }

  /**
   * "TrUe" is true and "\t no \t" is false; "1", which the boolean parser
   * class accepts, is a failure here.
   */
  lemma ParseBooleanExamples()
    ensures ParseBoolean("TrUe") == Parsed(true)
    ensures ParseBoolean("\t no \t") == Parsed(false)
    ensures ParseBoolean("1").Failed?
  {
    StripClean("TrUe");
    assert Lower("TrUe") == "true";
    var s := "\t no \t";
    StripWindow(s, 2, 4);
    assert s[2..4] == "no";
    assert Lower("no") == "no";
    StripClean("1");
    assert Lower("1") == "1";
  }

  /** An item as the list parsers return it: non-empty, stripped, free of the separator. */
  predicate CleanItem(item: string, separator: string) {
    item != [] && Strip(item) == item && !Contains(item, separator)
  }

  /** `[item.strip() for item in parts if item.strip()]`. */
  function StrippedNonEmpty(parts: seq<string>, separator: string): (items: seq<string>)
    requires forall p :: p in parts ==> !Contains(p, separator)
    ensures |items| <= |parts|
    ensures forall item :: item in items ==> CleanItem(item, separator)
  {
    if |parts| == 0 then []
    else
      var head := Strip(parts[0]);
      var rest := StrippedNonEmpty(parts[1..], separator);
      if head == [] then rest
      else
        assert !Contains(head, separator) by {
          if Contains(head, separator) {
            ContainsInSlice(parts[0], StripStart(parts[0]), StripEnd(parts[0]), separator);
          }
        }
        assert Strip(head) == head by { StripClean(head); }
        [head] + rest
  }

  /** The items of `StringListParser.__call__`, in the order of the response. */
  function Items(response: string, separator: string): (items: seq<string>)
    requires |separator| > 0
    ensures forall item :: item in items ==> CleanItem(item, separator)
  {
    StrippedNonEmpty(Split(response, separator), separator)
  }

  /** A comma-separated list by default, failing when it has no items. */
  datatype StringListParser = StringListParser(separator: string := ",", allowEmpty: bool := false) {
    /** `__call__`: the items, failing only when there are none and none are allowed. */
    function Call(response: string): (r: Parsed<seq<string>>)
      requires |separator| > 0
      ensures r.Failed? <==> Items(response, separator) == [] && !allowEmpty
      ensures r.Parsed? ==> forall item :: item in r.value ==> CleanItem(item, separator)
      ensures r.Parsed? ==> r.value == Items(response, separator)
    {
      var items := Items(response, separator);
      if items == [] && !allowEmpty then Failed else Parsed(items)
    }
  }

  /** Clean items pass through stripping and filtering unchanged. */
  lemma {:induction false} StrippedNonEmptyOfClean(items: seq<string>, separator: string)
    requires forall item :: item in items ==> !Contains(item, separator)
    requires forall item :: item in items ==> CleanItem(item, separator)
    ensures StrippedNonEmpty(items, separator) == items
  {
    if |items| > 0 {
      assert items[0] in items;
      StrippedNonEmptyOfClean(items[1..], separator);
    }
  }

  /**
   * Joining clean items with a one-character separator and parsing the
   * result gives the items back, in order.
   */
  lemma ItemsOfJoin(items: seq<string>, c: char)
    requires |items| >= 1
    requires forall item :: item in items ==> CleanItem(item, [c])
    ensures Items(Join(items, [c]), [c]) == items
  {
    forall item | item in items ensures c !in item {
      if c in item {
        var k :| 0 <= k < |item| && item[k] == c;
        OccursAtOneChar(c, item, k);
      }
    }
    SplitJoin(items, c);
    StrippedNonEmptyOfClean(items, [c]);
  }

  /**
   * The order `choose_canonical` sorts by: the all-lowercase variant first,
   * then code-point order.
   */
  predicate Before(a: string, b: string) {
    (a == Lower(a) && b != Lower(b)) || ((a == Lower(a)) == (b == Lower(b)) && LexLe(a, b))
  }

  lemma BeforeAntisymmetric(a: string, b: string)
    requires Before(a, b) && Before(b, a)
    ensures a == b
  {
    LexLeAntisymmetric(a, b);
  }

  /** A finite non-empty set of strings has a first element in that order. */
  lemma {:induction false} FirstExists(variants: set<string>)
    requires variants != {}
    ensures exists x :: x in variants && forall y :: y in variants ==> Before(x, y)
    decreases |variants|
  {
    var z :| z in variants;
    if variants == {z} {
      LexLeTotal(z, z);
      assert forall y :: y in variants ==> y == z;
    } else {
      var rest := variants - {z};
      FirstExists(rest);
      var m :| m in rest && forall y :: y in rest ==> Before(m, y);
      LexLeTotal(m, z);
      if Before(m, z) {
        assert forall y :: y in variants ==> y == z || y in rest;
      } else {
        forall y | y in variants ensures Before(z, y) {
          if y != z {
            assert Before(m, y);
            if (m == Lower(m)) == (y == Lower(y)) && (z == Lower(z)) == (m == Lower(m)) {
              LexLeTransitive(z, m, y);
            }
          } else {
            LexLeTotal(z, z);
          }
        }
      }
    }
  }

  /** `choose_canonical`: the first variant in the order above. */
  function ChooseCanonical(variants: set<string>): (r: string)
    requires variants != {}
    ensures r in variants && forall y :: y in variants ==> Before(r, y)
  {
    FirstExists(variants);
    forall a, b | a in variants && b in variants && Before(a, b) && Before(b, a) ensures a == b {
      BeforeAntisymmetric(a, b);
    }
    var x :| x in variants && forall y :: y in variants ==> Before(x, y);
    x
  }

  /** The variants of one lower-cased key among the choices. */
  function Group(choices: set<string>, key: string): set<string> {
    set c | c in choices && Lower(c) == key
  }

  /** The lower-cased keys of the choices. */
  function Keys(choices: set<string>): set<string> {
    set c | c in choices :: Lower(c)
  }

  /** `_lower_map`: every key mapped to the canonical variant of its group. */
  function LowerMap(choices: set<string>): (m: map<string, string>)
    ensures m.Keys == Keys(choices)
    ensures forall k :: k in m ==> m[k] in choices && Lower(m[k]) == k
    ensures forall k :: k in m && k in choices ==> m[k] == k
    ensures forall k :: k in m ==> m[k] == CanonicalOf(choices, k)
  {
    map k | k in Keys(choices) :: CanonicalOf(choices, k)
  }

  /**
   * The canonical variant of a key: a choice with that key, the key itself
   * when it is a choice, else the least in code-point order.
   */
  function CanonicalOf(choices: set<string>, key: string): (r: string)
    requires key in Keys(choices)
    ensures r in choices && Lower(r) == key
    ensures key in choices ==> r == key
    ensures key !in choices ==> forall v :: v in choices && Lower(v) == key ==> LexLe(r, v)
  {
    GroupCanonical(choices, key);
    ChooseCanonical(Group(choices, key))
  }

  lemma GroupCanonical(choices: set<string>, key: string)
    requires key in Keys(choices)
    ensures Group(choices, key) != {}
    ensures var r := ChooseCanonical(Group(choices, key));
      r in choices && Lower(r) == key &&
      (key in choices ==> r == key) &&
      (key !in choices ==> forall v :: v in choices && Lower(v) == key ==> LexLe(r, v))
  {
    var c :| c in choices && Lower(c) == key;
    assert c in Group(choices, key);
    var r := ChooseCanonical(Group(choices, key));
    if key in choices {
      LowerIdempotent(c);
      assert key in Group(choices, key);
      assert Before(r, key);
      assert r == Lower(r);
    } else {
      forall v | v in choices && Lower(v) == key ensures LexLe(r, v) {
        assert v in Group(choices, key);
        assert Before(r, v);
      }
    }
  }

  /** The groups `__init__` builds from the choices seen so far: each key to its variants. */
  function Groups(done: set<string>): (g: map<string, set<string>>)
    ensures g.Keys == Keys(done)
    ensures forall k :: k in g ==> g[k] == Group(done, k) && g[k] != {}
  {
    KeysHaveVariants(done);
    map k | k in Keys(done) :: Group(done, k)
  }

  lemma KeysHaveVariants(done: set<string>)
    ensures forall k :: k in Keys(done) ==> Group(done, k) != {}
  {
    forall k | k in Keys(done) ensures Group(done, k) != {} {
      var c :| c in done && Lower(c) == k;
      assert c in Group(done, k);
    }
  }

  /** Picking the canonical variant of every group gives `LowerMap`. */
  lemma LowerMapOfGroups(choices: set<string>)
    ensures (map k | k in Groups(choices) :: ChooseCanonical(Groups(choices)[k])) == LowerMap(choices)
  {
  }

  /** `groups.setdefault(key, set()).add(choice)` extends the groups of the choices seen so far. */
  lemma GroupsAdd(done: set<string>, choice: string)
    ensures var key := Lower(choice);
      Groups(done + {choice}) ==
      Groups(done)[key := (if key in Groups(done) then Groups(done)[key] else {}) + {choice}]
  {
    var key := Lower(choice);
    var g := Groups(done);
    var g' := g[key := (if key in g then g[key] else {}) + {choice}];
    assert Keys(done + {choice}) == Keys(done) + {key};
    assert g'.Keys == Keys(done + {choice});
    forall k | k in g' ensures g'[k] == Group(done + {choice}, k) {
      if k == key {
        assert Group(done + {choice}, k) == Group(done, k) + {choice};
      } else {
        assert Group(done + {choice}, k) == Group(done, k);
      }
    }
  }

  /** The case-insensitive answer: every item's key must be known; each maps to its canonical choice. */
  function Canonicalised(m: map<string, string>, items: seq<string>): Parsed<seq<string>> {
    if forall i :: 0 <= i < |items| ==> Lower(items[i]) in m then
      Parsed(seq(|items|, i requires 0 <= i < |items| => m[Lower(items[i])]))
    else Failed
  }

  /** What the choice parser returns for a list of items, case-sensitively or not. */
  function ChoiceResult(choices: set<string>, caseSensitive: bool, items: seq<string>): (r: Parsed<seq<string>>)
    ensures caseSensitive ==> (r.Parsed? <==> forall i :: 0 <= i < |items| ==> items[i] in choices)
    ensures caseSensitive && r.Parsed? ==> r.value == items
    ensures !caseSensitive ==> (r.Parsed? <==> forall i :: 0 <= i < |items| ==> Lower(items[i]) in Keys(choices))
    ensures !caseSensitive && r.Parsed? ==>
      |r.value| == |items| &&
        forall i :: 0 <= i < |items| ==> r.value[i] in choices && Lower(r.value[i]) == Lower(items[i])
    ensures !caseSensitive && r.Parsed? ==>
      forall i :: 0 <= i < |items| ==> r.value[i] == CanonicalOf(choices, Lower(items[i]))
  {
    if caseSensitive then
      if forall i :: 0 <= i < |items| ==> items[i] in choices then Parsed(items) else Failed
    else
      Canonicalised(LowerMap(choices), items)
  }

  /** Canonicalising is idempotent: the canonical choices parse to themselves. */
  lemma CanonicalIdempotent(choices: set<string>, items: seq<string>)
    requires ChoiceResult(choices, false, items).Parsed?
    ensures var v := ChoiceResult(choices, false, items).value;
      ChoiceResult(choices, false, v) == Parsed(v)
  {
    var m := LowerMap(choices);
    var v := ChoiceResult(choices, false, items).value;
    forall i | 0 <= i < |v| ensures Lower(v[i]) in m && m[Lower(v[i])] == v[i] {
      assert v[i] == m[Lower(items[i])];
    }
    assert v == seq(|v|, i requires 0 <= i < |v| => m[Lower(v[i])]);
  }

  /** `StringChoiceParser.__call__` on a response, given the list parser's result. */
  function ChoiceParse(choices: set<string>, caseSensitive: bool, list: Parsed<seq<string>>): Parsed<seq<string>> {
    match list
    case Failed => Failed
    case Parsed(items) => ChoiceResult(choices, caseSensitive, items)
  }

  class StringChoiceParser {
    const choices: set<string>
    const caseSensitive: bool
    const listParser: StringListParser
    var lowerMap: Option<map<string, string>>

    ghost predicate Valid()
      reads this
    {
      |listParser.separator| > 0 &&
      lowerMap == (if caseSensitive then None else Some(LowerMap(choices)))
    }

    /**
     * `__init__`: group the choices by lower-cased key, then pick each group's
     * canonical variant.  By default: comma-separated, at least one item, case-sensitive.
     */
    constructor (choices: set<string>, separator: string := ",", allowEmpty: bool := false, caseSensitive: bool := true)
      requires |separator| > 0
      ensures this.choices == choices && this.caseSensitive == caseSensitive
      ensures listParser == StringListParser(separator, allowEmpty)
      ensures Valid()
    {
      this.choices := choices;
      this.caseSensitive := caseSensitive;
      listParser := StringListParser(separator, allowEmpty);
      lowerMap := None;
      new;
      if !caseSensitive {
        var groups := BuildGroups(choices);
        lowerMap := Some(map k | k in groups :: ChooseCanonical(groups[k]));
        LowerMapOfGroups(choices);
      }
    }

    /** `__call__`: the list items, checked against the choices and canonicalised when case-insensitive. */
    method Call(response: string) returns (r: Parsed<seq<string>>)
      requires Valid()
      ensures r == ChoiceParse(choices, caseSensitive, listParser.Call(response))
    {
      var parsed := listParser.Call(response);
      if parsed.Failed? {
        return Failed;
      }
      var items := parsed.value;
      if caseSensitive {
        if exists i :: 0 <= i < |items| && items[i] !in choices {
          return Failed;
        }
        return Parsed(items);
      }
      r := Canonicalise(lowerMap.value, items);
    }
  }

  /** The grouping loop of `StringChoiceParser.__init__`. */
  method BuildGroups(choices: set<string>) returns (groups: map<string, set<string>>)
    ensures groups == Groups(choices)
  {
    groups := map[];
    var remaining := choices;
    while remaining != {}
      invariant remaining <= choices
      invariant groups == Groups(choices - remaining)
      decreases |remaining|
    {
      var choice :| choice in remaining;
      var key := Lower(choice);
      GroupsAdd(choices - remaining, choice);
      groups := groups[key := (if key in groups then groups[key] else {}) + {choice}];
      assert choices - (remaining - {choice}) == (choices - remaining) + {choice};
      remaining := remaining - {choice};
    }
    assert choices - remaining == choices;
  }

  /** The result loop of the case-insensitive `__call__`. */
  method Canonicalise(m: map<string, string>, items: seq<string>) returns (r: Parsed<seq<string>>)
    ensures r == Canonicalised(m, items)
  {
    var result: seq<string> := [];
    var i := 0;
    while i < |items|
      invariant 0 <= i <= |items| && |result| == i
      invariant forall j :: 0 <= j < i ==> Lower(items[j]) in m && result[j] == m[Lower(items[j])]
    {
      var key := Lower(items[i]);
      if key !in m {
        assert !(Lower(items[i]) in m);
        return Failed;
      }
      result := result + [m[key]];
      i := i + 1;
    }
    assert result == seq(|items|, j requires 0 <= j < |items| => m[Lower(items[j])]);
    r := Parsed(result);
  }

  /**
   * The two option parsers built with their defaults disagree on case: the
   * literal parser ignores it, the choice parser does not.
   */
  method DefaultCaseRules() returns (literal: LiteralParser.LiteralParser<string>, choice: StringChoiceParser)
    ensures !literal.caseSensitive && literal.Valid()
    ensures choice.caseSensitive && choice.Valid() && choice.listParser == StringListParser()
    ensures choice.listParser.separator == "," && !choice.listParser.allowEmpty
  {
    literal := new LiteralParser.LiteralParser(["Yes", "No"], option => option);
    choice := new StringChoiceParser({"Yes", "No"});
  }
}
