/**
 * `LiteralParser` of `src/winnow/parser/categorical.py`.  The options are a
 * frozenset; the model takes them in the order Python iterates over them,
 * since on a key collision the `for` loop of `__init__` lets the later option
 * overwrite the earlier one.  `show` is `str()` on an option.
 */
module LiteralParser {
  import opened Text
  import opened ParserBase

  /** The lookup key of an option: `str(option)`, lower-cased unless case-sensitive. */
  function Key<T>(show: T -> string, caseSensitive: bool, option: T): string {
    if caseSensitive then show(option) else Lower(show(option))
  }

  /** The key `parse` looks up: the stripped response, lower-cased unless case-sensitive. */
  function ResponseKey(caseSensitive: bool, response: string): string {
    if caseSensitive then Strip(response) else Lower(Strip(response))
  }

  /**
   * The table `__init__` leaves after the options in `order`, each stored
   * under `key` of it; `TableKeys`, `TableEntriesFromOrder` and
   * `TableFindsLastWithKey` say what it holds.
   */
  function Table<T(==)>(key: T -> string, order: seq<T>): map<string, T>
  {
    if |order| == 0 then map[]
    else
      var n := |order| - 1;
      var prefix := order[..n];
      assert order == prefix + [order[n]];
      Table(key, prefix)[key(order[n]) := order[n]]
  }

  class LiteralParser<T(==, !new)> {
    /** The options, in iteration order. */
    const options: seq<T>
    const caseSensitive: bool
    const show: T -> string
    /** The key each option is stored under. */
    const keyOf: T -> string
    var lookup: map<string, T>

    ghost predicate Valid()
      reads this
    {
      (forall option :: keyOf(option) == Key(show, caseSensitive, option)) &&
      lookup == Table(keyOf, options)
    }

    /** `__init__`: one table entry per option, in iteration order; case does not matter by default. */
    constructor (options: seq<T>, show: T -> string, caseSensitive: bool := false)
      ensures this.options == options && this.caseSensitive == caseSensitive && this.show == show
      ensures Valid()
    {
      this.options := options;
      this.caseSensitive := caseSensitive;
      this.show := show;
      keyOf := option => Key(show, caseSensitive, option);
      lookup := map[];
      new;
      var i := 0;
      while i < |options|
        invariant 0 <= i <= |options|
        invariant lookup == Table(keyOf, options[..i])
      {
        var option := options[i];
        var key := if caseSensitive then show(option) else Lower(show(option));
        assert key == keyOf(option);
        lookup := lookup[key := option];
        assert options[..i + 1][..i] == options[..i];
        TableStep(keyOf, options[..i + 1]);
        i := i + 1;
      }
      assert options[..i] == options;
    }

    /**
     * `parse`: the option whose key is the response's key, or a parse failure
     * when no option has that key.
     */
    function Parse(response: string): (r: Parsed<T>)
      reads this
      requires Valid()
      ensures r.Parsed? ==> r.value in options && Key(show, caseSensitive, r.value) == ResponseKey(caseSensitive, response)
      ensures r.Failed? <==>
        forall i :: 0 <= i < |options| ==> Key(show, caseSensitive, options[i]) != ResponseKey(caseSensitive, response)
    {
      var key := ResponseKey(caseSensitive, response);
      TableKeys(keyOf, options);
      TableEntriesFromOrder(keyOf, options);
      if key in lookup then Parsed(lookup[key]) else Failed
    }
  }

  /**
   * An option whose key no later option shares is found by that key; where
   * keys collide, the option met last wins.
   */
  lemma {:induction false} TableFindsLastWithKey<T>(key: T -> string, order: seq<T>, i: nat)
    requires i < |order|
    requires forall j :: i < j < |order| ==> key(order[j]) != key(order[i])
    ensures key(order[i]) in Table(key, order) && Table(key, order)[key(order[i])] == order[i]
    decreases |order|
  {
    var n := |order| - 1;
    TableStep(key, order);
    if i < n {
      var prefix := order[..n];
      assert prefix[i] == order[i];
      forall j | i < j < |prefix| ensures key(prefix[j]) != key(prefix[i]) {
        assert prefix[j] == order[j];
      }
      TableFindsLastWithKey(key, prefix, i);
    }
  }

  /** The keys of the table are exactly those of the options, and each entry has its own key. */
  lemma {:induction false} TableKeys<T>(key: T -> string, order: seq<T>)
    ensures forall x :: x in order ==> key(x) in Table(key, order)
    ensures forall k :: k in Table(key, order) ==> key(Table(key, order)[k]) == k
    decreases |order|
  {
    if |order| > 0 {
      var n := |order| - 1;
      var prefix := order[..n];
      TableStep(key, order);
      TableKeys(key, prefix);
      forall x | x in order ensures key(x) in Table(key, order) {
        var j :| 0 <= j < |order| && order[j] == x;
        if j < n { assert prefix[j] == x; }
      }
    }
  }

  /** Every entry of the table is one of the options. */
  lemma {:induction false} TableEntriesFromOrder<T>(key: T -> string, order: seq<T>)
    ensures forall k :: k in Table(key, order) ==> Table(key, order)[k] in order
    decreases |order|
  {
    if |order| > 0 {
      var n := |order| - 1;
      var prefix := order[..n];
      TableStep(key, order);
      TableEntriesFromOrder(key, prefix);
      forall k | k in Table(key, order) ensures Table(key, order)[k] in order {
        if k != key(order[n]) {
          var x := Table(key, prefix)[k];
          assert x in prefix;
          var j :| 0 <= j < |prefix| && prefix[j] == x;
          assert order[j] == x;
        }
      }
    }
  }

  /** The table after one more option is the table before it with that option's key overwritten. */
  lemma TableStep<T>(key: T -> string, order: seq<T>)
    requires |order| > 0
    ensures Table(key, order) == Table(key, order[..|order| - 1])[key(order[|order| - 1]) := order[|order| - 1]]
  {
  }

  /**
   * By default case does not matter: the response "  YES " finds the option
   * "Yes", whose key is its lower-cased text.
   */
  lemma CaseInsensitiveExample(key: string -> string)
    requires forall option :: key(option) == Lower(option)
    ensures ResponseKey(false, "  YES ") in Table(key, ["No", "Yes"])
    ensures Table(key, ["No", "Yes"])[ResponseKey(false, "  YES ")] == "Yes"
  {
    TableFindsLastWithKey(key, ["No", "Yes"], 1);
    YesKey();
  }

  lemma YesKey()
    ensures ResponseKey(false, "  YES ") == Lower("Yes")
  {
    StripWindow("  YES ", 2, 5);
    assert "  YES "[2..5] == "YES";
    var a, b := Lower("YES"), Lower("Yes");
    assert a[0] == 'y' && a[1] == 'e' && a[2] == 's';
    assert b[0] == 'y' && b[1] == 'e' && b[2] == 's';
  }
}
