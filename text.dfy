/**
 * The few Python `str` operations the parsers rely on: `strip`, `lower`,
 * `upper`, `in` (substring), `split` with an explicit separator, `join`, and
 * the lexicographic order of `<` on strings.  Only ASCII is modelled: the
 * whitespace set is the ASCII part of `str.isspace`, and case mapping
 * touches only `A`-`Z` / `a`-`z`.
 */
module Text {
  import opened Wrappers

  /** ASCII characters for which `str.isspace` holds: \t \n \v \f \r, \x1c-\x1f and space. */
  predicate IsSpace(c: char) {
    (9 <= c as int <= 13) || (28 <= c as int <= 32)
  }

  /** Index of the first non-whitespace character (|s| when there is none). */
  function StripStart(s: string): (i: nat)
    ensures i <= |s|
    ensures forall k :: 0 <= k < i ==> IsSpace(s[k])
    ensures i < |s| ==> !IsSpace(s[i])
  {
    if |s| == 0 || !IsSpace(s[0]) then 0 else 1 + StripStart(s[1..])
  }

  /** Index just after the last non-whitespace character (0 when there is none). */
  function StripEnd(s: string): (j: nat)
    ensures j <= |s|
    ensures forall k :: j <= k < |s| ==> IsSpace(s[k])
    ensures j > 0 ==> !IsSpace(s[j - 1])
  {
    if |s| == 0 || !IsSpace(s[|s| - 1]) then |s| else StripEnd(s[..|s| - 1])
  }

  /** `str.strip()` with no argument. */
  function Strip(s: string): (r: string)
    ensures |r| <= |s|
    ensures r == [] <==> forall k :: 0 <= k < |s| ==> IsSpace(s[k])
    ensures r != [] ==> !IsSpace(r[0]) && !IsSpace(r[|r| - 1])
    ensures r != [] ==> r == s[StripStart(s)..StripEnd(s)]
  {
    var i, j := StripStart(s), StripEnd(s);
    if j == 0 then [] else s[i..j]
  }

  /** A non-whitespace character lies inside the stripped window. */
  lemma NonSpaceInsideStrip(s: string, k: nat)
    requires k < |s| && !IsSpace(s[k])
    ensures StripStart(s) <= k < StripEnd(s)
    ensures Strip(s) == s[StripStart(s)..StripEnd(s)]
  {
  }

  /** Stripping depends only on where the whitespace is. */
  lemma StripSameShape(s: string, t: string)
    requires |s| == |t|
    requires forall k :: 0 <= k < |s| ==> (IsSpace(s[k]) <==> IsSpace(t[k]))
    ensures StripStart(s) == StripStart(t) && StripEnd(s) == StripEnd(t)
  {
    StartSameShape(s, t);
    EndSameShape(s, t);
  }

  lemma StartSameShape(s: string, t: string)
    requires |s| == |t|
    requires forall k :: 0 <= k < |s| ==> (IsSpace(s[k]) <==> IsSpace(t[k]))
    ensures StripStart(s) == StripStart(t)
  {
    var i, i' := StripStart(s), StripStart(t);
    if i < |s| { assert !IsSpace(t[i]); }
    if i' < |t| { assert !IsSpace(s[i']); }
  }

  lemma EndSameShape(s: string, t: string)
    requires |s| == |t|
    requires forall k :: 0 <= k < |s| ==> (IsSpace(s[k]) <==> IsSpace(t[k]))
    ensures StripEnd(s) == StripEnd(t)
  {
    var j, j' := StripEnd(s), StripEnd(t);
    if j > 0 { assert !IsSpace(t[j - 1]); }
    if j' > 0 { assert !IsSpace(s[j' - 1]); }
  }

  function LowerChar(c: char): char {
    if 'A' <= c <= 'Z' then (c as int + 32) as char else c
  }

  function UpperChar(c: char): char {
    if 'a' <= c <= 'z' then (c as int - 32) as char else c
  }

  /** `str.lower()` on ASCII. */
  function Lower(s: string): (r: string)
    ensures |r| == |s| && forall k :: 0 <= k < |s| ==> r[k] == LowerChar(s[k])
  {
    seq(|s|, k requires 0 <= k < |s| => LowerChar(s[k]))
  }

  /** `str.upper()` on ASCII. */
  function Upper(s: string): (r: string)
    ensures |r| == |s| && forall k :: 0 <= k < |s| ==> r[k] == UpperChar(s[k])
  {
    seq(|s|, k requires 0 <= k < |s| => UpperChar(s[k]))
  }

  /** Case mapping never turns whitespace into non-whitespace or back. */
  lemma CaseKeepsSpaces(s: string)
    ensures forall k :: 0 <= k < |s| ==> (IsSpace(Lower(s)[k]) <==> IsSpace(s[k]))
    ensures forall k :: 0 <= k < |s| ==> (IsSpace(Upper(s)[k]) <==> IsSpace(s[k]))
  {
  }

  /** Lower-casing and stripping commute. */
  lemma LowerStripCommute(s: string)
    ensures Lower(Strip(s)) == Strip(Lower(s))
  {
    CaseKeepsSpaces(s);
    StripSameShape(s, Lower(s));
    var i, j := StripStart(s), StripEnd(s);
    if j != 0 {
      LowerSlice(s, i, j);
    }
  }

  lemma LowerSlice(s: string, i: nat, j: nat)
    requires i <= j <= |s|
    ensures Lower(s[i..j]) == Lower(s)[i..j]
  {
    forall k | 0 <= k < j - i ensures Lower(s[i..j])[k] == Lower(s)[i..j][k] {
      assert s[i..j][k] == s[i + k];
    }
  }

  /** Upper-casing and stripping commute. */
  lemma UpperStripCommute(s: string)
    ensures Upper(Strip(s)) == Strip(Upper(s))
  {
    CaseKeepsSpaces(s);
    StripSameShape(s, Upper(s));
    var i, j := StripStart(s), StripEnd(s);
    if j != 0 {
      UpperSlice(s, i, j);
    }
  }

  lemma UpperSlice(s: string, i: nat, j: nat)
    requires i <= j <= |s|
    ensures Upper(s[i..j]) == Upper(s)[i..j]
  {
    forall k | 0 <= k < j - i ensures Upper(s[i..j])[k] == Upper(s)[i..j][k] {
      assert s[i..j][k] == s[i + k];
    }
  }

  /** Upper-casing forgets every earlier lower-casing. */
  lemma UpperOfLower(s: string)
    ensures Upper(Lower(s)) == Upper(s)
  {
  }

  /** Lower-casing twice is lower-casing once. */
  lemma LowerIdempotent(s: string)
    ensures Lower(Lower(s)) == Lower(s)
  {
  }

  lemma UpperIdempotent(s: string)
    ensures Upper(Upper(s)) == Upper(s)
  {
  }

  /** Stripping removes every outer whitespace character at once. */
  lemma StripIdempotent(s: string)
    ensures Strip(Strip(s)) == Strip(s)
  {
    if Strip(s) != [] { StripClean(Strip(s)); }
  }

  /** Lower-casing forgets every earlier upper-casing. */
  lemma LowerOfUpper(s: string)
    ensures Lower(Upper(s)) == Lower(s)
  {
  }

  /** A string with no whitespace at either end is its own strip. */
  lemma StripClean(s: string)
    requires |s| > 0 && !IsSpace(s[0]) && !IsSpace(s[|s| - 1])
    ensures Strip(s) == s
  {
    NonSpaceInsideStrip(s, 0);
    NonSpaceInsideStrip(s, |s| - 1);
  }

  /** The strip window is determined by where the first and last non-whitespace characters are. */
  lemma StripWindow(t: string, i: nat, j: nat)
    requires i < j <= |t| && !IsSpace(t[i]) && !IsSpace(t[j - 1])
    requires forall k :: 0 <= k < i ==> IsSpace(t[k])
    requires forall k :: j <= k < |t| ==> IsSpace(t[k])
    ensures Strip(t) == t[i..j]
  {
    NonSpaceInsideStrip(t, i);
    NonSpaceInsideStrip(t, j - 1);
  }

  /** Whitespace added around a string is stripped away again. */
  lemma StripPadded(a: string, s: string, b: string)
    requires forall k :: 0 <= k < |a| ==> IsSpace(a[k])
    requires forall k :: 0 <= k < |b| ==> IsSpace(b[k])
    ensures Strip(a + s + b) == Strip(s)
  {
    if Strip(s) == [] {
      StripPaddedBlank(a, s, b);
    } else {
      StripPaddedWindow(a, s, b);
    }
  }

  lemma StripPaddedBlank(a: string, s: string, b: string)
    requires forall k :: 0 <= k < |a| ==> IsSpace(a[k])
    requires forall k :: 0 <= k < |b| ==> IsSpace(b[k])
    requires Strip(s) == []
    ensures Strip(a + s + b) == []
  {
    var t := a + s + b;
    forall k | 0 <= k < |t| ensures IsSpace(t[k]) {
      PaddedChar(a, s, b, k);
    }
  }

  lemma StripPaddedWindow(a: string, s: string, b: string)
    requires forall k :: 0 <= k < |a| ==> IsSpace(a[k])
    requires forall k :: 0 <= k < |b| ==> IsSpace(b[k])
    requires Strip(s) != []
    ensures Strip(a + s + b) == Strip(s)
  {
    var i, j := StripStart(s), StripEnd(s);
    assert |Strip(s)| > 0 && Strip(s) == s[i..j];
    PaddedStrip(a, s, b, i, j);
  }

  /** Padding a string whose non-whitespace window is `i..j` moves the window by `|a|`. */
  lemma PaddedStrip(a: string, s: string, b: string, i: nat, j: nat)
    requires forall k :: 0 <= k < |a| ==> IsSpace(a[k])
    requires forall k :: 0 <= k < |b| ==> IsSpace(b[k])
    requires i < j <= |s| && !IsSpace(s[i]) && !IsSpace(s[j - 1])
    requires forall k :: 0 <= k < i ==> IsSpace(s[k])
    requires forall k :: j <= k < |s| ==> IsSpace(s[k])
    ensures Strip(a + s + b) == s[i..j]
  {
    PaddedWindow(a, s, b, i, j);
    PaddedSlice(a, s, b, i, j);
    StripWindow(a + s + b, |a| + i, |a| + j);
  }

  /** Around the window of `s`, the padded string is whitespace; at its ends it is not. */
  lemma PaddedWindow(a: string, s: string, b: string, i: nat, j: nat)
    requires forall k :: 0 <= k < |a| ==> IsSpace(a[k])
    requires forall k :: 0 <= k < |b| ==> IsSpace(b[k])
    requires i < j <= |s| && !IsSpace(s[i]) && !IsSpace(s[j - 1])
    requires forall k :: 0 <= k < i ==> IsSpace(s[k])
    requires forall k :: j <= k < |s| ==> IsSpace(s[k])
    ensures forall k :: 0 <= k < |a| + i ==> IsSpace((a + s + b)[k])
    ensures forall k :: |a| + j <= k < |a + s + b| ==> IsSpace((a + s + b)[k])
    ensures !IsSpace((a + s + b)[|a| + i]) && !IsSpace((a + s + b)[|a| + j - 1])
  {
    var t := a + s + b;
    forall k | 0 <= k < |a| + i ensures IsSpace(t[k]) {
      PaddedChar(a, s, b, k);
    }
    forall k | |a| + j <= k < |t| ensures IsSpace(t[k]) {
      PaddedChar(a, s, b, k);
    }
    PaddedChar(a, s, b, |a| + i);
    PaddedChar(a, s, b, |a| + j - 1);
  }

  lemma PaddedSlice(a: string, s: string, b: string, i: nat, j: nat)
    requires i <= j <= |s|
    ensures (a + s + b)[|a| + i..|a| + j] == s[i..j]
  {
    var t := a + s + b;
    forall k | 0 <= k < j - i ensures t[|a| + i..|a| + j][k] == s[i..j][k] {
      PaddedChar(a, s, b, |a| + i + k);
    }
  }

  lemma PaddedChar(a: string, s: string, b: string, k: nat)
    requires k < |a| + |s| + |b|
    ensures k < |a| ==> (a + s + b)[k] == a[k]
    ensures |a| <= k < |a| + |s| ==> (a + s + b)[k] == s[k - |a|]
    ensures |a| + |s| <= k ==> (a + s + b)[k] == b[k - |a| - |s|]
  {
  }

  predicate OccursAt(needle: string, hay: string, i: int) {
    0 <= i && i + |needle| <= |hay| && hay[i..i + |needle|] == needle
  }

  /** Python's `needle in hay` for strings. */
  predicate Contains(hay: string, needle: string) {
    exists i :: 0 <= i <= |hay| - |needle| && OccursAt(needle, hay, i)
  }

  /** An occurrence inside a slice is an occurrence in the whole string. */
  lemma ContainsInSlice(hay: string, a: nat, b: nat, needle: string)
    requires a <= b <= |hay|
    requires Contains(hay[a..b], needle)
    ensures Contains(hay, needle)
  {
    var i :| 0 <= i <= (b - a) - |needle| && OccursAt(needle, hay[a..b], i);
    var window, whole := hay[a..b][i..i + |needle|], hay[a + i..a + i + |needle|];
    forall k | 0 <= k < |needle| ensures window[k] == whole[k] {
      assert window[k] == hay[a..b][i + k];
    }
    assert window == whole;
    assert OccursAt(needle, hay, a + i);
  }

  /** First index at or after `i` where `needle` occurs, as `str.find` does. */
  function FindFrom(hay: string, needle: string, i: nat): (r: Option<nat>)
    requires i <= |hay|
    ensures r.Some? ==> i <= r.value && OccursAt(needle, hay, r.value)
    ensures r.Some? ==> forall k :: i <= k < r.value ==> !OccursAt(needle, hay, k)
    ensures r.None? ==> forall k :: i <= k ==> !OccursAt(needle, hay, k)
    decreases |hay| - i
  {
    if i + |needle| > |hay| then None
    else if OccursAt(needle, hay, i) then Some(i)
    else FindFrom(hay, needle, i + 1)
  }

  /** `hay.split(sep)` for a non-empty separator (Python raises ValueError on ""). */
  function Split(hay: string, sep: string): (parts: seq<string>)
    requires |sep| > 0
    ensures |parts| >= 1
    ensures forall p :: p in parts ==> !Contains(p, sep)
    decreases |hay|
  {
    match FindFrom(hay, sep, 0)
    case None =>
      assert !Contains(hay, sep);
      [hay]
    case Some(i) =>
      var head := hay[..i];
      assert !Contains(head, sep) by {
        forall k | 0 <= k <= |head| - |sep| ensures !OccursAt(sep, head, k) {
          assert !OccursAt(sep, hay, k);
          assert head[k..k + |sep|] == hay[k..k + |sep|];
        }
      }
      [head] + Split(hay[i + |sep|..], sep)
  }

  /** `sep.join(parts)`. */
  function Join(parts: seq<string>, sep: string): string
    requires |parts| >= 1
  {
    if |parts| == 1 then parts[0] else parts[0] + sep + Join(parts[1..], sep)
  }

  /** Splitting loses nothing: joining the pieces gives back the text. */
  lemma {:induction false} JoinSplit(hay: string, sep: string)
    requires |sep| > 0
    ensures Join(Split(hay, sep), sep) == hay
    decreases |hay|
  {
    match FindFrom(hay, sep, 0)
    case None =>
    case Some(i) =>
      JoinSplit(hay[i + |sep|..], sep);
      assert hay == hay[..i] + sep + hay[i + |sep|..];
  }

  lemma OccursAtOneChar(c: char, s: string, k: int)
    ensures OccursAt([c], s, k) <==> 0 <= k < |s| && s[k] == c
  {
    if 0 <= k < |s| { assert s[k..k + 1] == [s[k]]; }
  }

  /** With a one-character separator that no part contains, splitting undoes joining. */
  lemma {:induction false} SplitJoin(parts: seq<string>, c: char)
    requires |parts| >= 1
    requires forall p :: p in parts ==> c !in p
    ensures Split(Join(parts, [c]), [c]) == parts
    decreases |parts|
  {
    var s := Join(parts, [c]);
    var p := parts[0];
    if |parts| == 1 {
      forall k | 0 <= k ensures !OccursAt([c], s, k) {
        OccursAtOneChar(c, s, k);
        if k < |s| { assert s[k] in p; }
      }
    } else {
      var rest := Join(parts[1..], [c]);
      assert s == p + [c] + rest;
      assert OccursAt([c], s, |p|);
      forall k | 0 <= k < |p| ensures !OccursAt([c], s, k) {
        OccursAtOneChar(c, s, k);
        assert s[k] == p[k] && p[k] in p;
      }
      assert FindFrom(s, [c], 0) == Some(|p|);
      assert s[..|p|] == p;
      assert s[|p| + 1..] == rest;
      SplitJoin(parts[1..], c);
    }
  }

  /** Python's `a <= b` on strings: code-point lexicographic order. */
  predicate LexLe(a: string, b: string)
    decreases |a|
  {
    |a| == 0 || (|b| > 0 && (a[0] < b[0] || (a[0] == b[0] && LexLe(a[1..], b[1..]))))
  }

  lemma {:induction false} LexLeTotal(a: string, b: string)
    ensures LexLe(a, b) || LexLe(b, a)
    decreases |a|
  {
    if |a| > 0 && |b| > 0 && a[0] == b[0] { LexLeTotal(a[1..], b[1..]); }
  }

  lemma {:induction false} LexLeTransitive(a: string, b: string, c: string)
    requires LexLe(a, b) && LexLe(b, c)
    ensures LexLe(a, c)
    decreases |a|
  {
    if |a| > 0 && a[0] == b[0] && b[0] == c[0] { LexLeTransitive(a[1..], b[1..], c[1..]); }
  }

  lemma {:induction false} LexLeAntisymmetric(a: string, b: string)
    requires LexLe(a, b) && LexLe(b, a)
    ensures a == b
    decreases |a|
  {
    if |a| > 0 {
      LexLeAntisymmetric(a[1..], b[1..]);
      assert a == [a[0]] + a[1..] && b == [b[0]] + b[1..];
    }
  }
}
