/** The string operations the portal calls on user input: `trim`,
    `toLowerCase`, `includes`, `startsWith`, `replace` with a string pattern,
    `split` on a one-character separator, and decimal rendering of counts. */
module Text {
  import opened Js

  /** The code points JavaScript's `String.prototype.trim` removes: the
      ECMAScript WhiteSpace and LineTerminator characters. */
  predicate IsJsWhitespace(c: char) {
    || c == '\t' || c == '\n' || c == '\U{000B}' || c == '\U{000C}' || c == '\r' || c == ' '
    || c == '\U{00A0}' || c == '\U{1680}' || ('\U{2000}' <= c <= '\U{200A}')
    || c == '\U{2028}' || c == '\U{2029}' || c == '\U{202F}' || c == '\U{205F}'
    || c == '\U{3000}' || c == '\U{FEFF}'
  }

  ghost predicate AllWhitespace(s: string) {
    forall i :: 0 <= i < |s| ==> IsJsWhitespace(s[i])
  }

  /** JavaScript `.length`: UTF-16 code units, so a character outside the
      Basic Multilingual Plane counts twice. zod's `min`/`max` use this length. */
  function JsLength(s: string): (n: nat)
    ensures n >= |s|
  {
    if s == [] then 0 else (if s[0] as int > 0xFFFF then 2 else 1) + JsLength(s[1..])
  }

  lemma {:induction false} JsLengthAppend(a: string, b: string)
    ensures JsLength(a + b) == JsLength(a) + JsLength(b)
    decreases |a|
  {
    if a == [] {
      assert a + b == b;
    } else {
      assert (a + b)[0] == a[0];
      assert (a + b)[1..] == a[1..] + b;
      JsLengthAppend(a[1..], b);
    }
  }

  /** For text in the Basic Multilingual Plane `.length` is the number of characters. */
  lemma {:induction false} JsLengthBmp(s: string)
    requires forall i :: 0 <= i < |s| ==> s[i] as int <= 0xFFFF
    ensures JsLength(s) == |s|
    decreases |s|
  {
    if s != [] {
      assert forall i :: 0 <= i < |s| - 1 ==> s[1..][i] == s[i + 1];
      JsLengthBmp(s[1..]);
    }
  }

  // ---------------------------------------------------------------------
  // Substring search

  predicate IsPrefix(p: string, s: string) {
    |p| <= |s| && s[..|p|] == p
  }

  /** `needle` occurs in `s` starting at index `i`. */
  predicate OccursAt(s: string, needle: string, i: int) {
    0 <= i && i + |needle| <= |s| && s[i..i + |needle|] == needle
  }

  lemma OccursAtShift(s: string, needle: string, k: int)
    requires |s| > 0 && k >= 0
    ensures OccursAt(s[1..], needle, k) <==> OccursAt(s, needle, k + 1)
  {
    if 0 <= k && k + |needle| <= |s| - 1 {
      assert s[1..][k..k + |needle|] == s[k + 1..k + 1 + |needle|];
    }
  }

  /** `s.indexOf(needle)`: the first position where `needle` occurs. */
  function IndexOf(s: string, needle: string): (r: Option<nat>)
    ensures r.Some? ==> OccursAt(s, needle, r.value)
    ensures r.Some? ==> forall j :: 0 <= j < r.value ==> !OccursAt(s, needle, j)
    ensures r.None? ==> forall j :: !OccursAt(s, needle, j)
    decreases |s|
  {
    if IsPrefix(needle, s) then
      assert OccursAt(s, needle, 0);
      Some(0)
    else if |s| == 0 then
      None
    else
      var rest := IndexOf(s[1..], needle);
      assert forall j :: j >= 0 ==> (OccursAt(s[1..], needle, j) <==> OccursAt(s, needle, j + 1)) by {
        forall j | j >= 0 { OccursAtShift(s, needle, j); }
      }
      assert forall j :: j <= 0 ==> !OccursAt(s, needle, j);
      assert forall j :: j >= 1 ==> (OccursAt(s, needle, j) <==> OccursAt(s[1..], needle, j - 1));
      match rest
      case None => None
      case Some(k) => Some(k + 1)
  }

  /** `s.includes(needle)`. */
  predicate Contains(s: string, needle: string) {
    IndexOf(s, needle).Some?
  }

  /** `includes` agrees with the textbook definition: some window of `s` equals `needle`. */
  lemma ContainsIff(s: string, needle: string)
    ensures Contains(s, needle) <==> exists i :: OccursAt(s, needle, i)
  {
  }

  /** Every string includes the empty string. */
  lemma ContainsEmpty(s: string)
    ensures Contains(s, "")
  {
    assert OccursAt(s, "", 0);
  }

  /** An occurrence with none before it is what `indexOf` finds. */
  lemma IndexOfFirst(s: string, needle: string, k: nat)
    requires OccursAt(s, needle, k)
    requires forall j :: 0 <= j < k ==> !OccursAt(s, needle, j)
    ensures IndexOf(s, needle) == Some(k)
  {
  }

  /** `s.replace(pattern, replacement)` with a string pattern: only the first
      occurrence is replaced; with no occurrence `s` is returned unchanged. */
  function ReplaceFirst(s: string, pattern: string, replacement: string): (r: string)
    ensures IndexOf(s, pattern).None? ==> r == s
    ensures IndexOf(s, pattern).Some? ==>
      var i := IndexOf(s, pattern).value;
      r == s[..i] + replacement + s[i + |pattern|..]
  {
    match IndexOf(s, pattern)
    case None => s
    case Some(i) => s[..i] + replacement + s[i + |pattern|..]
  }

  /** Replacing a one-character pattern by a one-character replacement
      rewrites exactly the first occurrence and leaves every other position. */
  lemma ReplaceFirstChar(s: string, a: char, b: char)
    ensures |ReplaceFirst(s, [a], [b])| == |s|
    ensures a !in s ==> ReplaceFirst(s, [a], [b]) == s
    ensures a in s ==>
      exists i :: 0 <= i < |s| && s[i] == a && a !in s[..i]
        && ReplaceFirst(s, [a], [b]) == s[i := b]
  {
    match IndexOf(s, [a])
    case None =>
      forall j | 0 <= j < |s| ensures s[j] != a {
        assert !OccursAt(s, [a], j);
        assert s[j..j + 1][0] == s[j];
      }
    case Some(i) =>
      assert OccursAt(s, [a], i);
      assert s[i] == a;
      forall j | 0 <= j < i ensures s[j] != a {
        assert !OccursAt(s, [a], j);
      }
      assert s[..i] + [b] + s[i + 1..] == s[i := b];
  }

  // ---------------------------------------------------------------------
  // Trimming

  /** The first index at or after `i` that does not hold whitespace (or `|s|`). */
  function TrimLo(s: string, i: nat): (lo: nat)
    requires i <= |s|
    ensures i <= lo <= |s|
    ensures forall k :: i <= k < lo ==> IsJsWhitespace(s[k])
    ensures lo == |s| || !IsJsWhitespace(s[lo])
    decreases |s| - i
  {
    if i < |s| && IsJsWhitespace(s[i]) then TrimLo(s, i + 1) else i
  }

  /** The end of `s[lo..j]` once trailing whitespace is dropped. */
  function TrimHi(s: string, lo: nat, j: nat): (hi: nat)
    requires lo <= j <= |s|
    ensures lo <= hi <= j
    ensures forall k :: hi <= k < j ==> IsJsWhitespace(s[k])
    ensures hi == lo || !IsJsWhitespace(s[hi - 1])
    decreases j
  {
    if j > lo && IsJsWhitespace(s[j - 1]) then TrimHi(s, lo, j - 1) else j
  }

  /** Where `Trim(s)` starts inside `s`. */
  function TrimOffset(s: string): (lo: nat)
    ensures lo <= |s|
  {
    TrimLo(s, 0)
  }

  /** `s.trim()`: the infix of `s` that neither starts nor ends with
      whitespace, with only whitespace cut away around it. */
  function Trim(s: string): (r: string)
    ensures |r| <= |s|
    ensures r == [] || (!IsJsWhitespace(r[0]) && !IsJsWhitespace(r[|r| - 1]))
    ensures TrimOffset(s) + |r| <= |s|
    ensures r == s[TrimOffset(s)..TrimOffset(s) + |r|]
    ensures forall i :: 0 <= i < TrimOffset(s) ==> IsJsWhitespace(s[i])
    ensures forall i :: TrimOffset(s) + |r| <= i < |s| ==> IsJsWhitespace(s[i])
  {
    var lo := TrimOffset(s);
    var hi := TrimHi(s, lo, |s|);
    s[lo..hi]
  }

  /** Trimming is idempotent, so validating an already trimmed value sees the same text. */
  lemma TrimIdempotent(s: string)
    ensures Trim(Trim(s)) == Trim(s)
  {
    var r := Trim(s);
    if r != [] {
      assert TrimOffset(r) == 0;
      assert TrimHi(r, 0, |r|) == |r|;
      assert r[0..|r|] == r;
    }
  }

  /** `s.trim()` is empty exactly when `s` is whitespace only. */
  lemma TrimEmptyIff(s: string)
    ensures Trim(s) == [] <==> AllWhitespace(s)
  {
    var lo := TrimOffset(s);
    if AllWhitespace(s) {
      assert lo == |s|;
    }
  }

  // ---------------------------------------------------------------------
  // Case

  /** ASCII-only lower-casing; Unicode case mapping is not modelled. */
  function LowerChar(c: char): char {
    if 'A' <= c <= 'Z' then (c as int + 32) as char else c
  }

  function ToLower(s: string): (r: string)
    ensures |r| == |s|
    ensures forall i :: 0 <= i < |s| ==> r[i] == LowerChar(s[i])
  {
    if s == [] then [] else [LowerChar(s[0])] + ToLower(s[1..])
  }

  /** Lower-casing twice changes nothing, so a lower-cased query matches like the raw one. */
  lemma ToLowerIdempotent(s: string)
    ensures ToLower(ToLower(s)) == ToLower(s)
  {
  }

  // ---------------------------------------------------------------------
  // Splitting on a one-character separator

  /** `s.split(sep)` for a one-character string separator. */
  function Split(s: string, sep: char): (parts: seq<string>)
    ensures |parts| >= 1
    ensures forall i :: 0 <= i < |parts| ==> sep !in parts[i]
    ensures IsPrefix(parts[0], s) && (|parts[0]| == |s| || s[|parts[0]|] == sep)
    ensures |parts| == 1 <==> sep !in s
    decreases |s|
  {
    if s == [] then
      [[]]
    else
      var rest := Split(s[1..], sep);
      if s[0] == sep then
        [[]] + rest
      else
        [[s[0]] + rest[0]] + rest[1..]
  }

  function Join(parts: seq<string>, sep: char): string
    requires |parts| >= 1
  {
    if |parts| == 1 then parts[0] else parts[0] + [sep] + Join(parts[1..], sep)
  }

  /** `split` loses nothing: joining the parts back with the separator gives the input. */
  lemma {:induction false} JoinSplit(s: string, sep: char)
    ensures Join(Split(s, sep), sep) == s
    decreases |s|
  {
    if s != [] {
      var rest := Split(s[1..], sep);
      assert Join(rest, sep) == s[1..] by {
        JoinSplit(s[1..], sep);
      }
      if s[0] == sep {
        assert Join(Split(s, sep), sep) == [sep] + Join(rest, sep) by {
          assert Split(s, sep) == [[]] + rest;
          JoinSeparatorFirst(rest, sep);
        }
      } else {
        assert Join(Split(s, sep), sep) == [s[0]] + Join(rest, sep) by {
          assert Split(s, sep) == [[s[0]] + rest[0]] + rest[1..];
          JoinCharFirst(rest, s[0], sep);
        }
      }
      assert s == [s[0]] + s[1..];
    }
  }

  /** Prepending an empty part puts a separator in front of the join. */
  lemma JoinSeparatorFirst(rest: seq<string>, sep: char)
    requires |rest| >= 1
    ensures Join([[]] + rest, sep) == [sep] + Join(rest, sep)
  {
    assert ([[]] + rest)[1..] == rest;
  }

  /** Prepending a character to the first part prepends it to the join. */
  lemma JoinCharFirst(rest: seq<string>, c: char, sep: char)
    requires |rest| >= 1
    ensures Join([[c] + rest[0]] + rest[1..], sep) == [c] + Join(rest, sep)
  {
    var parts := [[c] + rest[0]] + rest[1..];
    if |rest| >= 2 {
      var x := rest[0];
      var y := [sep] + Join(rest[1..], sep);
      assert parts[1..] == rest[1..];
      JoinStep(parts, sep);
      JoinStep(rest, sep);
      assert ([c] + x) + y == [c] + (x + y);
    }
  }

  /** Unfolds `Join` once for a list of at least two parts. */
  lemma JoinStep(parts: seq<string>, sep: char)
    requires |parts| >= 2
    ensures Join(parts, sep) == parts[0] + ([sep] + Join(parts[1..], sep))
  {
  }

  /** `s.split(sep).pop()`: the text after the last separator (all of `s` when
      there is none). */
  function LastSegment(s: string, sep: char): (r: string)
    ensures sep !in r
    ensures sep !in s ==> r == s
  {
    var parts := Split(s, sep);
    parts[|parts| - 1]
  }

  /** The last segment is a suffix of the input that starts right after a
      separator or at the start. */
  lemma {:induction false} LastSegmentIsSuffix(s: string, sep: char)
    ensures var r := LastSegment(s, sep);
      |r| <= |s| && r == s[|s| - |r|..] && (|r| == |s| || s[|s| - |r| - 1] == sep)
    decreases |s|
  {
    if s != [] {
      var rest := Split(s[1..], sep);
      var parts := Split(s, sep);
      var r := LastSegment(s, sep);
      if s[0] != sep && |rest| == 1 {
        assert parts == [[s[0]] + rest[0]];
        assert |rest[0]| == |s| - 1;
        assert r == s;
      } else {
        LastSegmentIsSuffix(s[1..], sep);
        assert r == rest[|rest| - 1];
        assert s[1..][|s| - 1 - |r|..] == s[|s| - |r|..];
      }
    }
  }

  // ---------------------------------------------------------------------
  // Decimal rendering

  predicate IsDigit(c: char) {
    '0' <= c <= '9'
  }

  /** Decimal rendering of a natural number without leading zeros. */
  function NatToString(n: nat): (r: string)
    ensures |r| >= 1
    ensures forall i :: 0 <= i < |r| ==> IsDigit(r[i])
    ensures |r| > 1 ==> r[0] != '0'
    decreases n
  {
    if n < 10 then ["0123456789"[n]] else NatToString(n / 10) + ["0123456789"[n % 10]]
  }

  /** The value of a string of decimal digits. */
  function DigitsValue(s: string): nat
    requires forall i :: 0 <= i < |s| ==> IsDigit(s[i])
  {
    if s == [] then 0
    else
      assert IsDigit(s[|s| - 1]);
      10 * DigitsValue(s[..|s| - 1]) + (s[|s| - 1] as int - '0' as int)
  }

  /** Reading the rendered digits back gives the number. */
  lemma {:induction false} NatToStringRoundTrip(n: nat)
    ensures DigitsValue(NatToString(n)) == n
    decreases n
  {
    var r := NatToString(n);
    var d := n % 10;
    assert "0123456789"[d] as int - '0' as int == d by {
      DigitCharValue(d);
    }
    if n < 10 {
      assert r == ["0123456789"[n]];
      assert r[..0] == [];
    } else {
      assert DigitsValue(NatToString(n / 10)) == n / 10 by {
        NatToStringRoundTrip(n / 10);
      }
      assert r[..|r| - 1] == NatToString(n / 10);
      assert r[|r| - 1] == "0123456789"[d];
    }
  }

  /** The character rendered for a digit reads back as that digit. */
  lemma DigitCharValue(d: nat)
    requires d < 10
    ensures "0123456789"[d] as int - '0' as int == d
  {
  }
}
