/**
 * The parts of java.lang.String that the services depend on: joining with a
 * delimiter (String.join, Collectors.joining, StringJoiner), splitting on a
 * literal separator, trim(), isBlank(), equalsIgnoreCase() and the decimal
 * rendering of integers used by string concatenation and "%d".
 */
module Strings {
  import opened Wrappers

  // ---------------------------------------------------------------------------
  // Occurrences of a separator
  // ---------------------------------------------------------------------------

  /** `t` occurs in `s` starting at index `k`. */
  predicate OccursAt(s: string, t: string, k: nat) {
    k + |t| <= |s| && s[k..k + |t|] == t
  }

  /** `t` occurs somewhere in `s` (Java's `s.contains(t)`). */
  ghost predicate Contains(s: string, t: string) {
    exists k: nat :: OccursAt(s, t, k)
  }

  /** The first index at or after `k` where `sep` occurs in `s` (Java's `indexOf(sep, k)`). */
  function FindFrom(s: string, sep: string, k: nat): (r: Option<nat>)
    requires |sep| > 0
    ensures r.Some? ==> k <= r.value && OccursAt(s, sep, r.value)
    ensures r.Some? ==> forall j :: k <= j < r.value ==> !OccursAt(s, sep, j)
    ensures r.None? ==> forall j :: k <= j ==> !OccursAt(s, sep, j)
    decreases |s| - k
  {
    if k + |sep| > |s| then None
    else if s[k..k + |sep|] == sep then Some(k)
    else FindFrom(s, sep, k + 1)
  }

  // ---------------------------------------------------------------------------
  // Join and split
  // ---------------------------------------------------------------------------

  /**
   * The parts in order with `sep` between neighbours; the empty list gives "".
   * This is what String.join, Collectors.joining and StringJoiner all produce.
   */
  function Join(parts: seq<string>, sep: string): string {
    if |parts| == 0 then ""
    else if |parts| == 1 then parts[0]
    else parts[0] + sep + Join(parts[1..], sep)
  }

  /** Cuts `s` at every occurrence of `sep`, scanning left to right; keeps empty parts. */
  function Split(s: string, sep: string): (r: seq<string>)
    requires |sep| > 0
    ensures |r| >= 1
    decreases |s|
  {
    match FindFrom(s, sep, 0)
    case None => [s]
    case Some(k) => [s[..k]] + Split(s[k + |sep|..], sep)
  }

  /**
   * `p` followed by `sep` contains no occurrence of `sep` that starts inside
   * `p`: neither in `p` itself nor straddling the boundary. This is exactly what
   * a part needs for a left-to-right split to cut after it.
   */
  ghost predicate Separable(p: string, sep: string) {
    forall k: nat :: k < |p| ==> !OccursAt(p + sep, sep, k)
  }

  /** Every part occurs in the joined string, and the parts appear in the order given. */
  lemma {:induction false} JoinContainsPartsInOrder(parts: seq<string>, sep: string, i: nat)
    requires i < |parts|
    ensures OccursAt(Join(parts, sep), parts[i], Offset(parts, sep, i))
    ensures forall j :: i < j < |parts| ==> Offset(parts, sep, i) + |parts[i]| <= Offset(parts, sep, j)
    decreases |parts|
  {
    var s := Join(parts, sep);
    if |parts| > 1 {
      var tail := Join(parts[1..], sep);
      assert s == parts[0] + sep + tail;
      if i == 0 {
        assert s[..|parts[0]|] == parts[0];
        forall j | 0 < j < |parts| ensures |parts[0]| <= Offset(parts, sep, j) {
        }
      } else {
        JoinContainsPartsInOrder(parts[1..], sep, i - 1);
        var o := Offset(parts[1..], sep, i - 1);
        var base := |parts[0]| + |sep|;
        assert s[base + o..base + o + |parts[i]|] == tail[o..o + |parts[i]|];
        forall j | i < j < |parts|
          ensures Offset(parts, sep, i) + |parts[i]| <= Offset(parts, sep, j)
        {
          assert parts[1..][j - 1] == parts[j];
        }
      }
    }
  }

  /** Where part `i` starts in `Join(parts, sep)`. */
  function Offset(parts: seq<string>, sep: string, i: nat): nat
    requires i < |parts|
  {
    if i == 0 then 0 else |parts[0]| + |sep| + Offset(parts[1..], sep, i - 1)
  }

  lemma {:induction false} FindAtBoundary(p: string, sep: string, rest: string, k: nat)
    requires |sep| > 0 && Separable(p, sep) && k <= |p|
    ensures FindFrom(p + sep + rest, sep, k) == Some(|p|)
    decreases |p| - k
  {
    var s := p + sep + rest;
    if k < |p| {
      assert s[k..k + |sep|] == (p + sep)[k..k + |sep|];
      assert !OccursAt(p + sep, sep, k);
      FindAtBoundary(p, sep, rest, k + 1);
    } else {
      assert s[k..k + |sep|] == sep;
    }
  }

  lemma {:induction false} SeparableHasNoOccurrence(p: string, sep: string, k: nat)
    requires |sep| > 0 && Separable(p, sep)
    ensures FindFrom(p, sep, k) == None
    decreases |p| + 1 - k
  {
    if k + |sep| <= |p| {
      assert p[k..k + |sep|] == (p + sep)[k..k + |sep|];
      assert !OccursAt(p + sep, sep, k);
      SeparableHasNoOccurrence(p, sep, k + 1);
    }
  }

  /** A part without the separator's first character is separable. */
  lemma SeparableWithoutFirstChar(p: string, sep: string)
    requires |sep| > 0
    requires forall i :: 0 <= i < |p| ==> p[i] != sep[0]
    ensures Separable(p, sep)
  {
    forall k: nat | k < |p| ensures !OccursAt(p + sep, sep, k) {
      assert (p + sep)[k] == p[k];
    }
  }

  /**
   * Round trip: splitting a non-empty join recovers the parts exactly, when
   * every part is separable.
   */
  lemma {:induction false} SplitJoin(parts: seq<string>, sep: string)
    requires |parts| >= 1 && |sep| > 0
    requires forall i :: 0 <= i < |parts| ==> Separable(parts[i], sep)
    ensures Split(Join(parts, sep), sep) == parts
    decreases |parts|
  {
    var p := parts[0];
    if |parts| == 1 {
      assert Join(parts, sep) == p;
      SeparableHasNoOccurrence(p, sep, 0);
      assert Split(p, sep) == [p];
    } else {
      var tail := Join(parts[1..], sep);
      var s := p + sep + tail;
      assert Join(parts, sep) == s;
      FindAtBoundary(p, sep, tail, 0);
      assert Split(s, sep) == [s[..|p|]] + Split(s[|p| + |sep|..], sep);
      assert s[..|p|] == p;
      assert s[|p| + |sep|..] == tail;
      SplitJoin(parts[1..], sep);
      assert [p] + parts[1..] == parts;
    }
  }

  /** Adding a part at the end, as StringJoiner.add does, puts one separator before it. */
  lemma {:induction false} JoinSnoc(parts: seq<string>, p: string, sep: string)
    ensures Join(parts + [p], sep) == if parts == [] then p else Join(parts, sep) + sep + p
    decreases |parts|
  {
    if |parts| == 1 {
      assert (parts + [p])[1..] == [p];
    } else if |parts| > 1 {
      assert (parts + [p])[1..] == parts[1..] + [p];
      JoinSnoc(parts[1..], p, sep);
    }
  }

  /** Putting a part in front of a non-empty list puts one separator after it. */
  lemma JoinCons(p: string, parts: seq<string>, sep: string)
    requires |parts| >= 1
    ensures Join([p] + parts, sep) == p + sep + Join(parts, sep)
  {
    assert ([p] + parts)[1..] == parts;
  }

  /** Where `sep` occurs, `Split` cuts at its first occurrence and goes on after it. */
  lemma SplitAtFirst(s: string, sep: string) returns (k: nat)
    requires |sep| > 0 && FindFrom(s, sep, 0).Some?
    ensures k + |sep| <= |s| && s == s[..k] + sep + s[k + |sep|..]
    ensures Split(s, sep) == [s[..k]] + Split(s[k + |sep|..], sep)
  {
    k := FindFrom(s, sep, 0).value;
    assert s == s[..k] + s[k..k + |sep|] + s[k + |sep|..];
  }

  /** Splitting and joining again with the same separator gives the string back. */
  lemma {:induction false} JoinSplit(s: string, sep: string)
    requires |sep| > 0
    ensures Join(Split(s, sep), sep) == s
    decreases |s|
  {
    if FindFrom(s, sep, 0).Some? {
      var k := SplitAtFirst(s, sep);
      var rest := s[k + |sep|..];
      JoinSplit(rest, sep);
      JoinCons(s[..k], Split(rest, sep), sep);
    }
  }

  /** Drops the empty strings at the end of the list. */
  function DropTrailingEmpty(parts: seq<string>): (r: seq<string>)
    ensures |r| <= |parts| && r == parts[..|r|]
    ensures r == [] || r[|r| - 1] != ""
    ensures forall i :: |r| <= i < |parts| ==> parts[i] == ""
  {
    if parts != [] && parts[|parts| - 1] == "" then DropTrailingEmpty(parts[..|parts| - 1]) else parts
  }

  /**
   * Java's `s.split(regex)` for a regex that matches only the literal `sep`,
   * with the default limit: the string itself when `sep` does not occur,
   * otherwise the parts between occurrences with the trailing empty ones removed.
   */
  function JavaSplit(s: string, sep: string): seq<string>
    requires |sep| > 0
  {
    if FindFrom(s, sep, 0).None? then [s] else DropTrailingEmpty(Split(s, sep))
  }

  /** Every part `JavaSplit` yields lies between occurrences of `sep`, and the dropped parts are empty. */
  lemma JavaSplitParts(s: string, sep: string)
    requires |sep| > 0
    ensures var r := JavaSplit(s, sep);
      && |r| <= |Split(s, sep)|
      && r == Split(s, sep)[..|r|]
      && forall i :: |r| <= i < |Split(s, sep)| ==> Split(s, sep)[i] == ""
  {
    if FindFrom(s, sep, 0).None? {
      assert Split(s, sep) == [s];
    }
  }

  // ---------------------------------------------------------------------------
  // Blank strings and trimming
  // ---------------------------------------------------------------------------

  /**
   * Java's Character.isWhitespace: the Unicode space, line and paragraph
   * separators other than the no-break spaces U+00A0, U+2007 and U+202F, plus
   * the controls U+0009..U+000D and U+001C..U+001F.
   */
  predicate IsWhitespace(c: char) {
    || c == ' '
    || '\t' <= c <= '\r'
    || '\U{1C}' <= c <= '\U{1F}'
    || c == '\U{1680}'
    || '\U{2000}' <= c <= '\U{2006}'
    || '\U{2008}' <= c <= '\U{200A}'
    || c == '\U{2028}' || c == '\U{2029}'
    || c == '\U{205F}' || c == '\U{3000}'
  }

  /** Java's `isBlank()`: empty, or whitespace only. */
  predicate IsBlank(s: string) {
    forall i :: 0 <= i < |s| ==> IsWhitespace(s[i])
  }

  /** The characters `trim()` removes: every code point up to U+0020. */
  predicate IsTrimmable(c: char) {
    c <= ' '
  }

  /** Neither end of `s` holds a character `trim()` removes. */
  predicate IsTrimmed(s: string) {
    s == [] || (!IsTrimmable(s[0]) && !IsTrimmable(s[|s| - 1]))
  }

  function TrimStart(s: string): (r: string)
    ensures r == [] || !IsTrimmable(r[0])
    ensures |r| <= |s| && r == s[|s| - |r|..]
    ensures forall i :: 0 <= i < |s| - |r| ==> IsTrimmable(s[i])
  {
    if |s| > 0 && IsTrimmable(s[0]) then TrimStart(s[1..]) else s
  }

  function TrimEnd(s: string): (r: string)
    ensures r == [] || !IsTrimmable(r[|r| - 1])
    ensures |r| <= |s| && r == s[..|r|]
    ensures forall i :: |r| <= i < |s| ==> IsTrimmable(s[i])
  {
    if |s| > 0 && IsTrimmable(s[|s| - 1]) then TrimEnd(s[..|s| - 1]) else s
  }

  /** Java's `trim()`: drops leading and trailing characters up to U+0020. */
  function Trim(s: string): string {
    TrimEnd(TrimStart(s))
  }

  /** What `trim()` returns has nothing left to trim at either end. */
  lemma TrimSpec(s: string)
    ensures IsTrimmed(Trim(s))
  {
    var t := TrimStart(s);
    var r := TrimEnd(t);
    if r != [] {
      assert r[0] == t[0];
    }
  }

  /** A trimmed string is left alone by `trim()`, so trimming is idempotent. */
  lemma TrimOfTrimmed(s: string)
    requires IsTrimmed(s)
    ensures Trim(s) == s
  {
  }

  lemma TrimIdempotent(s: string)
    ensures Trim(Trim(s)) == Trim(s)
  {
    TrimSpec(s);
    TrimOfTrimmed(Trim(s));
  }

  // ---------------------------------------------------------------------------
  // Case-insensitive comparison
  // ---------------------------------------------------------------------------

  /** ASCII upper-casing; every other character is its own upper case here. */
  function AsciiUpper(c: char): (u: char)
    ensures 'a' <= c <= 'z' ==> u as int == c as int - 32
    ensures !('a' <= c <= 'z') ==> u == c
  {
    if 'a' <= c <= 'z' then (c as int - 32) as char else c
  }

  /** Java's `equalsIgnoreCase`, with case folding restricted to ASCII letters. */
  predicate EqualsIgnoreCase(a: string, b: string) {
    |a| == |b| && forall i :: 0 <= i < |a| ==> AsciiUpper(a[i]) == AsciiUpper(b[i])
  }

  // ---------------------------------------------------------------------------
  // Decimal rendering of integers
  // ---------------------------------------------------------------------------

  predicate IsDigit(c: char) {
    '0' <= c <= '9'
  }

  function DigitChar(d: nat): (c: char)
    requires d < 10
    ensures IsDigit(c) && c as int - '0' as int == d
  {
    ('0' as int + d) as char
  }

  /** The decimal digits of `n` without leading zeros (Java's `Integer.toString`, "%d"). */
  function NatToDecimal(n: nat): (r: string)
    ensures |r| >= 1
    ensures forall i :: 0 <= i < |r| ==> IsDigit(r[i])
    ensures |r| > 1 ==> r[0] != '0'
  {
    if n < 10 then [DigitChar(n)] else NatToDecimal(n / 10) + [DigitChar(n % 10)]
  }

  /** The number a string of decimal digits denotes. */
  function DecimalValue(s: string): nat
    requires forall i :: 0 <= i < |s| ==> IsDigit(s[i])
  {
    if s == [] then 0
    else
      var last := s[|s| - 1];
      assert IsDigit(last);
      DecimalValue(s[..|s| - 1]) * 10 + (last as int - '0' as int)
  }

  /** Reading back the rendering gives the number: the rendering is unambiguous. */
  lemma {:induction false} DecimalRoundTrip(n: nat)
    ensures DecimalValue(NatToDecimal(n)) == n
  {
    if n >= 10 {
      var r := NatToDecimal(n);
      assert r[..|r| - 1] == NatToDecimal(n / 10);
      DecimalRoundTrip(n / 10);
    }
  }

  /** Java's `Long.toString` / `Integer.toString` on a signed value. */
  function IntToDecimal(i: int): (r: string)
  {
    if i < 0 then "-" + NatToDecimal(-i) else NatToDecimal(i)
  }
}
