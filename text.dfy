/** The few Python string operations the clip engine relies on, on `string`
    (a sequence of Unicode scalar values, as Python's `str` is a sequence of
    code points): `startswith`, `endswith`, `split` on a one-character
    separator, `strip`, `in` (substring), `list.index`, and the digit run
    read by the fade sigil's regular expression. */
module Text {
  import opened Results

  predicate StartsWith(s: string, p: string) {
    |p| <= |s| && s[..|p|] == p
  }

  predicate EndsWith(s: string, p: string) {
    |p| <= |s| && s[|s| - |p|..] == p
  }

  /** `needle` occurs in `haystack` starting at position `i`. */
  predicate OccursAt(haystack: string, needle: string, i: int) {
    0 <= i <= |haystack| - |needle| && haystack[i..i + |needle|] == needle
  }

  /** Python's `needle in haystack` on strings. */
  predicate Contains(haystack: string, needle: string) {
    exists i | 0 <= i <= |haystack| :: OccursAt(haystack, needle, i)
  }

  /** The characters for which Python's `str.isspace()` holds; `strip()` with
      no argument removes exactly these. */
  predicate IsSpace(c: char) {
    ('\t' <= c <= '\r') || ('\U{1C}' <= c <= '\U{1F}') || c == ' '
    || c == '\U{85}' || c == '\U{A0}' || c == '\U{1680}'
    || ('\U{2000}' <= c <= '\U{200A}') || c == '\U{2028}' || c == '\U{2029}'
    || c == '\U{202F}' || c == '\U{205F}' || c == '\U{3000}'
  }

  /** How many white-space characters `s` starts with. */
  function LeadSpaces(s: string): (n: nat)
    ensures n <= |s|
  {
    if s == [] || !IsSpace(s[0]) then 0 else 1 + LeadSpaces(s[1..])
  }

  /** `LeadSpaces(s)` counts the white space before the first other
      character. */
  lemma {:induction false} LeadSpacesShape(s: string)
    ensures forall i :: 0 <= i < LeadSpaces(s) ==> IsSpace(s[i])
    ensures LeadSpaces(s) == |s| || !IsSpace(s[LeadSpaces(s)])
  {
    if s != [] && IsSpace(s[0]) {
      LeadSpacesShape(s[1..]);
    }
  }

  /** How many white-space characters `s` ends with. */
  function TrailSpaces(s: string): (n: nat)
    ensures n <= |s|
  {
    if s == [] || !IsSpace(s[|s| - 1]) then 0 else 1 + TrailSpaces(s[..|s| - 1])
  }

  /** `TrailSpaces(s)` counts the white space after the last other
      character. */
  lemma {:induction false} TrailSpacesShape(s: string)
    ensures forall i :: |s| - TrailSpaces(s) <= i < |s| ==> IsSpace(s[i])
    ensures TrailSpaces(s) == |s| || !IsSpace(s[|s| - 1 - TrailSpaces(s)])
  {
    if s != [] && IsSpace(s[|s| - 1]) {
      TrailSpacesShape(s[..|s| - 1]);
    }
  }

  /** Python's `s.lstrip()`. */
  function StripLeft(s: string): string {
    s[LeadSpaces(s)..]
  }

  /** Python's `s.rstrip()`. */
  function StripRight(s: string): string {
    s[..|s| - TrailSpaces(s)]
  }

  /** Python's `s.strip()`. */
  function Strip(s: string): string {
    StripRight(StripLeft(s))
  }

  /** A leading space never survives `strip()`: this is why the space that
      `ftext()` puts before an Isolated clip never reaches a style token. */
  lemma StripLeadingSpace(s: string)
    ensures Strip([' '] + s) == Strip(s)
  {
    assert ([' '] + s)[1..] == s;
  }

  /** `strip()` leaves nothing more to strip: a style token read through
      `strip()` is its own stripped form. */
  lemma StripIdempotent(s: string)
    ensures Strip(Strip(s)) == Strip(s)
  {
    var u := StripLeft(s);
    var r := StripRight(u);
    LeadSpacesShape(s);
    TrailSpacesShape(u);
    if r != [] {
      assert r[0] == u[0] && r[|r| - 1] == u[|u| - 1 - TrailSpaces(u)];
      assert LeadSpaces(r) == 0;
      assert StripLeft(r) == r;
      assert TrailSpaces(r) == 0;
    }
  }

  /** Python's `s.split(sep)` for a one-character separator: the pieces
      between separators, at least one (`"".split(":") == [""]`). */
  function Split(s: string, sep: char): (parts: seq<string>)
    ensures |parts| >= 1
    decreases |s|
  {
    if |s| == 0 then [""]
    else
      var rest := Split(s[1..], sep);
      if s[0] == sep then [""] + rest else [[s[0]] + rest[0]] + rest[1..]
  }

  /** Python's `sep.join(parts)`. */
  function Join(parts: seq<string>, sep: char): string
    requires |parts| >= 1
  {
    if |parts| == 1 then parts[0] else parts[0] + [sep] + Join(parts[1..], sep)
  }

  /** No piece of a split holds the separator. */
  lemma {:induction false} SplitPiecesLackSeparator(s: string, sep: char)
    ensures forall i :: 0 <= i < |Split(s, sep)| ==> sep !in Split(s, sep)[i]
    decreases |s|
  {
    if |s| > 0 {
      SplitPiecesLackSeparator(s[1..], sep);
    }
  }

  /** Joining the pieces with the separator gives back the string. */
  lemma {:induction false} JoinSplit(s: string, sep: char)
    ensures Join(Split(s, sep), sep) == s
    decreases |s|
  {
    if |s| > 0 {
      var rest := Split(s[1..], sep);
      JoinSplit(s[1..], sep);
      if s[0] == sep {
        assert Split(s, sep)[1..] == rest;
      } else {
        var parts := Split(s, sep);
        if |rest| > 1 {
          assert parts[1..] == rest[1..];
        }
      }
    }
  }

  /** Splitting a join of separator-free pieces gives back the pieces. */
  lemma {:induction false} SplitJoin(parts: seq<string>, sep: char)
    requires |parts| >= 1
    requires forall i :: 0 <= i < |parts| ==> sep !in parts[i]
    ensures Split(Join(parts, sep), sep) == parts
    decreases |parts|, |parts[0]|
  {
    if |parts| == 1 {
      SplitOfSeparatorFree(parts[0], sep);
    } else if |parts[0]| == 0 {
      SplitJoin(parts[1..], sep);
      assert Join(parts, sep) == [sep] + Join(parts[1..], sep);
      SplitCons(sep, Join(parts[1..], sep), sep);
      assert [parts[0]] + parts[1..] == parts;
    } else {
      var c, tail := parts[0][0], [parts[0][1..]] + parts[1..];
      assert tail[1..] == parts[1..];
      SplitJoin(tail, sep);
      assert Join(parts, sep) == [c] + Join(tail, sep);
      SplitCons(c, Join(tail, sep), sep);
      assert [c] + parts[0][1..] == parts[0];
      assert [parts[0]] + parts[1..] == parts;
    }
  }

  /** Splitting a string one character longer at the front. */
  lemma SplitCons(c: char, s: string, sep: char)
    ensures Split([c] + s, sep) ==
      if c == sep then [""] + Split(s, sep) else [[c] + Split(s, sep)[0]] + Split(s, sep)[1..]
  {
    assert ([c] + s)[1..] == s;
  }

  lemma {:induction false} SplitOfSeparatorFree(s: string, sep: char)
    requires sep !in s
    ensures Split(s, sep) == [s]
    decreases |s|
  {
    if |s| > 0 {
      SplitOfSeparatorFree(s[1..], sep);
      assert [s[0]] + s[1..] == s;
    }
  }

  /** The first piece is the longest separator-free prefix: it is a prefix,
      and it is followed by a separator unless it is the whole string. */
  lemma {:induction false} FirstPiece(s: string, sep: char)
    ensures StartsWith(s, Split(s, sep)[0])
    ensures sep !in Split(s, sep)[0]
    ensures |Split(s, sep)[0]| < |s| ==> s[|Split(s, sep)[0]|] == sep
    decreases |s|
  {
    if |s| > 0 {
      FirstPiece(s[1..], sep);
    }
  }

  /** The position of the first occurrence of `x` (Python's `list.index`,
      with `None` where Python raises `ValueError`). */
  function IndexOf<T(==)>(xs: seq<T>, x: T): (r: Option<nat>)
    ensures r.Some? ==> r.value < |xs| && xs[r.value] == x && x !in xs[..r.value]
    ensures r.None? <==> x !in xs
  {
    if |xs| == 0 then None
    else if xs[0] == x then Some(0)
    else
      var rest := IndexOf(xs[1..], x);
      assert xs[1..][..0] == [];
      match rest
      case None => None
      case Some(i) =>
        assert xs[..i + 1] == [xs[0]] + xs[1..][..i];
        Some(i + 1)
  }

  predicate IsDigit(c: char) {
    '0' <= c <= '9'
  }

  predicate AllDigits(s: string) {
    forall i :: 0 <= i < |s| ==> IsDigit(s[i])
  }

  /** The longest prefix of ASCII digits: what `[0-9]+` at the start of a
      string matches, when it matches at all. */
  function LeadingDigits(s: string): (d: string)
    ensures StartsWith(s, d) && AllDigits(d)
    ensures |d| < |s| ==> !IsDigit(s[|d|])
  {
    if |s| == 0 || !IsDigit(s[0]) then [] else [s[0]] + LeadingDigits(s[1..])
  }

  /** Python's `int(d)` on a string of ASCII digits (leading zeros allowed). */
  function DigitsValue(d: string): nat
    requires AllDigits(d)
  {
    if |d| == 0 then 0
    else DigitsValue(d[..|d| - 1]) * 10 + (d[|d| - 1] as int - '0' as int)
  }
}
