/**
  Character and string primitives that the matcher takes from Python's `str`:
  whitespace, `strip`, `lower`, `int` on a string of digits and `str` on an
  integer, and the ordering `<` on strings. Only ASCII is modelled: the
  whitespace set is what `str.isspace` accepts below code point 128.
*/
module Text {
  import opened Optional

  /** Python's `str.isspace`, restricted to ASCII: tab, line feed, vertical tab,
      form feed, carriage return, the four separators 0x1C-0x1F and the space. */
  predicate IsSpace(c: char) {
    c == ' ' || ('\t' <= c <= '\r') || ('\U{1C}' <= c <= '\U{1F}')
  }

  predicate IsDigit(c: char) {
    '0' <= c <= '9'
  }

  predicate AllSpace(s: string) {
    forall i :: 0 <= i < |s| ==> IsSpace(s[i])
  }

  predicate AllDigits(s: string) {
    forall i :: 0 <= i < |s| ==> IsDigit(s[i])
  }

  /** The no-break space U+00A0 that the pasted text may carry. */
  const NoBreakSpace: char := '\U{A0}'

  // ---------------------------------------------------------------------------
  // strip
  // ---------------------------------------------------------------------------

  /** Length of the longest all-whitespace prefix. */
  function LeadingSpaces(s: string): (n: nat)
    ensures n <= |s|
  {
    if s != [] && IsSpace(s[0]) then 1 + LeadingSpaces(s[1..]) else 0
  }

  /** `LeadingSpaces` counts whitespace and stops at the first non-space. */
  lemma {:induction false} LeadingSpacesMeaning(s: string)
    ensures var n := LeadingSpaces(s);
      (forall i :: 0 <= i < n ==> IsSpace(s[i])) && (n < |s| ==> !IsSpace(s[n]))
  {
    if s != [] && IsSpace(s[0]) {
      LeadingSpacesMeaning(s[1..]);
      assert forall i :: 1 <= i < |s| ==> s[i] == s[1..][i - 1];
    }
  }

  /** Length of the longest all-whitespace suffix. */
  function TrailingSpaces(s: string): (n: nat)
    ensures n <= |s|
  {
    if s != [] && IsSpace(s[|s| - 1]) then 1 + TrailingSpaces(s[..|s| - 1]) else 0
  }

  /** `TrailingSpaces` counts whitespace from the back and stops at the last non-space. */
  lemma {:induction false} TrailingSpacesMeaning(s: string)
    ensures var n := TrailingSpaces(s);
      (forall i :: |s| - n <= i < |s| ==> IsSpace(s[i])) && (n < |s| ==> !IsSpace(s[|s| - n - 1]))
  {
    if s != [] && IsSpace(s[|s| - 1]) {
      var t := s[..|s| - 1];
      TrailingSpacesMeaning(t);
      assert forall i :: 0 <= i < |t| ==> s[i] == t[i];
    }
  }

  /** Python's `s.strip()`. */
  function Strip(s: string): string
  {
    var t := s[LeadingSpaces(s)..];
    t[..|t| - TrailingSpaces(t)]
  }

  /** `Strip` removes the leading and the trailing whitespace of `s` and nothing else. */
  lemma StripMeaning(s: string)
    ensures var r := Strip(s);
      && LeadingSpaces(s) + |r| <= |s|
      && r == s[LeadingSpaces(s)..LeadingSpaces(s) + |r|]
      && (forall i :: LeadingSpaces(s) + |r| <= i < |s| ==> IsSpace(s[i]))
      && (r == [] <==> AllSpace(s))
      && (r != [] ==> !IsSpace(r[0]) && !IsSpace(r[|r| - 1]))
  {
    StripSlice(s);
    StripEmpty(s);
    StripEnds(s);
  }

  /** The stripped string is the slice of `s` after the leading whitespace, and
      only whitespace follows it. */
  lemma StripSlice(s: string)
    ensures var k := LeadingSpaces(s); var r := Strip(s);
      k + |r| <= |s| && r == s[k..k + |r|] && forall i :: k + |r| <= i < |s| ==> IsSpace(s[i])
  {
    var k := LeadingSpaces(s);
    var t := s[k..];
    var m := |t| - TrailingSpaces(t);
    TrailingSpacesMeaning(t);
    assert t[..m] == s[k..k + m];
    assert forall i :: k + m <= i < |s| ==> s[i] == t[i - k];
  }

  /** Only an all-whitespace string strips to nothing. */
  lemma StripEmpty(s: string)
    ensures Strip(s) == [] <==> AllSpace(s)
  {
    var k := LeadingSpaces(s);
    var t := s[k..];
    var m := |t| - TrailingSpaces(t);
    LeadingSpacesMeaning(s);
    TrailingSpacesMeaning(t);
  }

  /** A non-empty stripped string starts and ends with a non-space. */
  lemma StripEnds(s: string)
    ensures var r := Strip(s); r != [] ==> !IsSpace(r[0]) && !IsSpace(r[|r| - 1])
  {
    var k := LeadingSpaces(s);
    var t := s[k..];
    var m := |t| - TrailingSpaces(t);
    LeadingSpacesMeaning(s);
    TrailingSpacesMeaning(t);
    if m > 0 {
      assert t[0] == s[k];
      assert t[..m][m - 1] == t[|t| - TrailingSpaces(t) - 1];
    }
  }

  /** A string that neither starts nor ends with whitespace is its own strip. */
  lemma StripOfStripped(s: string)
    requires s == [] || (!IsSpace(s[0]) && !IsSpace(s[|s| - 1]))
    ensures Strip(s) == s
  {
    if s != [] {
      assert LeadingSpaces(s) == 0;
      assert TrailingSpaces(s) == 0;
    }
  }

  /** Stripping twice is stripping once. */
  lemma StripIdempotent(s: string)
    ensures Strip(Strip(s)) == Strip(s)
  {
    StripMeaning(s);
    StripOfStripped(Strip(s));
  }

  /** `line.replace("\u00a0", " ")`. */
  function ReplaceNoBreakSpaces(line: string): (t: string)
    ensures |t| == |line|
    ensures forall i :: 0 <= i < |line| ==> t[i] == (if line[i] == NoBreakSpace then ' ' else line[i])
  {
    seq(|line|, i requires 0 <= i < |line| => if line[i] == NoBreakSpace then ' ' else line[i])
  }

  /** `_clean_line`: no-break spaces become spaces, then the line is stripped. */
  function CleanLine(line: string): string
  {
    Strip(ReplaceNoBreakSpaces(line))
  }

  /** The cleaned line holds no no-break space and no outer whitespace, and it is
      empty exactly when the line is made of whitespace and no-break spaces. */
  lemma CleanLineMeaning(line: string)
    ensures var r := CleanLine(line);
      && NoBreakSpace !in r
      && (r == [] <==> forall i :: 0 <= i < |line| ==> IsSpace(line[i]) || line[i] == NoBreakSpace)
      && (r != [] ==> !IsSpace(r[0]) && !IsSpace(r[|r| - 1]))
  {
    CleanLineHasNoBreakSpace(line);
    CleanLineEmpty(line);
    StripEnds(ReplaceNoBreakSpaces(line));
  }

  lemma CleanLineHasNoBreakSpace(line: string)
    ensures NoBreakSpace !in CleanLine(line)
  {
    var t := ReplaceNoBreakSpaces(line);
    StripSlice(t);
    var r := Strip(t);
    assert forall i :: 0 <= i < |r| ==> r[i] == t[LeadingSpaces(t) + i];
  }

  lemma CleanLineEmpty(line: string)
    ensures CleanLine(line) == [] <==> forall i :: 0 <= i < |line| ==> IsSpace(line[i]) || line[i] == NoBreakSpace
  {
    var t := ReplaceNoBreakSpaces(line);
    StripEmpty(t);
    assert forall i :: 0 <= i < |line| ==> (IsSpace(t[i]) <==> IsSpace(line[i]) || line[i] == NoBreakSpace);
  }

  /** Cleaning a cleaned line changes nothing. */
  lemma CleanLineIdempotent(line: string)
    ensures CleanLine(CleanLine(line)) == CleanLine(line)
  {
    var c := CleanLine(line);
    CleanLineMeaning(line);
    assert ReplaceNoBreakSpaces(c) == c;
    StripOfStripped(c);
  }

  // ---------------------------------------------------------------------------
  // lower
  // ---------------------------------------------------------------------------

  function LowerChar(c: char): (d: char)
    ensures 'A' <= c <= 'Z' ==> d as int == c as int + 32
    ensures !('A' <= c <= 'Z') ==> d == c
  {
    if 'A' <= c <= 'Z' then (c as int + 32) as char else c
  }

  /** Python's `s.lower()` on ASCII letters; every other character is kept. */
  function Lower(s: string): (r: string)
    ensures |r| == |s|
    ensures forall i :: 0 <= i < |s| ==> r[i] == LowerChar(s[i])
  {
    seq(|s|, i requires 0 <= i < |s| => LowerChar(s[i]))
  }

  /** Case-insensitive equality with a lower-case word: what `line.lower() == w` decides. */
  lemma LowerEqualsWord(s: string, w: string)
    requires forall i :: 0 <= i < |w| ==> !('A' <= w[i] <= 'Z')
    ensures Lower(s) == w <==> |s| == |w| && forall i :: 0 <= i < |w| ==> s[i] == w[i] || (w[i] as int == s[i] as int + 32 && 'A' <= s[i] <= 'Z')
  {
    if |s| == |w| && forall i :: 0 <= i < |w| ==> s[i] == w[i] || (w[i] as int == s[i] as int + 32 && 'A' <= s[i] <= 'Z') {
      assert forall i :: 0 <= i < |w| ==> Lower(s)[i] == w[i];
    }
  }

  // ---------------------------------------------------------------------------
  // int() and str() on decimal numbers
  // ---------------------------------------------------------------------------

  function DigitValue(c: char): (v: nat)
    requires IsDigit(c)
    ensures v < 10
  {
    c as int - '0' as int
  }

  function DigitChar(v: nat): (c: char)
    requires v < 10
    ensures IsDigit(c) && DigitValue(c) == v
  {
    ('0' as int + v) as char
  }

  /** Python's `int(d)` for a string of ASCII digits: leading zeros are allowed. */
  function DigitsValue(d: string): nat
    requires AllDigits(d)
  {
    if d == [] then 0 else DigitsValue(d[..|d| - 1]) * 10 + DigitValue(d[|d| - 1])
  }

  /** Python's `str(n)` for `n >= 0`: canonical decimal, no leading zero, which reads back as `n`. */
  function NatToString(n: nat): (r: string)
    ensures r != [] && AllDigits(r)
    ensures DigitsValue(r) == n
    ensures r[0] == '0' ==> r == "0"
  {
    if n < 10 then [DigitChar(n)]
    else
      var r := NatToString(n / 10) + [DigitChar(n % 10)];
      assert r[..|r| - 1] == NatToString(n / 10);
      r
  }

  /** Python's `str(i)` for any integer. */
  function IntToString(i: int): (r: string)
    ensures r != [] && !IsSpace(r[0]) && !IsSpace(r[|r| - 1])
    ensures i >= 0 ==> r == NatToString(i)
    ensures i < 0 ==> r == "-" + NatToString(-i)
  {
    if i < 0 then "-" + NatToString(-i) else NatToString(i)
  }

  /** Python's `int(s)` on a string, restricted to ASCII: surrounding whitespace,
      an optional sign and at least one digit. `None` stands for `ValueError`. */
  function ParseInt(s: string): (r: Option<int>)
  {
    var t := Strip(s);
    if t != [] && (t[0] == '-' || t[0] == '+') then
      var d := t[1..];
      if d != [] && AllDigits(d) then Some(if t[0] == '-' then -(DigitsValue(d) as int) else DigitsValue(d))
      else None
    else if t != [] && AllDigits(t) then Some(DigitsValue(t))
    else None
  }

  /** `int(str(i)) == i`: a rendered id reads back as the same id. */
  lemma {:induction false} ParseIntOfIntToString(i: int)
    ensures ParseInt(IntToString(i)) == Some(i)
  {
    var r := IntToString(i);
    StripOfStripped(r);
    if i < 0 {
      assert r[1..] == NatToString(-i);
    }
  }

  // ---------------------------------------------------------------------------
  // string ordering
  // ---------------------------------------------------------------------------

  /** Python's `a < b` on strings: lexicographic by code point, a proper prefix first. */
  predicate Less(a: string, b: string)
  {
    if a == [] then b != []
    else b != [] && (a[0] < b[0] || (a[0] == b[0] && Less(a[1..], b[1..])))
  }

  lemma {:induction false} LessIrreflexive(a: string)
    ensures !Less(a, a)
  {
    if a != [] { LessIrreflexive(a[1..]); }
  }

  lemma {:induction false} LessTransitive(a: string, b: string, c: string)
    requires Less(a, b) && Less(b, c)
    ensures Less(a, c)
  {
    if a != [] && b != [] && c != [] && a[0] == b[0] && b[0] == c[0] {
      LessTransitive(a[1..], b[1..], c[1..]);
    }
  }

  /** Distinct strings are ordered one way or the other. */
  lemma {:induction false} LessTotal(a: string, b: string)
    requires a != b
    ensures Less(a, b) || Less(b, a)
  {
    if a != [] && b != [] && a[0] == b[0] {
      assert a == [a[0]] + a[1..] && b == [b[0]] + b[1..];
      LessTotal(a[1..], b[1..]);
    }
  }
}
