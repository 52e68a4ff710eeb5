/**
  The two regular expressions of the matcher and the omission-marker test,
  written out as classifier functions over one line.

    quantity line   `^x\s*(\d+)$`           case-insensitive
    inline quantity `^(.*)\s+x\s*(\d+)$`    case-insensitive, `(.*)` greedy

  Both are used with `re.match`, so they are anchored at the start; `$` matches
  at the end of the line or just before a final line feed; `.` matches anything
  but a line feed. `\s` and `\d` are taken over ASCII, as in module Text.
*/
module Patterns {
  import opened Optional
  import opened Text

  /** The part of a line that a pattern ending in `$` must cover: all of it, or
      all but one final line feed. */
  function Subject(line: string): (s: string)
    ensures s == line || line == s + "\n"
    ensures s == line <==> line == [] || line[|line| - 1] != '\n'
  {
    if line != [] && line[|line| - 1] == '\n' then line[..|line| - 1] else line
  }

  /** The separator letter, matched case-insensitively. */
  predicate IsX(c: char) {
    c == 'x' || c == 'X'
  }

  // ---------------------------------------------------------------------------
  // `x\s*(\d+)` over a whole string
  // ---------------------------------------------------------------------------

  /** Matches all of `s` against `x\s*(\d+)` and yields `int(group(1))`. */
  function QtyToken(s: string): Option<nat>
  {
    if s != [] && IsX(s[0]) then
      var rest := s[1..];
      var d := rest[LeadingSpaces(rest)..];
      if d != [] && AllDigits(d) then Some(DigitsValue(d)) else None
    else None
  }

  /** What the pattern says: `s` is the letter, then whitespace up to `i`, then digits from `i` on. */
  ghost predicate QtyTokenAt(s: string, i: int) {
    1 <= i < |s| && IsX(s[0]) && AllSpace(s[1..i]) && AllDigits(s[i..])
  }

  /** `QtyToken` accepts exactly the strings of the pattern's shape, and the
      quantity is the value of the digit group. */
  lemma QtyTokenMeaning(s: string)
    ensures QtyToken(s).Some? <==> exists i :: QtyTokenAt(s, i)
    ensures forall i :: QtyTokenAt(s, i) ==> QtyToken(s) == Some(DigitsValue(s[i..]))
  {
    if s != [] && IsX(s[0]) {
      var rest := s[1..];
      var l := LeadingSpaces(rest);
      LeadingSpacesMeaning(rest);
      forall i | QtyTokenAt(s, i)
        ensures l == i - 1
      {
        assert forall j :: 0 <= j < i - 1 ==> rest[j] == s[1..i][j];
        assert s[i..][0] == s[i] == rest[i - 1];
        assert forall j :: 0 <= j < l ==> rest[..l][j] == rest[j];
      }
      if QtyToken(s).Some? {
        assert rest[l..] == s[1 + l..];
        assert rest[..l] == s[1..1 + l];
        assert QtyTokenAt(s, 1 + l);
      }
    }
  }

  /** `_QTY_LINE_RE.match(line)`: the standalone quantity of a line such as `x5`. */
  function QtyMatch(line: string): Option<nat>
  {
    QtyToken(Subject(line))
  }

  // ---------------------------------------------------------------------------
  // `(.*)\s+x\s*(\d+)` over a whole string
  // ---------------------------------------------------------------------------

  /** Matches all of `t` against `\s+x\s*(\d+)`: at least one whitespace, then a quantity token. */
  function SpacedQtyToken(t: string): Option<nat>
  {
    var k := LeadingSpaces(t);
    if k >= 1 then QtyToken(t[k..]) else None
  }

  /** `SpacedQtyToken` accepts exactly non-empty whitespace followed by a quantity token. */
  lemma SpacedQtyTokenMeaning(t: string)
    ensures SpacedQtyToken(t).Some? <==> exists i :: 1 <= i <= |t| && AllSpace(t[..i]) && QtyToken(t[i..]).Some?
    ensures forall i :: 1 <= i <= |t| && AllSpace(t[..i]) && QtyToken(t[i..]).Some? ==> SpacedQtyToken(t) == QtyToken(t[i..])
  {
    var k := LeadingSpaces(t);
    LeadingSpacesMeaning(t);
    forall i | 1 <= i <= |t| && AllSpace(t[..i]) && QtyToken(t[i..]).Some?
      ensures k == i
    {
      assert forall j :: 0 <= j < i ==> t[..i][j] == t[j];
      assert t[i..][0] == t[i];
      assert forall j :: 0 <= j < k ==> t[..k][j] == t[j];
    }
  }

  /** How far `.*` can reach: the length of the prefix that holds no line feed. */
  function LineFeedFree(s: string): (n: nat)
    ensures n <= |s| && '\n' !in s[..n]
    ensures n < |s| ==> s[n] == '\n'
  {
    if s == [] || s[0] == '\n' then 0
    else
      var n := 1 + LineFeedFree(s[1..]);
      assert s[..n] == [s[0]] + s[1..][..n - 1];
      n
  }

  /** For every split point `j` of `s`, whether and how the rest `s[j..]` matches `\s+x\s*(\d+)`. */
  function TailMatches(s: string): (ms: seq<Option<nat>>)
    ensures |ms| == |s| + 1
    ensures forall j :: 0 <= j <= |s| ==> ms[j] == SpacedQtyToken(s[j..])
  {
    seq(|s| + 1, j requires 0 <= j <= |s| => SpacedQtyToken(s[j..]))
  }

  /** Greedy backtracking of `(.*)`: tries the split points `k, k - 1, ..., 0`
      and stops at the first after which the rest matches. */
  function LongestSplit(ms: seq<Option<nat>>, k: nat): (r: Option<(nat, nat)>)
    requires k < |ms|
    ensures r.Some? ==> r.value.0 <= k
    decreases k
  {
    if ms[k].Some? then Some((k, ms[k].value))
    else if k == 0 then None
    else LongestSplit(ms, k - 1)
  }

  /** `LongestSplit` finds the largest split point `j <= k` that works, or reports that none does. */
  lemma {:induction false} LongestSplitIsLongest(ms: seq<Option<nat>>, k: nat)
    requires k < |ms|
    ensures var r := LongestSplit(ms, k);
      && (r.Some? ==> r.value.0 <= k && ms[r.value.0] == Some(r.value.1))
      && (r.Some? ==> forall j :: r.value.0 < j <= k ==> ms[j].None?)
      && (r.None? ==> forall j :: 0 <= j <= k ==> ms[j].None?)
    decreases k
  {
    if ms[k].None? && k > 0 {
      LongestSplitIsLongest(ms, k - 1);
    }
  }

  /** Matches all of `s` against `(.*)\s+x\s*(\d+)`: group 1, unstripped, and `int(group(2))`. */
  function NameQtyToken(s: string): Option<(string, nat)>
  {
    match LongestSplit(TailMatches(s), LineFeedFree(s))
    case Some((k, q)) => Some((s[..k], q))
    case None => None
  }

  /** `NameQtyToken` follows the regular expression: group 1 is a prefix that
      `.*` can reach (no line feed, see `LineFeedFree`) followed by a match of
      `\s+x\s*(\d+)`; it is the longest such prefix; and there is no match only
      when no reachable prefix works. */
  lemma NameQtyTokenMeaning(s: string)
    ensures var r := NameQtyToken(s);
      && (r.Some? ==> var p := r.value.0;
            |p| <= LineFeedFree(s) && p == s[..|p|] && SpacedQtyToken(s[|p|..]) == Some(r.value.1))
      && (r.Some? ==> forall j :: |r.value.0| < j <= LineFeedFree(s) ==> SpacedQtyToken(s[j..]).None?)
      && (r.None? ==> forall j :: 0 <= j <= LineFeedFree(s) ==> SpacedQtyToken(s[j..]).None?)
  {
    LongestSplitIsLongest(TailMatches(s), LineFeedFree(s));
  }

  /** `_NAME_QTY_SAME_LINE_RE.match(line)`: the raw name part and the quantity of a line such as `Name x5`. */
  function NameQtyMatch(line: string): Option<(string, nat)>
  {
    NameQtyToken(Subject(line))
  }

  /** A quantity token ends in a digit. */
  lemma QtyTokenEndsInDigit(s: string)
    requires QtyToken(s).Some?
    ensures s != [] && IsDigit(s[|s| - 1])
  {
    var rest := s[1..];
    var d := rest[LeadingSpaces(rest)..];
    assert d[|d| - 1] == s[|s| - 1];
  }

  /** A match of `\s+x\s*(\d+)` starts with whitespace and ends in a digit. */
  lemma SpacedQtyTokenShape(t: string)
    requires SpacedQtyToken(t).Some?
    ensures t != [] && IsSpace(t[0]) && IsDigit(t[|t| - 1])
  {
    var l := LeadingSpaces(t);
    LeadingSpacesMeaning(t);
    QtyTokenEndsInDigit(t[l..]);
    assert t[l..][|t[l..]| - 1] == t[|t| - 1];
  }

  /** A line is a standalone quantity only if its subject ends in a digit. */
  lemma QtyMatchShape(line: string)
    ensures QtyMatch(line).Some? ==> var s := Subject(line); s != [] && IsDigit(s[|s| - 1])
  {
    if QtyMatch(line).Some? {
      QtyTokenEndsInDigit(Subject(line));
    }
  }

  /** A line has an inline quantity only if its subject ends in a digit and
      holds a whitespace character before it. */
  lemma NameQtyMatchShape(line: string)
    ensures NameQtyMatch(line).Some? ==> var s := Subject(line);
      s != [] && IsDigit(s[|s| - 1]) && exists i :: 0 <= i < |s| && IsSpace(s[i])
  {
    var s := Subject(line);
    var ms := TailMatches(s);
    LongestSplitIsLongest(ms, LineFeedFree(s));
    if NameQtyMatch(line).Some? {
      var k := LongestSplit(ms, LineFeedFree(s)).value.0;
      var t := s[k..];
      SpacedQtyTokenShape(t);
      assert t[0] == s[k] && t[|t| - 1] == s[|s| - 1];
    }
  }

  // ---------------------------------------------------------------------------
  // omission markers
  // ---------------------------------------------------------------------------

  /** `line.lower()` is `equipped` or `untradable`. */
  predicate IsOmissionMarker(line: string) {
    Lower(line) == "equipped" || Lower(line) == "untradable"
  }

  /** A marker line is never a standalone quantity line, so the order of those two tests does not matter. */
  lemma MarkerIsNotQtyLine(line: string)
    requires IsOmissionMarker(line)
    ensures QtyMatch(line).None?
  {
    assert Lower(line)[|line| - 1] != '\n';
    assert Subject(line) == line;
    assert LowerChar(line[0]) == 'e' || LowerChar(line[0]) == 'u';
  }
}
