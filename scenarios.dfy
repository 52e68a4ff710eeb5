/**
  Two worked inputs, followed line by line through the model. The first shows
  that a name not in the dictionary does not start a block: inside an open
  block it is an ignored line, and a quantity line after it still belongs to
  that block.
*/
module Scenarios {
  import opened Optional
  import opened Text
  import opened Patterns
  import opened Parser
  import opened Matcher

  /** A line with no no-break space and no whitespace at either end is left as it is by cleaning. */
  lemma CleanAlready(line: string)
    requires line != [] && NoBreakSpace !in line
    requires !IsSpace(line[0]) && !IsSpace(line[|line| - 1])
    ensures CleanLine(line) == line
  {
    assert ReplaceNoBreakSpaces(line) == line;
    StripOfStripped(line);
  }

  /** A line that is neither a name nor matched by either pattern, nor a marker, is ignored. */
  lemma IgnoredLine(line: string, valid: set<string>)
    requires line !in valid && !IsOmissionMarker(line)
    requires line != [] && line[|line| - 1] != '\n' && !IsDigit(line[|line| - 1])
    ensures Classify(line, valid) == Ignored
  {
    QtyMatchShape(line);
    NameQtyMatchShape(line);
  }

  /** `xN` with one digit is a quantity line. */
  lemma QtyDigitLine(d: char, valid: set<string>)
    requires IsDigit(d) && ['x', d] !in valid
    ensures Classify(['x', d], valid) == QtyLine(DigitValue(d))
  {
    var line := ['x', d];
    NameQtyMatchShape(line);
    assert Subject(line) == line;
    assert forall i :: 0 <= i < |line| ==> !IsSpace(line[i]);
    assert !IsOmissionMarker(line) by {
      assert |Lower(line)| == 2;
    }
    var rest := line[1..];
    assert rest == [d];
    assert LeadingSpaces(rest) == 0;
    assert rest[0..] == [d];
    assert DigitsValue([d]) == DigitValue(d) by {
      assert [d][..0] == [];
    }
  }

  /** The first worked input, `Xanax / x5 / Xanax / x3 / Ghost Item / x2` with
      the dictionary `{"Xanax": 206}`, classifies line by line (by
      `QtyDigitLine` and `IgnoredLine`) as item start, quantity, item start,
      quantity, ignored, quantity. The second block runs to the end, so
      `Ghost Item` is ignored inside it and `x2` overwrites its quantity. */
  lemma XanaxRun()
    ensures Finish(Run(State([], NoBlock), [ItemStart("Xanax"), QtyLine(5), ItemStart("Xanax"), QtyLine(3), Ignored, QtyLine(2)])) ==
      [Entry("Xanax", 5, false), Entry("Xanax", 2, false)]
  {
    var ks := [ItemStart("Xanax"), QtyLine(5), ItemStart("Xanax"), QtyLine(3), Ignored, QtyLine(2)];
    var st0 := State([], NoBlock);
    assert ks[..0] == [];
    assert ks[..1][..0] == ks[..0];
    assert ks[..2][..1] == ks[..1];
    assert ks[..3][..2] == ks[..2];
    assert ks[..4][..3] == ks[..3];
    assert ks[..5][..4] == ks[..4];
    assert ks[..5] == ks[..|ks| - 1];
    assert Run(st0, ks[..1]) == State([], Block(Some("Xanax"), 1, false));
    assert Run(st0, ks[..2]) == State([], Block(Some("Xanax"), 5, false));
    assert Run(st0, ks[..3]) == State([Entry("Xanax", 5, false)], Block(Some("Xanax"), 1, false));
    assert Run(st0, ks[..4]) == State([Entry("Xanax", 5, false)], Block(Some("Xanax"), 3, false));
    assert Run(st0, ks[..5]) == State([Entry("Xanax", 5, false)], Block(Some("Xanax"), 3, false));
  }

  /** Matching those two entries: Xanax is matched once with 5 + 2 = 7, and nothing is unmatched. */
  lemma XanaxMatch()
    ensures var p := [Entry("Xanax", 5, false), Entry("Xanax", 2, false)];
      var dict := map["Xanax" := 206];
      && Ids(p, dict) == [206]
      && Total(p, dict, 206) == 7
      && FirstName(p, dict, 206) == Some("Xanax")
      && Misses(p, dict) == []
  {
    var p := [Entry("Xanax", 5, false), Entry("Xanax", 2, false)];
    assert p[..1] == [Entry("Xanax", 5, false)];
    assert p[..1][..0] == [];
  }

  /** The second worked input, `Flowers / Equipped` with the dictionary
      `{"Flowers": 99}`: one omitted entry, so nothing is matched and nothing
      is unmatched. */
  lemma FlowersScenario()
    ensures var p := Finish(Run(State([], NoBlock), [ItemStart("Flowers"), OmissionMarker]));
      var dict := map["Flowers" := 99];
      && p == [Entry("Flowers", 1, true)]
      && Ids(p, dict) == []
      && Misses(p, dict) == []
  {
    var ks := [ItemStart("Flowers"), OmissionMarker];
    assert ks[..1][..0] == [];
    assert ks[..1] == ks[..|ks| - 1];
    var p := [Entry("Flowers", 1, true)];
    assert p[..0] == [];
  }
}
