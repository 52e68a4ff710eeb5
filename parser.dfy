/**
  The add-listings block parser, `parse_add_listings_text`.

  The parser walks the cleaned, non-empty lines once and keeps a single open
  block (`current_name`, `current_qty`, `current_omitted`). Each line is tested
  in a fixed order:
    1. the line is a valid item name: flush, open a block with quantity 1;
    2. the line is `<name> x<digits>` and the stripped name part is valid:
       flush, open a block with that quantity;
    3. no block is open: the line is an orphan and is skipped;
    4. the line is `equipped` or `untradable`, ignoring case: mark the block omitted;
    5. the line is `x<digits>`: overwrite the block's quantity;
    6. anything else is ignored.
  After the last line the open block is flushed once more.

  `Parse` is the step-by-step specification of that loop and the method
  `ParseAddListingsText` implements it with the same local state. `BlockEntries`
  is an independent description by blocks (an item-start line together with the
  lines up to the next one), and `ParseIsBlocks` proves the two agree.
*/
module Parser {
  import opened Optional
  import opened Text
  import opened Patterns

  /** One parsed block, the tuple `(name, qty, is_omitted)`. */
  datatype Entry = Entry(name: string, qty: nat, omitted: bool)

  /** The open block: `current_name` (None when no block is open), `current_qty`, `current_omitted`. */
  datatype Block = Block(name: Option<string>, qty: nat, omitted: bool)

  /** The state `flush()` leaves behind, which is also the initial state. */
  const NoBlock: Block := Block(None, 1, false)

  /** The kinds of line the loop tells apart, in the order it tests them. */
  datatype LineKind =
    | ItemStart(name: string)
    | ItemStartWithQty(name: string, qty: nat)
    | OmissionMarker
    | QtyLine(qty: nat)
    | Ignored

  /** `[_clean_line(l) for l in raw_text.splitlines()]`, on lines already split. */
  function CleanAll(raw: seq<string>): (cs: seq<string>)
    ensures |cs| == |raw|
    ensures forall i :: 0 <= i < |raw| ==> cs[i] == CleanLine(raw[i])
  {
    seq(|raw|, i requires 0 <= i < |raw| => CleanLine(raw[i]))
  }

  /** `[l for l in lines if l]`. */
  function NonEmpty(cs: seq<string>): (ls: seq<string>)
    ensures |ls| <= |cs|
    ensures forall i :: 0 <= i < |ls| ==> ls[i] != []
    decreases |cs|
  {
    if cs == [] then []
    else (if cs[0] == [] then [] else [cs[0]]) + NonEmpty(cs[1..])
  }

  /** One line passes the filter exactly when it is not empty. */
  lemma NonEmptyOne(x: string)
    ensures NonEmpty([x]) == if x == [] then [] else [x]
  {
  }

  /** The filter works line by line: filtering a concatenation is concatenating the filtered parts. */
  lemma {:induction false} NonEmptyConcat(a: seq<string>, b: seq<string>)
    ensures NonEmpty(a + b) == NonEmpty(a) + NonEmpty(b)
    decreases |a|
  {
    if a == [] {
      assert a + b == b;
    } else {
      assert (a + b)[0] == a[0] && (a + b)[1..] == a[1..] + b;
      NonEmptyConcat(a[1..], b);
    }
  }

  /** A line survives the filter exactly when it is a non-empty line of the input. */
  lemma {:induction false} NonEmptyMembers(cs: seq<string>, x: string)
    ensures x in NonEmpty(cs) <==> x in cs && x != []
    decreases |cs|
  {
    if cs != [] {
      assert cs == [cs[0]] + cs[1..];
      NonEmptyMembers(cs[1..], x);
    }
  }

  /** The lines the loop walks: cleaned, and the empty ones dropped. */
  function CleanLines(raw: seq<string>): seq<string>
  {
    NonEmpty(CleanAll(raw))
  }

  /** Nothing survives the filter exactly when every line is empty. */
  lemma {:induction false} NonEmptyEmpty(cs: seq<string>)
    ensures NonEmpty(cs) == [] <==> forall i :: 0 <= i < |cs| ==> cs[i] == []
    decreases |cs|
  {
    if cs != [] {
      NonEmptyEmpty(cs[1..]);
      assert forall i :: 1 <= i < |cs| ==> cs[1..][i - 1] == cs[i];
    }
  }

  /** A list with no empty line passes the filter unchanged. */
  lemma {:induction false} NonEmptyKeeps(cs: seq<string>)
    requires forall i :: 0 <= i < |cs| ==> cs[i] != []
    ensures NonEmpty(cs) == cs
    decreases |cs|
  {
    if cs != [] {
      assert forall i :: 1 <= i < |cs| ==> cs[1..][i - 1] == cs[i];
      NonEmptyKeeps(cs[1..]);
    }
  }

  /** Every line of the text cleans to nothing. */
  ghost predicate Blank(raw: seq<string>) {
    forall i :: 0 <= i < |raw| ==> CleanLine(raw[i]) == []
  }

  /** No line survives cleaning exactly when every line is blank. */
  lemma CleanLinesEmpty(raw: seq<string>)
    ensures CleanLines(raw) == [] <==> Blank(raw)
  {
    NonEmptyEmpty(CleanAll(raw));
  }

  /** Classifies one cleaned line as the loop body does, ignoring whether a block is open. */
  function Classify(line: string, valid: set<string>): LineKind
  {
    if line in valid then ItemStart(line)
    else
      var m := NameQtyMatch(line);
      if m.Some? && Strip(m.value.0) in valid then ItemStartWithQty(Strip(m.value.0), m.value.1)
      else if IsOmissionMarker(line) then OmissionMarker
      else if QtyMatch(line).Some? then QtyLine(QtyMatch(line).value)
      else Ignored
  }

  /** `results` and the open block. */
  datatype State = State(results: seq<Entry>, current: Block)

  /** `flush()`: append the open block to `results` when a name is set. */
  function Flush(results: seq<Entry>, b: Block): seq<Entry>
  {
    if b.name.Some? then results + [Entry(b.name.value, b.qty, b.omitted)] else results
  }

  /** One iteration of the loop, given the kind of its line. */
  function Step(st: State, kind: LineKind): State
  {
    match kind
    case ItemStart(n) => State(Flush(st.results, st.current), Block(Some(n), 1, false))
    case ItemStartWithQty(n, q) => State(Flush(st.results, st.current), Block(Some(n), q, false))
    case OmissionMarker =>
      if st.current.name.None? then st else State(st.results, st.current.(omitted := true))
    case QtyLine(q) =>
      if st.current.name.None? then st else State(st.results, st.current.(qty := q))
    case Ignored => st
  }

  /** The loop over a prefix of the lines: the state after the last of them. */
  function Run(st: State, kinds: seq<LineKind>): State
    decreases |kinds|
  {
    if kinds == [] then st else Step(Run(st, kinds[..|kinds| - 1]), kinds[|kinds| - 1])
  }

  /** Flush after the last line. */
  function Finish(st: State): seq<Entry>
  {
    Flush(st.results, st.current)
  }

  /** The kind of every line. */
  function Kinds(lines: seq<string>, valid: set<string>): (ks: seq<LineKind>)
    ensures |ks| == |lines|
    ensures forall i :: 0 <= i < |lines| ==> ks[i] == Classify(lines[i], valid)
  {
    seq(|lines|, i requires 0 <= i < |lines| => Classify(lines[i], valid))
  }

  /** What `parse_add_listings_text` returns for the lines of the pasted text. */
  function Parse(raw: seq<string>, valid: set<string>): seq<Entry>
  {
    Finish(Run(State([], NoBlock), Kinds(CleanLines(raw), valid)))
  }

  /** `parse_add_listings_text(raw_text, valid_item_names)`, with `raw_text.splitlines()` given as `rawLines`. */
  method ParseAddListingsText(rawLines: seq<string>, valid: set<string>) returns (results: seq<Entry>)
    ensures results == Parse(rawLines, valid)
    ensures forall e :: e in results ==> e.name in valid
  {
    var lines := CleanLines(rawLines);
    ghost var kinds := Kinds(lines, valid);
    results := [];
    var currentName: Option<string> := None;
    var currentQty: nat := 1;
    var currentOmitted := false;
    var i := 0;
    while i < |lines|
      invariant 0 <= i <= |lines|
      invariant State(results, Block(currentName, currentQty, currentOmitted)) == Run(State([], NoBlock), kinds[..i])
    {
      var line := lines[i];
      assert kinds[..i + 1][..i] == kinds[..i];
      i := i + 1;
      ClassifyMeaning(line, valid);

      // Start of a new item block: the line is an item name.
      if line in valid {
        results := Flush(results, Block(currentName, currentQty, currentOmitted));
        currentName, currentQty, currentOmitted := Some(line), 1, false;
        continue;
      }

      // Start of a new item block with the quantity on the same line: `Name x5`.
      var mSame := NameQtyMatch(line);
      if mSame.Some? {
        var possibleName := Strip(mSame.value.0);
        if possibleName in valid {
          results := Flush(results, Block(currentName, currentQty, currentOmitted));
          currentName, currentQty, currentOmitted := Some(possibleName), mSame.value.1, false;
          continue;
        }
      }

      if currentName.None? {
        OrphanLine(State(results, Block(currentName, currentQty, currentOmitted)), Classify(line, valid));
        continue;
      }

      var low := Lower(line);
      if low == "equipped" || low == "untradable" {
        currentOmitted := true;
        continue;
      }

      var mQty := QtyMatch(line);
      if mQty.Some? {
        currentQty := mQty.value;
        continue;
      }
    }
    assert kinds[..i] == kinds;
    results := Flush(results, Block(currentName, currentQty, currentOmitted));
    ParsedNamesValid(rawLines, valid);
  }

  /** The classifier's kinds mean what the loop tests: an exact name first, then
      a valid inline-quantity name, then a marker, then a standalone quantity. */
  lemma ClassifyMeaning(line: string, valid: set<string>)
    ensures Classify(line, valid).ItemStart? <==> line in valid
    ensures Classify(line, valid).ItemStart? ==> Classify(line, valid).name == line
    ensures Classify(line, valid).ItemStartWithQty? <==>
      line !in valid && NameQtyMatch(line).Some? && Strip(NameQtyMatch(line).value.0) in valid
    ensures Classify(line, valid).ItemStartWithQty? ==>
      Classify(line, valid) == ItemStartWithQty(Strip(NameQtyMatch(line).value.0), NameQtyMatch(line).value.1)
    ensures Classify(line, valid) == OmissionMarker <==> !IsStart(Classify(line, valid)) && IsOmissionMarker(line)
    ensures Classify(line, valid).QtyLine? <==> !IsStart(Classify(line, valid)) && QtyMatch(line).Some?
    ensures Classify(line, valid).QtyLine? ==> Some(Classify(line, valid).qty) == QtyMatch(line)
  {
    if IsOmissionMarker(line) {
      MarkerIsNotQtyLine(line);
    }
  }

  /** With no block open, a line that starts no block changes nothing. */
  lemma OrphanLine(st: State, kind: LineKind)
    requires st.current.name.None? && !IsStart(kind)
    ensures Step(st, kind) == st
  {
  }

  /** A line that is itself a valid name opens a fresh block with quantity 1,
      even when it also reads as `x<digits>` or as a marker. */
  lemma ExactNameStartsBlock(st: State, line: string, valid: set<string>)
    requires line in valid
    ensures Step(st, Classify(line, valid)) == State(Finish(st), Block(Some(line), 1, false))
  {
  }

  // ---------------------------------------------------------------------------
  // The same result described block by block
  // ---------------------------------------------------------------------------

  predicate IsStart(k: LineKind) {
    k.ItemStart? || k.ItemStartWithQty?
  }

  function StartName(k: LineKind): string
    requires IsStart(k)
  {
    k.name
  }

  function StartQty(k: LineKind): nat
    requires IsStart(k)
  {
    if k.ItemStart? then 1 else k.qty
  }

  /** The number of leading lines that are not item starts: the body of a block. */
  function BodyLength(ks: seq<LineKind>): (n: nat)
    ensures n <= |ks|
    ensures n < |ks| ==> IsStart(ks[n])
  {
    if ks == [] || IsStart(ks[0]) then 0 else 1 + BodyLength(ks[1..])
  }

  /** The body holds no item start. */
  lemma {:induction false} BodyLengthMeaning(ks: seq<LineKind>)
    ensures forall j :: 0 <= j < BodyLength(ks) ==> !IsStart(ks[j])
  {
    if ks != [] && !IsStart(ks[0]) {
      BodyLengthMeaning(ks[1..]);
      assert forall j :: 1 <= j < |ks| ==> ks[j] == ks[1..][j - 1];
    }
  }

  /** Some line of the body is an omission marker. */
  predicate HasMarker(body: seq<LineKind>) {
    OmissionMarker in body
  }

  /** The quantity of the body's last standalone quantity line, if there is one. */
  function LastQty(body: seq<LineKind>): Option<nat>
    decreases |body|
  {
    if body == [] then None
    else if body[|body| - 1].QtyLine? then Some(body[|body| - 1].qty)
    else LastQty(body[..|body| - 1])
  }

  /** `LastQty` is what its name says: none when no line is a quantity line,
      otherwise the quantity of a quantity line after which none follows. */
  lemma {:induction false} LastQtyIsLast(body: seq<LineKind>)
    ensures LastQty(body).None? <==> forall j :: 0 <= j < |body| ==> !body[j].QtyLine?
    ensures LastQty(body).Some? ==>
      exists j :: 0 <= j < |body| && body[j] == QtyLine(LastQty(body).value) &&
        forall k :: j < k < |body| ==> !body[k].QtyLine?
    decreases |body|
  {
    if body != [] {
      var n := |body| - 1;
      var init := body[..n];
      LastQtyIsLast(init);
      if body[n].QtyLine? {
        assert body[n] == QtyLine(LastQty(body).value);
      } else if LastQty(init).Some? {
        var j :| 0 <= j < |init| && init[j] == QtyLine(LastQty(init).value) &&
          forall k :: j < k < |init| ==> !init[k].QtyLine?;
        assert body[j] == init[j];
        forall k | j < k < |body|
          ensures !body[k].QtyLine?
        {
          if k < n { assert body[k] == init[k]; }
        }
      } else {
        forall j | 0 <= j < |body|
          ensures !body[j].QtyLine?
        {
          if j < n { assert body[j] == init[j]; }
        }
      }
    }
  }

  /** The entry of the block opened by `start` with the given body: the block's
      name; the quantity of its last `xN` line, else its initial quantity; omitted
      exactly when some body line is a marker. */
  ghost function BlockEntry(start: LineKind, body: seq<LineKind>): Entry
    requires IsStart(start)
  {
    Entry(StartName(start), LastQty(body).GetOr(StartQty(start)), HasMarker(body))
  }

  /** The entries block by block: lines before the first item start are skipped,
      and every item-start line gives one entry built from the lines up to the next. */
  ghost function BlockEntries(ks: seq<LineKind>): seq<Entry>
    decreases |ks|
  {
    if ks == [] then []
    else if !IsStart(ks[0]) then BlockEntries(ks[1..])
    else
      var n := BodyLength(ks[1..]);
      [BlockEntry(ks[0], ks[1..][..n])] + BlockEntries(ks[1..][n..])
  }

  /** Running the loop over two stretches of lines one after the other. */
  lemma {:induction false} RunConcat(st: State, a: seq<LineKind>, b: seq<LineKind>)
    ensures Run(st, a + b) == Run(Run(st, a), b)
    decreases |b|
  {
    if b == [] {
      assert a + b == a;
    } else {
      var init := b[..|b| - 1];
      assert (a + b)[..|a + b| - 1] == a + init;
      assert (a + b)[|a + b| - 1] == b[|b| - 1];
      RunConcat(st, a, init);
    }
  }

  /** Running the loop over one line and then the rest. */
  lemma RunCons(st: State, k: LineKind, ks: seq<LineKind>)
    ensures Run(st, [k] + ks) == Run(Step(st, k), ks)
  {
    RunConcat(st, [k], ks);
    assert [k][..0] == [];
  }

  /** The body of a block folds into the open block's last quantity and omitted flag. */
  lemma {:induction false} RunBody(st: State, body: seq<LineKind>)
    requires forall j :: 0 <= j < |body| ==> !IsStart(body[j])
    ensures Run(st, body) ==
      if st.current.name.None? then st
      else State(st.results, Block(st.current.name, LastQty(body).GetOr(st.current.qty),
                                   st.current.omitted || HasMarker(body)))
    decreases |body|
  {
    if body != [] {
      var init := body[..|body| - 1];
      RunBody(st, init);
      assert body == init + [body[|body| - 1]];
    }
  }

  /** The entry the open block contributes once its body has been read. */
  ghost function OpenEntry(b: Block, body: seq<LineKind>): seq<Entry> {
    if b.name.None? then [] else [Entry(b.name.value, LastQty(body).GetOr(b.qty), b.omitted || HasMarker(body))]
  }

  /** The open block reads the lines up to the next item start. */
  lemma OpenBlock(st: State, ks: seq<LineKind>)
    ensures var n := BodyLength(ks);
      Run(st, ks) == Run(Run(st, ks[..n]), ks[n..]) &&
      Finish(Run(st, ks[..n])) == st.results + OpenEntry(st.current, ks[..n])
  {
    var n := BodyLength(ks);
    BodyLengthMeaning(ks);
    assert ks == ks[..n] + ks[n..];
    RunConcat(st, ks[..n], ks[n..]);
    RunBody(st, ks[..n]);
  }

  /** An item-start line flushes the open block and opens its own. */
  lemma StartLine(st: State, ks: seq<LineKind>)
    requires ks != [] && IsStart(ks[0])
    ensures Run(st, ks) == Run(State(Finish(st), Block(Some(StartName(ks[0])), StartQty(ks[0]), false)), ks[1..])
  {
    assert ks == [ks[0]] + ks[1..];
    RunCons(st, ks[0], ks[1..]);
  }

  lemma BlocksAtStart(ks: seq<LineKind>)
    requires ks != [] && IsStart(ks[0])
    ensures var n := BodyLength(ks[1..]);
      BlockEntries(ks) == [BlockEntry(ks[0], ks[1..][..n])] + BlockEntries(ks[1..][n..])
  {
  }

  /** The state after the open block's body and the item-start line `k` that
      ends it: the open block's entry is flushed and `k` opens the next one. */
  ghost function Reopen(st: State, body: seq<LineKind>, k: LineKind): State
    requires IsStart(k)
  {
    State(st.results + OpenEntry(st.current, body), Block(Some(StartName(k)), StartQty(k), false))
  }

  /** The loop reads the open block's body and the next item start, then goes on from `Reopen`. */
  lemma {:induction false} NextStart(st: State, ks: seq<LineKind>)
    requires BodyLength(ks) < |ks|
    ensures var n := BodyLength(ks);
      Finish(Run(st, ks)) == Finish(Run(Reopen(st, ks[..n], ks[n]), ks[n..][1..]))
  {
    var n := BodyLength(ks);
    OpenBlock(st, ks);
    StartLine(Run(st, ks[..n]), ks[n..]);
  }

  /** Running the loop from any state: the open block takes the lines up to the
      next item start, and every later block is one entry of `BlockEntries`. */
  lemma {:induction false} RunBlocks(st: State, ks: seq<LineKind>)
    ensures var n := BodyLength(ks);
      Finish(Run(st, ks)) == st.results + OpenEntry(st.current, ks[..n]) + BlockEntries(ks[n..])
    decreases |ks|
  {
    var n := BodyLength(ks);
    var rest := ks[n..];
    if rest != [] {
      NextStart(st, ks);
      RunBlocks(Reopen(st, ks[..n], ks[n]), rest[1..]);
      BlocksAtStart(rest);
    } else {
      OpenBlock(st, ks);
    }
  }

  /** Lines before the first item start contribute nothing. */
  lemma {:induction false} SkipOrphans(ks: seq<LineKind>)
    ensures BlockEntries(ks) == BlockEntries(ks[BodyLength(ks)..])
    decreases |ks|
  {
    if ks != [] && !IsStart(ks[0]) {
      SkipOrphans(ks[1..]);
      assert ks[1..][BodyLength(ks[1..])..] == ks[BodyLength(ks)..];
    }
  }

  /** The loop yields exactly the block-by-block entries of the cleaned lines. */
  lemma ParseIsBlocks(raw: seq<string>, valid: set<string>)
    ensures Parse(raw, valid) == BlockEntries(Kinds(CleanLines(raw), valid))
  {
    var ks := Kinds(CleanLines(raw), valid);
    RunBlocks(State([], NoBlock), ks);
    SkipOrphans(ks);
  }

  // ---------------------------------------------------------------------------
  // One entry per item-start line
  // ---------------------------------------------------------------------------

  /** The names of the item-start lines, in input order. */
  function StartNames(ks: seq<LineKind>): seq<string>
    decreases |ks|
  {
    if ks == [] then []
    else (if IsStart(ks[0]) then [StartName(ks[0])] else []) + StartNames(ks[1..])
  }

  /** The names of the entries, in order. */
  function Names(es: seq<Entry>): seq<string>
    decreases |es|
  {
    if es == [] then [] else [es[0].name] + Names(es[1..])
  }

  /** Every entry's name is among the names. */
  lemma {:induction false} NamesContains(es: seq<Entry>)
    ensures |Names(es)| == |es|
    ensures forall e :: e in es ==> e.name in Names(es)
    decreases |es|
  {
    if es != [] {
      NamesContains(es[1..]);
      assert forall e :: e in es ==> e == es[0] || e in es[1..];
    }
  }

  lemma {:induction false} StartNamesSkip(ks: seq<LineKind>, n: nat)
    requires n <= |ks|
    requires forall j :: 0 <= j < n ==> !IsStart(ks[j])
    ensures StartNames(ks) == StartNames(ks[n..])
    decreases n
  {
    if n > 0 {
      StartNamesSkip(ks[1..], n - 1);
      assert ks[1..][n - 1..] == ks[n..];
    }
  }

  /** The block entries carry the start names, one each, in order. */
  lemma {:induction false} BlockNames(ks: seq<LineKind>)
    ensures Names(BlockEntries(ks)) == StartNames(ks)
    decreases |ks|
  {
    if ks != [] {
      if !IsStart(ks[0]) {
        BlockNames(ks[1..]);
      } else {
        var n := BodyLength(ks[1..]);
        BodyLengthMeaning(ks[1..]);
        BlockNames(ks[1..][n..]);
        StartNamesSkip(ks[1..], n);
        var es := BlockEntries(ks[1..][n..]);
        var e := BlockEntry(ks[0], ks[1..][..n]);
        assert ([e] + es)[1..] == es;
      }
    }
  }

  /** Every item-start kind names a valid item. */
  ghost predicate KindsValid(ks: seq<LineKind>, valid: set<string>) {
    forall i :: 0 <= i < |ks| && IsStart(ks[i]) ==> StartName(ks[i]) in valid
  }

  /** The classifier only opens blocks for valid names. */
  lemma ClassifiedKindsValid(lines: seq<string>, valid: set<string>)
    ensures KindsValid(Kinds(lines, valid), valid)
  {
    var ks := Kinds(lines, valid);
    forall i | 0 <= i < |ks| && IsStart(ks[i])
      ensures StartName(ks[i]) in valid
    {
      ClassifyMeaning(lines[i], valid);
    }
  }

  /** The start names of valid kinds are valid. */
  lemma {:induction false} StartNamesValid(ks: seq<LineKind>, valid: set<string>)
    requires KindsValid(ks, valid)
    ensures forall x :: x in StartNames(ks) ==> x in valid
    decreases |ks|
  {
    if ks != [] {
      assert forall i :: 0 <= i < |ks[1..]| ==> ks[1..][i] == ks[i + 1];
      StartNamesValid(ks[1..], valid);
    }
  }

  /** One entry per item-start line, in input order, carrying that line's item name. */
  lemma ParseNames(raw: seq<string>, valid: set<string>)
    ensures Names(Parse(raw, valid)) == StartNames(Kinds(CleanLines(raw), valid))
    ensures |Parse(raw, valid)| == |StartNames(Kinds(CleanLines(raw), valid))|
  {
    ParseIsBlocks(raw, valid);
    BlockNames(Kinds(CleanLines(raw), valid));
    NamesContains(Parse(raw, valid));
  }

  /** Every parsed name is one of `valid_item_names`. */
  lemma ParsedNamesValid(raw: seq<string>, valid: set<string>)
    ensures forall e :: e in Parse(raw, valid) ==> e.name in valid
  {
    var ks := Kinds(CleanLines(raw), valid);
    ParseNames(raw, valid);
    ClassifiedKindsValid(CleanLines(raw), valid);
    StartNamesValid(ks, valid);
    NamesContains(Parse(raw, valid));
  }

  /** Text made only of whitespace and no-break spaces parses to nothing. */
  lemma BlankInputParsesToNothing(raw: seq<string>, valid: set<string>)
    requires forall i, j :: 0 <= i < |raw| && 0 <= j < |raw[i]| ==> IsSpace(raw[i][j]) || raw[i][j] == NoBreakSpace
    ensures Parse(raw, valid) == []
  {
    forall i | 0 <= i < |raw|
      ensures CleanLine(raw[i]) == []
    {
      CleanLineMeaning(raw[i]);
    }
    CleanLinesEmpty(raw);
  }

}
