# Inventory matcher, modelled in Dafny

This project models the inventory matcher of the Torn market assistant,
`src/tma/inventory_matcher.py`. A player pastes the text of the game's
"Add listings" page. The matcher:

- cleans the lines of that text;
- splits them into item blocks, each of which starts at a line that is a
  known item name (or `Name xN`);
- reads each block's quantity (`xN` lines, otherwise 1) and whether it is
  omitted (an `Equipped` or `Untradable` line);
- sums the quantities per item id, using a name-to-id dictionary loaded from
  a CSV file;
- returns the matched items sorted by name, plus the names it could not match;
- renders the result as CSV rows.

Modules, in dependency order:

| module | file | models |
|---|---|---|
| `Optional` | `optional.dfy` | `Option` and `Result` |
| `Text` | `text.dfy` | `str.isspace`, `strip`, `lower`, `int`, `str` and string `<`, restricted to ASCII; `_clean_line` |
| `Patterns` | `patterns.dfy` | the two regular expressions and the omission-marker test |
| `Parser` | `parser.dfy` | `parse_add_listings_text`, as a specification fold `Parse`, the loop method `ParseAddListingsText`, and an independent block-by-block description `BlockEntries` |
| `Matcher` | `matcher.dfy` | the aggregation, sorting and result of `match_inventory`, and `to_csv_rows` |
| `Dictionary` | `dictionary.dfy` | the header pick and row filter of `load_dictionary` |
| `Scenarios` | `scenarios.dfy` | two worked inputs, followed through the model |

How the model is built:

- The loops of the source are `while`/`for` methods. These are
  `ParseAddListingsText`, `Aggregate`, `LoadDictionary` and `ToCsvRows`.
- Each loop method is proved against a specification function: `Parse`,
  `Ids`/`Total`/`FirstName`/`Misses`, `RowsMapping`, or a row-by-row
  description.
- The lemmas prove that the specification functions mean what the source
  promises.

Python's `dict` keeps insertion order. `Aggregate` therefore keeps the map
`aggregated` together with the sequence `order` of its keys.

For the text `Xanax / x5 / Xanax / x3 / Ghost Item / x2` and the dictionary
`{"Xanax": 206}`, the code gives Xanax 7 with nothing unmatched:

- A name that is not in the dictionary never starts a block.
- So `Ghost Item` is an ignored line inside the second Xanax block.
- The `x2` after it overwrites that block's quantity.
- The result is Xanax 5 + 2 = 7, with nothing unmatched.

The model follows the code (`Scenarios.XanaxRun`, `Scenarios.XanaxMatch`).
More generally, `Matcher.MatchInventory` proves that `unmatched` is always
empty.

## Model

| member | source | states |
|---|---|---|
| Text.StripMeaning | src/tma/inventory_matcher.py:28 | `strip()` returns a slice of the input with only whitespace cut from either end; the result is empty iff the input is all whitespace, and otherwise starts and ends with a non-space |
| Text.StripIdempotent | src/tma/inventory_matcher.py:28 | stripping twice is stripping once |
| Text.CleanLineMeaning | src/tma/inventory_matcher.py:27-28 | a cleaned line holds no no-break space; it is empty iff every character was whitespace or a no-break space; otherwise it has no whitespace at either end |
| Text.CleanLineIdempotent | src/tma/inventory_matcher.py:27-28 | cleaning a cleaned line changes nothing |
| Text.LowerEqualsWord | src/tma/inventory_matcher.py:122-123 | `line.lower() == w` for a lower-case word `w` holds iff the line equals `w` up to the case of ASCII letters |
| Text.NatToString | src/tma/inventory_matcher.py:169 | `str(n)` for `n >= 0` is a non-empty digit string without a leading zero whose value is `n` |
| Text.IntToString | src/tma/inventory_matcher.py:169 | `str(i)` has no whitespace at either end, and is `-` followed by `str(-i)` for negative `i` |
| Text.ParseIntOfIntToString | src/tma/inventory_matcher.py:65 | `int(str(i)) == i` for every integer |
| Text.LessIrreflexive | src/tma/inventory_matcher.py:161 | the string order used as sort key is irreflexive |
| Text.LessTransitive | src/tma/inventory_matcher.py:161 | the string order is transitive |
| Text.LessTotal | src/tma/inventory_matcher.py:161 | two different strings are ordered one way or the other |
| Patterns.Subject | src/tma/inventory_matcher.py:23-24 | `$` matches at the end of the line or just before one final line feed |
| Patterns.QtyTokenMeaning | src/tma/inventory_matcher.py:23 | `x\s*(\d+)` accepts exactly the letter x (either case), whitespace, then digits, and yields the value of the digits |
| Patterns.SpacedQtyTokenMeaning | src/tma/inventory_matcher.py:24 | `\s+x\s*(\d+)` accepts exactly non-empty whitespace followed by a quantity token, and yields that token's quantity |
| Patterns.LineFeedFree | src/tma/inventory_matcher.py:24 | `.` cannot cross a line feed: the reachable prefix holds none, and a line feed, if any, ends it |
| Patterns.LongestSplitIsLongest | src/tma/inventory_matcher.py:24 | the greedy search returns the largest split point that works, and reports no match only when no split point works |
| Patterns.NameQtyTokenMeaning | src/tma/inventory_matcher.py:24 | group 1 of `(.*)\s+x\s*(\d+)` is the longest line-feed-free prefix after which the rest matches `\s+x\s*(\d+)`; there is no match iff no such prefix exists |
| Patterns.QtyTokenEndsInDigit | src/tma/inventory_matcher.py:23 | a quantity token ends in a digit |
| Patterns.SpacedQtyTokenShape | src/tma/inventory_matcher.py:24 | a match of `\s+x\s*(\d+)` starts with whitespace and ends in a digit |
| Patterns.QtyMatchShape | src/tma/inventory_matcher.py:127-128 | a standalone quantity line ends in a digit |
| Patterns.NameQtyMatchShape | src/tma/inventory_matcher.py:109-110 | a line with an inline quantity ends in a digit and contains whitespace |
| Patterns.MarkerIsNotQtyLine | src/tma/inventory_matcher.py:122-130 | an `equipped`/`untradable` line is never a quantity line, so the order of those two tests does not matter |
| Parser.CleanAll | src/tma/inventory_matcher.py:82 | one cleaned line per raw line, in order |
| Parser.NonEmpty | src/tma/inventory_matcher.py:83 | the filter leaves no empty line and never yields more lines than it is given |
| Parser.NonEmptyEmpty | src/tma/inventory_matcher.py:83 | nothing survives the filter iff every line is empty |
| Parser.NonEmptyKeeps | src/tma/inventory_matcher.py:83 | lines that are all non-empty pass the filter unchanged |
| Parser.NonEmptyOne | src/tma/inventory_matcher.py:83 | a single line passes the filter exactly when it is not empty |
| Parser.NonEmptyConcat | src/tma/inventory_matcher.py:83 | the filter works line by line: filtering a concatenation concatenates the filtered parts, so with `NonEmptyOne` the result is exactly the non-empty lines, in input order |
| Parser.NonEmptyMembers | src/tma/inventory_matcher.py:83 | a line is in the result iff it is a non-empty line of the input |
| Parser.CleanLinesEmpty | src/tma/inventory_matcher.py:82-83 | no line is left iff every raw line cleans to nothing |
| Parser.Kinds | src/tma/inventory_matcher.py:99-130 | one line kind per cleaned line, each given by the classifier |
| Parser.ClassifyMeaning | src/tma/inventory_matcher.py:101-130 | the tests in source order: an exact valid name first; then an inline quantity whose stripped name is valid; otherwise a marker or a standalone quantity line; each with the name and quantity the source takes |
| Parser.OrphanLine | src/tma/inventory_matcher.py:119-120 | with no block open, a line that starts no block changes nothing |
| Parser.ExactNameStartsBlock | src/tma/inventory_matcher.py:101-106 | a valid name line flushes the open block and opens a fresh one with quantity 1, even if it also looks like `xN` or a marker |
| Parser.ParseAddListingsText | src/tma/inventory_matcher.py:75-133 | the loop, with the source's local state, yields `Parse` of the lines, and every name it returns is valid |
| Parser.LastQtyIsLast | src/tma/inventory_matcher.py:127-130 | the quantity kept is that of the last `xN` line of the block; there is none iff the block has no `xN` line |
| Parser.BodyLength | src/tma/inventory_matcher.py:101-117 | the line ending a block's body, if any, is an item start |
| Parser.BodyLengthMeaning | src/tma/inventory_matcher.py:101-117 | no line of a block's body starts a block |
| Parser.RunConcat | src/tma/inventory_matcher.py:99 | running the loop over two stretches of lines is running it over their concatenation |
| Parser.RunBody | src/tma/inventory_matcher.py:119-130 | a block's body sets the open block's quantity to its last `xN` (else keeps it) and marks it omitted iff some line is a marker; with no block open it changes nothing |
| Parser.OpenBlock | src/tma/inventory_matcher.py:91-98 | after the open block's body, a flush adds exactly that block's entry |
| Parser.StartLine | src/tma/inventory_matcher.py:102-105 | an item-start line flushes and opens its own block |
| Parser.NextStart | src/tma/inventory_matcher.py:99-117 | the loop continues from the state after the next item start |
| Parser.RunBlocks | src/tma/inventory_matcher.py:91-132 | from any state, the result is the flushed open block followed by one entry per later block |
| Parser.SkipOrphans | src/tma/inventory_matcher.py:119-120 | lines before the first item start contribute nothing |
| Parser.ParseIsBlocks | src/tma/inventory_matcher.py:75-133 | the parse equals the block description: one entry per item-start line, with its name, the last `xN` of its block or else its initial quantity (1, or N for `Name xN`), and omitted iff its block has a marker line |
| Parser.NamesContains | src/tma/inventory_matcher.py:94 | the name list has one name per entry, and every entry's name is in it |
| Parser.StartNamesSkip | src/tma/inventory_matcher.py:119-120 | lines that start no block add no name |
| Parser.BlockNames | src/tma/inventory_matcher.py:101-117 | the block entries carry the start lines' names, one each, in order |
| Parser.ClassifiedKindsValid | src/tma/inventory_matcher.py:101-117 | the classifier opens blocks only for valid names |
| Parser.StartNamesValid | src/tma/inventory_matcher.py:101-117 | the start names of valid kinds are valid |
| Parser.ParseNames | src/tma/inventory_matcher.py:101-117 | the parsed entries' names are the item-start lines' names, in input order |
| Parser.ParsedNamesValid | src/tma/inventory_matcher.py:101-117 | every parsed name is in `valid_item_names` |
| Parser.BlankInputParsesToNothing | src/tma/inventory_matcher.py:82-132 | text of only whitespace and no-break spaces parses to `[]` |
| Matcher.IdsMeaning | src/tma/inventory_matcher.py:154-158 | the ids are distinct; an id is listed iff some kept entry's name maps to it, iff it has a first name; an unlisted id has total 0 |
| Matcher.FirstNameMeaning | src/tma/inventory_matcher.py:154-158 | the name kept for an id is that of its first hitting entry; there is none iff no entry hits it |
| Matcher.FirstNameMapsToId | src/tma/inventory_matcher.py:149-158 | the kept name maps to its id in the dictionary |
| Matcher.TotalConcat | src/tma/inventory_matcher.py:156 | per-id totals add up over concatenated inputs |
| Matcher.SumTotalsStep | src/tma/inventory_matcher.py:154-158 | one more kept entry raises the sum of the distinct ids' totals by its quantity iff its id is among them |
| Matcher.SumTotalsSkip | src/tma/inventory_matcher.py:145-152 | an omitted or unknown entry changes no total |
| Matcher.TotalsConserve | src/tma/inventory_matcher.py:154-158 | the totals of the ids add up to the quantity of all kept, known entries |
| Matcher.OmittedIds | src/tma/inventory_matcher.py:145-147 | an omitted entry does not change the ids |
| Matcher.OmittedTotal | src/tma/inventory_matcher.py:145-147 | an omitted entry does not change any total |
| Matcher.OmittedFirstName | src/tma/inventory_matcher.py:145-147 | an omitted entry does not change any kept name |
| Matcher.OmittedMisses | src/tma/inventory_matcher.py:145-147 | an omitted entry does not change the unmatched list |
| Matcher.OmittedKnownQty | src/tma/inventory_matcher.py:145-147 | an omitted entry does not change the matched quantity |
| Matcher.OmittedVanishes | src/tma/inventory_matcher.py:145-147 | dropping an omitted entry anywhere leaves every part of the result unchanged |
| Matcher.NoMisses | src/tma/inventory_matcher.py:149-152 | when every parsed name is in the dictionary, nothing is unmatched |
| Matcher.QtySumConcat | src/tma/inventory_matcher.py:160 | the quantity sum adds up over concatenation |
| Matcher.InsertMultiset | src/tma/inventory_matcher.py:161 | insertion adds exactly the inserted item |
| Matcher.InsertMembers | src/tma/inventory_matcher.py:161 | after insertion the items are the inserted one and the old ones |
| Matcher.InsertQty | src/tma/inventory_matcher.py:161 | insertion adds the inserted quantity |
| Matcher.InsertSorted | src/tma/inventory_matcher.py:161 | inserting an item with a new name keeps the items sorted |
| Matcher.SortMultiset | src/tma/inventory_matcher.py:161 | sorting is a permutation |
| Matcher.SortMembers | src/tma/inventory_matcher.py:161 | sorting keeps the same items |
| Matcher.SortQty | src/tma/inventory_matcher.py:161 | sorting keeps the total quantity |
| Matcher.SortSorted | src/tma/inventory_matcher.py:161 | items with distinct names come out strictly increasing by name |
| Matcher.SortedIsUnique | src/tma/inventory_matcher.py:161 | two sorted lists with the same items are equal, so any sorting algorithm gives this result |
| Matcher.KeptQtySplits | src/tma/inventory_matcher.py:145-158 | every kept entry is counted once, as known or as unmatched: known quantity plus unmatched quantity equals the quantity of all kept entries |
| Matcher.Aggregate | src/tma/inventory_matcher.py:142-163 | the loop and sort give `unmatched` = the kept unknown entries in order; `matched` sorted by name, one item per id hit, each with the first name and the summed quantity, with no id twice and every id present (`MatchedFrom`); matched quantities add up to the known kept quantity, and matched plus unmatched quantities to the quantity of all kept entries |
| Matcher.SortedResult | src/tma/inventory_matcher.py:160-161 | the sorted list of items built from the ids has the properties `Aggregate` promises |
| Matcher.ItemsFacts | src/tma/inventory_matcher.py:160 | the items built from the ids have distinct names, cover every id and add up to the known kept quantity |
| Matcher.ItemsQty | src/tma/inventory_matcher.py:160 | the items' quantity sum is the sum of their ids' totals |
| Matcher.UniqueIds | src/tma/inventory_matcher.py:154-161 | no id occurs twice among the matched items |
| Matcher.MatchInventory | src/tma/inventory_matcher.py:136-163 | `match_inventory` on a dictionary: nothing unmatched, the matched list is `MatchedFrom` the parse of the text, and its quantities add up to the quantity of all kept parsed entries |
| Matcher.MatchInventoryCsv | src/tma/inventory_matcher.py:136-140 | loading fails exactly when there is no header, no name or id column, or no usable row, and the error returned is `NoHeaderRow`, `MissingColumns` or `EmptyMapping` in that order of precedence; otherwise nothing is unmatched, the matched list is `MatchedFrom` the parse against the loaded dictionary, and its quantities add up to the quantity of all kept parsed entries |
| Matcher.CsvRowReadsBack | src/tma/inventory_matcher.py:169 | a CSV row is the name followed by an id and a quantity that `int` reads back exactly |
| Matcher.ToCsvRows | src/tma/inventory_matcher.py:166-170 | the header `name,id,qty`, then one row per matched item, in order |
| Dictionary.LastWinsKeys | src/tma/inventory_matcher.py:41 | a dict built from pairs has exactly the keys listed |
| Dictionary.LastWinsValue | src/tma/inventory_matcher.py:41 | each key of such a dict holds the value of its last pair |
| Dictionary.HeaderMapKeys | src/tma/inventory_matcher.py:41 | a normalised name is a header key iff some header strips and lower-cases to it |
| Dictionary.HeaderMapLastWins | src/tma/inventory_matcher.py:41 | a header key maps to the last header that normalises to it |
| Dictionary.PickMeaning | src/tma/inventory_matcher.py:43-47 | `pick` returns the header of the earliest candidate present, and `None` iff no candidate is present |
| Dictionary.PickFound | src/tma/inventory_matcher.py:49-50 | a column is found iff some header normalises to one of its candidates |
| Dictionary.ColumnsFound | src/tma/inventory_matcher.py:49-56 | both columns are found iff some header is a name candidate and some header is an id candidate |
| Dictionary.CollectKeys | src/tma/inventory_matcher.py:58-67 | a name is in the mapping iff some row contributes it |
| Dictionary.CollectLastWins | src/tma/inventory_matcher.py:65 | a name's id is that of the last row contributing the name |
| Dictionary.RowsMappingKeys | src/tma/inventory_matcher.py:58-67 | a name is in the mapping iff some row has that stripped, non-empty name and an integer id |
| Dictionary.RowsMappingLastWins | src/tma/inventory_matcher.py:65 | a later row with the same name overwrites the id of an earlier one |
| Dictionary.RowsMappingNames | src/tma/inventory_matcher.py:60-62 | every dictionary name is non-empty and already stripped |
| Dictionary.LoadDictionary | src/tma/inventory_matcher.py:38-72 | no header row is an error; a missing name or id column is an error exactly when the columns are not found; otherwise the result is the rows' mapping, and an empty mapping is an error |
| Scenarios.CleanAlready | src/tma/inventory_matcher.py:27-28 | a line with no no-break space and no whitespace at either end is left as it is by cleaning |
| Scenarios.IgnoredLine | src/tma/inventory_matcher.py:101-130 | a line that is not a valid name or a marker and does not end in a digit is ignored |
| Scenarios.QtyDigitLine | src/tma/inventory_matcher.py:127-129 | `x` and one digit is a standalone quantity line with that digit's value |
| Scenarios.XanaxRun | src/tma/inventory_matcher.py:99-132 | for the kinds of `Xanax / x5 / Xanax / x3 / Ghost Item / x2`, the parse is `(Xanax, 5)`, `(Xanax, 2)` |
| Scenarios.XanaxMatch | src/tma/inventory_matcher.py:145-161 | those entries match Xanax once with quantity 7, and nothing is unmatched |
| Scenarios.FlowersScenario | src/tma/inventory_matcher.py:122-147 | `Flowers / Equipped` gives one omitted entry, so nothing is matched and nothing is unmatched |

## Left out

- File and CSV input and output (lines 32-39: the existence check, the `utf-8-sig` decoding and `csv.DictReader`) are not modelled. The header is given as a list of field names, and each row as a map from field name to cell text. A missing or `None` cell is a missing key.
- Duplicate field names in a `csv.DictReader` row are not modelled (each row is already a map).
- `main` (lines 173-201) is not modelled: argument parsing, reading stdin or a file, joining the rows with commas, printing, and the stderr report of unmatched items.
- `raw_text.splitlines()` is not modelled; the text is given already split into lines.
- Unicode is not modelled. Whitespace, `lower()` and digits are ASCII only. `int()` on non-ASCII digits or with `_` separators is not modelled.
- `list.sort` (Timsort) is modelled by a stable insertion sort. The matched names are distinct, so by `Matcher.SortedIsUnique` every sort gives the same list.
- `app/streamlit_app.py` is not part of this model.
- The market fetcher and the rate limiter are not part of this model.
- The worked examples in `Scenarios` start from the lines' kinds. Only the per-line lemmas (`IgnoredLine`, `QtyDigitLine`, `CleanAlready`) connect them to the raw text.
