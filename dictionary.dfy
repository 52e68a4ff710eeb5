/**
  `load_dictionary`: the name and id columns are picked from the CSV header,
  and every row with a non-empty name and an integer id adds `name -> id`.

  The file itself is not modelled: the header is given as the list of field
  names and every data row as a map from field name to cell text, a missing
  key standing for a missing or `None` cell. The errors the function raises
  are the values of `LoadError`.
*/
module Dictionary {
  import opened Optional
  import opened Text

  datatype LoadError =
    | NoHeaderRow     // the CSV has no header row
    | MissingColumns  // no name column or no id column
    | EmptyMapping    // no row gave a usable name and id

  /** Accepted header names for the name column and for the id column, in order of preference. */
  const NameCandidates: seq<string> := ["key", "name", "item_name", "item", "title"]
  const IdCandidates: seq<string> := ["id", "item_id", "itemid"]

  /** The normalised form of a header: stripped, then lower-cased. */
  function HeaderKey(h: string): string {
    Lower(Strip(h))
  }

  /** The normalised form of every header. */
  function HeaderKeys(fieldnames: seq<string>): (ks: seq<string>)
    ensures |ks| == |fieldnames|
    ensures forall j :: 0 <= j < |fieldnames| ==> ks[j] == HeaderKey(fieldnames[j])
  {
    seq(|fieldnames|, j requires 0 <= j < |fieldnames| => HeaderKey(fieldnames[j]))
  }

  /** A dictionary built from `keys[j]: values[j]` in order: a later key overwrites an earlier one. */
  function LastWins(keys: seq<string>, values: seq<string>): map<string, string>
    requires |keys| == |values|
    decreases |keys|
  {
    if keys == [] then map[]
    else
      var n := |keys| - 1;
      LastWins(keys[..n], values[..n])[keys[n] := values[n]]
  }

  /** `{h.strip().lower(): h for h in fieldnames}`. */
  function HeaderMap(fieldnames: seq<string>): map<string, string> {
    LastWins(HeaderKeys(fieldnames), fieldnames)
  }

  lemma {:induction false} LastWinsKeys(keys: seq<string>, values: seq<string>, key: string)
    requires |keys| == |values|
    ensures key in LastWins(keys, values) <==> key in keys
    decreases |keys|
  {
    if keys != [] {
      var n := |keys| - 1;
      LastWinsKeys(keys[..n], values[..n], key);
      assert keys == keys[..n] + [keys[n]];
    }
  }

  lemma {:induction false} LastWinsValue(keys: seq<string>, values: seq<string>, key: string)
    requires |keys| == |values| && key in LastWins(keys, values)
    ensures exists j ::
              0 <= j < |keys| && keys[j] == key && values[j] == LastWins(keys, values)[key] &&
              forall k :: j < k < |keys| ==> keys[k] != key
    decreases |keys|
  {
    var n := |keys| - 1;
    if keys[n] != key {
      var ks, vs := keys[..n], values[..n];
      LastWinsValue(ks, vs, key);
      var j :| 0 <= j < |ks| && ks[j] == key && vs[j] == LastWins(ks, vs)[key] &&
        forall k :: j < k < |ks| ==> ks[k] != key;
      assert keys[j] == ks[j] && values[j] == vs[j];
      assert forall k :: j < k < n ==> keys[k] == ks[k];
    }
  }

  /** The header map holds a key exactly when some header normalises to it. */
  lemma HeaderMapKeys(fieldnames: seq<string>, key: string)
    ensures key in HeaderMap(fieldnames) <==> exists j :: 0 <= j < |fieldnames| && HeaderKey(fieldnames[j]) == key
  {
    var ks := HeaderKeys(fieldnames);
    LastWinsKeys(ks, fieldnames, key);
    if key in ks {
      var j :| 0 <= j < |ks| && ks[j] == key;
    }
  }

  /** A key of the header map maps to the last header that normalises to it. */
  lemma HeaderMapLastWins(fieldnames: seq<string>, key: string)
    requires key in HeaderMap(fieldnames)
    ensures exists j ::
              0 <= j < |fieldnames| && fieldnames[j] == HeaderMap(fieldnames)[key] &&
              HeaderKey(fieldnames[j]) == key &&
              forall k :: j < k < |fieldnames| ==> HeaderKey(fieldnames[k]) != key
  {
    LastWinsValue(HeaderKeys(fieldnames), fieldnames, key);
  }

  /** `pick(*candidates)`: the original header of the first candidate that is a key. */
  function Pick(headers: map<string, string>, candidates: seq<string>): Option<string>
    decreases |candidates|
  {
    if candidates == [] then None
    else if candidates[0] in headers then Some(headers[candidates[0]])
    else Pick(headers, candidates[1..])
  }

  /** `Pick` finds a header exactly when some candidate is a key, and takes the earliest such candidate. */
  lemma {:induction false} PickMeaning(headers: map<string, string>, candidates: seq<string>)
    ensures Pick(headers, candidates).None? <==> forall i :: 0 <= i < |candidates| ==> candidates[i] !in headers
    ensures Pick(headers, candidates).Some? ==>
      exists i :: 0 <= i < |candidates| && candidates[i] in headers &&
        Pick(headers, candidates).value == headers[candidates[i]] &&
        forall k :: 0 <= k < i ==> candidates[k] !in headers
    decreases |candidates|
  {
    if candidates != [] && candidates[0] !in headers {
      var rest := candidates[1..];
      PickMeaning(headers, rest);
      assert forall i :: 0 <= i < |rest| ==> rest[i] == candidates[i + 1];
      if Pick(headers, rest).Some? {
        var i :| 0 <= i < |rest| && rest[i] in headers && Pick(headers, rest).value == headers[rest[i]] &&
          forall k :: 0 <= k < i ==> rest[k] !in headers;
        assert candidates[i + 1] == rest[i];
      }
    }
  }

  /** The name column and the id column the header yields, if it has both. */
  function Columns(fieldnames: seq<string>): Option<(string, string)> {
    var headers := HeaderMap(fieldnames);
    var nameCol := Pick(headers, NameCandidates);
    var idCol := Pick(headers, IdCandidates);
    if nameCol.Some? && idCol.Some? then Some((nameCol.value, idCol.value)) else None
  }

  /** Some header normalises to one of `candidates`. */
  ghost predicate Offers(fieldnames: seq<string>, candidates: seq<string>) {
    exists j, i :: 0 <= j < |fieldnames| && 0 <= i < |candidates| && HeaderKey(fieldnames[j]) == candidates[i]
  }

  /** A column is picked from `candidates` exactly when some header normalises to one of them. */
  lemma PickFound(fieldnames: seq<string>, candidates: seq<string>)
    ensures Pick(HeaderMap(fieldnames), candidates).Some? <==> Offers(fieldnames, candidates)
  {
    var headers := HeaderMap(fieldnames);
    PickMeaning(headers, candidates);
    forall i | 0 <= i < |candidates|
      ensures candidates[i] in headers <==> exists j :: 0 <= j < |fieldnames| && HeaderKey(fieldnames[j]) == candidates[i]
    {
      HeaderMapKeys(fieldnames, candidates[i]);
    }
  }

  /** Both columns are found exactly when some header normalises to a name
      candidate and some header normalises to an id candidate. */
  lemma ColumnsFound(fieldnames: seq<string>)
    ensures Columns(fieldnames).Some? <==> Offers(fieldnames, NameCandidates) && Offers(fieldnames, IdCandidates)
  {
    PickFound(fieldnames, NameCandidates);
    PickFound(fieldnames, IdCandidates);
  }

  /** `(row.get(col) or "")`: a missing cell reads as the empty string. */
  function Cell(row: map<string, string>, col: string): string {
    if col in row then row[col] else ""
  }

  /** The pair a row contributes: its stripped name and its id, when the name is
      not empty and the stripped id text is an integer. */
  function RowEntry(row: map<string, string>, nameCol: string, idCol: string): Option<(string, int)> {
    var name := Strip(Cell(row, nameCol));
    var rawId := Strip(Cell(row, idCol));
    if name == [] || rawId == [] then None
    else
      match ParseInt(rawId)
      case Some(v) => Some((name, v))
      case None => None
  }

  /** What each row contributes, in row order. */
  function Entries(rows: seq<map<string, string>>, nameCol: string, idCol: string): (es: seq<Option<(string, int)>>)
    ensures |es| == |rows|
    ensures forall j :: 0 <= j < |rows| ==> es[j] == RowEntry(rows[j], nameCol, idCol)
  {
    seq(|rows|, j requires 0 <= j < |rows| => RowEntry(rows[j], nameCol, idCol))
  }

  /** The mapping the contributions build, a later one overwriting an earlier one with the same name. */
  function Collect(es: seq<Option<(string, int)>>): map<string, int>
    decreases |es|
  {
    if es == [] then map[]
    else
      var m := Collect(es[..|es| - 1]);
      match es[|es| - 1]
      case Some((name, id)) => m[name := id]
      case None => m
  }

  /** The mapping the rows build. */
  function RowsMapping(rows: seq<map<string, string>>, nameCol: string, idCol: string): map<string, int> {
    Collect(Entries(rows, nameCol, idCol))
  }

  lemma {:induction false} CollectKeys(es: seq<Option<(string, int)>>, name: string)
    ensures name in Collect(es) <==> exists j :: 0 <= j < |es| && es[j].Some? && es[j].value.0 == name
    decreases |es|
  {
    if es != [] {
      var n := |es| - 1;
      var init := es[..n];
      CollectKeys(init, name);
      assert forall j :: 0 <= j < n ==> init[j] == es[j];
    }
  }

  lemma {:induction false} CollectLastWins(es: seq<Option<(string, int)>>, name: string)
    requires name in Collect(es)
    ensures exists j ::
              0 <= j < |es| && es[j] == Some((name, Collect(es)[name])) &&
              forall k :: j < k < |es| ==> es[k].None? || es[k].value.0 != name
    decreases |es|
  {
    var n := |es| - 1;
    var init := es[..n];
    if es[n].None? || es[n].value.0 != name {
      CollectLastWins(init, name);
      var j :| 0 <= j < |init| && init[j] == Some((name, Collect(init)[name])) &&
        forall k :: j < k < |init| ==> init[k].None? || init[k].value.0 != name;
      assert es[j] == init[j];
      assert forall k :: j < k < n ==> es[k] == init[k];
    }
  }

  /** Whether row `row` yields the name `name`. */
  predicate Yields(row: map<string, string>, nameCol: string, idCol: string, name: string) {
    RowEntry(row, nameCol, idCol).Some? && RowEntry(row, nameCol, idCol).value.0 == name
  }

  /** A name is in the mapping exactly when some row yields it. */
  lemma RowsMappingKeys(rows: seq<map<string, string>>, nameCol: string, idCol: string, name: string)
    ensures name in RowsMapping(rows, nameCol, idCol) <==>
      exists j :: 0 <= j < |rows| && Yields(rows[j], nameCol, idCol, name)
  {
    CollectKeys(Entries(rows, nameCol, idCol), name);
  }

  /** The id of a name in the mapping is the one the last row yielding that name gives. */
  lemma RowsMappingLastWins(rows: seq<map<string, string>>, nameCol: string, idCol: string, name: string)
    requires name in RowsMapping(rows, nameCol, idCol)
    ensures exists j ::
              0 <= j < |rows| && RowEntry(rows[j], nameCol, idCol) == Some((name, RowsMapping(rows, nameCol, idCol)[name])) &&
              forall k :: j < k < |rows| ==> !Yields(rows[k], nameCol, idCol, name)
  {
    CollectLastWins(Entries(rows, nameCol, idCol), name);
  }

  /** Every name in the mapping is stripped and not empty. */
  lemma {:induction false} RowsMappingNames(rows: seq<map<string, string>>, nameCol: string, idCol: string, name: string)
    requires name in RowsMapping(rows, nameCol, idCol)
    ensures name != [] && Strip(name) == name
  {
    RowsMappingKeys(rows, nameCol, idCol, name);
    var j :| 0 <= j < |rows| && Yields(rows[j], nameCol, idCol, name);
    StripIdempotent(Cell(rows[j], nameCol));
  }

  /** `load_dictionary` on a header and the data rows. */
  method LoadDictionary(fieldnames: seq<string>, rows: seq<map<string, string>>) returns (r: Result<map<string, int>, LoadError>)
    ensures fieldnames == [] <==> r == Err(NoHeaderRow)
    ensures fieldnames != [] ==>
      && (r == Err(MissingColumns) <==> Columns(fieldnames).None?)
      && (Columns(fieldnames).Some? ==>
            var m := RowsMapping(rows, Columns(fieldnames).value.0, Columns(fieldnames).value.1);
            && (r == Err(EmptyMapping) <==> m == map[])
            && (m != map[] ==> r == Ok(m)))
  {
    if fieldnames == [] {
      return Err(NoHeaderRow);
    }
    var headers := HeaderMap(fieldnames);
    var nameCol := Pick(headers, NameCandidates);
    var idCol := Pick(headers, IdCandidates);
    if nameCol.None? || idCol.None? {
      return Err(MissingColumns);
    }
    var mapping: map<string, int> := map[];
    for i := 0 to |rows|
      invariant mapping == Collect(Entries(rows, nameCol.value, idCol.value)[..i])
    {
      assert Entries(rows, nameCol.value, idCol.value)[..i + 1][..i] == Entries(rows, nameCol.value, idCol.value)[..i];
      var row := rows[i];
      var name := Strip(Cell(row, nameCol.value));
      var rawId := Strip(Cell(row, idCol.value));
      if name == [] || rawId == [] {
        continue;
      }
      var id := ParseInt(rawId);
      if id.Some? {
        mapping := mapping[name := id.value];
      }
    }
    assert Entries(rows, nameCol.value, idCol.value)[..|rows|] == Entries(rows, nameCol.value, idCol.value);
    if mapping == map[] {
      return Err(EmptyMapping);
    }
    return Ok(mapping);
  }
}
