/**
  `match_inventory` and `to_csv_rows`: the parsed blocks are aggregated by item
  id, omitted blocks are dropped, names the dictionary does not know are kept
  as unmatched, and the matched items are sorted by name.

  The dictionary `name_to_id` is given as a map (loading it is module
  Dictionary). The aggregation loop fills a dictionary `aggregated`, whose
  iteration order is its insertion order; the method keeps that order beside
  the map.

  The specification is declarative over the parsed entries `p`: `Ids` are the
  ids hit, in order of first hit, `Total` the sum of the quantities that hit an
  id, `FirstName` the name of the first entry that hit it and `Misses` the kept
  entries whose name is not in the dictionary.
*/
module Matcher {
  import opened Optional
  import opened Text
  import opened Parser
  import Dictionary

  datatype MatchedItem = MatchedItem(name: string, itemId: int, qty: nat)

  /** `ParseResult`: the matched items and the `(name, qty)` pairs left unmatched. */
  datatype ParseResult = ParseResult(matched: seq<MatchedItem>, unmatched: seq<(string, nat)>)

  // ---------------------------------------------------------------------------
  // What the aggregation computes
  // ---------------------------------------------------------------------------

  /** The entry counts towards the item `id`: it is not omitted and its name maps to `id`. */
  predicate Hits(e: Entry, dict: map<string, int>, id: int) {
    !e.omitted && e.name in dict && dict[e.name] == id
  }

  /** The entry is kept and its name maps to some id. */
  predicate Known(e: Entry, dict: map<string, int>) {
    !e.omitted && e.name in dict
  }

  /** The ids the entries hit, each once, in the order of their first hit. */
  function Ids(p: seq<Entry>, dict: map<string, int>): seq<int>
    decreases |p|
  {
    if p == [] then []
    else
      var ids := Ids(p[..|p| - 1], dict);
      var e := p[|p| - 1];
      if Known(e, dict) && dict[e.name] !in ids then ids + [dict[e.name]] else ids
  }

  /** The sum of the quantities of the entries that hit `id`. */
  function Total(p: seq<Entry>, dict: map<string, int>, id: int): nat
    decreases |p|
  {
    if p == [] then 0
    else Total(p[..|p| - 1], dict, id) + (if Hits(p[|p| - 1], dict, id) then p[|p| - 1].qty else 0)
  }

  /** The name of the first entry that hits `id`. */
  function FirstName(p: seq<Entry>, dict: map<string, int>, id: int): Option<string>
    decreases |p|
  {
    if p == [] then None
    else
      var first := FirstName(p[..|p| - 1], dict, id);
      if first.Some? then first
      else if Hits(p[|p| - 1], dict, id) then Some(p[|p| - 1].name)
      else None
  }

  /** The kept entries whose name the dictionary does not know, as `(name, qty)`, in order. */
  function Misses(p: seq<Entry>, dict: map<string, int>): seq<(string, nat)>
    decreases |p|
  {
    if p == [] then []
    else
      var e := p[|p| - 1];
      Misses(p[..|p| - 1], dict) + (if !e.omitted && e.name !in dict then [(e.name, e.qty)] else [])
  }

  /** The sum of the quantities of all kept entries with a known name. */
  function KnownQty(p: seq<Entry>, dict: map<string, int>): nat
    decreases |p|
  {
    if p == [] then 0
    else KnownQty(p[..|p| - 1], dict) + (if Known(p[|p| - 1], dict) then p[|p| - 1].qty else 0)
  }

  /** The sum of the quantities of all kept entries, known or not. */
  function KeptQty(p: seq<Entry>): nat
    decreases |p|
  {
    if p == [] then 0
    else KeptQty(p[..|p| - 1]) + (if !p[|p| - 1].omitted then p[|p| - 1].qty else 0)
  }

  /** The sum of the quantities of a list of unmatched `(name, qty)` pairs. */
  function MissQty(u: seq<(string, nat)>): nat
    decreases |u|
  {
    if u == [] then 0 else MissQty(u[..|u| - 1]) + u[|u| - 1].1
  }

  /** The sum of the totals of the given ids. */
  function SumTotals(p: seq<Entry>, dict: map<string, int>, ids: seq<int>): nat
    decreases |ids|
  {
    if ids == [] then 0
    else SumTotals(p, dict, ids[..|ids| - 1]) + Total(p, dict, ids[|ids| - 1])
  }

  predicate Distinct(ids: seq<int>) {
    forall j, k :: 0 <= j < k < |ids| ==> ids[j] != ids[k]
  }

  // ---------------------------------------------------------------------------
  // Properties of the specification
  // ---------------------------------------------------------------------------

  /** `Ids` lists each id once, exactly the ids some entry hits, and an id is
      listed exactly when it has a first name; an id not listed has total 0. */
  lemma {:induction false} IdsMeaning(p: seq<Entry>, dict: map<string, int>, id: int)
    ensures Distinct(Ids(p, dict))
    ensures id in Ids(p, dict) <==> exists j :: 0 <= j < |p| && Hits(p[j], dict, id)
    ensures id in Ids(p, dict) <==> FirstName(p, dict, id).Some?
    ensures id !in Ids(p, dict) ==> Total(p, dict, id) == 0
    decreases |p|
  {
    if p != [] {
      var init := p[..|p| - 1];
      IdsMeaning(init, dict, id);
      assert forall j :: 0 <= j < |init| ==> init[j] == p[j];
      var e := p[|p| - 1];
      if Known(e, dict) && dict[e.name] !in Ids(init, dict) {
        IdsMeaning(init, dict, dict[e.name]);
      }
    }
  }

  /** The first name is the name of an entry that hits `id` before which no entry does. */
  lemma {:induction false} FirstNameMeaning(p: seq<Entry>, dict: map<string, int>, id: int)
    ensures FirstName(p, dict, id).None? <==> forall j :: 0 <= j < |p| ==> !Hits(p[j], dict, id)
    ensures FirstName(p, dict, id).Some? ==>
      exists j :: 0 <= j < |p| && Hits(p[j], dict, id) && p[j].name == FirstName(p, dict, id).value &&
        forall k :: 0 <= k < j ==> !Hits(p[k], dict, id)
    decreases |p|
  {
    if p != [] {
      var init := p[..|p| - 1];
      FirstNameMeaning(init, dict, id);
      assert forall j :: 0 <= j < |init| ==> init[j] == p[j];
      if FirstName(init, dict, id).Some? {
        var j :| 0 <= j < |init| && Hits(init[j], dict, id) && init[j].name == FirstName(init, dict, id).value &&
          forall k :: 0 <= k < j ==> !Hits(init[k], dict, id);
        assert p[j] == init[j];
      }
    }
  }

  /** The first name of an id is a dictionary name for that id. */
  lemma FirstNameMapsToId(p: seq<Entry>, dict: map<string, int>, id: int)
    requires FirstName(p, dict, id).Some?
    ensures FirstName(p, dict, id).value in dict && dict[FirstName(p, dict, id).value] == id
  {
    FirstNameMeaning(p, dict, id);
  }

  /** Totals add up over concatenation: `Total` is a sum over the entries. */
  lemma {:induction false} TotalConcat(a: seq<Entry>, b: seq<Entry>, dict: map<string, int>, id: int)
    ensures Total(a + b, dict, id) == Total(a, dict, id) + Total(b, dict, id)
    decreases |b|
  {
    if b == [] {
      assert a + b == a;
    } else {
      var init := b[..|b| - 1];
      assert (a + b)[..|a + b| - 1] == a + init;
      assert (a + b)[|a + b| - 1] == b[|b| - 1];
      TotalConcat(a, init, dict, id);
    }
  }

  /** Adding one hit to every total: the sum over distinct ids grows by that
      entry's quantity when its id is among them. */
  lemma {:induction false} SumTotalsStep(p: seq<Entry>, e: Entry, dict: map<string, int>, ids: seq<int>)
    requires Known(e, dict) && Distinct(ids)
    ensures SumTotals(p + [e], dict, ids) == SumTotals(p, dict, ids) + (if dict[e.name] in ids then e.qty else 0)
    decreases |ids|
  {
    if ids != [] {
      var init := ids[..|ids| - 1];
      assert forall j :: 0 <= j < |init| ==> init[j] == ids[j];
      SumTotalsStep(p, e, dict, init);
      assert (p + [e])[..|p + [e]| - 1] == p;
      assert dict[e.name] in ids <==> dict[e.name] in init || dict[e.name] == ids[|ids| - 1];
    }
  }

  /** An entry that hits nothing changes no total. */
  lemma {:induction false} SumTotalsSkip(p: seq<Entry>, e: Entry, dict: map<string, int>, ids: seq<int>)
    requires !Known(e, dict)
    ensures SumTotals(p + [e], dict, ids) == SumTotals(p, dict, ids)
    decreases |ids|
  {
    if ids != [] {
      SumTotalsSkip(p, e, dict, ids[..|ids| - 1]);
      assert (p + [e])[..|p + [e]| - 1] == p;
    }
  }

  /** Aggregation conserves quantity: the totals of the hit ids add up to the
      quantity of all kept entries with a known name. */
  lemma {:induction false} TotalsConserve(p: seq<Entry>, dict: map<string, int>)
    ensures SumTotals(p, dict, Ids(p, dict)) == KnownQty(p, dict)
    decreases |p|
  {
    if p != [] {
      var init := p[..|p| - 1];
      var e := p[|p| - 1];
      var ids := Ids(init, dict);
      TotalsConserve(init, dict);
      assert init + [e] == p;
      if Known(e, dict) {
        IdsMeaning(init, dict, dict[e.name]);
        SumTotalsStep(init, e, dict, ids);
        if dict[e.name] !in ids {
          assert (ids + [dict[e.name]])[..|ids|] == ids;
          assert Total(init, dict, dict[e.name]) == 0;
        }
      } else {
        SumTotalsSkip(init, e, dict, ids);
      }
    }
  }

  /** How `a + [e] + b` and `a + b` split into their last entry and the rest. */
  lemma DropSlices(a: seq<Entry>, e: Entry, b: seq<Entry>)
    ensures b == [] ==> a + [e] + b == a + [e] && (a + [e])[..|a|] == a && a + b == a
    ensures b != [] ==>
      && (a + [e] + b)[..|a + [e] + b| - 1] == a + [e] + b[..|b| - 1]
      && (a + b)[..|a + b| - 1] == a + b[..|b| - 1]
      && (a + [e] + b)[|a + [e] + b| - 1] == b[|b| - 1] == (a + b)[|a + b| - 1]
  {
  }

  lemma {:induction false} OmittedIds(a: seq<Entry>, e: Entry, b: seq<Entry>, dict: map<string, int>)
    requires e.omitted
    ensures Ids(a + [e] + b, dict) == Ids(a + b, dict)
    decreases |b|
  {
    DropSlices(a, e, b);
    if b != [] {
      OmittedIds(a, e, b[..|b| - 1], dict);
    }
  }

  lemma {:induction false} OmittedTotal(a: seq<Entry>, e: Entry, b: seq<Entry>, dict: map<string, int>, id: int)
    requires e.omitted
    ensures Total(a + [e] + b, dict, id) == Total(a + b, dict, id)
    decreases |b|
  {
    DropSlices(a, e, b);
    if b != [] {
      OmittedTotal(a, e, b[..|b| - 1], dict, id);
    }
  }

  lemma {:induction false} OmittedFirstName(a: seq<Entry>, e: Entry, b: seq<Entry>, dict: map<string, int>, id: int)
    requires e.omitted
    ensures FirstName(a + [e] + b, dict, id) == FirstName(a + b, dict, id)
    decreases |b|
  {
    DropSlices(a, e, b);
    if b != [] {
      OmittedFirstName(a, e, b[..|b| - 1], dict, id);
    }
  }

  lemma {:induction false} OmittedMisses(a: seq<Entry>, e: Entry, b: seq<Entry>, dict: map<string, int>)
    requires e.omitted
    ensures Misses(a + [e] + b, dict) == Misses(a + b, dict)
    decreases |b|
  {
    DropSlices(a, e, b);
    if b != [] {
      OmittedMisses(a, e, b[..|b| - 1], dict);
    }
  }

  lemma {:induction false} OmittedKnownQty(a: seq<Entry>, e: Entry, b: seq<Entry>, dict: map<string, int>)
    requires e.omitted
    ensures KnownQty(a + [e] + b, dict) == KnownQty(a + b, dict)
    decreases |b|
  {
    DropSlices(a, e, b);
    if b != [] {
      OmittedKnownQty(a, e, b[..|b| - 1], dict);
    }
  }

  /** An omitted entry counts for nothing: dropping it changes no part of the result. */
  lemma OmittedVanishes(a: seq<Entry>, e: Entry, b: seq<Entry>, dict: map<string, int>, id: int)
    requires e.omitted
    ensures Ids(a + [e] + b, dict) == Ids(a + b, dict)
    ensures Total(a + [e] + b, dict, id) == Total(a + b, dict, id)
    ensures FirstName(a + [e] + b, dict, id) == FirstName(a + b, dict, id)
    ensures Misses(a + [e] + b, dict) == Misses(a + b, dict)
    ensures KnownQty(a + [e] + b, dict) == KnownQty(a + b, dict)
  {
    OmittedIds(a, e, b, dict);
    OmittedTotal(a, e, b, dict, id);
    OmittedFirstName(a, e, b, dict, id);
    OmittedMisses(a, e, b, dict);
    OmittedKnownQty(a, e, b, dict);
  }

  /** Every kept entry is either known or unmatched: their quantities add up to the kept quantity. */
  lemma {:induction false} KeptQtySplits(p: seq<Entry>, dict: map<string, int>)
    ensures KnownQty(p, dict) + MissQty(Misses(p, dict)) == KeptQty(p)
    decreases |p|
  {
    if p != [] {
      var q := p[..|p| - 1];
      var e := p[|p| - 1];
      KeptQtySplits(q, dict);
      var u := Misses(q, dict);
      if !e.omitted && e.name !in dict {
        assert (u + [(e.name, e.qty)])[..|u|] == u;
      } else {
        assert u + [] == u;
      }
    }
  }

  /** When every parsed name is in the dictionary, nothing is unmatched. */
  lemma {:induction false} NoMisses(p: seq<Entry>, dict: map<string, int>)
    requires forall e :: e in p ==> e.name in dict
    ensures Misses(p, dict) == []
    decreases |p|
  {
    if p != [] {
      var init := p[..|p| - 1];
      assert forall e :: e in init ==> e in p;
      NoMisses(init, dict);
    }
  }

  // ---------------------------------------------------------------------------
  // Sorting by name
  // ---------------------------------------------------------------------------

  /** The items are in strictly increasing order of name. */
  predicate SortedByName(s: seq<MatchedItem>) {
    forall j, k :: 0 <= j < k < |s| ==> Less(s[j].name, s[k].name)
  }

  /** No two items share a name. */
  predicate DistinctNames(s: seq<MatchedItem>) {
    forall j, k :: 0 <= j < k < |s| ==> s[j].name != s[k].name
  }

  /** The sum of the items' quantities. */
  function QtySum(s: seq<MatchedItem>): nat
    decreases |s|
  {
    if s == [] then 0 else QtySum(s[..|s| - 1]) + s[|s| - 1].qty
  }

  lemma {:induction false} QtySumConcat(a: seq<MatchedItem>, b: seq<MatchedItem>)
    ensures QtySum(a + b) == QtySum(a) + QtySum(b)
    decreases |b|
  {
    if b == [] {
      assert a + b == a;
    } else {
      assert (a + b)[..|a + b| - 1] == a + b[..|b| - 1];
      QtySumConcat(a, b[..|b| - 1]);
    }
  }

  /** Inserts `x` before the first item whose name is not smaller. */
  function Insert(x: MatchedItem, s: seq<MatchedItem>): seq<MatchedItem>
    decreases |s|
  {
    if s == [] then [x]
    else if Less(s[0].name, x.name) then [s[0]] + Insert(x, s[1..])
    else [x] + s
  }

  /** `matched.sort(key=lambda x: x.name)`, as a stable insertion sort. */
  function SortByName(s: seq<MatchedItem>): seq<MatchedItem>
    decreases |s|
  {
    if s == [] then [] else Insert(s[0], SortByName(s[1..]))
  }

  /** Inserting adds `x` to the items. */
  lemma {:induction false} InsertMultiset(x: MatchedItem, s: seq<MatchedItem>)
    ensures multiset(Insert(x, s)) == multiset(s) + multiset{x}
    decreases |s|
  {
    if s != [] && Less(s[0].name, x.name) {
      InsertMultiset(x, s[1..]);
      assert s == [s[0]] + s[1..];
    }
  }

  /** The items after inserting are `x` and the items before. */
  lemma {:induction false} InsertMembers(x: MatchedItem, s: seq<MatchedItem>)
    ensures forall y :: y in Insert(x, s) <==> y == x || y in s
    decreases |s|
  {
    if s != [] && Less(s[0].name, x.name) {
      InsertMembers(x, s[1..]);
      assert s == [s[0]] + s[1..];
    }
  }

  /** Inserting adds the quantity of `x`. */
  lemma {:induction false} InsertQty(x: MatchedItem, s: seq<MatchedItem>)
    ensures QtySum(Insert(x, s)) == QtySum(s) + x.qty
    decreases |s|
  {
    if s == [] {
      assert QtySum([x]) == QtySum([x][..0]) + x.qty;
    } else if Less(s[0].name, x.name) {
      InsertQty(x, s[1..]);
      assert s == [s[0]] + s[1..];
      QtySumConcat([s[0]], Insert(x, s[1..]));
      QtySumConcat([s[0]], s[1..]);
    } else {
      QtySumConcat([x], s);
      assert QtySum([x]) == QtySum([x][..0]) + x.qty;
    }
  }

  /** Inserting an item with a new name keeps a sorted sequence sorted. */
  lemma {:induction false} InsertSorted(x: MatchedItem, s: seq<MatchedItem>)
    requires SortedByName(s)
    requires forall y :: y in s ==> y.name != x.name
    ensures SortedByName(Insert(x, s))
    decreases |s|
  {
    if s != [] {
      var t := s[1..];
      assert forall j :: 0 <= j < |t| ==> t[j] == s[j + 1];
      if Less(s[0].name, x.name) {
        InsertSorted(x, t);
        InsertMembers(x, t);
        var r := [s[0]] + Insert(x, t);
        forall k | 0 < k < |r|
          ensures Less(s[0].name, r[k].name)
        {
          assert r[k] in Insert(x, t);
          if r[k] != x {
            var j :| 0 <= j < |t| && t[j] == r[k];
          }
        }
      } else {
        LessTotal(x.name, s[0].name);
        var r := [x] + s;
        forall k | 1 < k < |r|
          ensures Less(x.name, r[k].name)
        {
          LessTransitive(x.name, s[0].name, r[k].name);
        }
      }
    }
  }

  /** Sorting keeps the items, each as often as before. */
  lemma {:induction false} SortMultiset(s: seq<MatchedItem>)
    ensures multiset(SortByName(s)) == multiset(s)
    decreases |s|
  {
    if s != [] {
      SortMultiset(s[1..]);
      InsertMultiset(s[0], SortByName(s[1..]));
      assert s == [s[0]] + s[1..];
    }
  }

  /** Sorting keeps the items. */
  lemma {:induction false} SortMembers(s: seq<MatchedItem>)
    ensures forall y :: y in SortByName(s) <==> y in s
    decreases |s|
  {
    if s != [] {
      SortMembers(s[1..]);
      InsertMembers(s[0], SortByName(s[1..]));
      assert s == [s[0]] + s[1..];
    }
  }

  /** Sorting keeps the total quantity. */
  lemma {:induction false} SortQty(s: seq<MatchedItem>)
    ensures QtySum(SortByName(s)) == QtySum(s)
    decreases |s|
  {
    if s != [] {
      SortQty(s[1..]);
      InsertQty(s[0], SortByName(s[1..]));
      assert s == [s[0]] + s[1..];
      QtySumConcat([s[0]], s[1..]);
      assert QtySum([s[0]]) == QtySum([s[0]][..0]) + s[0].qty;
    }
  }

  /** Items with distinct names come out in strictly increasing order of name. */
  lemma {:induction false} SortSorted(s: seq<MatchedItem>)
    requires DistinctNames(s)
    ensures SortedByName(SortByName(s))
    decreases |s|
  {
    if s != [] {
      var t := s[1..];
      assert forall j :: 0 <= j < |t| ==> t[j] == s[j + 1];
      SortSorted(t);
      SortMembers(t);
      forall y | y in SortByName(t)
        ensures y.name != s[0].name
      {
        var j :| 0 <= j < |t| && t[j] == y;
      }
      InsertSorted(s[0], SortByName(t));
    }
  }

  /** Every later item of a sorted sequence has a larger name than the first. */
  lemma SortedHead(a: seq<MatchedItem>, y: MatchedItem)
    requires SortedByName(a) && a != [] && y in a[1..]
    ensures Less(a[0].name, y.name) && y != a[0]
  {
    var k :| 0 <= k < |a| - 1 && a[1..][k] == y;
    assert a[k + 1] == y;
    LessIrreflexive(a[0].name);
  }

  lemma SortedTail(a: seq<MatchedItem>)
    requires SortedByName(a) && a != []
    ensures SortedByName(a[1..])
  {
    assert forall k :: 0 <= k < |a| - 1 ==> a[1..][k] == a[k + 1];
  }

  /** Of two sequences with the same items, both or neither are empty. */
  lemma SameEmptiness(a: seq<MatchedItem>, b: seq<MatchedItem>)
    requires forall y :: y in a <==> y in b
    ensures a == [] <==> b == []
  {
    if a != [] { assert a[0] in b; }
    if b != [] { assert b[0] in a; }
  }

  /** Two sorted sequences with the same items start with the same item. */
  lemma SameHead(a: seq<MatchedItem>, b: seq<MatchedItem>)
    requires SortedByName(a) && SortedByName(b)
    requires forall y :: y in a <==> y in b
    requires a != []
    ensures b != [] && a[0] == b[0]
  {
    assert a[0] in a && b[0] in b;
    if a[0] != b[0] {
      assert a[0] in b[1..] && b[0] in a[1..];
      SortedHead(b, a[0]);
      SortedHead(a, b[0]);
      LessTransitive(a[0].name, b[0].name, a[0].name);
      LessIrreflexive(a[0].name);
    }
  }

  /** Two strictly sorted sequences holding the same items are equal, so any
      correct sort of items with distinct names gives this result. */
  lemma {:induction false} SortedIsUnique(a: seq<MatchedItem>, b: seq<MatchedItem>)
    requires SortedByName(a) && SortedByName(b)
    requires forall y :: y in a <==> y in b
    ensures a == b
    decreases |a|
  {
    SameEmptiness(a, b);
    if a != [] {
      SameHead(a, b);
      var a', b' := a[1..], b[1..];
      forall y
        ensures y in a' <==> y in b'
      {
        if y in a' {
          SortedHead(a, y);
          assert y in b && b == [b[0]] + b';
        }
        if y in b' {
          SortedHead(b, y);
          assert y in a && a == [a[0]] + a';
        }
      }
      SortedTail(a);
      SortedTail(b);
      SortedIsUnique(a', b');
      assert a == [a[0]] + a' && b == [b[0]] + b';
    }
  }

  // ---------------------------------------------------------------------------
  // match_inventory
  // ---------------------------------------------------------------------------

  /** What the matched list holds for the entries `p`: sorted by name, one item per id
      the entries hit, each with its id, the name of the id's first entry and the id's
      summed quantity, and no id twice. */
  predicate MatchedFrom(matched: seq<MatchedItem>, p: seq<Entry>, dict: map<string, int>)
  {
    && SortedByName(matched)
    && |matched| == |Ids(p, dict)|
    && (forall m :: m in matched ==>
          m.itemId in Ids(p, dict) && FirstName(p, dict, m.itemId) == Some(m.name) && m.qty == Total(p, dict, m.itemId))
    && (forall id :: id in Ids(p, dict) ==> exists m :: m in matched && m.itemId == id)
    && (forall j, k :: 0 <= j < k < |matched| ==> matched[j].itemId != matched[k].itemId)
  }

  /** The aggregation loop of `match_inventory` over the parsed entries, then the
      list of matched items and its sort by name. */
  method Aggregate(parsed: seq<Entry>, nameToId: map<string, int>) returns (r: ParseResult)
    ensures r.unmatched == Misses(parsed, nameToId)
    ensures MatchedFrom(r.matched, parsed, nameToId)
    ensures QtySum(r.matched) == KnownQty(parsed, nameToId)
    ensures QtySum(r.matched) + MissQty(r.unmatched) == KeptQty(parsed)
  {
    var aggregated: map<int, (string, nat)> := map[];
    var order: seq<int> := [];
    var unmatched: seq<(string, nat)> := [];
    var i := 0;
    while i < |parsed|
      invariant 0 <= i <= |parsed|
      invariant order == Ids(parsed[..i], nameToId)
      invariant forall id :: id in aggregated <==> id in order
      invariant forall id :: id in aggregated ==>
        FirstName(parsed[..i], nameToId, id) == Some(aggregated[id].0) &&
        aggregated[id].1 == Total(parsed[..i], nameToId, id)
      invariant unmatched == Misses(parsed[..i], nameToId)
    {
      var e := parsed[i];
      assert parsed[..i + 1][..i] == parsed[..i] && parsed[..i + 1][i] == e;
      IdsMeaning(parsed[..i], nameToId, if e.name in nameToId then nameToId[e.name] else 0);
      i := i + 1;
      if e.omitted {
        continue;
      }
      if e.name !in nameToId {
        unmatched := unmatched + [(e.name, e.qty)];
        continue;
      }
      var itemId := nameToId[e.name];
      if itemId in aggregated {
        var (prevName, prevQty) := aggregated[itemId];
        aggregated := aggregated[itemId := (prevName, prevQty + e.qty)];
      } else {
        aggregated := aggregated[itemId := (e.name, e.qty)];
        order := order + [itemId];
      }
    }
    assert parsed[..i] == parsed;
    forall j | 0 <= j < |order|
      ensures order[j] in aggregated
    {
      var id := order[j];
      assert id in order;
      assert id in aggregated <==> id in order;
    }
    var matched := seq(|order|, j requires 0 <= j < |order| =>
      MatchedItem(aggregated[order[j]].0, order[j], aggregated[order[j]].1));
    SortedResult(parsed, nameToId, order, matched);
    KeptQtySplits(parsed, nameToId);
    r := ParseResult(SortByName(matched), unmatched);
  }

  /** What the sorted list of matched items holds, given the items built from the ids in order. */
  lemma SortedResult(p: seq<Entry>, dict: map<string, int>, order: seq<int>, items: seq<MatchedItem>)
    requires order == Ids(p, dict)
    requires |items| == |order|
    requires forall j :: 0 <= j < |items| ==>
      items[j].itemId == order[j] && FirstName(p, dict, order[j]) == Some(items[j].name) &&
      items[j].qty == Total(p, dict, order[j])
    ensures var sorted := SortByName(items);
      && SortedByName(sorted)
      && |sorted| == |order|
      && (forall m :: m in sorted ==>
            m.itemId in order && FirstName(p, dict, m.itemId) == Some(m.name) && m.qty == Total(p, dict, m.itemId))
      && (forall id :: id in order ==> exists m :: m in sorted && m.itemId == id)
      && (forall j, k :: 0 <= j < k < |sorted| ==> sorted[j].itemId != sorted[k].itemId)
      && QtySum(sorted) == KnownQty(p, dict)
  {
    ItemsFacts(p, dict, order, items);
    SortMembers(items);
    SortMultiset(items);
    SortQty(items);
    SortSorted(items);
    var sorted := SortByName(items);
    assert |sorted| == |multiset(sorted)| == |multiset(items)| == |items|;
    forall m | m in sorted
      ensures m.itemId in order && FirstName(p, dict, m.itemId) == Some(m.name) && m.qty == Total(p, dict, m.itemId)
    {
      var j :| 0 <= j < |items| && items[j] == m;
    }
    UniqueIds(p, dict, sorted);
  }

  /** The matched items built from the ids in order, before sorting. */
  lemma ItemsFacts(p: seq<Entry>, dict: map<string, int>, order: seq<int>, items: seq<MatchedItem>)
    requires order == Ids(p, dict)
    requires |items| == |order|
    requires forall j :: 0 <= j < |items| ==>
      items[j].itemId == order[j] && FirstName(p, dict, order[j]) == Some(items[j].name) &&
      items[j].qty == Total(p, dict, order[j])
    ensures DistinctNames(items)
    ensures QtySum(items) == KnownQty(p, dict)
    ensures forall id :: id in order ==> exists m :: m in items && m.itemId == id
  {
    IdsMeaning(p, dict, 0);
    forall j | 0 <= j < |items|
      ensures items[j].name in dict && dict[items[j].name] == order[j]
    {
      FirstNameMapsToId(p, dict, order[j]);
    }
    ItemsQty(p, dict, order, items);
    TotalsConserve(p, dict);
    forall id | id in order
      ensures exists m :: m in items && m.itemId == id
    {
      var j :| 0 <= j < |order| && order[j] == id;
      assert items[j] in items;
    }
  }

  /** The quantities of the items are the totals of their ids. */
  lemma {:induction false} ItemsQty(p: seq<Entry>, dict: map<string, int>, order: seq<int>, items: seq<MatchedItem>)
    requires |items| == |order|
    requires forall j :: 0 <= j < |items| ==> items[j].qty == Total(p, dict, order[j])
    ensures QtySum(items) == SumTotals(p, dict, order)
    decreases |items|
  {
    if items != [] {
      ItemsQty(p, dict, order[..|order| - 1], items[..|items| - 1]);
    }
  }

  /** Items named by the first name of their id have distinct ids when their names are sorted. */
  lemma UniqueIds(p: seq<Entry>, dict: map<string, int>, items: seq<MatchedItem>)
    requires SortedByName(items)
    requires forall m :: m in items ==> FirstName(p, dict, m.itemId) == Some(m.name)
    ensures forall j, k :: 0 <= j < k < |items| ==> items[j].itemId != items[k].itemId
  {
    forall j, k | 0 <= j < k < |items|
      ensures items[j].itemId != items[k].itemId
    {
      assert items[j] in items && items[k] in items;
      LessIrreflexive(items[j].name);
    }
  }

  /** `match_inventory(raw_text, dict_csv_path)` once the dictionary is loaded:
      parse against the dictionary's names, then aggregate. The names the parser
      returns are all in the dictionary, so nothing is ever unmatched. */
  method MatchInventory(rawLines: seq<string>, nameToId: map<string, int>) returns (r: ParseResult)
    ensures r.unmatched == []
    ensures MatchedFrom(r.matched, Parse(rawLines, nameToId.Keys), nameToId)
    ensures QtySum(r.matched) == KeptQty(Parse(rawLines, nameToId.Keys))
  {
    var parsed := ParseAddListingsText(rawLines, nameToId.Keys);
    r := Aggregate(parsed, nameToId);
    NoMisses(parsed, nameToId);
  }

  /** `match_inventory` with the dictionary loaded from a CSV header and rows
      first: a loading error is returned as is, and nothing is parsed. */
  method MatchInventoryCsv(rawLines: seq<string>, fieldnames: seq<string>, rows: seq<map<string, string>>)
    returns (r: Result<ParseResult, Dictionary.LoadError>)
    ensures r.Err? <==>
      fieldnames == [] || Dictionary.Columns(fieldnames).None? ||
      Dictionary.RowsMapping(rows, Dictionary.Columns(fieldnames).value.0, Dictionary.Columns(fieldnames).value.1) == map[]
    ensures r.Err? ==>
      r.error == if fieldnames == [] then Dictionary.NoHeaderRow
                 else if Dictionary.Columns(fieldnames).None? then Dictionary.MissingColumns
                 else Dictionary.EmptyMapping
    ensures r.Ok? ==>
      var dict := Dictionary.RowsMapping(rows, Dictionary.Columns(fieldnames).value.0, Dictionary.Columns(fieldnames).value.1);
      && r.value.unmatched == []
      && MatchedFrom(r.value.matched, Parse(rawLines, dict.Keys), dict)
      && QtySum(r.value.matched) == KeptQty(Parse(rawLines, dict.Keys))
  {
    var loaded := Dictionary.LoadDictionary(fieldnames, rows);
    if loaded.Err? {
      return Err(loaded.error);
    }
    var result := MatchInventory(rawLines, loaded.value);
    return Ok(result);
  }

  // ---------------------------------------------------------------------------
  // to_csv_rows
  // ---------------------------------------------------------------------------

  const CsvHeader: seq<string> := ["name", "id", "qty"]

  /** One CSV row: the name, `str(item_id)` and `str(qty)`. */
  function CsvRow(it: MatchedItem): seq<string>
  {
    [it.name, IntToString(it.itemId), IntToString(it.qty)]
  }

  /** A row reads back as its item: the name as is, the id and the quantity through `int`. */
  lemma CsvRowReadsBack(it: MatchedItem)
    ensures |CsvRow(it)| == 3 && CsvRow(it)[0] == it.name
    ensures ParseInt(CsvRow(it)[1]) == Some(it.itemId)
    ensures ParseInt(CsvRow(it)[2]) == Some(it.qty as int)
  {
    ParseIntOfIntToString(it.itemId);
    ParseIntOfIntToString(it.qty);
  }

  /** `to_csv_rows(result)`: the header, then one row per matched item in order. */
  method ToCsvRows(result: ParseResult) returns (rows: seq<seq<string>>)
    ensures |rows| == |result.matched| + 1
    ensures rows[0] == CsvHeader
    ensures forall j :: 0 <= j < |result.matched| ==> rows[j + 1] == CsvRow(result.matched[j])
  {
    rows := [CsvHeader];
    for i := 0 to |result.matched|
      invariant |rows| == i + 1
      invariant rows[0] == CsvHeader
      invariant forall j :: 0 <= j < i ==> rows[j + 1] == CsvRow(result.matched[j])
    {
      rows := rows + [CsvRow(result.matched[i])];
    }
  }
}
