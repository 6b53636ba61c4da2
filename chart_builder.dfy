/**
  The chart builder's group-by aggregation (`computeSeries`,
  ChartBuilder.jsx lines 11-37) and the defaulting of its category and value
  fields when the dataset changes (lines 88-91).

  `ComputeSeries` follows `computeSeries` step by step: one pass fills a map from
  category value to the list of contributions, a second pass reduces every
  group in the map's insertion order, and the result is sorted in place by
  label. It is proved against `Series`, the same grouping stated as a
  function of the rows, and the properties of the aggregation are lemmas
  about `Series`.
*/
module ChartBuilder {
  import opened JsValues
  import opened LexOrder
  import opened Aggregate

  /** A sample row: column name to cell. */
  type Row = map<string, Value>

  /** `r[key]`: a key the row lacks reads as undefined. */
  function Cell(r: Row, key: string): Value {
    if key in r then r[key] else Undefined
  }

  /** What one row adds to its group: `yKey ? number(r[yKey]) : 1`. */
  function Contribution(r: Row, yKey: string): Option<real> {
    if yKey != "" then NumberOf(Cell(r, yKey)) else Some(1.0)
  }

  /** One point of the series: `{ name: String(k), value: v }`. */
  datatype Entry = Entry(name: string, value: real)

  predicate NoDuplicates<T(==)>(s: seq<T>) {
    forall i, j :: 0 <= i < j < |s| ==> s[i] != s[j]
  }

  // ---------------------------------------------------------------------
  // The grouping as functions of the rows

  /** The category values of the rows, each once, in order of first
      occurrence: the keys of the chart builder's `groups` map in its iteration
      order. */
  function DistinctKeys(rows: seq<Row>, xKey: string): (ks: seq<Value>)
    ensures forall k :: k in ks <==> exists i :: 0 <= i < |rows| && Cell(rows[i], xKey) == k
    ensures NoDuplicates(ks)
    ensures |ks| <= |rows|
  {
    if rows == [] then []
    else
      var init := rows[..|rows| - 1];
      var ks := DistinctKeys(init, xKey);
      var k := Cell(rows[|rows| - 1], xKey);
      assert forall i :: 0 <= i < |init| ==> init[i] == rows[i];
      if k in ks then ks else ks + [k]
  }

  /** The contributions of the rows whose category value is `k`, in row
      order: the list `computeSeries` keeps under key `k`. */
  function Group(rows: seq<Row>, xKey: string, yKey: string, k: Value): seq<Option<real>> {
    if rows == [] then []
    else
      var g := Group(rows[..|rows| - 1], xKey, yKey, k);
      if Cell(rows[|rows| - 1], xKey) == k then g + [Contribution(rows[|rows| - 1], yKey)] else g
  }

  /** The entry `computeSeries` pushes for group `k`. */
  function EntryFor(rows: seq<Row>, xKey: string, yKey: string, agg: string, k: Value): Entry {
    Entry(Label(k), Reduce(Group(rows, xKey, yKey, k), AggregateNamed(agg)))
  }

  /** The entries for the groups `ks`, in that order. */
  function EntriesOf(rows: seq<Row>, xKey: string, yKey: string, agg: string, ks: seq<Value>): seq<Entry> {
    seq(|ks|, n requires 0 <= n < |ks| => EntryFor(rows, xKey, yKey, agg, ks[n]))
  }

  /** The series before sorting: one entry per distinct category value. */
  function Series(rows: seq<Row>, xKey: string, yKey: string, agg: string): seq<Entry> {
    EntriesOf(rows, xKey, yKey, agg, DistinctKeys(rows, xKey))
  }

  predicate SortedByName(es: seq<Entry>) {
    forall p, q :: 0 <= p < q < |es| ==> LexLe(es[p].name, es[q].name)
  }

  // ---------------------------------------------------------------------
  // computeSeries

  /** `computeSeries(rows, xKey, yKey, agg)`. */
  method ComputeSeries(rows: seq<Row>, xKey: string, yKey: string, agg: string) returns (result: seq<Entry>)
    ensures xKey == "" ==> result == []
    ensures xKey != "" ==> multiset(result) == multiset(Series(rows, xKey, yKey, agg))
    ensures SortedByName(result)
    ensures xKey != "" ==> |result| == |DistinctKeys(rows, xKey)| <= |rows|
    ensures xKey != "" ==> (result == [] <==> rows == [])
    ensures xKey != "" && AggregateNamed(agg) == CountOf ==> TotalValue(result) == |rows| as real
  {
    if xKey == "" {
      return [];
    }
    var groups, order := GroupRows(rows, xKey, yKey);
    var entries := ReduceGroups(rows, xKey, yKey, agg, groups, order);
    var a := new Entry[|entries|](n requires 0 <= n < |entries| => entries[n]);
    assert a[..] == entries;
    SortByName(a);
    result := a[..];
    assert |result| == |entries| by {
      assert |multiset(result)| == |multiset(entries)|;
    }
    if rows != [] {
      assert Cell(rows[0], xKey) in order;
    }
    if AggregateNamed(agg) == CountOf {
      CountsAddUp(rows, xKey, yKey, agg);
      TotalValuePermuted(result, entries);
    }
  }

  /** The first loop of `computeSeries`: each row's contribution is appended
      to the list kept under its category value, a new key starting with an
      empty list; the map's keys are kept in insertion order. */
  method GroupRows(rows: seq<Row>, xKey: string, yKey: string)
    returns (groups: map<Value, seq<Option<real>>>, order: seq<Value>)
    ensures order == DistinctKeys(rows, xKey)
    ensures forall k :: k in groups <==> k in order
    ensures forall k :: k in groups ==> groups[k] == Group(rows, xKey, yKey, k)
  {
    groups, order := map[], [];
    for i := 0 to |rows|
      invariant order == DistinctKeys(rows[..i], xKey)
      invariant forall k :: k in groups <==> k in order
      invariant forall k :: k in groups ==> groups[k] == Group(rows[..i], xKey, yKey, k)
    {
      assert rows[..i + 1][..i] == rows[..i];
      var r := rows[i];
      var k := Cell(r, xKey);
      var yVal := if yKey != "" then NumberOf(Cell(r, yKey)) else Some(1.0);
      var g := if k in groups then groups[k] else [];
      if k !in groups {
        GroupOfAbsentKey(rows[..i], xKey, yKey, k);
        order := order + [k];
      }
      g := g + [yVal];
      groups := groups[k := g];
    }
    assert rows[..|rows|] == rows;
  }

  /** The second loop of `computeSeries`: one entry per group, in the map's
      iteration order. */
  method ReduceGroups(rows: seq<Row>, xKey: string, yKey: string, agg: string,
                      groups: map<Value, seq<Option<real>>>, order: seq<Value>)
    returns (entries: seq<Entry>)
    requires order == DistinctKeys(rows, xKey)
    requires forall k :: k in order ==> k in groups && groups[k] == Group(rows, xKey, yKey, k)
    ensures entries == Series(rows, xKey, yKey, agg)
  {
    entries := [];
    for j := 0 to |order|
      invariant |entries| == j
      invariant forall n :: 0 <= n < j ==> entries[n] == EntryFor(rows, xKey, yKey, agg, order[n])
    {
      var k := order[j];
      var arr := groups[k];
      entries := entries + [Entry(Label(k), Reduce(arr, AggregateNamed(agg)))];
    }
  }

  /** `result.sort((a, b) => a.name.localeCompare(b.name))`, as an insertion
      sort in place. */
  method SortByName(a: array<Entry>)
    modifies a
    ensures SortedByName(a[..])
    ensures multiset(a[..]) == old(multiset(a[..]))
  {
    for i := 0 to a.Length
      invariant forall p, q :: 0 <= p < q < i ==> LexLe(a[p].name, a[q].name)
      invariant multiset(a[..]) == old(multiset(a[..]))
    {
      InsertLast(a, i);
    }
  }

  /** Moves `a[i]` down into the sorted prefix `a[..i]`. */
  method InsertLast(a: array<Entry>, i: nat)
    requires i < a.Length
    requires forall p, q :: 0 <= p < q < i ==> LexLe(a[p].name, a[q].name)
    modifies a
    ensures forall p, q :: 0 <= p < q <= i ==> LexLe(a[p].name, a[q].name)
    ensures multiset(a[..]) == old(multiset(a[..]))
  {
    var j := i;
    while j > 0 && !LexLe(a[j - 1].name, a[j].name)
      invariant 0 <= j <= i
      invariant forall p, q :: 0 <= p < q <= i && p != j && q != j ==> LexLe(a[p].name, a[q].name)
      invariant forall q :: j < q <= i ==> LexLe(a[j].name, a[q].name)
      invariant multiset(a[..]) == old(multiset(a[..]))
    {
      LexLeTotal(a[j - 1].name, a[j].name);
      a[j - 1], a[j] := a[j], a[j - 1];
      j := j - 1;
    }
    if j > 0 {
      forall p | 0 <= p < j - 1
        ensures LexLe(a[p].name, a[j].name)
      {
        LexLeTransitive(a[p].name, a[j - 1].name, a[j].name);
      }
    }
  }

  // ---------------------------------------------------------------------
  // Properties of the grouping

  /** A category value has a non-empty group exactly when some row has it. */
  lemma {:induction false} GroupOfAbsentKey(rows: seq<Row>, xKey: string, yKey: string, k: Value)
    requires k !in DistinctKeys(rows, xKey)
    ensures Group(rows, xKey, yKey, k) == []
  {
    if rows != [] {
      var init := rows[..|rows| - 1];
      assert forall i :: 0 <= i < |init| ==> init[i] == rows[i];
      GroupOfAbsentKey(init, xKey, yKey, k);
    }
  }

  /** Appending a row extends the group of its own category value only. */
  lemma GroupOfSnoc(rows: seq<Row>, r: Row, xKey: string, yKey: string, k: Value)
    ensures Group(rows + [r], xKey, yKey, k)
         == Group(rows, xKey, yKey, k) + (if Cell(r, xKey) == k then [Contribution(r, yKey)] else [])
  {
    assert (rows + [r])[..|rows|] == rows;
  }

  /** Every row's contribution is in the group of its category value. */
  lemma {:induction false} RowInGroup(rows: seq<Row>, xKey: string, yKey: string, i: nat)
    requires i < |rows|
    ensures Contribution(rows[i], yKey) in Group(rows, xKey, yKey, Cell(rows[i], xKey))
  {
    var init := rows[..|rows| - 1];
    assert rows == init + [rows[|rows| - 1]];
    GroupOfSnoc(init, rows[|rows| - 1], xKey, yKey, Cell(rows[i], xKey));
    if i < |rows| - 1 {
      RowInGroup(init, xKey, yKey, i);
    }
  }

  /** Everything in the group of `k` is the contribution of a row whose
      category value is `k`. */
  lemma {:induction false} GroupMember(rows: seq<Row>, xKey: string, yKey: string, k: Value, x: Option<real>)
    requires x in Group(rows, xKey, yKey, k)
    ensures exists i :: 0 <= i < |rows| && Cell(rows[i], xKey) == k && Contribution(rows[i], yKey) == x
  {
    var init := rows[..|rows| - 1];
    var r := rows[|rows| - 1];
    assert rows == init + [r];
    GroupOfSnoc(init, r, xKey, yKey, k);
    if x in Group(init, xKey, yKey, k) {
      GroupMember(init, xKey, yKey, k, x);
      var i :| 0 <= i < |init| && Cell(init[i], xKey) == k && Contribution(init[i], yKey) == x;
      assert rows[i] == init[i];
    } else {
      assert Cell(rows[|rows| - 1], xKey) == k && Contribution(rows[|rows| - 1], yKey) == x;
    }
  }

  /** The category value of every row, in row order. */
  function KeyColumn(rows: seq<Row>, xKey: string): (col: seq<Value>)
    ensures |col| == |rows|
  {
    seq(|rows|, i requires 0 <= i < |rows| => Cell(rows[i], xKey))
  }

  /** A group holds one contribution per row with that category value, rows
      that did not parse included. */
  lemma {:induction false} GroupSizeIsKeyCount(rows: seq<Row>, xKey: string, yKey: string, k: Value)
    ensures |Group(rows, xKey, yKey, k)| == multiset(KeyColumn(rows, xKey))[k]
  {
    if rows != [] {
      var init := rows[..|rows| - 1];
      var r := rows[|rows| - 1];
      assert rows == init + [r];
      GroupOfSnoc(init, r, xKey, yKey, k);
      GroupSizeIsKeyCount(init, xKey, yKey, k);
      assert KeyColumn(rows, xKey) == KeyColumn(init, xKey) + [Cell(r, xKey)];
    }
  }

  /** For count, and for any aggregate name `computeSeries` has no case for, an
      entry's value is the number of rows with its category value. */
  lemma CountEntry(rows: seq<Row>, xKey: string, yKey: string, agg: string, n: nat)
    requires agg == "count" || !IsKnownAggregate(agg)
    requires n < |Series(rows, xKey, yKey, agg)|
    ensures Series(rows, xKey, yKey, agg)[n].value
         == multiset(KeyColumn(rows, xKey))[DistinctKeys(rows, xKey)[n]] as real
  {
    GroupSizeIsKeyCount(rows, xKey, yKey, DistinctKeys(rows, xKey)[n]);
  }

  /** The sum of the values of entries. */
  function TotalValue(es: seq<Entry>): real {
    if es == [] then 0.0 else TotalValue(es[..|es| - 1]) + es[|es| - 1].value
  }

  /** The sizes of the groups `ks`, added up. */
  function GroupSizes(rows: seq<Row>, xKey: string, yKey: string, ks: seq<Value>): nat {
    if ks == [] then 0
    else GroupSizes(rows, xKey, yKey, ks[..|ks| - 1]) + |Group(rows, xKey, yKey, ks[|ks| - 1])|
  }

  lemma {:induction false} GroupSizesOfSnoc(rows: seq<Row>, r: Row, xKey: string, yKey: string, ks: seq<Value>)
    requires NoDuplicates(ks)
    ensures GroupSizes(rows + [r], xKey, yKey, ks)
         == GroupSizes(rows, xKey, yKey, ks) + (if Cell(r, xKey) in ks then 1 else 0)
  {
    if ks != [] {
      var init := ks[..|ks| - 1];
      var k := ks[|ks| - 1];
      assert ks == init + [k];
      assert Cell(r, xKey) in ks <==> Cell(r, xKey) in init || Cell(r, xKey) == k;
      assert k !in init;
      GroupSizesOfSnoc(rows, r, xKey, yKey, init);
      GroupOfSnoc(rows, r, xKey, yKey, k);
    }
  }

  /** Every row is in exactly one group. */
  lemma {:induction false} GroupSizesAddUp(rows: seq<Row>, xKey: string, yKey: string)
    ensures GroupSizes(rows, xKey, yKey, DistinctKeys(rows, xKey)) == |rows|
  {
    if rows != [] {
      var init := rows[..|rows| - 1];
      var r := rows[|rows| - 1];
      assert rows == init + [r];
      var ks := DistinctKeys(init, xKey);
      var k := Cell(r, xKey);
      GroupSizesAddUp(init, xKey, yKey);
      GroupSizesOfSnoc(init, r, xKey, yKey, ks);
      if k !in ks {
        assert DistinctKeys(rows, xKey) == ks + [k];
        assert (ks + [k])[..|ks|] == ks;
        GroupOfAbsentKey(init, xKey, yKey, k);
        GroupOfSnoc(init, r, xKey, yKey, k);
      }
    }
  }

  lemma {:induction false} TotalOfCounts(rows: seq<Row>, xKey: string, yKey: string, agg: string, ks: seq<Value>)
    requires AggregateNamed(agg) == CountOf
    ensures TotalValue(EntriesOf(rows, xKey, yKey, agg, ks)) == GroupSizes(rows, xKey, yKey, ks) as real
  {
    if ks != [] {
      var init := ks[..|ks| - 1];
      TotalOfCounts(rows, xKey, yKey, agg, init);
      var es := EntriesOf(rows, xKey, yKey, agg, ks);
      assert es[..|es| - 1] == EntriesOf(rows, xKey, yKey, agg, init);
    }
  }

  /** Under count, the values of the series add up to the number of rows. */
  lemma CountsAddUp(rows: seq<Row>, xKey: string, yKey: string, agg: string)
    requires AggregateNamed(agg) == CountOf
    ensures TotalValue(Series(rows, xKey, yKey, agg)) == |rows| as real
  {
    TotalOfCounts(rows, xKey, yKey, agg, DistinctKeys(rows, xKey));
    GroupSizesAddUp(rows, xKey, yKey);
  }

  /** Entries in any order have the same total. */
  lemma {:induction false} TotalValuePermuted(s: seq<Entry>, t: seq<Entry>)
    requires multiset(s) == multiset(t)
    ensures TotalValue(s) == TotalValue(t)
    decreases |s|
  {
    if s == [] {
      assert |t| == |multiset(t)| == 0;
    } else {
      var init, last := s[..|s| - 1], s[|s| - 1];
      assert s == init + [last];
      assert last in multiset(t);
      var i :| 0 <= i < |t| && t[i] == last;
      var rest := t[..i] + t[i + 1..];
      MultisetOfRemove(t, i);
      assert multiset(s) == multiset(init) + multiset{last};
      TotalValuePermuted(init, rest);
      TotalValueRemove(t, i);
    }
  }

  lemma MultisetOfRemove<T>(t: seq<T>, i: nat)
    requires i < |t|
    ensures multiset(t[..i] + t[i + 1..]) == multiset(t) - multiset{t[i]}
  {
    assert t == t[..i] + [t[i]] + t[i + 1..];
  }

  /** Taking one entry out of a list takes its value out of the total. */
  lemma {:induction false} TotalValueRemove(t: seq<Entry>, i: nat)
    requires i < |t|
    ensures TotalValue(t) == TotalValue(t[..i] + t[i + 1..]) + t[i].value
  {
    var rest := t[..i] + t[i + 1..];
    if i == |t| - 1 {
      assert rest == t[..|t| - 1];
    } else {
      var init := t[..|t| - 1];
      TotalValueRemove(init, i);
      assert rest[..|rest| - 1] == init[..i] + init[i + 1..];
      assert rest[|rest| - 1] == t[|t| - 1];
    }
  }

  /** Every aggregate name `computeSeries`'s `switch` has no case for gives the
      same series as count, as its `default` does. */
  lemma UnknownAggregateIsCount(rows: seq<Row>, xKey: string, yKey: string, agg: string)
    requires !IsKnownAggregate(agg)
    ensures Series(rows, xKey, yKey, agg) == Series(rows, xKey, yKey, "count")
  {
    assert AggregateNamed(agg) == AggregateNamed("count");
  }

  /** What row `r` adds to the parsed sum of category `k`. */
  function ParsedPart(r: Row, xKey: string, yKey: string, k: Value): real {
    var c := Contribution(r, yKey);
    if Cell(r, xKey) == k && c.Some? then c.value else 0.0
  }

  /** The sum of the parsed values of the rows whose category value is `k`,
      counted row by row. */
  function ParsedSum(rows: seq<Row>, xKey: string, yKey: string, k: Value): real {
    if rows == [] then 0.0
    else ParsedSum(rows[..|rows| - 1], xKey, yKey, k) + ParsedPart(rows[|rows| - 1], xKey, yKey, k)
  }

  /** The number of rows whose category value is `k` and whose value parsed. */
  function ParsedCount(rows: seq<Row>, xKey: string, yKey: string, k: Value): nat {
    if rows == [] then 0
    else
      var r := rows[|rows| - 1];
      ParsedCount(rows[..|rows| - 1], xKey, yKey, k) + (if Cell(r, xKey) == k && Contribution(r, yKey).Some? then 1 else 0)
  }

  /** The parsed numbers of a group add up to the parsed sum of the rows
      with that category value. */
  lemma {:induction false} GroupSum(rows: seq<Row>, xKey: string, yKey: string, k: Value)
    ensures Sum(Nums(Group(rows, xKey, yKey, k))) == ParsedSum(rows, xKey, yKey, k)
  {
    if rows != [] {
      var init, r := rows[..|rows| - 1], rows[|rows| - 1];
      assert rows == init + [r];
      GroupSum(init, xKey, yKey, k);
      GroupSumStep(init, r, xKey, yKey, k);
      ParsedSumStep(init, r, xKey, yKey, k);
    }
  }

  lemma GroupSumStep(rows: seq<Row>, r: Row, xKey: string, yKey: string, k: Value)
    ensures Sum(Nums(Group(rows + [r], xKey, yKey, k))) == Sum(Nums(Group(rows, xKey, yKey, k))) + ParsedPart(r, xKey, yKey, k)
  {
    GroupOfSnoc(rows, r, xKey, yKey, k);
    var g, c := Group(rows, xKey, yKey, k), Contribution(r, yKey);
    if Cell(r, xKey) == k {
      NumsSnoc(g, c);
      if c.Some? {
        SumSnoc(Nums(g), c.value);
      }
    }
  }

  lemma ParsedSumStep(rows: seq<Row>, r: Row, xKey: string, yKey: string, k: Value)
    ensures ParsedSum(rows + [r], xKey, yKey, k) == ParsedSum(rows, xKey, yKey, k) + ParsedPart(r, xKey, yKey, k)
  {
    assert (rows + [r])[..|rows|] == rows;
  }

  /** A group has as many parsed numbers as there are rows with that
      category value whose value parsed. */
  lemma {:induction false} GroupNumberCount(rows: seq<Row>, xKey: string, yKey: string, k: Value)
    ensures |Nums(Group(rows, xKey, yKey, k))| == ParsedCount(rows, xKey, yKey, k)
  {
    if rows != [] {
      var init, r := rows[..|rows| - 1], rows[|rows| - 1];
      GroupNumberCount(init, xKey, yKey, k);
      if Cell(r, xKey) == k {
        NumsSnoc(Group(init, xKey, yKey, k), Contribution(r, yKey));
      }
    }
  }

  /** Under sum, an entry's value is the sum of the parsed values of the
      rows with its category value; rows that did not parse add nothing. */
  lemma SumEntry(rows: seq<Row>, xKey: string, yKey: string, k: Value)
    ensures EntryFor(rows, xKey, yKey, "sum", k).value == ParsedSum(rows, xKey, yKey, k)
  {
    GroupSum(rows, xKey, yKey, k);
  }

  /** Under avg, an entry's value is the parsed sum of its category's rows
      divided by how many of them parsed, or 0 when none did. */
  lemma AvgEntry(rows: seq<Row>, xKey: string, yKey: string, k: Value)
    ensures EntryFor(rows, xKey, yKey, "avg", k).value
         == if ParsedCount(rows, xKey, yKey, k) > 0
            then ParsedSum(rows, xKey, yKey, k) / ParsedCount(rows, xKey, yKey, k) as real
            else 0.0
  {
    GroupSum(rows, xKey, yKey, k);
    GroupNumberCount(rows, xKey, yKey, k);
    assert AggregateNamed("avg") == AvgOf;
  }

  /** Without a value field every contribution is 1. */
  lemma GroupWithoutValueField(rows: seq<Row>, xKey: string, k: Value)
    ensures forall j :: 0 <= j < |Group(rows, xKey, "", k)| ==> Group(rows, xKey, "", k)[j] == Some(1.0)
  {
    forall j | 0 <= j < |Group(rows, xKey, "", k)|
      ensures Group(rows, xKey, "", k)[j] == Some(1.0)
    {
      GroupMember(rows, xKey, "", k, Group(rows, xKey, "", k)[j]);
    }
  }

  /** Without a value field, sum and count give the same series. */
  lemma SumWithoutValueFieldIsCount(rows: seq<Row>, xKey: string)
    ensures Series(rows, xKey, "", "sum") == Series(rows, xKey, "", "count")
  {
    var ks := DistinctKeys(rows, xKey);
    forall n | 0 <= n < |ks|
      ensures EntryFor(rows, xKey, "", "sum", ks[n]) == EntryFor(rows, xKey, "", "count", ks[n])
    {
      GroupWithoutValueField(rows, xKey, ks[n]);
      SumOfOnesIsCount(Group(rows, xKey, "", ks[n]));
    }
  }

  /** sum, avg, min and max give 0 for a category none of whose rows has a
      parsed value. */
  lemma ZeroFillGroup(rows: seq<Row>, xKey: string, yKey: string, agg: string, k: Value)
    requires agg == "sum" || agg == "avg" || agg == "min" || agg == "max"
    requires forall i :: 0 <= i < |rows| && Cell(rows[i], xKey) == k ==> Contribution(rows[i], yKey).None?
    ensures EntryFor(rows, xKey, yKey, agg, k).value == 0.0
  {
    var g := Group(rows, xKey, yKey, k);
    forall j | 0 <= j < |g|
      ensures g[j].None?
    {
      GroupMember(rows, xKey, yKey, k, g[j]);
    }
    if agg == "sum" {
      SumOfUnparsed(g);
    } else {
      ZeroFill(g, AggregateNamed(agg));
    }
  }

  /** The min entry of a row's category is at most, and the max entry at
      least, the row's parsed value. */
  lemma ExtremaBracketRow(rows: seq<Row>, xKey: string, yKey: string, i: nat)
    requires i < |rows| && Contribution(rows[i], yKey).Some?
    ensures EntryFor(rows, xKey, yKey, "min", Cell(rows[i], xKey)).value
         <= Contribution(rows[i], yKey).value
         <= EntryFor(rows, xKey, yKey, "max", Cell(rows[i], xKey)).value
  {
    var g := Group(rows, xKey, yKey, Cell(rows[i], xKey));
    RowInGroup(rows, xKey, yKey, i);
    var j :| 0 <= j < |g| && g[j] == Contribution(rows[i], yKey);
    MinMaxBracket(g, j);
  }

  /** Every row's category has an entry in the series, and every entry is
      that of some row's category. */
  lemma SeriesCoversRows(rows: seq<Row>, xKey: string, yKey: string, agg: string)
    ensures forall i :: 0 <= i < |rows| ==> EntryFor(rows, xKey, yKey, agg, Cell(rows[i], xKey)) in Series(rows, xKey, yKey, agg)
    ensures forall e :: e in Series(rows, xKey, yKey, agg) ==>
      exists i :: 0 <= i < |rows| && e == EntryFor(rows, xKey, yKey, agg, Cell(rows[i], xKey))
  {
    var ks := DistinctKeys(rows, xKey);
    var es := Series(rows, xKey, yKey, agg);
    forall i | 0 <= i < |rows|
      ensures EntryFor(rows, xKey, yKey, agg, Cell(rows[i], xKey)) in es
    {
      assert Cell(rows[i], xKey) in ks;
      var n :| 0 <= n < |ks| && ks[n] == Cell(rows[i], xKey);
      assert es[n] == EntryFor(rows, xKey, yKey, agg, Cell(rows[i], xKey));
    }
    forall e | e in es
      ensures exists i :: 0 <= i < |rows| && e == EntryFor(rows, xKey, yKey, agg, Cell(rows[i], xKey))
    {
      var n :| 0 <= n < |es| && es[n] == e;
      assert ks[n] in ks;
      var i :| 0 <= i < |rows| && Cell(rows[i], xKey) == ks[n];
      assert e == EntryFor(rows, xKey, yKey, agg, Cell(rows[i], xKey));
    }
  }

  /** When every category value has one JavaScript type, the labels of the
      series are pairwise distinct. */
  lemma LabelsDistinct(rows: seq<Row>, xKey: string, yKey: string, agg: string)
    requires forall i, j :: 0 <= i < |rows| && 0 <= j < |rows| ==> SameKind(Cell(rows[i], xKey), Cell(rows[j], xKey))
    ensures forall p, q :: 0 <= p < q < |Series(rows, xKey, yKey, agg)| ==>
      Series(rows, xKey, yKey, agg)[p].name != Series(rows, xKey, yKey, agg)[q].name
  {
    var ks := DistinctKeys(rows, xKey);
    var es := Series(rows, xKey, yKey, agg);
    forall p, q | 0 <= p < q < |es|
      ensures es[p].name != es[q].name
    {
      assert ks[p] in ks && ks[q] in ks;
      var i :| 0 <= i < |rows| && Cell(rows[i], xKey) == ks[p];
      var j :| 0 <= j < |rows| && Cell(rows[j], xKey) == ks[q];
      if Label(ks[p]) == Label(ks[q]) {
        LabelInjectiveWithinKind(ks[p], ks[q]);
      }
    }
  }

  predicate DistinctNames(es: seq<Entry>) {
    forall p, q :: 0 <= p < q < |es| ==> es[p].name != es[q].name
  }

  /** Entries with pairwise distinct labels have exactly one arrangement
      sorted by label, so the sorted output is determined by its entries. */
  lemma {:induction false} SortedArrangementIsUnique(s: seq<Entry>, t: seq<Entry>)
    requires SortedByName(s) && SortedByName(t) && DistinctNames(t)
    requires multiset(s) == multiset(t)
    ensures s == t
    decreases |t|
  {
    assert |s| == |multiset(s)| == |multiset(t)| == |t|;
    if t != [] {
      SortedHeadsAgree(s, t);
      TailsPermuted(s, t);
      SortedArrangementIsUnique(s[1..], t[1..]);
      assert s == [s[0]] + s[1..] && t == [t[0]] + t[1..];
    }
  }

  lemma SortedHeadsAgree(s: seq<Entry>, t: seq<Entry>)
    requires SortedByName(s) && SortedByName(t) && DistinctNames(t)
    requires multiset(s) == multiset(t) && s != [] && t != []
    ensures s[0] == t[0]
  {
    assert s[0] in multiset(t) && t[0] in multiset(s);
    if s[0] != t[0] {
      var i :| 0 <= i < |t| && t[i] == s[0];
      var k :| 0 <= k < |s| && s[k] == t[0];
      assert LexLe(t[0].name, t[i].name);
      assert LexLe(s[0].name, s[k].name);
      LexLeAntisymmetric(s[0].name, t[0].name);
      assert false;
    }
  }

  lemma TailsPermuted<T>(s: seq<T>, t: seq<T>)
    requires s != [] && t != [] && s[0] == t[0] && multiset(s) == multiset(t)
    ensures multiset(s[1..]) == multiset(t[1..])
  {
    assert s == [s[0]] + s[1..] && t == [t[0]] + t[1..];
    var hs, ms, mt := multiset{s[0]}, multiset(s[1..]), multiset(t[1..]);
    assert multiset(s) == hs + ms && multiset(t) == hs + mt;
    assert ms == (hs + ms) - hs;
    assert mt == (hs + mt) - hs;
  }

  // ---------------------------------------------------------------------
  // Field defaulting and the component's chart state

  /** A column as the backend describes it: its name and inferred type tag. */
  datatype Column = Column(name: string, typeTag: string)

  /** The part of a dataset the chart builder reads. */
  datatype Dataset = Dataset(id: string, columns: seq<Column>, sample: seq<Row>)

  /** `dataset?.sample || []`. */
  function RowsOf(dataset: Option<Dataset>): seq<Row> {
    if dataset.Some? then dataset.value.sample else []
  }

  /** `dataset?.columns || []`. */
  function ColumnsOf(dataset: Option<Dataset>): seq<Column> {
    if dataset.Some? then dataset.value.columns else []
  }

  /** The position `columns.find(c => c.type !== 'string')` stops at. */
  function FirstNonString(columns: seq<Column>): (r: Option<nat>)
    ensures r.Some? ==> r.value < |columns| && columns[r.value].typeTag != "string"
    ensures r.Some? ==> forall j :: 0 <= j < r.value ==> columns[j].typeTag == "string"
    ensures r.None? ==> forall j :: 0 <= j < |columns| ==> columns[j].typeTag == "string"
  {
    if columns == [] then None
    else if columns[0].typeTag != "string" then Some(0)
    else
      match FirstNonString(columns[1..])
      case None => None
      case Some(i) => Some(i + 1)
  }

  /** `columns[0]?.name || ''`. */
  function DefaultCategoryField(columns: seq<Column>): string {
    if columns == [] then "" else columns[0].name
  }

  /** `columns.find(c => c.type !== 'string')?.name || ''`: the name of the
      first column not tagged "string", or empty when every column is. */
  function DefaultValueField(columns: seq<Column>): (y: string)
    ensures (forall j :: 0 <= j < |columns| ==> columns[j].typeTag == "string") ==> y == ""
    ensures forall i :: 0 <= i < |columns| && columns[i].typeTag != "string"
                        && (forall j :: 0 <= j < i ==> columns[j].typeTag == "string")
                        ==> y == columns[i].name
  {
    match FirstNonString(columns)
    case None => ""
    case Some(i) => columns[i].name
  }

  /** The default value field is empty or one the value selector offers
      (a column not tagged "string", line 117). */
  lemma DefaultValueFieldIsOffered(columns: seq<Column>)
    ensures var y := DefaultValueField(columns);
      y == "" || exists i :: 0 <= i < |columns| && columns[i].typeTag != "string" && columns[i].name == y
  {
    var r := FirstNonString(columns);
    if r.Some? {
      assert columns[r.value].name == DefaultValueField(columns);
    }
  }

  /** The chart builder's state slots: chart kind, category field `x`,
      value field `y` and aggregate name. */
  class ChartConfig {
    var chartType: string
    var x: string
    var y: string
    var agg: string

    /** The `useState` initial values. */
    constructor ()
      ensures chartType == "bar" && x == "" && y == "" && agg == "count"
    {
      chartType, x, y, agg := "bar", "", "", "count";
    }

    /** The effect run when the dataset's id changes: both fields are
        re-defaulted from the columns; chart kind and aggregate stay. */
    method OnDatasetChanged(dataset: Option<Dataset>)
      modifies this
      ensures x == DefaultCategoryField(ColumnsOf(dataset))
      ensures y == DefaultValueField(ColumnsOf(dataset))
      ensures chartType == old(chartType) && agg == old(agg)
    {
      var columns := ColumnsOf(dataset);
      x := if |columns| > 0 then columns[0].name else "";
      var found := FirstNonString(columns);
      y := if found.Some? then columns[found.value].name else "";
    }

    /** The memoised series the component renders. */
    method Data(dataset: Option<Dataset>) returns (data: seq<Entry>)
      ensures x == "" ==> data == []
      ensures x != "" ==> multiset(data) == multiset(Series(RowsOf(dataset), x, y, agg))
      ensures SortedByName(data)
    {
      data := ComputeSeries(RowsOf(dataset), x, y, agg);
    }
  }
}
