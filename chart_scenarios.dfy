/**
  The worked example of the chart builder: three sample rows of region and
  sales, the last with a sales value that is not a number, grouped by region
  and reduced by sum and by count.
*/
module ChartScenarios {
  import opened JsValues
  import opened LexOrder
  import opened Aggregate
  import opened ChartBuilder

  function SalesRow(region: string, sales: string): Row {
    map["region" := Str(region), "sales" := Str(sales)]
  }

  function RegionSales(): seq<Row> {
    [SalesRow("east", "10"), SalesRow("east", "5"), SalesRow("west", "abc")]
  }

  lemma SalesRowCells(region: string, sales: string)
    ensures Cell(SalesRow(region, sales), "region") == Str(region)
    ensures Contribution(SalesRow(region, sales), "sales") == NumberOf(Str(sales))
  {
    assert "region"[0] != "sales"[0];
  }

  lemma TenIsNumeral()
    ensures NumberOf(Str("10")) == Some(10.0)
  {
    assert IntToString(10) == "10" by {
      assert NatToString(10) == NatToString(1) + [Digit(0)];
    }
    NumberOfIntToString(10);
  }

  lemma FiveIsNumeral()
    ensures NumberOf(Str("5")) == Some(5.0)
  {
    assert IntToString(5) == "5";
    NumberOfIntToString(5);
  }

  /** A cell with a decimal fraction keeps it: `number("12.50")` is 12.5. */
  lemma DecimalIsNumeral()
    ensures NumberOf(Str("12.50")) == Some(12.5)
  {
    assert "12.50" == "12" + "." + "50";
    assert "12"[..1] == "1" && DigitsValue("1") == 1;
    assert DigitsValue("12") == 12;
    assert "50"[..1] == "5" && DigitsValue("5") == 5;
    assert DigitsValue("50") == 50;
    assert Pow10(2) == 100;
    assert FractionValue("50") == 0.5;
    NumberOfDecimal("12", "50");
  }

  lemma TextIsNotNumeral()
    ensures NumberOf(Str("abc")) == None
  {
    NumberOfForeignText("abc", 0);
  }

  lemma RegionSalesCells()
    ensures var rows := RegionSales();
      && Cell(rows[0], "region") == Str("east") && Cell(rows[1], "region") == Str("east")
      && Cell(rows[2], "region") == Str("west")
      && Contribution(rows[0], "sales") == Some(10.0) && Contribution(rows[1], "sales") == Some(5.0)
      && Contribution(rows[2], "sales") == None
  {
    SalesRowCells("east", "10");
    SalesRowCells("east", "5");
    SalesRowCells("west", "abc");
    TenIsNumeral();
    FiveIsNumeral();
    TextIsNotNumeral();
  }

  /** Grouping three rows whose category values are a, a, b. */
  lemma ThreeRowsGroups(rows: seq<Row>, x: string, y: string, a: Value, b: Value, m: real, n: real)
    requires |rows| == 3 && a != b
    requires Cell(rows[0], x) == a && Cell(rows[1], x) == a && Cell(rows[2], x) == b
    requires Contribution(rows[0], y) == Some(m) && Contribution(rows[1], y) == Some(n)
    requires Contribution(rows[2], y) == None
    ensures DistinctKeys(rows, x) == [a, b]
    ensures Group(rows, x, y, a) == [Some(m), Some(n)]
    ensures Group(rows, x, y, b) == [None]
  {
    assert rows[..1][..0] == [] && rows[..2][..1] == rows[..1] && rows[..3][..2] == rows[..2] && rows[..3] == rows;
    assert rows[..2][1] == rows[1] && rows[..1][0] == rows[0];
    assert DistinctKeys(rows[..1], x) == [a];
    assert DistinctKeys(rows[..2], x) == [a];
    assert Group(rows[..1], x, y, a) == [Some(m)];
    assert Group(rows[..2], x, y, a) == [Some(m), Some(n)];
    assert Group(rows[..1], x, y, b) == [];
    assert Group(rows[..2], x, y, b) == [];
  }

  lemma TwoGroups(rows: seq<Row>, x: string, y: string, agg: string, a: Value, b: Value)
    requires DistinctKeys(rows, x) == [a, b]
    ensures Series(rows, x, y, agg) == [EntryFor(rows, x, y, agg, a), EntryFor(rows, x, y, agg, b)]
  {
  }

  /** The series of three rows whose category values are a, a, b. */
  lemma SeriesOfThreeRows(rows: seq<Row>, x: string, y: string, agg: string, a: Value, b: Value, m: real, n: real)
    requires |rows| == 3 && a != b
    requires Cell(rows[0], x) == a && Cell(rows[1], x) == a && Cell(rows[2], x) == b
    requires Contribution(rows[0], y) == Some(m) && Contribution(rows[1], y) == Some(n)
    requires Contribution(rows[2], y) == None
    ensures Series(rows, x, y, agg) ==
      [Entry(Label(a), Reduce([Some(m), Some(n)], AggregateNamed(agg))),
       Entry(Label(b), Reduce([None], AggregateNamed(agg)))]
  {
    ThreeRowsGroups(rows, x, y, a, b, m, n);
    TwoGroups(rows, x, y, agg, a, b);
  }

  lemma NumsOfPair(m: real, n: real)
    ensures Nums([Some(m), Some(n)]) == [m, n]
  {
    var arr := [Some(m), Some(n)];
    assert arr[..1] == [Some(m)];
    assert [Some(m)][..0] == [];
  }

  lemma SumOfPair(m: real, n: real)
    ensures Sum([m, n]) == m + n
  {
    assert [m, n][..1] == [m];
    assert [m][..0] == [];
    assert Sum([m]) == m;
  }

  /** Summing three rows a, a, b: the two numbers of a, and 0 for b. */
  lemma SumOfThreeRows(rows: seq<Row>, x: string, y: string, a: Value, b: Value, m: real, n: real)
    requires |rows| == 3 && a != b
    requires Cell(rows[0], x) == a && Cell(rows[1], x) == a && Cell(rows[2], x) == b
    requires Contribution(rows[0], y) == Some(m) && Contribution(rows[1], y) == Some(n)
    requires Contribution(rows[2], y) == None
    ensures Series(rows, x, y, "sum") == [Entry(Label(a), m + n), Entry(Label(b), 0.0)]
  {
    SeriesOfThreeRows(rows, x, y, "sum", a, b, m, n);
    SumIsNamed();
    NumsOfPair(m, n);
    SumOfPair(m, n);
    SumOfUnparsed([None]);
  }

  /** Counting three rows a, a, b: 2 for a and 1 for b. */
  lemma CountOfThreeRows(rows: seq<Row>, x: string, y: string, a: Value, b: Value, m: real, n: real)
    requires |rows| == 3 && a != b
    requires Cell(rows[0], x) == a && Cell(rows[1], x) == a && Cell(rows[2], x) == b
    requires Contribution(rows[0], y) == Some(m) && Contribution(rows[1], y) == Some(n)
    requires Contribution(rows[2], y) == None
    ensures Series(rows, x, y, "count") == [Entry(Label(a), 2.0), Entry(Label(b), 1.0)]
  {
    SeriesOfThreeRows(rows, x, y, "count", a, b, m, n);
    CountIsNamed();
  }

  /** Summing sales by region: east 10 + 5, west 0 for its unparsable value. */
  lemma RegionSalesSum()
    ensures Series(RegionSales(), "region", "sales", "sum") == [Entry("east", 15.0), Entry("west", 0.0)]
  {
    RegionSalesCells();
    SumOfThreeRows(RegionSales(), "region", "sales", Str("east"), Str("west"), 10.0, 5.0);
  }

  /** Counting rows by region: the unparsable row still counts. */
  lemma RegionSalesCount()
    ensures Series(RegionSales(), "region", "sales", "count") == [Entry("east", 2.0), Entry("west", 1.0)]
  {
    RegionSalesCells();
    CountOfThreeRows(RegionSales(), "region", "sales", Str("east"), Str("west"), 10.0, 5.0);
  }

  lemma SumIsNamed()
    ensures AggregateNamed("sum") == SumOf
  {
  }

  lemma CountIsNamed()
    ensures AggregateNamed("count") == CountOf
  {
    assert "count"[0] != "sum"[0] && "count"[0] != "avg"[0];
  }

  /** `computeSeries` on the example rows, by sum and by count. */
  method RegionSalesSeries() returns (bySum: seq<Entry>, byCount: seq<Entry>)
    ensures bySum == [Entry("east", 15.0), Entry("west", 0.0)]
    ensures byCount == [Entry("east", 2.0), Entry("west", 1.0)]
  {
    var expected := [Entry("east", 15.0), Entry("west", 0.0)];
    bySum := ComputeSeries(RegionSales(), "region", "sales", "sum");
    RegionSalesSum();
    EastBeforeWest(expected);
    SortedArrangementIsUnique(bySum, expected);
    expected := [Entry("east", 2.0), Entry("west", 1.0)];
    byCount := ComputeSeries(RegionSales(), "region", "sales", "count");
    RegionSalesCount();
    EastBeforeWest(expected);
    SortedArrangementIsUnique(byCount, expected);
  }

  lemma EastBeforeWest(es: seq<Entry>)
    requires |es| == 2 && es[0].name == "east" && es[1].name == "west"
    ensures SortedByName(es) && DistinctNames(es)
  {
    assert "east"[0] < "west"[0];
  }
}
