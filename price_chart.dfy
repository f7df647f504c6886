/**
  The body of the component's effect: from the data set and the search term
  to the grand total, the chart rows (one per developer) and the rows the
  table shows.

  The accumulator of the grouping is an object that inherits the properties
  named `inherited`. The component's plain `{}` inherits `InheritedNames`; an
  accumulator without a prototype (the corrected grouping) inherits nothing,
  `inherited == {}`.
*/
module PriceChart {
  import opened ObjectKeys
  import opened MonthRecords
  import opened DeveloperSummary
  import opened PriceRows
  import opened SearchFilter
  import opened ChartColors

  /** What the effect hands to `setTotalPrice`, `setChartData` and `setFilteredData`. */
  datatype ChartState = ChartState(totalPrice: int, chartData: seq<Row>, filteredData: seq<Row>)

  /** The order in which `Object.values` visits the accumulator of `records`. */
  function VisitOrder(records: seq<MonthRecord>): seq<string> {
    OwnKeyOrder(FirstOccurrences(records))
  }

  /** The visiting order lists every name of `records` once and nothing else. */
  lemma VisitOrderNames(records: seq<MonthRecord>)
    ensures forall n :: n in VisitOrder(records) <==> n in Names(records)
    ensures Distinct(VisitOrder(records))
  {
    var first := FirstOccurrences(records);
    OwnKeyOrderPermutes(first);
    OwnKeyOrderDistinct(first);
    forall n ensures n in VisitOrder(records) <==> n in first {
      assert n in VisitOrder(records) <==> n in multiset(VisitOrder(records));
      assert n in first <==> n in multiset(first);
    }
  }

  /** The rows built from the accumulator of `records`, each share taken of `total`. */
  function ChartRows(records: seq<MonthRecord>, total: int): seq<Row> {
    VisitOrderNames(records);
    SummaryMapSums(records);
    ToRows(SummaryMap(records), VisitOrder(records), total)
  }

  /**
    The chart rows for the flattened months: only the records whose name is
    not inherited reach the accumulator, while the grand total counts every
    record.
  */
  function RowsFor(months: seq<MonthRecord>, inherited: set<string>): seq<Row> {
    ChartRows(Reaching(months, inherited), TotalPrice(months))
  }

  /** What the effect computes, or `None` when a year is missing and `Object.values` throws. */
  function ChartFor(data: DeveloperData, term: string, inherited: set<string>): Option<ChartState> {
    match AllMonths(data)
    case None => None
    case Some(months) =>
      var rows := RowsFor(months, inherited);
      Some(ChartState(TotalPrice(months), rows, FilterRows(rows, term)))
  }

  /**
    The effect body, step by step as the component runs it, with the grouping
    reduce as written (`inherited == InheritedNames` for the component).
  */
  method DeriveChart(data: DeveloperData, term: string, inherited: set<string>) returns (state: Option<ChartState>)
    ensures state == ChartFor(data, term, inherited)
  {
    if "2024" !in data || "2025" !in data {
      return None;
    }
    var allMonthsData := data["2024"] + data["2025"];
    var totalPropertyPrice := TotalPrice(allMonthsData);
    var developerSummary, created := SummarizeAsWritten(allMonthsData, inherited);
    ghost var reaching := Reaching(allMonthsData, inherited);
    VisitOrderNames(reaching);
    SummaryMapSums(reaching);
    var processedData := ToRows(developerSummary, OwnKeyOrder(created), totalPropertyPrice);
    var chartData := processedData;
    if term != "" {
      FilterIsKeep(processedData, term);
      processedData := Keep(processedData, term);
    }
    state := Some(ChartState(totalPropertyPrice, chartData, processedData));
  }

  /** A missing year yields no chart; with both years present there is one. */
  lemma ChartExistsIff(data: DeveloperData, term: string, inherited: set<string>)
    ensures ChartFor(data, term, inherited).Some? <==> "2024" in data && "2025" in data
  {
  }

  /** The grand total is the total of 2024 plus the total of 2025. */
  lemma TotalOfBothYears(data: DeveloperData, term: string, inherited: set<string>)
    requires "2024" in data && "2025" in data
    ensures ChartFor(data, term, inherited).value.totalPrice == TotalPrice(data["2024"]) + TotalPrice(data["2025"])
  {
    TotalPriceAppend(data["2024"], data["2025"]);
  }

  /** Summing values over keys is summing the per-name prices over them. */
  lemma {:induction false} SumValuesRows(records: seq<MonthRecord>, keys: seq<string>, total: int)
    requires forall i | 0 <= i < |keys| :: keys[i] in SummaryMap(records)
    ensures SumValues(ToRows(SummaryMap(records), keys, total)) == SumPrices(records, keys)
  {
    if keys != [] {
      SummaryMapSums(records);
      var rows := ToRows(SummaryMap(records), keys, total);
      SumValuesRows(records, keys[1..], total);
      assert rows[1..] == ToRows(SummaryMap(records), keys[1..], total);
    }
  }

  /** The chart rows are named by the visiting order of the records that reach the accumulator. */
  lemma RowNamesAreVisitOrder(months: seq<MonthRecord>, inherited: set<string>)
    ensures RowNames(RowsFor(months, inherited)) == VisitOrder(Reaching(months, inherited))
  {
    VisitOrderNames(Reaching(months, inherited));
  }

  /** The accumulator is visited once per name that is not inherited, and for nothing else. */
  lemma ChartNames(months: seq<MonthRecord>, inherited: set<string>)
    ensures forall n :: n in VisitOrder(Reaching(months, inherited)) <==> n in Names(months) && n !in inherited
    ensures Distinct(VisitOrder(Reaching(months, inherited)))
  {
    VisitOrderNames(Reaching(months, inherited));
    ReachingNames(months, inherited);
  }

  /**
    Conservation: the chart's values add up to the total of the records that
    reach the accumulator, which is the grand total when no name is inherited.
  */
  lemma RowsConserveTotal(months: seq<MonthRecord>, inherited: set<string>)
    ensures SumValues(RowsFor(months, inherited)) == TotalPrice(Reaching(months, inherited))
    ensures Names(months) !! inherited ==> SumValues(RowsFor(months, inherited)) == TotalPrice(months)
  {
    var r := Reaching(months, inherited);
    VisitOrderNames(r);
    SummaryMapSums(r);
    SumValuesRows(r, VisitOrder(r), TotalPrice(months));
    SumPricesOwnKeyOrder(r, FirstOccurrences(r));
    GroupingConservesTotal(r);
    if Names(months) !! inherited {
      ReachingAll(months, inherited);
    }
  }

  /** Each chart row holds the sum of exactly its developer's prices and its share of the grand total. */
  lemma RowValues(months: seq<MonthRecord>, inherited: set<string>)
    ensures var rows := RowsFor(months, inherited);
      forall i | 0 <= i < |rows| ::
        && rows[i].value == PriceOf(months, rows[i].name)
        && rows[i].percentage == Percentage(rows[i].value, TotalPrice(months))
  {
    var r := Reaching(months, inherited);
    var rows, keys, summary, total := RowsFor(months, inherited), VisitOrder(r), SummaryMap(r), TotalPrice(months);
    VisitOrderNames(r);
    SummaryMapSums(r);
    ReachingNames(months, inherited);
    assert rows == ToRows(summary, keys, total);
    forall i | 0 <= i < |rows|
      ensures rows[i].value == PriceOf(months, rows[i].name)
      ensures rows[i].percentage == Percentage(rows[i].value, total)
    {
      assert keys[i] in Names(r) && keys[i] !in inherited;
      assert rows[i] == Row(keys[i], summary[keys[i]], Percentage(summary[keys[i]], total));
    }
  }

  /**
    One row per developer that reaches the accumulator: the row names are
    distinct and are exactly the names that are not inherited, and each row
    holds the sum of exactly that developer's prices and its share of the
    grand total.
  */
  lemma RowsPerDeveloper(months: seq<MonthRecord>, inherited: set<string>)
    ensures var rows := RowsFor(months, inherited);
      && Distinct(RowNames(rows))
      && (forall n :: n in RowNames(rows) <==> n in Names(months) && n !in inherited)
      && forall i | 0 <= i < |rows| ::
           && rows[i].value == PriceOf(months, rows[i].name)
           && rows[i].percentage == Percentage(rows[i].value, TotalPrice(months))
  {
    ChartNames(months, inherited);
    RowNamesAreVisitOrder(months, inherited);
    RowValues(months, inherited);
  }

  /** No two chart rows are equal, since no two carry the same name. */
  lemma ChartRowsDistinct(months: seq<MonthRecord>, inherited: set<string>)
    ensures Distinct(RowsFor(months, inherited))
  {
    var rows := RowsFor(months, inherited);
    RowsPerDeveloper(months, inherited);
    forall i, j | 0 <= i < j < |rows| ensures rows[i] != rows[j] {
      assert RowNames(rows)[i] != RowNames(rows)[j];
    }
  }

  /** In the chart the component draws, each corrected table swatch is the colour of that row's slice. */
  lemma ChartSwatchesMatchSlices(months: seq<MonthRecord>, inherited: set<string>, term: string)
    ensures var chart := RowsFor(months, inherited);
      var filtered, sw, sl := FilterRows(chart, term), TableSwatches(chart, term), SliceColors(chart);
      forall k, i | 0 <= k < |filtered| && 0 <= i < |chart| && filtered[k] == chart[i] :: sw[k] == sl[i]
  {
    ChartRowsDistinct(months, inherited);
    SwatchMatchesSlice(RowsFor(months, inherited), term);
  }

  /**
    With a non-zero total, the chart's shares add up to the share of the
    grand total that reaches the accumulator: exactly 100 when no name is
    inherited.
  */
  lemma SharesMakeWhole(months: seq<MonthRecord>, inherited: set<string>)
    requires TotalPrice(months) != 0
    ensures SumShares(RowsFor(months, inherited)) ==
      Percentage(TotalPrice(Reaching(months, inherited)), TotalPrice(months)).share
    ensures Names(months) !! inherited ==> SumShares(RowsFor(months, inherited)) == 100.0
  {
    RowsConserveTotal(months, inherited);
    RowsShares(months, inherited);
    if Names(months) !! inherited {
      ReachingAll(months, inherited);
      assert Percentage(TotalPrice(months), TotalPrice(months)).share == 100.0;
    }
  }

  /** The chart's shares add up to the share its values make of the grand total. */
  lemma RowsShares(months: seq<MonthRecord>, inherited: set<string>)
    requires TotalPrice(months) != 0
    ensures SumShares(RowsFor(months, inherited)) ==
      Percentage(SumValues(RowsFor(months, inherited)), TotalPrice(months)).share
  {
    var r := Reaching(months, inherited);
    VisitOrderNames(r);
    SummaryMapSums(r);
    SharesArePercentage(RowsFor(months, inherited), SummaryMap(r), VisitOrder(r), TotalPrice(months));
  }

  /** The names that reach the accumulator come in the order of their first records in `months`. */
  lemma ReachingKeepsFirstOrder(months: seq<MonthRecord>, inherited: set<string>)
    ensures InFirstOccurrenceOrder(months, FirstOccurrences(Reaching(months, inherited)))
  {
    var first := FirstOccurrences(months);
    FirstOccurrencesOrdered(months);
    OrderIsRank(months, first);
    WithoutKeepsRank(first, inherited, FirstRank(months));
    WithoutMembers(first, inherited);
    FirstOccurrencesReaching(months, inherited);
    OrderIsRank(months, Without(first, inherited));
  }

  /**
    When no developer name is an array index, the rows come in the order in
    which each developer first appears in the records, leaving out the
    inherited names.
  */
  lemma RowsInFirstOccurrenceOrder(months: seq<MonthRecord>, inherited: set<string>)
    requires forall n | n in Names(months) :: !IsArrayIndex(n)
    ensures RowNames(RowsFor(months, inherited)) == Without(FirstOccurrences(months), inherited)
    ensures InFirstOccurrenceOrder(months, RowNames(RowsFor(months, inherited)))
  {
    var first := FirstOccurrences(Reaching(months, inherited));
    ReachingNames(months, inherited);
    assert forall i | 0 <= i < |first| :: !IsArrayIndex(first[i]) by {
      forall i | 0 <= i < |first| ensures !IsArrayIndex(first[i]) {
        assert first[i] in Names(Reaching(months, inherited));
      }
    }
    NoIndexKeepsOrder(first);
    RowNamesAreVisitOrder(months, inherited);
    FirstOccurrencesReaching(months, inherited);
    ReachingKeepsFirstOrder(months, inherited);
  }

  /** The names that are not array indices keep the first-occurrence order of `months`. */
  lemma NamedKeysInFirstOrder(months: seq<MonthRecord>, records: seq<MonthRecord>)
    requires InFirstOccurrenceOrder(months, FirstOccurrences(records))
    ensures InFirstOccurrenceOrder(months, NamedKeys(FirstOccurrences(records)))
  {
    var first := FirstOccurrences(records);
    OrderIsRank(months, first);
    NamedKeysKeepRank(first, FirstRank(months));
    var named := NamedKeys(first);
    forall i | 0 <= i < |named| ensures named[i] in Names(months) {
      assert named[i] in named;
    }
    OrderIsRank(months, named);
  }

  /**
    The first `n` names are array indices, ascending, and the names after
    them are not, and come in the first-occurrence order of `months`.
  */
  predicate IndicesThenFirstOrder(months: seq<MonthRecord>, names: seq<string>, n: nat) {
    && n <= |names|
    && (forall i | 0 <= i < n :: IsArrayIndex(names[i]))
    && (forall i | n <= i < |names| :: !IsArrayIndex(names[i]))
    && Ascending(names[..n])
    && InFirstOccurrenceOrder(months, names[n..])
  }

  /** The visiting order of `records` splits after its array-index names. */
  lemma VisitOrderSplit(months: seq<MonthRecord>, records: seq<MonthRecord>) returns (n: nat)
    requires InFirstOccurrenceOrder(months, FirstOccurrences(records))
    ensures IndicesThenFirstOrder(months, VisitOrder(records), n)
  {
    var first := FirstOccurrences(records);
    OwnKeyOrderShape(first);
    NamedKeysInFirstOrder(months, records);
    n := |IndexKeys(first)|;
    assert VisitOrder(records)[n..] == NamedKeys(first);
  }

  /**
    The visiting order: the array-index names first, ascending, then the other
    names in the order of their first records.
  */
  lemma VisitOrderShape(months: seq<MonthRecord>, inherited: set<string>)
    ensures exists n :: IndicesThenFirstOrder(months, VisitOrder(Reaching(months, inherited)), n)
  {
    ReachingKeepsFirstOrder(months, inherited);
    var n := VisitOrderSplit(months, Reaching(months, inherited));
  }

  /**
    In general the rows whose name is an array index come first, in ascending
    numeric order, and every other row follows in first-occurrence order.
  */
  lemma RowsInVisitOrder(months: seq<MonthRecord>, inherited: set<string>)
    ensures exists n :: IndicesThenFirstOrder(months, RowNames(RowsFor(months, inherited)), n)
  {
    RowNamesAreVisitOrder(months, inherited);
    VisitOrderShape(months, inherited);
  }

  /**
    The table shows chart rows only, each unchanged (value and share of the
    grand total included), and with an empty term all of them.
  */
  lemma FilteredAreChartRows(data: DeveloperData, term: string, inherited: set<string>)
    requires ChartFor(data, term, inherited).Some?
    ensures var s := ChartFor(data, term, inherited).value;
      && (forall x :: x in s.filteredData <==> x in s.chartData && Matches(x, term))
      && (term == "" ==> s.filteredData == s.chartData)
  {
  }

  /** No records: total 0 and no rows; nothing is divided. */
  lemma NoRecordsNoRows(term: string, inherited: set<string>)
    ensures ChartFor(map["2024" := [], "2025" := []], term, inherited) == Some(ChartState(0, [], []))
  {
    var none: seq<MonthRecord> := [];
    assert none + none == none;
    assert FirstOccurrences([]) == [];
  }

  /**
    A single record named "constructor": the component's chart has the total
    100 but no row, while an accumulator that inherits nothing gives the row.
  */
  lemma ConstructorLosesRow()
    ensures ChartFor(map["2024" := [MonthRecord("constructor", 100)], "2025" := []], "", InheritedNames)
      == Some(ChartState(100, [], []))
  {
    var months := [MonthRecord("constructor", 100)];
    var none: seq<MonthRecord> := [];
    assert months + none == months;
    assert months[..0] == none;
    assert Reaching(months, InheritedNames) == none;
    assert TotalPrice(months) == 100;
    assert FirstOccurrences(none) == [];
  }

  /** With an accumulator that inherits nothing, the record "constructor" 100 makes its own row. */
  lemma ConstructorKeepsRow()
    ensures ChartFor(map["2024" := [MonthRecord("constructor", 100)], "2025" := []], "", {})
      == Some(ChartState(100, [Row("constructor", 100, Finite(100.0))], [Row("constructor", 100, Finite(100.0))]))
  {
    var months := [MonthRecord("constructor", 100)];
    var none: seq<MonthRecord> := [];
    assert months + none == months;
    ConstructorRow();
    var rows := RowsFor(months, {});
    assert FilterRows(rows, "") == rows by {
      FilteredAreChartRows(map["2024" := months, "2025" := none], "", {});
    }
  }

  lemma ConstructorRow()
    ensures var months := [MonthRecord("constructor", 100)];
      TotalPrice(months) == 100 && RowsFor(months, {}) == [Row("constructor", 100, Finite(100.0))]
  {
    var months := [MonthRecord("constructor", 100)];
    var none: seq<MonthRecord> := [];
    assert months[..0] == none;
    assert Reaching(months, {}) == months;
    assert TotalPrice(months) == 100;
    assert VisitOrder(months) == ["constructor"] by {
      assert FirstOccurrences(months) == ["constructor"];
      assert !IsDigit("constructor"[0]);
      NoIndexKeepsOrder(["constructor"]);
    }
    assert SummaryMap(months)["constructor"] == 100 by {
      SummaryMapSums(months);
      assert "constructor" in Names(months);
    }
    var rows := RowsFor(months, {});
    assert rows[0] == Row("constructor", 100, Percentage(100, 100));
    assert Percentage(100, 100) == Finite(100.0);
  }

  /** Two records with different names that are not array indices. */
  lemma {:induction false} NamesOfTwo(a: MonthRecord, b: MonthRecord, inherited: set<string>)
    requires a.developerName != b.developerName
    requires !IsArrayIndex(a.developerName) && !IsArrayIndex(b.developerName)
    ensures VisitOrder(Reaching([a, b], inherited)) == Without([a.developerName, b.developerName], inherited)
    ensures PriceOf([a, b], a.developerName) == a.propertyPrice
    ensures PriceOf([a, b], b.developerName) == b.propertyPrice
  {
    FirstOfTwo(a, b);
    var first := FirstOccurrences([a, b]);
    FirstOccurrencesReaching([a, b], inherited);
    var kept := Without(first, inherited);
    WithoutMembers(first, inherited);
    assert forall i | 0 <= i < |kept| :: !IsArrayIndex(kept[i]) by {
      forall i | 0 <= i < |kept| ensures !IsArrayIndex(kept[i]) {
        assert kept[i] in first;
      }
    }
    NoIndexKeepsOrder(kept);
  }

  lemma {:induction false} FirstOfTwo(a: MonthRecord, b: MonthRecord)
    requires a.developerName != b.developerName
    ensures FirstOccurrences([a, b]) == [a.developerName, b.developerName]
    ensures PriceOf([a, b], a.developerName) == a.propertyPrice
    ensures PriceOf([a, b], b.developerName) == b.propertyPrice
  {
    var none: seq<MonthRecord> := [];
    assert [a, b][..1] == [a] && [a][..0] == none;
    assert Names([a]) == {a.developerName};
    assert FirstOccurrences([a]) == [a.developerName];
    assert PriceOf([a], b.developerName) == 0;
    assert PriceOf([a], a.developerName) == a.propertyPrice;
  }

  /** "Emaar" and "emaar" are not inherited by a plain object, so both keep their rows. */
  lemma EmaarNotInherited()
    ensures "Emaar" !in InheritedNames && "emaar" !in InheritedNames
  {
    forall n | n in InheritedNames ensures n[0] != 'E' && n[0] != 'e' {
    }
  }

  /**
    Two records with different names, neither an array index nor inherited,
    make two rows, in record order, each with its own price.
  */
  lemma TwoNamesTwoRows(a: MonthRecord, b: MonthRecord, inherited: set<string>)
    requires a.developerName != b.developerName
    requires !IsArrayIndex(a.developerName) && !IsArrayIndex(b.developerName)
    requires a.developerName !in inherited && b.developerName !in inherited
    ensures var rows := RowsFor([a, b], inherited);
      && |rows| == 2
      && rows[0].name == a.developerName && rows[0].value == a.propertyPrice
      && rows[1].name == b.developerName && rows[1].value == b.propertyPrice
  {
    NamesOfTwo(a, b, inherited);
    WithoutNone([a.developerName, b.developerName], inherited);
    RowNamesAreVisitOrder([a, b], inherited);
    RowValues([a, b], inherited);
    var rows := RowsFor([a, b], inherited);
    assert rows[0].name == RowNames(rows)[0] && rows[1].name == RowNames(rows)[1];
  }

  /** Grouping is exact: "Emaar" and "emaar" make two rows in the component's chart. */
  lemma CaseSensitiveGrouping()
    ensures var rows := RowsFor([MonthRecord("Emaar", 100), MonthRecord("emaar", 50)], InheritedNames);
      && |rows| == 2
      && rows[0].name == "Emaar" && rows[0].value == 100
      && rows[1].name == "emaar" && rows[1].value == 50
  {
    var a, b := MonthRecord("Emaar", 100), MonthRecord("emaar", 50);
    assert a.developerName[0] != b.developerName[0];
    assert !IsDigit(a.developerName[0]) && !IsDigit(b.developerName[0]);
    EmaarNotInherited();
    TwoNamesTwoRows(a, b, InheritedNames);
  }

  /** The records A 100, B 200, A 50 group into A with 150 and B with 200, total 350. */
  lemma ThreeRecordSums()
    ensures var months := [MonthRecord("A", 100), MonthRecord("B", 200), MonthRecord("A", 50)];
      && TotalPrice(months) == 350
      && FirstOccurrences(months) == ["A", "B"]
      && PriceOf(months, "A") == 150
      && PriceOf(months, "B") == 200
  {
    var a, b, c := MonthRecord("A", 100), MonthRecord("B", 200), MonthRecord("A", 50);
    var months := [a, b, c];
    var none: seq<MonthRecord> := [];
    AppendRecord(none, a);
    assert none + [a] == [a];
    AppendRecord([a], b);
    assert [a] + [b] == [a, b];
    AppendRecord([a, b], c);
    assert [a, b] + [c] == months;
    assert months[..2] == [a, b] && [a, b][..1] == [a] && [a][..0] == none;
    assert TotalPrice([a]) == 100;
    assert TotalPrice([a, b]) == 300;
  }

  /** Neither "A" nor "B" is inherited by a plain object, so every one of those records reaches the accumulator. */
  lemma ThreeRecordsReach()
    ensures var months := [MonthRecord("A", 100), MonthRecord("B", 200), MonthRecord("A", 50)];
      Reaching(months, InheritedNames) == months
  {
    var months := [MonthRecord("A", 100), MonthRecord("B", 200), MonthRecord("A", 50)];
    ThreeRecordSums();
    assert Names(months) == {"A", "B"};
    forall n | n in InheritedNames ensures n != "A" && n != "B" {
    }
    ReachingAll(months, InheritedNames);
  }

  /**
    The records A 100, B 200, A 50: total 350, row A with 150 and row B
    with 200, their shares 150/350 and 200/350 of one hundred.
  */
  lemma ThreeRecordScenario()
    ensures var months := [MonthRecord("A", 100), MonthRecord("B", 200), MonthRecord("A", 50)];
      && TotalPrice(months) == 350
      && RowsFor(months, InheritedNames) == [
           Row("A", 150, Finite(150.0 / 350.0 * 100.0)),
           Row("B", 200, Finite(200.0 / 350.0 * 100.0))]
  {
    var months := [MonthRecord("A", 100), MonthRecord("B", 200), MonthRecord("A", 50)];
    ThreeRecordRows();
    var rows := RowsFor(months, InheritedNames);
    assert rows[0] == Row("A", 150, Percentage(150, 350));
    assert rows[1] == Row("B", 200, Percentage(200, 350));
  }

  lemma ThreeRecordRows()
    ensures var months := [MonthRecord("A", 100), MonthRecord("B", 200), MonthRecord("A", 50)];
      && TotalPrice(months) == 350
      && |RowsFor(months, InheritedNames)| == 2
      && RowsFor(months, InheritedNames)[0] == Row("A", 150, Percentage(150, 350))
      && RowsFor(months, InheritedNames)[1] == Row("B", 200, Percentage(200, 350))
  {
    var months := [MonthRecord("A", 100), MonthRecord("B", 200), MonthRecord("A", 50)];
    ThreeRecordSums();
    ThreeRecordsReach();
    ThreeRecordVisit();
    ThreeRecordMap();
    assert RowsFor(months, InheritedNames) == ToRows(SummaryMap(months), ["A", "B"], 350);
  }

  lemma ThreeRecordVisit()
    ensures VisitOrder([MonthRecord("A", 100), MonthRecord("B", 200), MonthRecord("A", 50)]) == ["A", "B"]
  {
    ThreeRecordSums();
    assert !IsDigit("A"[0]) && !IsDigit("B"[0]);
    NoIndexKeepsOrder(["A", "B"]);
  }

  lemma ThreeRecordMap()
    ensures var summary := SummaryMap([MonthRecord("A", 100), MonthRecord("B", 200), MonthRecord("A", 50)]);
      "A" in summary && "B" in summary && summary["A"] == 150 && summary["B"] == 200
  {
    var months := [MonthRecord("A", 100), MonthRecord("B", 200), MonthRecord("A", 50)];
    ThreeRecordSums();
    SummaryMapSums(months);
    assert "A" in Names(months) && "B" in Names(months);
  }
}
