/** The filterable analysis page: two case-insensitive substring filters
    over the rows, the scenario dropdown, the counts recomputed from the
    filtered rows, and the chart chosen by its button. */
module DataPage {
  import opened Sequences
  import opened Rows
  import opened Text
  import opened Aggregation
  import opened Charts

  /** One filter predicate:
      `cell?.toLowerCase().includes(filter.toLowerCase()) || filter === ""`. */
  predicate Matches(cell: Option<string>, filter: string) {
    (cell.Some? && Includes(Lower(cell.value), Lower(filter))) || filter == ""
  }

  /** The predicate given to `data.filter`: both filters hold. */
  predicate Keep(row: Row, scenarioFilter: string, nameFilter: string) {
    Matches(row.scenario, scenarioFilter) && Matches(row.name, nameFilter)
  }

  /** `filteredData`. */
  function FilterRows(data: seq<Row>, scenarioFilter: string, nameFilter: string): (r: seq<Row>)
    ensures |r| <= |data|
    ensures forall i :: 0 <= i < |r| ==> Keep(r[i], scenarioFilter, nameFilter)
  {
    if data == [] then []
    else
      FilterRows(Init(data), scenarioFilter, nameFilter)
      + (if Keep(Last(data), scenarioFilter, nameFilter) then [Last(data)] else [])
  }

  /** A filter holds exactly when it is empty or the lower-cased filter
      occurs in the lower-cased cell; a missing cell fails every non-empty
      filter; and lower-casing the cell or the filter first changes nothing. */
  lemma MatchesMeaning(cell: Option<string>, filter: string)
    ensures Matches(cell, filter) <==>
              filter == "" || (cell.Some? && exists i :: OccursAt(Lower(cell.value), Lower(filter), i))
    ensures cell.None? ==> (Matches(cell, filter) <==> filter == "")
    ensures Matches(cell, Lower(filter)) == Matches(cell, filter)
    ensures cell.Some? ==> Matches(Some(Lower(cell.value)), filter) == Matches(cell, filter)
  {
    LowerIsFolded(filter);
    if cell.Some? {
      IncludesIff(Lower(cell.value), Lower(filter));
      IncludesIff(Lower(cell.value), Lower(Lower(filter)));
      LowerIsFolded(cell.value);
    }
  }

  /** `filteredData` keeps rows of `data` in their order. */
  lemma {:induction false} FilterIsSubsequence(data: seq<Row>, scenarioFilter: string, nameFilter: string)
    ensures Subsequence(FilterRows(data, scenarioFilter, nameFilter), data)
  {
    if data != [] {
      FilterIsSubsequence(Init(data), scenarioFilter, nameFilter);
      var before := FilterRows(Init(data), scenarioFilter, nameFilter);
      if Keep(Last(data), scenarioFilter, nameFilter) {
        assert Init(before + [Last(data)]) == before;
      } else {
        assert FilterRows(data, scenarioFilter, nameFilter) == before;
        assert before != [] ==> Subsequence(before, Init(data));
      }
    }
  }

  /** `filteredData` holds every occurrence of a row that passes both
      filters and no row that fails one. */
  lemma {:induction false} FilterSelects(data: seq<Row>, scenarioFilter: string, nameFilter: string)
    ensures forall x :: multiset(FilterRows(data, scenarioFilter, nameFilter))[x] ==
              if Keep(x, scenarioFilter, nameFilter) then multiset(data)[x] else 0
  {
    if data != [] {
      FilterSelects(Init(data), scenarioFilter, nameFilter);
      assert data == Init(data) + [Last(data)];
    }
  }

  /** With both filters empty, `filteredData` is `data`, rows lacking the
      columns included. */
  lemma {:induction false} FilterAllWhenEmpty(data: seq<Row>)
    ensures FilterRows(data, "", "") == data
  {
    if data != [] {
      FilterAllWhenEmpty(Init(data));
      assert Keep(Last(data), "", "");
      assert data == Init(data) + [Last(data)];
    }
  }

  /** Filtering never adds to a count: per value, per column, and in the
      number of parsed lengths, which is itself at most the number of
      filtered rows. */
  lemma FilterBoundsCounts(data: seq<Row>, scenarioFilter: string, nameFilter: string,
                            col: Column, parse: NumberParser)
    ensures var filtered := FilterRows(data, scenarioFilter, nameFilter);
            && (forall v :: CountRows(filtered, col, v) <= CountRows(data, col, v))
            && |PresentValues(filtered, col)| <= |PresentValues(data, col)|
            && |ParsedLengths(filtered, parse)| <= |ParsedLengths(data, parse)|
            && |ParsedLengths(filtered, parse)| <= |filtered|
  {
    forall v ensures CountRows(FilterRows(data, scenarioFilter, nameFilter), col, v) <= CountRows(data, col, v) {
      FilterBoundsValue(data, scenarioFilter, nameFilter, col, v);
    }
    FilterBoundsPresent(data, scenarioFilter, nameFilter, col);
    FilterBoundsLengths(data, scenarioFilter, nameFilter, parse);
  }

  lemma {:induction false} FilterBoundsValue(data: seq<Row>, scenarioFilter: string, nameFilter: string,
                                             col: Column, v: string)
    ensures CountRows(FilterRows(data, scenarioFilter, nameFilter), col, v) <= CountRows(data, col, v)
  {
    if data != [] {
      var init, row := Init(data), Last(data);
      FilterBoundsValue(init, scenarioFilter, nameFilter, col, v);
      assert data == init + [row];
      StepCounts(init, row, col);
      var before := FilterRows(init, scenarioFilter, nameFilter);
      if Keep(row, scenarioFilter, nameFilter) {
        assert FilterRows(data, scenarioFilter, nameFilter) == before + [row];
        StepCounts(before, row, col);
      } else {
        assert FilterRows(data, scenarioFilter, nameFilter) == before;
      }
    }
  }

  lemma {:induction false} FilterBoundsPresent(data: seq<Row>, scenarioFilter: string, nameFilter: string,
                                               col: Column)
    ensures |PresentValues(FilterRows(data, scenarioFilter, nameFilter), col)| <= |PresentValues(data, col)|
  {
    if data != [] {
      FilterBoundsPresent(Init(data), scenarioFilter, nameFilter, col);
      var before := FilterRows(Init(data), scenarioFilter, nameFilter);
      if Keep(Last(data), scenarioFilter, nameFilter) {
        assert Init(before + [Last(data)]) == before && Last(before + [Last(data)]) == Last(data);
      } else {
        assert FilterRows(data, scenarioFilter, nameFilter) == before;
        assert |PresentValues(Init(data), col)| <= |PresentValues(data, col)|;
      }
    }
  }

  lemma {:induction false} FilterBoundsLengths(data: seq<Row>, scenarioFilter: string, nameFilter: string,
                                               parse: NumberParser)
    ensures |ParsedLengths(FilterRows(data, scenarioFilter, nameFilter), parse)| <= |ParsedLengths(data, parse)|
  {
    if data != [] {
      FilterBoundsLengths(Init(data), scenarioFilter, nameFilter, parse);
      var before := FilterRows(Init(data), scenarioFilter, nameFilter);
      if Keep(Last(data), scenarioFilter, nameFilter) {
        assert Init(before + [Last(data)]) == before && Last(before + [Last(data)]) == Last(data);
      } else {
        assert FilterRows(data, scenarioFilter, nameFilter) == before;
        assert |ParsedLengths(Init(data), parse)| <= |ParsedLengths(data, parse)|;
      }
    }
  }

  /** `[...new Set(data.map(row => row["Phishing Scenario"]))]`: the list the
      dropdown starts with once the file is loaded. A missing cell is one
      more entry of the list, as the empty string is. */
  function UniqueScenarios(data: seq<Row>): (r: seq<Option<string>>)
    ensures Distinct(r) && |r| <= |data|
  {
    DistinctFirstSeen(ColumnValues(data, PhishingScenario))
  }

  /** The dropdown list has no duplicates, holds the scenario cell of every
      row and nothing else, and lists them in the order they first occur. */
  lemma UniqueScenariosMeaning(data: seq<Row>)
    ensures Distinct(UniqueScenarios(data))
    ensures forall i :: 0 <= i < |data| ==> data[i].scenario in UniqueScenarios(data)
    ensures InFirstSeenOrder(UniqueScenarios(data), ColumnValues(data, PhishingScenario))
  {
    var values := ColumnValues(data, PhishingScenario);
    assert forall i :: 0 <= i < |data| ==> data[i].scenario == values[i];
    FirstSeenOrder(values);
  }

  /** The effect that recomputes the counts from `filteredData`
      (always from the full `data`, whatever the previous filters were). */
  method RecomputeCounts(data: seq<Row>, scenarioFilter: string, nameFilter: string, parse: NumberParser)
    returns (state: ChartData)
    ensures Describes(state, FilterRows(data, scenarioFilter, nameFilter), parse)
  {
    var filteredData := FilterRows(data, scenarioFilter, nameFilter);
    var view := Aggregate(filteredData, parse);
    PublishDescribes(view, filteredData, parse);
    state := Publish(view);
  }

  /** The scenario and response counts of a filtered page add up to no more
      than those of the unfiltered page, and to the same when both filters
      are empty. */
  lemma FilteredTotalsBounded(data: seq<Row>, scenarioFilter: string, nameFilter: string,
                              parse: NumberParser, filtered: ChartData, full: ChartData)
    requires Describes(filtered, FilterRows(data, scenarioFilter, nameFilter), parse)
    requires Describes(full, data, parse)
    ensures Sum(filtered.scenarioCounts) <= Sum(full.scenarioCounts)
    ensures filtered.responseCounts.WellFormed() && full.responseCounts.WellFormed()
    ensures Sum(filtered.responseCounts.Values()) <= Sum(full.responseCounts.Values())
    ensures scenarioFilter == "" && nameFilter == "" ==> filtered == full
  {
    var rows := FilterRows(data, scenarioFilter, nameFilter);
    DescribesMeaning(filtered, rows, parse);
    DescribesMeaning(full, data, parse);
    FilterBoundsCounts(data, scenarioFilter, nameFilter, PhishingScenario, parse);
    FilterBoundsCounts(data, scenarioFilter, nameFilter, ResponseDescription, parse);
    if scenarioFilter == "" && nameFilter == "" {
      FilterAllWhenEmpty(data);
      DescribesUnique(filtered, full, data, parse);
    }
  }

  /** The four chart buttons. */
  const ChartNames: seq<string> :=
    ["Scenario Frequency", "Call Length Distribution", "Response Type Distribution", "Top Responses"]

  /** `renderChart()`: the trace for the selected chart; `null` for a name
      that is not one of the buttons. */
  function RenderChart(selectedChart: string, state: ChartData): (r: Option<Trace>)
    requires state.responseCounts.WellFormed()
    ensures r.Some? <==> selectedChart in ChartNames
    ensures selectedChart == ChartNames[0] ==> r == Some(ScenarioFrequency(state))
    ensures selectedChart == ChartNames[1] ==> r == Some(CallLengthDistribution(state.callLengths))
    ensures selectedChart == ChartNames[2] ==> r == Some(ResponseTypeDistribution(state.responseCounts))
    ensures selectedChart == ChartNames[3] ==> r == Some(TopResponses(state.responseCounts))
  {
    if selectedChart == "Scenario Frequency" then Some(ScenarioFrequency(state))
    else if selectedChart == "Call Length Distribution" then Some(CallLengthDistribution(state.callLengths))
    else if selectedChart == "Response Type Distribution" then Some(ResponseTypeDistribution(state.responseCounts))
    else if selectedChart == "Top Responses" then Some(TopResponses(state.responseCounts))
    else None
  }
}
