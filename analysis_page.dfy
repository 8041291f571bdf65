/** The static analysis page: the same counting loop over every parsed row,
    and four charts drawn from its result. */
module AnalysisPage {
  import opened Sequences
  import opened Rows
  import opened Aggregation
  import opened Charts
  import DataPage

  /** The `complete` callback of the CSV parse: count over all rows, then
      set the page state. */
  method LoadResults(rows: seq<Row>, parse: NumberParser) returns (state: ChartData)
    ensures Describes(state, rows, parse)
  {
    var view := Aggregate(rows, parse);
    PublishDescribes(view, rows, parse);
    state := Publish(view);
  }

  /** The four charts, top to bottom: scenario bars, the call lengths as a
      line, the response pie and the horizontal response bars. */
  function Traces(state: ChartData): (traces: seq<Trace>)
    requires state.responseCounts.WellFormed()
    ensures |traces| == 4
    ensures traces[0].Bar? && traces[1].Scatter? && traces[2].Pie? && traces[3].HorizontalBar?
  {
    [ScenarioFrequency(state),
     CallLengthsOverTime(state.callLengths),
     ResponseTypeDistribution(state.responseCounts),
     TopResponses(state.responseCounts)]
  }

  /** The line chart plots the parsed lengths in row order; the category
      charts are aligned series of row counts, and the pie and the
      horizontal bars show the same response counts. */
  lemma TracesShowRows(state: ChartData, rows: seq<Row>, parse: NumberParser)
    requires Describes(state, rows, parse)
    ensures state.responseCounts.WellFormed()
    ensures var t := Traces(state);
            && t[1].points == ParsedLengths(rows, parse)
            && |t[0].x| == |t[0].y|
            && (forall i :: 0 <= i < |t[0].x| ==> t[0].y[i] == CountRows(rows, PhishingScenario, t[0].x[i]))
            && |t[2].labels| == |t[2].values|
            && (forall i :: 0 <= i < |t[2].labels| ==> t[2].values[i] == CountRows(rows, ResponseDescription, t[2].labels[i]))
            && t[3].barNames == t[2].labels && t[3].barLengths == t[2].values
  {
    CategoryCharts(state, rows, parse);
    BarTexts(state.responseCounts);
  }

  /** This page and the filterable page with both filters empty end up with
      the same scenario names, scenario counts, response counts and
      call lengths. */
  lemma SameAsUnfilteredDataPage(data: seq<Row>, parse: NumberParser, analysis: ChartData, unfiltered: ChartData)
    requires Describes(analysis, data, parse)
    requires Describes(unfiltered, DataPage.FilterRows(data, "", ""), parse)
    ensures analysis == unfiltered
  {
    DataPage.FilterAllWhenEmpty(data);
    DescribesUnique(analysis, unfiltered, data, parse);
  }

  /** The rows of the two-row example. */
  predicate IsExample(rows: seq<Row>) {
    && |rows| == 2
    && rows[0] == Row(Some("A"), Some("Tech Support"), Some("42"), Some("Hung up"))
    && rows[1] == Row(Some("B"), Some("Tech Support"), Some("abc"), Some("Gave info"))
  }

  lemma ExampleCounts(rows: seq<Row>)
    requires IsExample(rows)
    ensures PresentValues(rows, PhishingScenario) == ["Tech Support", "Tech Support"]
    ensures PresentValues(rows, ResponseDescription) == ["Hung up", "Gave info"]
    ensures CountRows(rows, PhishingScenario, "Tech Support") == 2
    ensures CountRows(rows, ResponseDescription, "Hung up") == 1
    ensures CountRows(rows, ResponseDescription, "Gave info") == 1
  {
    assert Init(rows) == [rows[0]] && Init([rows[0]]) == [];
  }

  lemma ExampleKeys()
    ensures DistinctFirstSeen(["Tech Support", "Tech Support"]) == ["Tech Support"]
    ensures DistinctFirstSeen(["Hung up", "Gave info"]) == ["Hung up", "Gave info"]
  {
    assert Init(["Tech Support", "Tech Support"]) == ["Tech Support"];
    assert Init(["Hung up", "Gave info"]) == ["Hung up"];
    assert Init(["Tech Support"]) == [] && Init(["Hung up"]) == [];
  }

  /** Two rows with the same scenario, different responses and one length
      that does not parse: one scenario counted twice, two responses counted
      once each, one length. */
  lemma TwoRowExample(rows: seq<Row>, parse: NumberParser, state: ChartData)
    requires IsExample(rows)
    requires parse("42") == Some(42.0) && parse("abc") == None
    requires Describes(state, rows, parse)
    ensures state.scenarios == ["Tech Support"] && state.scenarioCounts == [2]
    ensures state.responseCounts == Tally(["Hung up", "Gave info"], map["Hung up" := 1, "Gave info" := 1])
    ensures state.callLengths == [42.0]
  {
    ExampleCounts(rows);
    ExampleKeys();
    ExampleResponses(rows, state.responseCounts);
    ExampleLengths(rows, parse);
  }

  lemma ExampleResponses(rows: seq<Row>, t: Tally)
    requires IsExample(rows)
    requires IsTallyOf(t, rows, ResponseDescription)
    ensures t == Tally(["Hung up", "Gave info"], map["Hung up" := 1, "Gave info" := 1])
  {
    ExampleCounts(rows);
    ExampleKeys();
    assert t.keys == ["Hung up", "Gave info"];
    assert "Hung up" in t.counts && "Gave info" in t.counts;
    TwoKeyTally(t, "Hung up", 1, "Gave info", 1);
  }

  lemma TwoKeyTally(t: Tally, k1: string, n1: nat, k2: string, n2: nat)
    requires t.keys == [k1, k2]
    requires forall k :: k in t.counts <==> k in t.keys
    requires k1 in t.counts && t.counts[k1] == n1
    requires k2 in t.counts && t.counts[k2] == n2
    ensures t == Tally([k1, k2], map[k1 := n1, k2 := n2])
  {
    var expected := map[k1 := n1, k2 := n2];
    assert forall k :: k in t.counts <==> k in expected;
    assert t.counts == expected;
  }

  lemma ExampleLengths(rows: seq<Row>, parse: NumberParser)
    requires IsExample(rows)
    requires parse("42") == Some(42.0) && parse("abc") == None
    ensures ParsedLengths(rows, parse) == [42.0]
  {
    assert Init(rows) == [rows[0]] && Init([rows[0]]) == [];
  }
}
