/** The Plotly traces the pages draw, as (labels, values) series projected
    from the page state, and the six call-length ranges of the histogram. */
module Charts {
  import opened Sequences
  import opened Rows
  import opened Text
  import opened Aggregation

  datatype Trace =
    | Bar(x: seq<string>, y: seq<nat>)
    | HorizontalBar(barLengths: seq<nat>, barNames: seq<string>, text: seq<string>)  // Plotly's x, y, text
    | Pie(labels: seq<string>, values: seq<nat>)
    | Scatter(points: seq<real>)  // Plotly's y

  /** The scenario bar chart: `x: scenarios, y: scenarioCounts`. */
  function ScenarioFrequency(state: ChartData): Trace {
    Bar(state.scenarios, state.scenarioCounts)
  }

  /** The pie: `labels: Object.keys(responseCounts), values: Object.values(responseCounts)`. */
  function ResponseTypeDistribution(responseCounts: Tally): Trace
    requires responseCounts.WellFormed()
  {
    Pie(responseCounts.keys, responseCounts.Values())
  }

  /** The horizontal bar: values on x, keys on y, and each value printed
      with `String` as the bar's text. */
  function TopResponses(responseCounts: Tally): Trace
    requires responseCounts.WellFormed()
  {
    var values := responseCounts.Values();
    HorizontalBar(values, responseCounts.keys, seq(|values|, i requires 0 <= i < |values| => NatToString(values[i])))
  }

  /** The line chart of the analysis page: the lengths in row order. */
  function CallLengthsOverTime(callLengths: seq<real>): Trace {
    Scatter(callLengths)
  }

  /** What the scenario bars and the response pie show for the rows a
      state describes: aligned series whose every value is the number of
      rows with its label and whose values add up to the rows with a truthy
      cell. */
  lemma CategoryCharts(state: ChartData, rows: seq<Row>, parse: NumberParser)
    requires Describes(state, rows, parse)
    ensures state.responseCounts.WellFormed()
    ensures var bar := ScenarioFrequency(state);
            && |bar.x| == |bar.y|
            && (forall i :: 0 <= i < |bar.x| ==> bar.y[i] == CountRows(rows, PhishingScenario, bar.x[i]))
            && Sum(bar.y) == |PresentValues(rows, PhishingScenario)|
    ensures var pie := ResponseTypeDistribution(state.responseCounts);
            && |pie.labels| == |pie.values|
            && (forall i :: 0 <= i < |pie.labels| ==> pie.values[i] == CountRows(rows, ResponseDescription, pie.labels[i]))
            && Sum(pie.values) == |PresentValues(rows, ResponseDescription)|
  {
    DescribesMeaning(state, rows, parse);
    TallyMeaning(state.responseCounts, rows, ResponseDescription);
  }

  /** The horizontal bars show the pie's pairs, and each bar's text is
      `String` of its length and reads back as that length. */
  lemma BarTexts(responseCounts: Tally)
    requires responseCounts.WellFormed()
    ensures var pie := ResponseTypeDistribution(responseCounts);
            var top := TopResponses(responseCounts);
            && top.barNames == pie.labels && top.barLengths == pie.values
            && |top.text| == |top.barLengths|
            && (forall i :: 0 <= i < |top.text| ==> top.text[i] == NatToString(top.barLengths[i]))
            && (forall i :: 0 <= i < |top.text| ==> DecimalValue(top.text[i]) == top.barLengths[i])
  {
    var top := TopResponses(responseCounts);
    forall i | 0 <= i < |top.text| ensures DecimalValue(top.text[i]) == top.barLengths[i] {
      NatToStringRoundTrip(top.barLengths[i]);
    }
  }

  // ---------------------------------------------------------------------
  // The call-length histogram

  /** A half-open range `[low, high)`; `None` stands for `Infinity`. */
  datatype Range = Range(low: real, high: Option<real>, caption: string)

  const CallLengthRanges: seq<Range> := [
    Range(0.0, Some(50.0), "0-50s"),
    Range(50.0, Some(100.0), "50-100s"),
    Range(100.0, Some(150.0), "100-150s"),
    Range(150.0, Some(200.0), "150-200s"),
    Range(200.0, Some(250.0), "200-250s"),
    Range(250.0, None, "250+s")
  ]

  /** `length >= range[0] && length < range[1]`. */
  predicate InRange(x: real, r: Range) {
    x >= r.low && (r.high.None? || x < r.high.value)
  }

  /** `callLengths.filter(length => in range).length`. */
  function CountInRange(samples: seq<real>, r: Range): (n: nat)
    ensures n <= |samples|
  {
    if samples == [] then 0
    else CountInRange(Init(samples), r) + (if InRange(Last(samples), r) then 1 else 0)
  }

  /** `callLengthDistribution`: one count per range. */
  function Distribution(samples: seq<real>): (counts: seq<nat>)
    ensures |counts| == |CallLengthRanges|
    ensures forall i :: 0 <= i < |counts| ==> counts[i] <= |samples|
  {
    seq(|CallLengthRanges|, i requires 0 <= i < |CallLengthRanges| => CountInRange(samples, CallLengthRanges[i]))
  }

  function CallLengthDistribution(callLengths: seq<real>): (t: Trace)
    ensures t.Bar? && |t.x| == |t.y| == |CallLengthRanges|
  {
    Bar(seq(|CallLengthRanges|, i requires 0 <= i < |CallLengthRanges| => CallLengthRanges[i].caption),
        Distribution(callLengths))
  }

  /** The range a length falls in, computed arithmetically: none for a
      negative length, the last for 250 and above, otherwise the fifty-second
      band it lies in. */
  function BucketIndex(x: real): Option<nat> {
    if x < 0.0 then None
    else if x >= 250.0 then Some(5)
    else Some((x / 50.0).Floor)
  }

  /** The ranges are disjoint and cover the non-negative lengths: a length
      lies in range `i` exactly when `BucketIndex` names `i`. So 50 lies in
      "50-100s" only, 250 in "250+s" only, and a negative length in none. */
  lemma RangesPartition(x: real)
    ensures forall i :: 0 <= i < |CallLengthRanges| ==>
              (InRange(x, CallLengthRanges[i]) <==> BucketIndex(x) == Some(i))
    ensures x >= 0.0 <==> exists i :: 0 <= i < |CallLengthRanges| && InRange(x, CallLengthRanges[i])
  {
    if 0.0 <= x < 250.0 {
      var k := (x / 50.0).Floor;
      assert 0 <= k < 5;
      assert k as real * 50.0 <= x < (k as real + 1.0) * 50.0;
      assert InRange(x, CallLengthRanges[k]);
    } else if x >= 250.0 {
      assert InRange(x, CallLengthRanges[5]);
    }
  }

  lemma BoundaryLengths()
    ensures InRange(50.0, CallLengthRanges[1]) && !InRange(50.0, CallLengthRanges[0])
    ensures InRange(250.0, CallLengthRanges[5]) && !InRange(250.0, CallLengthRanges[4])
    ensures BucketIndex(50.0) == Some(1) && BucketIndex(250.0) == Some(5)
  {
    RangesPartition(50.0);
    RangesPartition(250.0);
  }

  /** The number of non-negative lengths. */
  function NonNegativeCount(samples: seq<real>): nat {
    if samples == [] then 0
    else NonNegativeCount(Init(samples)) + (if Last(samples) >= 0.0 then 1 else 0)
  }

  /** The histogram has six bars aligned with six labels, and its counts add
      up to the number of non-negative lengths (negative ones are counted in
      no bar). */
  lemma {:induction false} HistogramTotal(samples: seq<real>)
    ensures var h := CallLengthDistribution(samples);
            |h.x| == |h.y| == 6 && h.x == ["0-50s", "50-100s", "100-150s", "150-200s", "200-250s", "250+s"]
    ensures Sum(Distribution(samples)) == NonNegativeCount(samples)
  {
    if samples == [] {
      SumOfZeros(Distribution(samples));
    } else {
      HistogramTotal(Init(samples));
      var x := Last(samples);
      var before := Distribution(Init(samples));
      var after := Distribution(samples);
      RangesPartition(x);
      if x >= 0.0 {
        var j := BucketIndex(x).value;
        SumBumpOne(before, after, j);
      } else {
        assert before == after;
      }
    }
  }
}
