/** The loop both pages run over their rows: count each truthy
    `Phishing Scenario`, count each truthy `Response Description`, and
    collect every call length that parses as a number; then the four state
    variables the pages set from the result. */
module Aggregation {
  import opened Sequences
  import opened Rows

  /** `parseFloat` on a cell: `None` for a result that is `NaN`. */
  type NumberParser = string -> Option<real>

  /** `parseFloat(row["Call Length (s)"])`; a missing cell gives `NaN`. */
  function ParseLength(row: Row, parse: NumberParser): Option<real> {
    match row.callLength
    case None => None
    case Some(s) => parse(s)
  }

  /** The call lengths of the rows that parse, in row order. */
  function ParsedLengths(rows: seq<Row>, parse: NumberParser): (r: seq<real>)
    ensures |r| <= |rows|
  {
    if rows == [] then []
    else
      var length := ParseLength(Last(rows), parse);
      ParsedLengths(Init(rows), parse) + (if length.Some? then [length.value] else [])
  }

  /** Reading the rows in two parts reads the lengths in two parts: the
      lengths keep the order of their rows. */
  lemma {:induction false} ParsedLengthsAppend(a: seq<Row>, b: seq<Row>, parse: NumberParser)
    ensures ParsedLengths(a + b, parse) == ParsedLengths(a, parse) + ParsedLengths(b, parse)
    decreases |b|
  {
    if b == [] {
      assert a + b == a;
    } else {
      assert Init(a + b) == a + Init(b);
      assert Last(a + b) == Last(b);
      ParsedLengthsAppend(a, Init(b), parse);
    }
  }

  /** A single row contributes its length when it parses and nothing
      otherwise. */
  lemma ParsedLengthsSingle(row: Row, parse: NumberParser)
    ensures ParsedLengths([row], parse) ==
            if ParseLength(row, parse).Some? then [ParseLength(row, parse).value] else []
  {
    assert Init([row]) == [];
  }

  /** A `Record<string, number>` used as a counter: its keys in insertion
      order (what `Object.keys` returns) and the count of each key. */
  datatype Tally = Tally(keys: seq<string>, counts: map<string, nat>) {
    ghost predicate WellFormed() {
      Distinct(keys) && forall k :: k in counts <==> k in keys
    }

    /** `Object.values`: the counts in key order. */
    function Values(): seq<nat>
      requires WellFormed()
    {
      seq(|keys|, i requires 0 <= i < |keys| => counts[keys[i]])
    }
  }

  /** `t` is the counter the loop builds for the column over `rows`: one key
      per distinct truthy value, in the order the values first appear, and
      each key's count is the number of rows holding it. */
  ghost predicate IsTallyOf(t: Tally, rows: seq<Row>, col: Column) {
    && t.keys == DistinctFirstSeen(PresentValues(rows, col))
    && (forall k :: k in t.counts <==> k in t.keys)
    && (forall k :: k in t.counts ==> t.counts[k] == CountRows(rows, col, k))
  }

  /** One step of the loop for one column:
      `if (v) { data[v] = (data[v] || 0) + 1; }`. Counting the cell of
      `row` turns the counter of `seen` into that of `seen + [row]`. */
  method CountCell(t: Tally, ghost seen: seq<Row>, row: Row, col: Column) returns (t': Tally)
    requires IsTallyOf(t, seen, col)
    ensures IsTallyOf(t', seen + [row], col)
  {
    var cell := Field(row, col);
    if Truthy(cell) {
      var v := cell.value;
      var previous := if v in t.counts then t.counts[v] else 0;
      var keys := if v in t.counts then t.keys else t.keys + [v];
      t' := Tally(keys, t.counts[v := previous + 1]);
      TallyStepKeys(t, seen, row, col, v, t');
      TallyStepCounts(t, seen, row, col, v, t');
    } else {
      t' := t;
      TallySkip(t, seen, row, col);
    }
  }

  /** The keys after counting a truthy cell `v`. */
  lemma TallyStepKeys(t: Tally, seen: seq<Row>, row: Row, col: Column, v: string, t': Tally)
    requires IsTallyOf(t, seen, col)
    requires Field(row, col) == Some(v) && v != ""
    requires t'.keys == if v in t.counts then t.keys else t.keys + [v]
    requires t'.counts == t.counts[v := (if v in t.counts then t.counts[v] else 0) + 1]
    ensures t'.keys == DistinctFirstSeen(PresentValues(seen + [row], col))
    ensures forall k :: k in t'.counts <==> k in t'.keys
  {
    StepCounts(seen, row, col);
    var pv := PresentValues(seen, col);
    DistinctFirstSeenAppend(pv, v);
    assert v in t.keys <==> v in pv;
  }

  /** The counts after counting a truthy cell `v`. */
  lemma TallyStepCounts(t: Tally, seen: seq<Row>, row: Row, col: Column, v: string, t': Tally)
    requires IsTallyOf(t, seen, col)
    requires Field(row, col) == Some(v) && v != ""
    requires t'.counts == t.counts[v := (if v in t.counts then t.counts[v] else 0) + 1]
    ensures forall k :: k in t'.counts ==> t'.counts[k] == CountRows(seen + [row], col, k)
  {
    StepCounts(seen, row, col);
    if v !in t.counts {
      PresentValuesCounted(seen, col);
      assert v !in PresentValues(seen, col);
      assert CountRows(seen, col, v) == 0;
    }
  }

  /** A falsy cell leaves the counter as it is. */
  lemma TallySkip(t: Tally, seen: seq<Row>, row: Row, col: Column)
    requires IsTallyOf(t, seen, col)
    requires !Truthy(Field(row, col))
    ensures IsTallyOf(t, seen + [row], col)
  {
    StepCounts(seen, row, col);
    assert PresentValues(seen + [row], col) == PresentValues(seen, col);
    PresentValuesCounted(seen, col);
    forall k | k in t.counts
      ensures k != ""
    {
      assert k in PresentValues(seen, col);
    }
  }

  /** How appending a row changes the per-column counts. */
  lemma StepCounts(seen: seq<Row>, row: Row, col: Column)
    ensures PresentValues(seen + [row], col) ==
            PresentValues(seen, col) + (if Truthy(Field(row, col)) then [Field(row, col).value] else [])
    ensures forall k ::
              CountRows(seen + [row], col, k) ==
              CountRows(seen, col, k) + (if Field(row, col) == Some(k) then 1 else 0)
  {
    assert Init(seen + [row]) == seen && Last(seen + [row]) == row;
  }

  /** What one pass of the loop produces: `scenarioData`, `responseData`
      and `callLengthData`. */
  datatype View = View(scenarioData: Tally, responseData: Tally, callLengthData: seq<real>)

  ghost predicate IsViewOf(view: View, rows: seq<Row>, parse: NumberParser) {
    && IsTallyOf(view.scenarioData, rows, PhishingScenario)
    && IsTallyOf(view.responseData, rows, ResponseDescription)
    && view.callLengthData == ParsedLengths(rows, parse)
  }

  /** The `forEach` callback: count both cells of `row` and keep its length
      if it parses. The view of `seen` becomes the view of `seen + [row]`. */
  method CountRow(view: View, ghost seen: seq<Row>, row: Row, parse: NumberParser) returns (view': View)
    requires IsViewOf(view, seen, parse)
    ensures IsViewOf(view', seen + [row], parse)
  {
    var scenarioData := CountCell(view.scenarioData, seen, row, PhishingScenario);
    var responseData := CountCell(view.responseData, seen, row, ResponseDescription);
    var callLengthData := view.callLengthData;
    var callLength := ParseLength(row, parse);
    if callLength.Some? {
      callLengthData := callLengthData + [callLength.value];
    }
    assert Init(seen + [row]) == seen && Last(seen + [row]) == row;
    view' := View(scenarioData, responseData, callLengthData);
  }

  /** The `forEach` over the rows, starting from three empty collections. */
  method Aggregate(rows: seq<Row>, parse: NumberParser) returns (view: View)
    ensures IsViewOf(view, rows, parse)
  {
    view := View(Tally([], map[]), Tally([], map[]), []);
    EmptyView(rows, parse);
    var i := 0;
    while i < |rows|
      invariant 0 <= i <= |rows|
      invariant IsViewOf(view, rows[..i], parse)
    {
      view := CountRow(view, rows[..i], rows[i], parse);
      ViewOfNext(view, rows, i, parse);
      i := i + 1;
    }
    ViewOfAll(view, rows, parse);
  }

  /** Three empty collections are the view of no rows. */
  lemma EmptyView(rows: seq<Row>, parse: NumberParser)
    ensures IsViewOf(View(Tally([], map[]), Tally([], map[]), []), rows[..0], parse)
  {
    assert rows[..0] == [];
  }

  lemma ViewOfNext(view: View, rows: seq<Row>, i: nat, parse: NumberParser)
    requires i < |rows|
    requires IsViewOf(view, rows[..i] + [rows[i]], parse)
    ensures IsViewOf(view, rows[..i + 1], parse)
  {
    assert rows[..i + 1] == rows[..i] + [rows[i]];
  }

  lemma ViewOfAll(view: View, rows: seq<Row>, parse: NumberParser)
    requires IsViewOf(view, rows[..|rows|], parse)
    ensures IsViewOf(view, rows, parse)
  {
    assert rows[..|rows|] == rows;
  }

  // ---------------------------------------------------------------------
  // What the counters mean

  /** The counts of the keys `ks` over `rows`, in the order of `ks`. */
  function KeyCounts(rows: seq<Row>, col: Column, ks: seq<string>): (r: seq<nat>)
    ensures |r| == |ks|
    ensures forall i :: 0 <= i < |ks| ==> r[i] == CountRows(rows, col, ks[i])
  {
    if ks == [] then [] else KeyCounts(rows, col, Init(ks)) + [CountRows(rows, col, Last(ks))]
  }

  /** The number of rows whose truthy cell is one of `ks`. */
  function Covered(rows: seq<Row>, col: Column, ks: seq<string>): nat {
    if rows == [] then 0
    else
      var cell := Field(Last(rows), col);
      Covered(Init(rows), col, ks) + (if Truthy(cell) && cell.value in ks then 1 else 0)
  }

  lemma {:induction false} CoveredSplit(rows: seq<Row>, col: Column, ks: seq<string>, k: string)
    requires k != "" && k !in ks
    ensures Covered(rows, col, ks + [k]) == Covered(rows, col, ks) + CountRows(rows, col, k)
  {
    if rows != [] {
      CoveredSplit(Init(rows), col, ks, k);
    }
  }

  lemma {:induction false} SumKeyCounts(rows: seq<Row>, col: Column, ks: seq<string>)
    requires Distinct(ks) && "" !in ks
    ensures Sum(KeyCounts(rows, col, ks)) == Covered(rows, col, ks)
  {
    if ks == [] {
      CoveredNone(rows, col);
    } else {
      var init, k := Init(ks), Last(ks);
      DistinctInit(ks);
      assert ks == init + [k];
      SumKeyCounts(rows, col, init);
      KeyCountsSnoc(rows, col, ks);
      CoveredSplit(rows, col, init, k);
    }
  }

  lemma KeyCountsSnoc(rows: seq<Row>, col: Column, ks: seq<string>)
    requires ks != []
    ensures Sum(KeyCounts(rows, col, ks)) == Sum(KeyCounts(rows, col, Init(ks))) + CountRows(rows, col, Last(ks))
  {
    var counts := KeyCounts(rows, col, ks);
    assert Init(counts) == KeyCounts(rows, col, Init(ks));
  }

  lemma {:induction false} CoveredNone(rows: seq<Row>, col: Column)
    ensures Covered(rows, col, []) == 0
  {
    if rows != [] {
      CoveredNone(Init(rows), col);
    }
  }

  lemma {:induction false} CoveredAll(rows: seq<Row>, col: Column, ks: seq<string>)
    requires forall v :: v in PresentValues(rows, col) ==> v in ks
    ensures Covered(rows, col, ks) == |PresentValues(rows, col)|
  {
    if rows != [] {
      CoveredAll(Init(rows), col, ks);
    }
  }

  /** What the counter of a column says about the rows: its keys are
      distinct and are exactly the truthy values of the column, every count
      is the number of rows holding its key and is at least one, `keys` and
      `values` are aligned, and the counts add up to the number of rows with
      a truthy value. */
  lemma TallyMeaning(t: Tally, rows: seq<Row>, col: Column)
    requires IsTallyOf(t, rows, col)
    ensures t.WellFormed()
    ensures forall v :: v in t.keys <==> v != "" && Occurs(rows, col, v)
    ensures forall k :: k in t.counts ==> t.counts[k] >= 1
    ensures |t.Values()| == |t.keys|
    ensures forall i :: 0 <= i < |t.keys| ==> t.Values()[i] == CountRows(rows, col, t.keys[i]) >= 1
    ensures Sum(t.Values()) == |PresentValues(rows, col)|
  {
    TallyKeys(t, rows, col);
    TallyPositive(t, rows, col);
    assert t.Values() == KeyCounts(rows, col, t.keys);
    SumKeyCounts(rows, col, t.keys);
    CoveredAll(rows, col, t.keys);
  }

  /** A counter holds the non-empty values that occur, each at least once. */
  lemma TallyPositive(t: Tally, rows: seq<Row>, col: Column)
    requires IsTallyOf(t, rows, col)
    ensures forall v :: v in t.keys <==> v != "" && Occurs(rows, col, v)
    ensures forall k :: k in t.counts ==> t.counts[k] >= 1
  {
    TallyKeys(t, rows, col);
    PresentValuesCounted(rows, col);
    PresentValuesOccur(rows, col);
  }

  /** The keys of a counter are its column's truthy values. */
  lemma TallyKeys(t: Tally, rows: seq<Row>, col: Column)
    requires IsTallyOf(t, rows, col)
    ensures Distinct(t.keys)
    ensures forall v :: v in t.keys <==> v in PresentValues(rows, col)
  {
    var pv := PresentValues(rows, col);
    forall v ensures v in t.keys <==> v in pv {
      if v in t.keys {
        var i :| 0 <= i < |t.keys| && t.keys[i] == v;
      }
      if v in pv {
        var i :| 0 <= i < |pv| && pv[i] == v;
      }
    }
  }

  /** The counter is determined by the rows. */
  lemma TallyUnique(t1: Tally, t2: Tally, rows: seq<Row>, col: Column)
    requires IsTallyOf(t1, rows, col) && IsTallyOf(t2, rows, col)
    ensures t1 == t2
  {
    assert t1.counts.Keys == t2.counts.Keys;
  }

  // ---------------------------------------------------------------------
  // The page state set from one pass (`setScenarios(Object.keys(...))`,
  // `setScenarioCounts(Object.values(...))`, `setResponseCounts`,
  // `setCallLengths`)

  datatype ChartData = ChartData(
    scenarios: seq<string>,
    scenarioCounts: seq<nat>,
    responseCounts: Tally,
    callLengths: seq<real>)

  function Publish(view: View): ChartData
    requires view.scenarioData.WellFormed()
  {
    ChartData(view.scenarioData.keys, view.scenarioData.Values(), view.responseData, view.callLengthData)
  }

  /** `state` is what a page shows for `rows`: the scenario names with their
      counts, index-aligned; the response counter; the parsed lengths. */
  ghost predicate Describes(state: ChartData, rows: seq<Row>, parse: NumberParser) {
    && state.scenarios == DistinctFirstSeen(PresentValues(rows, PhishingScenario))
    && state.scenarioCounts == KeyCounts(rows, PhishingScenario, state.scenarios)
    && IsTallyOf(state.responseCounts, rows, ResponseDescription)
    && state.callLengths == ParsedLengths(rows, parse)
  }

  lemma PublishDescribes(view: View, rows: seq<Row>, parse: NumberParser)
    requires IsViewOf(view, rows, parse)
    ensures view.scenarioData.WellFormed()
    ensures Describes(Publish(view), rows, parse)
  {
    TallyMeaning(view.scenarioData, rows, PhishingScenario);
    assert view.scenarioData.Values() == KeyCounts(rows, PhishingScenario, view.scenarioData.keys);
  }

  /** What the state of a page says about its rows. */
  lemma DescribesMeaning(state: ChartData, rows: seq<Row>, parse: NumberParser)
    requires Describes(state, rows, parse)
    ensures Distinct(state.scenarios)
    ensures forall v :: v in state.scenarios <==> v != "" && Occurs(rows, PhishingScenario, v)
    ensures |state.scenarioCounts| == |state.scenarios|
    ensures forall i :: 0 <= i < |state.scenarios| ==>
              state.scenarioCounts[i] == CountRows(rows, PhishingScenario, state.scenarios[i]) >= 1
    ensures Sum(state.scenarioCounts) == |PresentValues(rows, PhishingScenario)|
    ensures state.responseCounts.WellFormed()
    ensures Sum(state.responseCounts.Values()) == |PresentValues(rows, ResponseDescription)|
    ensures |state.callLengths| <= |rows|
  {
    ScenarioSeries(state.scenarios, state.scenarioCounts, rows);
    TallyMeaning(state.responseCounts, rows, ResponseDescription);
  }

  /** The two scenario series of a state: the keys and values of the
      scenario counter, with everything `TallyMeaning` says of them. */
  lemma ScenarioSeries(scenarios: seq<string>, scenarioCounts: seq<nat>, rows: seq<Row>)
    requires scenarios == DistinctFirstSeen(PresentValues(rows, PhishingScenario))
    requires scenarioCounts == KeyCounts(rows, PhishingScenario, scenarios)
    ensures Distinct(scenarios)
    ensures forall v :: v in scenarios <==> v != "" && Occurs(rows, PhishingScenario, v)
    ensures |scenarioCounts| == |scenarios|
    ensures forall i :: 0 <= i < |scenarios| ==>
              scenarioCounts[i] == CountRows(rows, PhishingScenario, scenarios[i]) >= 1
    ensures Sum(scenarioCounts) == |PresentValues(rows, PhishingScenario)|
  {
    var t := ScenarioCounter(scenarios, scenarioCounts, rows);
    TallyMeaning(t, rows, PhishingScenario);
  }

  /** The scenario counter that the two series are the keys and values of. */
  lemma ScenarioCounter(scenarios: seq<string>, scenarioCounts: seq<nat>, rows: seq<Row>) returns (t: Tally)
    requires scenarios == DistinctFirstSeen(PresentValues(rows, PhishingScenario))
    requires scenarioCounts == KeyCounts(rows, PhishingScenario, scenarios)
    ensures IsTallyOf(t, rows, PhishingScenario)
    ensures t.keys == scenarios && t.WellFormed() && t.Values() == scenarioCounts
  {
    t := Tally(scenarios, map k | k in scenarios :: CountRows(rows, PhishingScenario, k));
    assert t.Values() == scenarioCounts;
  }

  /** The state of a page is determined by its rows. */
  lemma DescribesUnique(s1: ChartData, s2: ChartData, rows: seq<Row>, parse: NumberParser)
    requires Describes(s1, rows, parse) && Describes(s2, rows, parse)
    ensures s1 == s2
  {
    TallyUnique(s1.responseCounts, s2.responseCounts, rows, ResponseDescription);
  }
}
