# Synthetic-call charts: filter, count, bucket

This project models the data pipeline of the two chart pages of the
phishing-awareness demo site. Both pages load a CSV of synthetic calls. Each
row has a `Name`, a `Phishing Scenario`, a `Call Length (s)` and a
`Response Description`. From the rows the pages build:

- a counter per scenario;
- a counter per response;
- the list of call lengths that parse as numbers.

They then draw bar, pie, line and histogram charts from these.

- `app/data/page.tsx` filters the rows first. The filters are a scenario
  substring and a name substring, both case-insensitive. It then counts the
  filtered rows and draws the one chart picked by a button. For the call
  lengths it draws a six-range histogram.
- `app/analysis/page.tsx` counts all rows and draws four charts.

The model takes the parsed rows as input. A cell a row lacks is `None`.

Files and modules:

- `rows.dfy` (`Rows`): the row record, the four columns and per-column
  counts. JavaScript truthiness of a cell means "defined and not `""`".
- `text.dfy` (`Text`): `toLowerCase` on ASCII letters, `includes`, and
  `String(n)` for counts.
- `sequences.dfy` (`Sequences`): generic helpers. These are first-seen
  de-duplication, subsequences and sums.
- `aggregation.dfy` (`Aggregation`): the `forEach` loop the two pages share.
  It is written as the method `Aggregate` with loop invariants. A JavaScript
  object used as a counter is the datatype `Tally`: the keys in insertion
  order, plus a map from key to count. The method is proved against a
  declarative specification, `IsTallyOf`. It says that the keys are the
  distinct truthy values in first-seen order, and that each count is the
  number of rows holding its key. `ChartData` holds the four state variables
  the pages set after the loop.
- `charts.dfy` (`Charts`): the Plotly traces as aligned label/value series,
  and the six half-open call-length ranges. `None` as upper bound stands for
  `Infinity`.
- `data_page.dfy` (`DataPage`): the filters, the initial dropdown list, the
  recompute effect and the chart switch.
- `analysis_page.dfy` (`AnalysisPage`): the load callback, the four charts,
  agreement with the unfiltered data page, and a two-row worked example.

Inputs that are not code here:

- `parseFloat` is a parameter, `parse: string -> Option<real>`. `None`
  stands for `NaN`. A missing cell always gives `None`, as
  `parseFloat(undefined)` is `NaN`.
- Lower-casing is ASCII only.
- The key order of a counter is its first-seen order.

Facts about the code that the model keeps:

- A negative length lies in no histogram range, so the histogram counts add
  up to the number of non-negative lengths, not to all parsed lengths
  (`Charts.HistogramTotal`).
- The initial dropdown list (`new Set` over the scenario column) keeps
  missing and empty cells as entries (`DataPage.UniqueScenarios`).
- No chart sorts its categories. They appear in first-seen order.
- Both filters are substring filters. The empty string matches every row,
  including rows that lack the column.

## Model

| member | source | states |
|---|---|---|
| `DataPage.Matches` | app/data/page.tsx:48-49 | One filter test: the cell is present and its lower-cased text includes the lower-cased filter, or the filter is `""`. Its meaning is proved in `DataPage.MatchesMeaning`. |
| `DataPage.Keep` | app/data/page.tsx:47-51 | The callback given to `data.filter`: both the scenario and the name tests hold. |
| `DataPage.FilterRows` | app/data/page.tsx:47-51 | `filteredData`. It has no more rows than `data`, and every row it holds passes both filters. |
| `DataPage.UniqueScenarios` | app/data/page.tsx:33-35 | The initial dropdown list, `[...new Set(...)]` over the scenario column. It has no duplicates and no more entries than rows. |
| `DataPage.MatchesMeaning` | app/data/page.tsx:48-50 | A filter holds exactly when it is `""` or the lower-cased filter occurs at some position of the lower-cased cell. A missing cell fails every non-empty filter. Lower-casing the cell or the filter first changes nothing (case-insensitivity). |
| `DataPage.FilterIsSubsequence` | app/data/page.tsx:47-51 | `filteredData` is an order-preserving subsequence of `data`. |
| `DataPage.FilterSelects` | app/data/page.tsx:47-51 | Every row value occurs in `filteredData` as often as in `data` if it passes both filters, and not at all otherwise. |
| `DataPage.FilterAllWhenEmpty` | app/data/page.tsx:47-51 | With both filters `""`, `filteredData` equals `data`, rows lacking the columns included. |
| `DataPage.FilterBoundsCounts` | app/data/page.tsx:47-74 | Filtering never increases a value's count or the number of truthy cells of a column. The parsed lengths of the filtered rows are no more than those of all rows, and no more than the filtered rows. |
| `DataPage.UniqueScenariosMeaning` | app/data/page.tsx:33-35 | The initial dropdown list has no duplicates. It holds every row's scenario cell (missing ones included) and nothing else, in first-seen order. |
| `DataPage.RecomputeCounts` | app/data/page.tsx:54-80 | The effect's state describes `FilterRows(data, scenarioFilter, nameFilter)`. It is always recomputed from the full `data`. |
| `DataPage.FilteredTotalsBounded` | app/data/page.tsx:47-80 | The scenario and response counts of a filtered page sum to at most those of the unfiltered page. With both filters empty the two states are identical. |
| `DataPage.RenderChart` | app/data/page.tsx:89-173 | A trace is produced exactly for the four button names; any other name gives `null`. "Scenario Frequency" gives the scenario bars, "Call Length Distribution" the histogram, "Response Type Distribution" the pie and "Top Responses" the horizontal bars. |
| `Aggregation.ParseLength` | app/data/page.tsx:70 | `parseFloat` on the call-length cell; a missing cell gives `NaN` (`None`). |
| `Aggregation.Publish` | app/data/page.tsx:76-79 | The four state setters after the loop: the scenario keys, the scenario counts in key order, the response counter and the lengths. Its meaning is proved in `Aggregation.PublishDescribes`. |
| `Aggregation.Aggregate` | app/data/page.tsx:55-74 | The loop's result: both counters satisfy `IsTallyOf` for their column, and `callLengthData == ParsedLengths(rows, parse)`. |
| `Aggregation.CountRow` | app/data/page.tsx:59-74 | One call of the `forEach` callback turns the counters and lengths of the rows seen so far into those of the rows seen plus this row. |
| `Aggregation.CountCell` | app/data/page.tsx:60-68 | `data[v] = (data[v] \|\| 0) + 1` for a truthy cell `v`, and nothing for a falsy one. This turns the counter of the rows seen so far into the counter of those rows plus one more. |
| `Aggregation.ParsedLengths` | app/data/page.tsx:70-73 | The parsed lengths are never more than the rows. |
| `Aggregation.ParsedLengthsAppend` | app/data/page.tsx:57-73 | The lengths of `a + b` are the lengths of `a` followed by those of `b`: row order is kept and unparseable rows are dropped. |
| `Aggregation.TallyMeaning` | app/data/page.tsx:59-68 | A counter's keys are distinct and are exactly the non-empty values of the column. Each count equals the number of rows with its key and is at least 1. Keys and values are index-aligned. The counts sum to the number of rows with a truthy cell. |
| `Aggregation.TallyUnique` | app/analysis/page.tsx:37-48 | The counter is determined by the rows. |
| `Aggregation.PublishDescribes` | app/data/page.tsx:76-79 | `scenarios` and `scenarioCounts` are the keys and values of the same counter. Together with the response counter and the lengths, they describe the rows. |
| `Aggregation.DescribesMeaning` | app/analysis/page.tsx:37-60 | In a page state, `scenarios` has no duplicates and lists exactly the non-empty scenario values. `scenarioCounts` is aligned with it, each entry counts its scenario's rows and is at least 1, and the entries sum to the rows with a scenario. The response counts sum to the rows with a response. There are no more lengths than rows. |
| `Aggregation.DescribesUnique` | app/analysis/page.tsx:57-60 | The page state is determined by the rows. |
| `Charts.ScenarioFrequency` | app/data/page.tsx:94-99 | The scenario bars: `x` is `scenarios`, `y` is `scenarioCounts`. |
| `Charts.ResponseTypeDistribution` | app/data/page.tsx:141-147 | The pie: `Object.keys` and `Object.values` of the response counter. |
| `Charts.TopResponses` | app/data/page.tsx:154-162 | The horizontal bars: counts on `x`, keys on `y`, and `String` of each count as its text. |
| `Charts.CallLengthsOverTime` | app/analysis/page.tsx:105-113 | The line chart: the lengths as `y`, in row order. |
| `Charts.InRange` | app/data/page.tsx:119 | `length >= range[0] && length < range[1]`, with `None` as `Infinity`. |
| `Charts.CountInRange` | app/data/page.tsx:119 | The number of lengths in one range; at most the number of lengths. |
| `Charts.Distribution` | app/data/page.tsx:118-120 | One count per range, six in all, each at most the number of lengths. |
| `Charts.CallLengthDistribution` | app/data/page.tsx:122-129 | The histogram bar: the six range labels on `x`, the six counts on `y`. |
| `Charts.CategoryCharts` | app/data/page.tsx:94-145 | The scenario bars and the response pie are aligned label/value series. Each value is the number of rows with its label, and the values sum to the rows with a truthy cell. |
| `Charts.BarTexts` | app/data/page.tsx:154-160 | The horizontal bars show the pie's pairs: bar names are the response keys, bar lengths their counts. Each bar's `text` is `String` of its length and reads back as that length. |
| `Charts.RangesPartition` | app/data/page.tsx:109-119 | The six ranges are half-open and disjoint. A length lies in range `i` exactly when the arithmetic bucket index is `i`. A length lies in some range exactly when it is non-negative. |
| `Charts.BoundaryLengths` | app/data/page.tsx:110-115 | 50 lies in "50-100s" and not in "0-50s". 250 lies in "250+s" and not in "200-250s". |
| `Charts.HistogramTotal` | app/data/page.tsx:109-127 | The histogram has six counts aligned with the six labels, in order. The counts sum to the number of non-negative lengths. |
| `Text.Lower` | app/data/page.tsx:48-49 | `toLowerCase` on ASCII: the same length, each character lower-cased. |
| `Text.Includes` | app/data/page.tsx:48-49 | `includes`. It can only hold when the substring is no longer than the string; its meaning is proved in `Text.IncludesIff`. |
| `Text.IncludesIff` | app/data/page.tsx:48-49 | `includes` holds exactly when the substring occurs at some position. The empty string is included in every string. |
| `Text.NatToString` | app/data/page.tsx:160 | `String(n)` of a count is a non-empty string of decimal digits with no leading zero. |
| `Text.NatToStringRoundTrip` | app/analysis/page.tsx:153 | Reading back `String(n)` gives `n`. |
| `Sequences.FirstSeenOrder` | app/data/page.tsx:33-35 | First-seen de-duplication (the spread of a `Set`) lists values in the order of their first occurrence. |
| `AnalysisPage.LoadResults` | app/analysis/page.tsx:30-61 | The load callback's state describes all parsed rows: scenario counts, response counts and lengths, as `DescribesMeaning` spells out. |
| `AnalysisPage.Traces` | app/analysis/page.tsx:82-155 | The page draws four traces: bar, line, pie and horizontal bar. |
| `AnalysisPage.TracesShowRows` | app/analysis/page.tsx:82-155 | The line chart plots the parsed lengths in row order. The scenario bars and response pie are aligned series of row counts. The horizontal bar's y and x are the pie's labels and values. |
| `AnalysisPage.SameAsUnfilteredDataPage` | app/analysis/page.tsx:37-60 | This page's state equals the data page's state with both filters empty. |
| `AnalysisPage.TwoRowExample` | app/analysis/page.tsx:37-55 | Two "Tech Support" rows with responses "Hung up" and "Gave info", and lengths "42" and "abc", give scenarios `["Tech Support"]` with count `[2]`, one count per response, and lengths `[42]`. |

## Left out

- React machinery is not modelled: hooks, effect scheduling and re-rendering. The data page's effect depends on `filteredData`, a fresh array on every render, so it re-runs after every render. The model gives each effect's result as a function of its inputs, not the render cycle.
- The order of states is not modelled. The dropdown list first holds `UniqueScenarios(data)`. Each recompute then replaces it with the keys of the filtered scenario counter, `RecomputeCounts(...).scenarios`. The model gives both values but not when each is shown.
- The `loading` flag and the "Loading CSV data..." placeholder are not modelled; they are presentation only.
- Data loading is not modelled: `fetch`, `Papa.parse`, `header: true`, `skipEmptyLines` and the error `catch`. The parsed rows are an input. The parser is a third-party library.
- `parseFloat` is a parameter of the model: its exact float semantics belong to the JavaScript runtime. Lengths are reals, so `Infinity` and `-Infinity` are not modelled.
- Charts.HistogramTotal: a cell `"Infinity"` parses to `Infinity`, which is non-negative but lies in no range, because `Infinity < Infinity` is false. The program then counts fewer lengths than `Charts.HistogramTotal` states. The model has no infinite length and puts every real of 250 or more in "250+s".
- Non-ASCII case folding of `toLowerCase` is left out. It depends on Unicode tables outside the code.
- Counts are unbounded naturals. JavaScript numbers count exactly up to 2^53, far above any row count.
- `Text.NatToString`: does not model the exponent notation `String` uses at 10^21 and above, because no count reaches that size.
- Key order is not fully modelled. JavaScript's `Object.keys` lists integer-like keys (such as `"7"`) first, in ascending order, and only then the other keys in insertion order. `Aggregation.IsTallyOf`, `Aggregation.Describes`, and through them `Aggregation.Aggregate`, `DataPage.RecomputeCounts`, `AnalysisPage.LoadResults` and `AnalysisPage.TwoRowExample`, fix the keys to first-seen order. So their contracts hold for the program only when no scenario or response value is integer-like.
- Aggregation.CountCell: the counter is modelled as a dictionary with no prototype. In the program, `(data[v] || 0)` on an object literal also reads members inherited from `Object.prototype`. A cell of `"constructor"` or `"toString"` therefore stores a function's text followed by `1` as its "count". An assignment to `"__proto__"` is ignored, so that key never appears. Cells that name `Object.prototype` members are outside the model, and `Aggregation.TallyMeaning` and the sum lemmas do not hold for them.
- Plotly layout, colours, titles, `textinfo` percentages and margins are left out: they are presentation only.
- app/api/route.ts, components/Analysis.tsx, app/page.tsx, syntheticData.py, app/Alon post-processing/Post-Processing.py, the presentational components and next.config.js are not part of this model. They are I/O wrappers, third-party calls, data generation or presentation.
