# Social-media analytics dashboard: CSV parser and dashboard derivations

This project models the two pieces of logic in the analytics dashboard that
are not rendering:

- **The `fetch-analytics` backend function.** It downloads a CSV export of a
  spreadsheet and turns it into a list of row objects:
  - it splits the text on line breaks and drops blank lines;
  - it takes the first remaining line as the header;
  - it writes one row per later line, field by field, coercing each header by a
    fixed allow-list.

  It answers 200 with `{data}`, or 500 with `{error}` when the download or the
  parse fails.
- **The dashboard page.** It does the following:
  - sums the follower and impression KPIs over all rows;
  - filters the rows by a platform selector and a case-insensitive search;
  - derives the chart series from the filtered rows: one point per row for
    growth, and per distinct platform summed reach, summed posts and the rows
    behind the mean engagement;
  - replaces its rows wholesale on each successful fetch, and raises one toast
    on a failed one.

The Dafny modules follow that structure:

- `Wrappers`: `Option` and `Result`.
- `Text`: the JavaScript string operations the code relies on:
  - `split` on one character, as `Split`; `Join` is its inverse;
  - `trim` over the exact ECMAScript white-space and line-terminator set;
  - ASCII `toLowerCase`;
  - `includes`;
  - `replace` of a first occurrence.
- `JsNumber`: `parseInt(v) || 0`:
  - leading white space, an optional sign, an optional `0x`/`0X` hex prefix, then the longest digit prefix;
  - NaN and `-0` become 0;
  - `ShowInt` is the decimal rendering of an integer.
- `Seqs`: subsequences, duplicate-freedom and first positions.
- `FetchAnalytics`: the parser and the handler:
  - a row is `map<string, Cell>` with `Cell = IntC | StrC | PctC`;
  - `BuildRow` is the `headers.forEach` loop, proved equal to the fold `RowOf`;
  - `ParseCsv` is the parse;
  - `Handle` gives the response for an upstream outcome.
- `Dashboard`: the page:
  - the KPI sums, the filter and the chart series as functions;
  - the page state as the class `DashboardPage`, whose `FetchData` takes the outcome of the invocation.
- `Scenarios`: a three-line sample export, `SampleCsv`, with the header
  `Date,Platform,Followers,Engagement (%)`, an Instagram row with 1000
  followers and a LinkedIn row with follower text `abc`. The model derives it end to end:
  it parses it, serves it, filters it and totals it.

Two points where the model follows the code rather than how the page reads:
- **The follower total.** Next to the filtered charts it reads as a total of the filtered rows. The
  code sums all rows (`Dashboard.tsx:71`). On the sample export both are 1000
  (`Scenarios.SampleDashboard`).
- **Percentage cells.** They are kept as their trimmed text (`PctC`). The
  floating-point value of `parseFloat` is not modelled.

## Model

| member | source | states |
|---|---|---|
| Text.TrimSlice | supabase/functions/fetch-analytics/index.ts:27-31 | `trim` removes exactly a white prefix and a white suffix and leaves a slice with non-white ends |
| Text.TrimEmptyIff | supabase/functions/fetch-analytics/index.ts:27 | a line trims to empty iff it is all white space (the blank-line test) |
| Text.TrimKeeps | supabase/functions/fetch-analytics/index.ts:31 | a text with non-white ends is left unchanged by `trim` |
| Text.Split | supabase/functions/fetch-analytics/index.ts:27 | `split` yields at least one piece and no piece holds the separator |
| Text.JoinSplit | supabase/functions/fetch-analytics/index.ts:27 | joining the pieces of a split with the separator gives back the text |
| Text.SplitJoin | supabase/functions/fetch-analytics/index.ts:28 | splitting a join of separator-free pieces gives back the pieces |
| Text.SplitNoSep | supabase/functions/fetch-analytics/index.ts:31 | a text without the separator splits into itself alone |
| Text.SplitPrefix | supabase/functions/fetch-analytics/index.ts:31 | a separator-free head, a separator and a tail split into the head followed by the tail's pieces |
| Text.JoinAppend | supabase/functions/fetch-analytics/index.ts:27 | joining two lists puts one separator between their joins |
| Text.SplitAppend | supabase/functions/fetch-analytics/index.ts:27 | splitting at one more separator splits the two sides separately |
| Text.ContainsTrivial | src/pages/Dashboard.tsx:79 | every text includes the empty text and itself |
| Text.ReplaceFirstSkip | supabase/functions/fetch-analytics/index.ts:41 | `replace` skips a prefix that cannot start the pattern |
| JsNumber.DigitValue | supabase/functions/fetch-analytics/index.ts:39 | a character's digit value is below 10 exactly for decimal digits |
| JsNumber.DigitPrefixLength | supabase/functions/fetch-analytics/index.ts:39 | `parseInt` consumes the longest prefix of digits of the radix |
| JsNumber.ParseIntShowInt | supabase/functions/fetch-analytics/index.ts:39 | `parseInt` of an integer's decimal text, followed by anything that is not a digit or `x`, is that integer |
| JsNumber.ParseIntOr0ShowInt | src/pages/Dashboard.tsx:71 | `parseInt(String(n)) \|\| 0` is `n` for every integer `n` |
| JsNumber.ParseIntNoNumber | supabase/functions/fetch-analytics/index.ts:39 | a text that does not start, after white space, with a sign or digit parses to NaN and so coerces to 0 |
| JsNumber.ParseIntNoNumberExamples | supabase/functions/fetch-analytics/index.ts:39 | `"abc"` and `""` coerce to 0 |
| JsNumber.ParseIntTrailingExample | supabase/functions/fetch-analytics/index.ts:39 | `"12abc"` coerces to 12 (longest digit prefix) |
| JsNumber.ParseIntNegativeExample | supabase/functions/fetch-analytics/index.ts:39 | `"-7"` coerces to -7 |
| JsNumber.ParseIntMinusZeroExample | supabase/functions/fetch-analytics/index.ts:39 | `"-0"` coerces to 0 |
| JsNumber.ParseIntHexExample | supabase/functions/fetch-analytics/index.ts:39 | `"0x1A"` coerces to 26 (hex prefix without a radix) |
| JsNumber.ParseIntBareHexExample | supabase/functions/fetch-analytics/index.ts:39 | `"0x"` with no hex digit coerces to 0 |
| Text.Trim | supabase/functions/fetch-analytics/index.ts:27-31 | `trim`: drops the leading and trailing ECMAScript white space and line terminators; its meaning is stated by `TrimSlice`, `TrimEmptyIff` and `TrimKeeps` |
| Text.Lower | supabase/functions/fetch-analytics/index.ts:39-43 | `toLowerCase` on ASCII letters, one character at a time through `LowerChar` |
| Text.Contains | src/pages/Dashboard.tsx:79 | `includes`: some position starts an occurrence; `ContainsTrivial` gives the empty-search case the filter relies on |
| Text.ReplaceFirst | supabase/functions/fetch-analytics/index.ts:41 | `replace` of the first occurrence only; `PctKeys` and `ReplaceFirstSkip` state its effect on the two percentage headers |
| JsNumber.ParseInt | supabase/functions/fetch-analytics/index.ts:39 | `parseInt` without a radix; `DigitPrefixLength`, `ParseIntShowInt`, `ParseIntNoNumber` and the examples state what it reads |
| JsNumber.ParseIntOr0 | supabase/functions/fetch-analytics/index.ts:39 | `parseInt(v) \|\| 0`: NaN and `-0` give 0; `ParseIntOr0ShowInt` and `ParseIntNoNumber` state its results |
| FetchAnalytics.Key | supabase/functions/fetch-analytics/index.ts:39-43 | the property a header writes: its lower-cased name, with the first ` (%)` removed for a percentage header; `AllowListKeys`, `PctKeys` and `PctOnlyUnderPctKeys` state the keys |
| FetchAnalytics.Coerce | supabase/functions/fetch-analytics/index.ts:38-43 | the cell for one header: integer for the seven integer headers, percentage text for the two percentage headers, the text otherwise; `CaseSensitiveMatching` and `MissingCellDefaults` state its cases |
| FetchAnalytics.CellAt | supabase/functions/fetch-analytics/index.ts:35 | `values[index] \|\| ''`: a missing or empty cell reads as `''`; `MissingCellDefaults` and `RowOfIgnoresExtraCells` state its effect |
| FetchAnalytics.RowOf | supabase/functions/fetch-analytics/index.ts:32-47 | the row built by the header loop; `BuildRow` computes it, and `RowOfKeys`, `RowOfLastWins` and `RowOfIgnoresExtraCells` state its keys and values |
| FetchAnalytics.NonBlank | supabase/functions/fetch-analytics/index.ts:27 | `filter(line => line.trim())`; `NonBlankSpec`, `NonBlankAppend` and `NonBlankOne` state what it keeps |
| FetchAnalytics.Lines | supabase/functions/fetch-analytics/index.ts:27 | the non-blank lines of the text split on `\n`; `LinesAppend` states its growth by one line |
| FetchAnalytics.Cells | supabase/functions/fetch-analytics/index.ts:28-31 | a line split on `,` with each cell trimmed; `Scenarios.CellsOfLine` states it on plain cells |
| FetchAnalytics.RowsOf | supabase/functions/fetch-analytics/index.ts:30-48 | one row per line after the header, in order; `RowsOfSnoc` states its growth |
| FetchAnalytics.ParseCsv | supabase/functions/fetch-analytics/index.ts:27-48 | the whole parse; `ParseCsvFailsIff`, `ParseCsvEmpty`, `ParseCsvAppendLine`, `ParseCsvSkipsLeadingBlank`, `ParseCsvHeaderOnly` and `Scenarios.SampleParse` state it |
| FetchAnalytics.LoweredNames | supabase/functions/fetch-analytics/index.ts:39-43 | the lower-cased names of `Followers`, `Impressions`, `Reach`, `Posts`, `Platform` and `Date` |
| FetchAnalytics.BuildRow | supabase/functions/fetch-analytics/index.ts:32-47 | the `forEach` loop writing one field per header, in header order, builds exactly the fold `RowOf` |
| FetchAnalytics.AssignKeys | supabase/functions/fetch-analytics/index.ts:34-45 | the keys of a row are exactly the keys written |
| FetchAnalytics.AssignLastWins | supabase/functions/fetch-analytics/index.ts:34-45 | the value under a key is the one its last write stored |
| FetchAnalytics.AssignValues | supabase/functions/fetch-analytics/index.ts:34-45 | every value in a row was written under its key |
| FetchAnalytics.WritesSnoc | supabase/functions/fetch-analytics/index.ts:34-45 | one more header updates the row under its key and nothing else |
| FetchAnalytics.RowOfKeys | supabase/functions/fetch-analytics/index.ts:34-45 | a row's keys are exactly the keys of its headers |
| FetchAnalytics.RowOfLastWins | supabase/functions/fetch-analytics/index.ts:34-45 | when two headers map to one key, the later header's coerced cell wins |
| FetchAnalytics.RowOfIgnoresExtraCells | supabase/functions/fetch-analytics/index.ts:34-35 | cells beyond the header count do not change the row |
| FetchAnalytics.MissingCellDefaults | supabase/functions/fetch-analytics/index.ts:35 | a missing trailing cell reads as `''`: 0 for integer columns, empty text otherwise |
| FetchAnalytics.AllowListKeys | supabase/functions/fetch-analytics/index.ts:38-43 | integer headers write under their lower-cased name; `Followers`, `Impressions`, `Reach`, `Posts` give the page's keys |
| FetchAnalytics.PctKeys | supabase/functions/fetch-analytics/index.ts:40-41 | `Engagement (%)` and `Growth (%)` write under `engagement` and `growth` |
| FetchAnalytics.CaseSensitiveMatching | supabase/functions/fetch-analytics/index.ts:38 | header matching is exact: `followers` and `FOLLOWERS` keep the text, `Followers` is parsed |
| FetchAnalytics.PctOnlyUnderPctKeys | supabase/functions/fetch-analytics/index.ts:40-41 | a percentage cell can only sit under `engagement` or `growth` |
| FetchAnalytics.NonBlankSpec | supabase/functions/fetch-analytics/index.ts:27 | the filter keeps exactly the non-blank lines, as a subsequence |
| FetchAnalytics.NonBlankAppend | supabase/functions/fetch-analytics/index.ts:27 | the blank-line filter distributes over concatenation |
| FetchAnalytics.NonBlankOne | supabase/functions/fetch-analytics/index.ts:27 | one line survives the filter iff it is not blank |
| FetchAnalytics.LinesAppend | supabase/functions/fetch-analytics/index.ts:27 | appending a line adds it to the lines iff it is not blank |
| FetchAnalytics.RowsOfSnoc | supabase/functions/fetch-analytics/index.ts:30-48 | one more line after the header gives one more row, at the end |
| FetchAnalytics.ParseCsvFailsIff | supabase/functions/fetch-analytics/index.ts:27-28 | the parse fails exactly when every line of the text is blank |
| FetchAnalytics.ParseCsvEmpty | supabase/functions/fetch-analytics/index.ts:27-28 | the empty text fails to parse |
| FetchAnalytics.ParseCsvAppendLine | supabase/functions/fetch-analytics/index.ts:27-48 | appending a blank line changes nothing; appending any other line adds exactly one row, at the end, under the same header |
| FetchAnalytics.ParseCsvSkipsLeadingBlank | supabase/functions/fetch-analytics/index.ts:27-28 | the header is the first non-blank line: blank lines before it are skipped |
| FetchAnalytics.ParseCsvHeaderOnly | supabase/functions/fetch-analytics/index.ts:28-30 | a single non-blank line is a header with no rows |
| FetchAnalytics.Handle | supabase/functions/fetch-analytics/index.ts:13-64 | the status is 200 or 500, and 200 exactly when the body carries data |
| FetchAnalytics.HandleOutcomes | supabase/functions/fetch-analytics/index.ts:19-20 | 500 iff the download failed, the upstream status was not ok, or there was no non-blank line; a non-ok status gives `Failed to fetch CSV: <statusText>`; 200 carries the parse |
| Seqs.FirstIndex | src/pages/Dashboard.tsx:90 | the first position of a value holds it and no earlier position does |
| Seqs.FirstIndexPrefix | src/pages/Dashboard.tsx:90 | a value in a prefix has its first position inside that prefix |
| Dashboard.ParsedRowsSummable | src/pages/Dashboard.tsx:71-74 | parsed rows hold no percentage cell under any key other than `engagement` and `growth`, so the integer sums apply |
| Dashboard.ParsedRowsHavePlatform | src/pages/Dashboard.tsx:79 | with a `Platform` header every parsed row has a string platform |
| Dashboard.PlatformHeaderKey | supabase/functions/fetch-analytics/index.ts:43 | the `Platform` header writes under `platform` |
| Dashboard.RowHasPlatform | supabase/functions/fetch-analytics/index.ts:42-43 | the last header writing `platform` leaves a string there |
| Dashboard.PlatformKeyIsString | supabase/functions/fetch-analytics/index.ts:38-43 | a header writing `platform` is in neither allow-list |
| Dashboard.IntHeaderKeys | supabase/functions/fetch-analytics/index.ts:38-39 | no integer header writes under `platform` |
| Dashboard.LastIndexOfKey | supabase/functions/fetch-analytics/index.ts:34-45 | each key written has a last writer |
| Dashboard.TotalAppend | src/pages/Dashboard.tsx:71 | a `reduce` sum is additive over concatenation |
| Dashboard.KpiTotals | src/pages/Dashboard.tsx:71-74 | the follower and impression totals sum every row: 0 on no data, and one more row adds its value |
| Dashboard.KeepSpec | src/pages/Dashboard.tsx:77-81 | a row is kept iff the selector is `all` or equals its platform and its lower-cased platform includes the lower-cased search; the result is a subsequence |
| Dashboard.KeepIdentity | src/pages/Dashboard.tsx:77-81 | with `all` and an empty search the filter is the identity |
| Dashboard.SelectedPlatformOnly | src/pages/Dashboard.tsx:78 | a concrete selector keeps only rows of exactly that platform |
| Dashboard.KeepIdempotent | src/pages/Dashboard.tsx:77-81 | filtering the filtered rows again changes nothing |
| Dashboard.GrowthData | src/pages/Dashboard.tsx:84-88 | one point per filtered row, in order, with its date, followers and platform |
| Dashboard.Platforms | src/pages/Dashboard.tsx:90 | the platform of each filtered row, in order |
| Dashboard.DistinctSpec | src/pages/Dashboard.tsx:90 | `Array.from(new Set(xs))` holds exactly the values of `xs`, without duplicates, in first-appearance order |
| Dashboard.OfPlatformSpec | src/pages/Dashboard.tsx:92 | a platform's rows are exactly the filtered rows of that platform |
| Dashboard.Series | src/pages/Dashboard.tsx:97-108 | one series point per listed platform |
| Dashboard.ChartPlatformsSpec | src/pages/Dashboard.tsx:90 | the chart platforms are each platform of the filtered rows once, in first-appearance order, and no other |
| Dashboard.OfChartPlatform | src/pages/Dashboard.tsx:92-94 | a listed platform has at least one row, all of it that platform |
| Dashboard.EngagementDenominators | src/pages/Dashboard.tsx:90-95 | every engagement group is non-empty, so the mean never divides by zero |
| Dashboard.SeriesSumCons | src/pages/Dashboard.tsx:97-108 | a row contributes its value to exactly the one series point of its platform |
| Dashboard.SeriesPartition | src/pages/Dashboard.tsx:97-108 | over duplicate-free platforms covering all rows, the per-platform totals sum to the total |
| Dashboard.SeriesOfNoRows | src/pages/Dashboard.tsx:97-108 | over no rows every series point is 0 |
| Dashboard.ChartPartition | src/pages/Dashboard.tsx:97-108 | the reach slices sum to the filtered rows' total reach, and the posts bars to their total posts |
| Dashboard.NumberOf | src/pages/Dashboard.tsx:71 | `parseInt(item[k]) \|\| 0` of an integer or text cell, 0 for a missing one; `ParsedRowsSummable` shows parsed rows meet its requires |
| Dashboard.Total | src/pages/Dashboard.tsx:71-74 | the `reduce` sum of one field; `TotalAppend` and `KpiTotals` state it |
| Dashboard.TotalFollowers | src/pages/Dashboard.tsx:71 | `totalFollowers` over all rows, 0 on no data; `KpiTotals` states it |
| Dashboard.TotalImpressions | src/pages/Dashboard.tsx:74 | `totalImpressions` over all rows, 0 on no data; `KpiTotals` states it |
| Dashboard.Passes | src/pages/Dashboard.tsx:78-80 | the platform match and the search match of one row; `KeepSpec` and `KeepOne` state it |
| Dashboard.Keep | src/pages/Dashboard.tsx:77-81 | the `filter`; `KeepSpec`, `KeepAppend`, `KeepOne`, `KeepIdentity`, `SelectedPlatformOnly` and `KeepIdempotent` state what it keeps and in what multiplicity |
| Dashboard.FilteredData | src/pages/Dashboard.tsx:77-81 | `filteredData`, `None` when a row has no string platform; `Scenarios.SampleDashboard` states it on the sample |
| Dashboard.Distinct | src/pages/Dashboard.tsx:90 | `Array.from(new Set(xs))`; `DistinctSpec` states it |
| Dashboard.ChartPlatforms | src/pages/Dashboard.tsx:90 | the distinct platforms of the filtered rows; `ChartPlatformsSpec` states it |
| Dashboard.OfPlatform | src/pages/Dashboard.tsx:92 | `filter(d => d.platform === platform)`; `OfPlatformSpec`, `OfPlatformAppend` and `OfPlatformOne` state it |
| Dashboard.ReachData | src/pages/Dashboard.tsx:97-102 | `reachData`: reach summed per chart platform; `SeriesAt` and `ChartPartition` state its points and its sum |
| Dashboard.PostsData | src/pages/Dashboard.tsx:104-108 | `postsData`: posts summed per chart platform; `SeriesAt` and `ChartPartition` state its points and its sum |
| Dashboard.EngagementData | src/pages/Dashboard.tsx:90-95 | the row groups behind `engagementData`, one per chart platform; `EngagementDenominators` states they are non-empty |
| Dashboard.Invoke | src/pages/Dashboard.tsx:42-44 | the assumed client behaviour of `invoke`: a non-2xx answer is an `error`, otherwise the body's `data`; `DashboardPage.Poll` states the page's reaction |
| Dashboard.KeepAppend | src/pages/Dashboard.tsx:77-81 | filtering distributes over concatenation, so each passing occurrence is kept once, in order |
| Dashboard.KeepOne | src/pages/Dashboard.tsx:77-81 | one row is kept, once, exactly when it passes |
| Dashboard.OfPlatformAppend | src/pages/Dashboard.tsx:92 | selecting a platform's rows distributes over concatenation |
| Dashboard.OfPlatformOne | src/pages/Dashboard.tsx:92 | one row is selected, once, exactly when it has that platform |
| Dashboard.SeriesAt | src/pages/Dashboard.tsx:97-108 | point `i` pairs the `i`-th chart platform with the sum of the field over that platform's rows |
| Dashboard.DashboardPage.constructor | src/pages/Dashboard.tsx:35-38 | the page starts with no rows, loading, selector `all`, empty search and no toasts |
| Dashboard.DashboardPage.FetchData | src/pages/Dashboard.tsx:41-58 | data replaces the rows wholesale and ends loading; an error leaves rows and loading and raises one toast; a missing `data` field changes nothing |
| Dashboard.DashboardPage.Poll | src/pages/Dashboard.tsx:41-58 | a cycle whose backend answers 500 keeps the rows and raises one toast; a 200 shows the parsed rows |
| Dashboard.DashboardPage.SelectPlatform | src/pages/Dashboard.tsx:127 | the selector changes and nothing else, so the KPI totals stay the same and the shown rows are the rows filtered by the new selector |
| Dashboard.DashboardPage.Search | src/pages/Dashboard.tsx:143 | the search term changes and nothing else, so the KPI totals stay the same and the shown rows are the rows filtered by the new term |
| Scenarios.CellsOfLine | supabase/functions/fetch-analytics/index.ts:31 | a line of plain cells splits back into them, holds no line break, and is not blank |
| Scenarios.RowOfFour | supabase/functions/fetch-analytics/index.ts:34-45 | four headers give the row of their four keys and coerced cells |
| Scenarios.SampleRow | supabase/functions/fetch-analytics/index.ts:34-45 | under `Date,Platform,Followers,Engagement (%)` a row is date and platform text, parsed followers, engagement text |
| Scenarios.ParseThreeLines | supabase/functions/fetch-analytics/index.ts:27-48 | a header and two non-blank lines give two rows in order |
| Scenarios.SampleParse | supabase/functions/fetch-analytics/index.ts:27-48 | the sample export parses to exactly its two rows; `abc` followers give 0 and a missing engagement gives empty text |
| Scenarios.SampleServed | supabase/functions/fetch-analytics/index.ts:52-54 | the handler serves the sample's two rows with status 200 |
| Scenarios.SampleDashboard | src/pages/Dashboard.tsx:71-81 | selecting Instagram keeps only the first row; the follower total is 1000 over it and over all rows |

## Left out

- `parseFloat` of the percentage columns: a percentage cell keeps its trimmed
  text (`PctC`), because the model has no floating-point numbers. So are left out:
  - the `avgGrowth`/`avgEngagement` means and `.toFixed(1)`;
  - the engagement mean per platform, whose group of rows (`EngagementGroup`) is modelled instead.
- Dashboard.NumberOf: does not apply `parseInt` to a percentage value. Its
  requires (`NumericField`) excludes such cells, and `ParsedRowsSummable`
  shows that parsed rows never hold one under a summed key.
- JavaScript number precision: the model's integers are unbounded.
  - `parseInt` of more than 15 digits loses precision in JavaScript and not in the model.
  - `String(n)` switches to exponent notation from 1e21.
  - So the identity `parseInt(String(n)) == n` that the page's sums rely on holds only up to that bound.
- `toLowerCase` is ASCII only; Unicode case mapping is left out.
- The `__proto__` header: assigning it on a plain object sets the prototype
  instead of a field. The model treats it as an ordinary key.
- JSON serialisation of the response: rows are passed as values, and key order is not modelled.
- Network and HTTP plumbing are inputs, not modelled:
  - the `fetch` of the fixed export URL and `response.text()` are the `Upstream` value;
  - the CORS preflight and headers, and the `console` logging, are left out;
  - a rejected `fetch` carries its message in `Unreachable`;
  - the `'Unknown error'` branch for a thrown non-`Error` does not arise on the modelled paths.
- `supabase.functions.invoke`: its result is the `Invocation` input.
  - `Dashboard.Invoke` states the assumed client behaviour: a non-2xx status is an `error`, otherwise the body's `data` field.
  - The client library itself is not part of this model.
- Polling: `setInterval`/`clearInterval` and overlapping fetches are left out.
  Each tick is one call of `Poll`.
- Dashboard.FilteredData: a row without a string platform makes the filter throw
  while rendering. The model returns `None` and does not model the error that follows.
- The table's other render-time throws: each table row calls `toLocaleString()` on
  `followers`, `impressions` and `reach` (`Dashboard.tsx:298-300`), so a row without
  one of those keys makes rendering throw. The sample export in `Scenarios` has no
  `Impressions` or `Reach` column, so the page would throw drawing its table. The
  values `Scenarios.SampleDashboard` states are computed before rendering and do
  not say that the page displays them.
- The `loading` flag: the page sets it (`Dashboard.tsx:36`, `:49`) but never reads it,
  so the `loading` clauses of `DashboardPage.FetchData` and `DashboardPage.Poll` track a
  field with no visible effect.
- All rendering is left out: the navbar, the KPI cards, the charts and their
  `COLORS` fills and labels, the table and the inert Download Report button.
