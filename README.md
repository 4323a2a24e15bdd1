# Danish green-grid dashboard: record-level rules in Dafny

The dashboard fetches hourly emission declarations for the two Danish price
areas (DK1 west, DK2 east), turns each record's per-gas emission rates into one
CO2-equivalent "Eco-Score" in a transformer script, and shows the current score
of each area with a three-tier recommendation. This project models the two
pieces that hold logic:

- **The transformer** (`src/clean_data.py`, module `CleanData` in
  `clean_data.dfy`). The decoded `records` array is a sequence of flattened
  records, each a map from column name to `Cell`. A `Cell` is a number, a
  string or null, and an absent key reads as null. The run is the method
  `ProcessAndEngineerData`. It is proved equal to the function `Process`, which
  does these steps in order:
  1. Absent input file: failure.
  2. Empty frame: success with nothing written.
  3. Schema guard on the seven required columns: failure naming the missing
     columns.
  4. Date-time conversion of `HourUTC`, then `HourDK`.
  5. Lenient repair of the three rates: unparseable or null becomes 0.
  6. Eco-Score = CO2 + 28·CH4 + 265·N2O.
  7. Projection to `HourDK, PriceArea, ProductionType, gCO2e_per_kWh`.
  8. Outlier filter `score < 20000`.

  Each failure exits with status 1 and writes nothing.
- **The current-status logic** (`app.py`, module `Dashboard` in `app.dfy`).
  Loading sorts the rows by local hour, with missing hours last. Per area, the
  rows are filtered to that area. The last row is "latest", the one before it
  is "previous", and their difference is the delta. Fewer than two rows is the
  insufficient-data condition. The three tiers are excellent (≤ 75), good
  (≤ 150) and high. Both areas run in one `try` block, so an area without
  enough data also hides the area after it.

`table.dfy` (module `Table`) holds what both scripts share: `Option`, `Cell`,
the date-time `Stamp` with pandas' sort order (`NaT` last), and the
order-preserving row filter `Filter` with the predicate `SubsequenceOf`, which
says one sequence is another with elements left out and order kept.

pandas' own parsers are parameters, because their code is not part of this
model:
- `parseTime` stands for `pd.to_datetime` on a non-null cell. It returns an
  instant, or NaT for text pandas reads as missing (such as `""` or `"NaT"`).
  `None` means pandas raises. The exception is uncaught, so the run fails.
- `parseNumber` stands for `pd.to_numeric` on a string cell. `None` means the
  string is unparseable, which coercion turns into a missing value.

Three facts about the source shape the model:
- The transformer does not sort its output. Output order is input order, and
  the dashboard sorts when it loads the file (app.py:27).
- The transformer does not filter by region. Only the fetch query restricts
  the data to DK1 and DK2.
- "Previous" is the area's second-to-last row, not a reading from the
  previous hour. See Findings.

## Model

| member | source | states |
|---|---|---|
| `CleanData.Columns` | src/clean_data.py:20 | the frame's columns are exactly the keys that some record has |
| `CleanData.EmptyFrameIffNoKeys` | src/clean_data.py:20-24 | the frame is empty (the early-return case) exactly when no record has any key, which includes having no records |
| `CleanData.MissingColumns` | src/clean_data.py:30-36 | the missing list holds exactly the required names absent from the columns, in required-list order (a subsequence), and is empty iff every required name is present |
| `CleanData.MissingAreAbsentEverywhere` | src/clean_data.py:30-36 | a name is reported missing iff it is required and no record has it |
| `CleanData.SchemaGuardFails` | src/clean_data.py:36-39 | with records present, the run fails with exactly the missing list iff that list is non-empty, and then exits with status 1 |
| `CleanData.AbsentInputFails` | src/clean_data.py:13-18 | an absent input file fails the run with status 1 |
| `CleanData.EmptyInputWritesNothing` | src/clean_data.py:22-24 | an empty frame ends the run with nothing written and status 0 |
| `CleanData.ToDatetime` | src/clean_data.py:43-44 | a null cell becomes NaT; any other cell becomes what the parser reads (an instant, or NaT for text read as missing), and the conversion fails exactly when the parser refuses; the result is NaT iff the cell is null or read as missing |
| `CleanData.ParseDates` | src/clean_data.py:43-44 | converting a column succeeds iff every cell converts, and then yields each cell's stamp in row order |
| `CleanData.Repair` | src/clean_data.py:46-50 | a parseable rate keeps its parsed value (a number stays itself); an unparseable or null rate becomes exactly 0 |
| `CleanData.UnparseableRatesScoreZero` | src/clean_data.py:46-60 | a record whose three rates all fail to parse scores exactly 0 |
| `CleanData.EcoScore` | src/clean_data.py:56-60 | the Eco-Score equals the sum over the three gases of rate times the gas's 100-year warming potential (1, 28, 265) |
| `CleanData.EcoScoreNonNegative` | src/clean_data.py:56-60 | with non-negative rates the score is at least the CO2 rate, so it is never negative |
| `CleanData.ScenarioScore` | src/clean_data.py:56-60 | a record with rates 100, 1 and 0.1 scores 154.5 |
| `CleanData.Engineer` | src/clean_data.py:41-69 | an output row carries the record's parsed HourDK, its PriceArea and ProductionType cells unchanged, and score = CO2 + 28·CH4 + 265·N2O of the repaired rates |
| `CleanData.DropOutliers` | src/clean_data.py:73 | every kept row scores below 20000; every row below 20000 is kept; order is preserved; length ≤ input length, with equality iff no row reaches 20000 |
| `CleanData.DropOutliersKeepsCopies` | src/clean_data.py:73 | the filter drops no copy of a row under 20000: each such row occurs as often as in the input, and a row at or over 20000 not at all |
| `CleanData.EngineerRows` | src/clean_data.py:46-69 | the record-by-record loop yields exactly the engineered rows in input order |
| `CleanData.KeepBelowLimit` | src/clean_data.py:73 | the filtering loop yields exactly the filtered rows |
| `CleanData.Process` | src/clean_data.py:13-75 | the run takes the no-records exit (status 0, nothing written) iff the frame is empty; it writes the file iff the input exists, the frame is not empty, no required column is missing and both date-time columns convert; written rows all score below 20000 and are at most as many as the records |
| `CleanData.ProcessAndEngineerData` | src/clean_data.py:6-75 | the step-by-step run ends exactly as `Process` says: absent file, empty frame, missing columns, failed date-time conversion, or the written rows |
| `CleanData.WrittenIsFilteredEngineering` | src/clean_data.py:41-75 | when the file is written, both date-time columns converted and the rows are the engineered records after the outlier filter |
| `CleanData.BadHourUtcFails` | src/clean_data.py:43 | past the schema guard, an HourUTC column pandas refuses fails the run with that column named and status 1 |
| `CleanData.KeptRecords` | src/clean_data.py:73 | per input record: the written rows all score below 20000 and keep input order; every record scoring below 20000 appears; the row count is at most the record count, and equal iff none reaches 20000 |
| `CleanData.KeptRecordCopies` | src/clean_data.py:73-75 | records that engineer to the same row are all written: a row under 20000 occurs in the file as often as among the engineered records |
| `CleanData.ScenarioMissingProductionType` | src/clean_data.py:30-39 | raw data lacking ProductionType fails with status 1 and an error naming ProductionType and no other column |
| `Dashboard.Classify` | app.py:56-63 | excellent iff score ≤ 75, good iff 75 < score ≤ 150, high iff score > 150 |
| `Dashboard.Recommendation` | app.py:56-63 | tag success iff score ≤ 75, info iff 75 < score ≤ 150, warning iff score > 150, and the message is the one that belongs to the tag |
| `Dashboard.TiersAreDistinguishable` | app.py:58-63 | the three tiers have pairwise different tags and pairwise different messages, so every score gets exactly one of each |
| `Dashboard.ClassifyMonotone` | app.py:58-63 | a higher score never gets a greener tier |
| `Dashboard.ScenarioHighTier` | app.py:62-63 | the score 154.5 of rates 100, 1 and 0.1 gets the high message with tag warning |
| `Dashboard.InsertByHour` | app.py:27 | inserting a row into rows sorted by HourDK keeps them sorted and adds exactly that row |
| `Dashboard.SortByHour` | app.py:27 | loaded rows are sorted ascending by HourDK (missing hours last) and are a permutation of the file's rows |
| `Dashboard.SubsequenceKeepsSorted` | app.py:69 | taking rows out of sorted data, order kept, leaves them sorted |
| `Dashboard.LastIsNewest` | app.py:70 | the last row of sorted rows has the greatest HourDK |
| `Dashboard.RegionRows` | app.py:69 | region filtering keeps exactly the rows whose PriceArea is the region, in their original relative order, and changes nothing when every row is in that region |
| `Dashboard.RegionRowsKeepsCopies` | app.py:69 | region filtering drops no copy of a region row: each occurs as often as in the data, and rows of the other area not at all |
| `Dashboard.RegionSnapshot` | app.py:69-72 | fewer than two region rows gives insufficient data; otherwise latest is the last region row, previous the second-to-last, both in the region and in the data |
| `Dashboard.SnapshotOfSortedIsNewest` | app.py:69-72 | on sorted data the latest row has the greatest HourDK of its region, and previous is no later |
| `Dashboard.LoadedSnapshotIsNewest` | app.py:27-72 | after loading, a region's latest row is no older than any processed row of that region |
| `Dashboard.MetricOf` | app.py:72-80 | the metric shows the latest score, a delta with value − delta = previous score, the latest HourDK, and the tier of the latest score |
| `Dashboard.StatusSection` | app.py:67-101 | insufficient DK1 data shows only the insufficient-data message, hiding DK2; with DK1 data, exactly two panels: DK1's metric, then DK2's metric or the insufficient-data message when DK2 lacks two rows; the section ends with that message iff either area lacks two rows |
| `Dashboard.CurrentGridStatus` | app.py:48-101 | the page's status section over the loaded rows: whether an area has enough data is decided by the processed rows themselves, so sorting on load never changes it; the section ends with the insufficient-data message iff DK1 or DK2 has fewer than two processed rows |
| `Dashboard.ShownMetricIsNewest` | app.py:48-98 | every metric shown is for DK1 or DK2 and is a processed reading of its area (same hour and score), no processed reading of that area is newer, and its tier classifies its own score |
| `Dashboard.SnapshotComparesWithinOneHour` | app.py:70-77 | as written: with two production types in the latest hour, latest and previous come from the same hour and different types, and the delta is 20 where the label says "vs. prev. hour" |
| `Dashboard.LastEarlierReading` | app.py:71 | finds the last row of the same production type from a strictly earlier hour, or reports that there is none |
| `Dashboard.HourOverHourSnapshot` | app.py:70-77 | corrected: previous is a row of the same area and production type from a strictly earlier hour; insufficient data iff there is no such row |
| `Dashboard.HourOverHourComparesNewestEarlier` | app.py:70-77 | corrected, on sorted data: no same-type earlier row of the area is newer than the one compared with |
| `Dashboard.HourOverHourOnWindSolarHours` | app.py:70-77 | corrected, on the rows of the as-written example: Solar is compared with Solar an hour earlier, and the delta is 5 |

## Left out

- src/fetch_data.py: one HTTP GET and a JSON dump to disk. It is network and file plumbing with no rules of its own.
- File reads and writes are left out: `json.load`, `to_csv`, `read_csv`, `os.makedirs` and the path constructions. The transformer takes the decoded `records` array, or none when the file is absent. The dashboard takes the transformer's rows as the file it reads back. The CSV round trip is not modelled.
- A raw file without a `records` key makes `json_normalize` raise. The model starts from the array, so this case is not modelled.
- The flattening of nested JSON objects into dotted column names is not modelled. Records are flat maps.
- `pd.to_datetime` and the string branch of `pd.to_numeric` are parameters. Instants are abstract integers. JSON booleans and NaN literals are not modelled.
- Floating point is not modelled. Rates and scores are exact reals, so there is no IEEE rounding and no `.1f` display formatting.
- `CleanData.ToDatetime`: pandas infers one date-time format from the first non-null string of a column and applies it to the whole column. Whether a cell converts can therefore depend on the other cells. The per-cell `parseTime` parameter does not capture that dependence.
- `Dashboard.SortByHour`: the contract is sorted plus permutation. pandas' default sort is not stable, so the source leaves the order of equal hours open. The model's insertion sort keeps input order for ties. That is one of the orders the source allows.
- `CleanData.ScenarioMissingProductionType`: states that the error names ProductionType and no other column. It does not state that the name appears only once.
- Rendering is left out: `st.metric`, `st.error`, `st.caption`, the dispatch of `getattr(st, alert_type)` (modelled as the `Alert` value), page layout and the Plotly chart. The chart is presentation over external libraries.
- The caption's `strftime` on a missing hour raises. The source reports this through its generic error branch (app.py:102-103). The model puts the stamp in the panel as it is.
- The `load_data` error paths (app.py:28-38) and the 10-minute cache (app.py:19) are left out. The first is file I/O. The second is wall-clock memoization inside the framework.
- Console output and `sys.exit` are left out. They appear only as the `Outcome` value and its exit status.

## Findings

| source | as written | input that shows it | evidently intended | confidence | as-written member | corrected member |
|---|---|---|---|---|---|---|
| app.py:70-77 | "previous" is the area's second-to-last row, and the delta is labelled "vs. prev. hour" | sorted DK1 rows Solar@0 = 25, Wind@1 = 10, Solar@1 = 30: latest is Solar@1 and previous is Wind@1, the same hour, so the delta 20 compares two fuel types | compare the latest reading with the same production type one hour earlier (Solar@0, delta 5) | medium, not executed: the data carries one row per production type per hour, as the per-type chart shows | `Dashboard.SnapshotComparesWithinOneHour` | `Dashboard.HourOverHourSnapshot` |

The status section (`Dashboard.StatusSection`) keeps the as-written snapshot,
because it models what the page shows. `Dashboard.HourOverHourSnapshot` and
`Dashboard.HourOverHourComparesNewestEarlier` state the intended comparison.
