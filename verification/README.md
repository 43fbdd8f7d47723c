# ecoScraping — a Dafny model of the acquisition bookkeeping and ratio analysis

`ecoScraping.py` downloads SEC filings for a list of tickers (phase 1,
*acquisition*) and computes three financial ratios from a pre-parsed CSV of
financial facts (phase 2, *analysis*). This project models the decision
logic of that script as pure Dafny functions over immutable datatypes and
proves what the script promises about it:

- **Ratio engine** (`Ratios`, `calculate_ratios`): per row, CurrentRatio,
  DebtToEquityRatio and NetProfitMargin. A cell is `Option<real>`, `None`
  standing for NaN, and division is exact `real` division. A NaN in any of
  the six numeric fields voids all three ratios; a zero denominator voids its
  ratio; otherwise each ratio is the exact quotient. One output row per input
  row, in order, labels copied through with `"N/A"` as the default.
- **Validation and cleaning** (`Cleaning`, `Analysis`,
  `analyze_financial_data`): the list of required columns missing from the
  header, the empty-input shortcut, and the numeric cleaning of the six
  numeric columns. A loaded cell is `NaN`, `Num(x)` or `Text(s)`. The
  grammar of `pd.to_numeric` is a parameter `parse: string -> Option<real>`.
- **Acquisition bookkeeping** (`Acquisition`, `acquire_filings`): the
  user-agent guard, the skipping of identifiers that are blank after
  stripping, the success/failure/file counters and the final "not all
  failed" verdict. The downloader is a parameter that answers each call with
  `Downloaded(n)` or `Failed`; the set-up of the download directory and
  downloader is a boolean.
- **Phase gating and exit code** (`Pipeline`, `main`): reading the
  identifiers file, running analysis only when acquisition was skipped or
  succeeded, and exiting with 1 exactly when a phase that was not skipped
  failed. The contents of the files are parameters.
- `Text` models Python's `str.strip()` over the characters `str.isspace`
  accepts.

Two behaviours of the code that differ from a plain reading of it:

- The marker replacement of ecoScraping.py:301 never changes anything. When
  the column is already numeric it holds no text. Otherwise `pd.to_numeric`
  has already run at ecoScraping.py:292. Cleaning is therefore exactly a
  cell-by-cell coercion (`Cleaning.CleanIsCellwiseCoercion`). The markers
  `'-'` and `''` become NaN only because pandas's grammar rejects them
  (`Cleaning.RejectsMarkers`).
- `df.empty` is checked before the required columns, so a header-only file
  reports success even when its header lacks required columns
  (`Analysis.HeaderOnlyTableIsEmptyInput`).

## Model

| member | source | states |
|---|---|---|
| Text.Strip | ecoScraping.py:101-103 | the stripped identifier neither starts nor ends with whitespace, and is blank exactly when the original was all whitespace |
| Text.StripCutsOnlyWhitespace | ecoScraping.py:101 | stripping keeps a contiguous slice and removes only whitespace on either side |
| Text.StripIdempotent | ecoScraping.py:355 | stripping an already stripped identifier (main strips, the acquisition loop strips again) changes nothing |
| Cleaning.Coerce | ecoScraping.py:292 | `to_numeric(errors='coerce')` never yields text, keeps numbers and NaN, and turns text into a number exactly when the grammar accepts it |
| Cleaning.CleanColumn | ecoScraping.py:287-302 | a cleaned column has the same length, holds no text, and keeps every number and NaN where it was |
| Cleaning.ToNumeric | ecoScraping.py:292 | `pd.to_numeric(col, errors='coerce')` keeps the length, leaves no text, keeps numbers and NaN in place, and turns a text cell into a number exactly when the grammar accepts it |
| Cleaning.ReplaceMarkers | ecoScraping.py:301 | the replace keeps the length, turns every `'-'` and `''` cell into NaN (not zero), and leaves every other cell in place |
| Cleaning.CleanIsCellwiseCoercion | ecoScraping.py:290-302 | the marker replacement is dead: cleaning equals one cell-by-cell coercion |
| Cleaning.CleanColumnCells | ecoScraping.py:301-302 | with pandas's grammar, `'-'` and `''` become NaN, numbers stay, other text is converted or becomes NaN |
| Cleaning.CleanIdempotent | ecoScraping.py:287-302 | cleaning a cleaned column changes nothing |
| Analysis.CleanTableIdempotentCells | ecoScraping.py:287-302 | running the whole cleaning loop over the numeric columns a second time changes no cell of any row |
| Ratios.NumericFields | ecoScraping.py:174-177 | the six numeric fields, and the `missing_data` scan over them fires exactly when one is absent |
| Ratios.AnyMissing | ecoScraping.py:186-191 | `missing_data` is true exactly when some field in the list is NaN |
| Ratios.Ratio | ecoScraping.py:194-201 | a ratio is present exactly when nothing is missing, both operands are present and the denominator is non-zero; then ratio × denominator = numerator |
| Ratios.CalculateRow | ecoScraping.py:179-233 | labels copied with `'N/A'` default; any missing field voids all three ratios; each ratio present iff all fields present and its denominator non-zero, and then exact |
| Ratios.CalculateRatios | ecoScraping.py:171-235 | one output row per input row, in order, each computed from its own row |
| Ratios.MissingFieldVoidsAllRatios | ecoScraping.py:186-228 | a NaN in any one of the six fields makes all three ratios NaN, even a ratio whose own operands are present |
| Ratios.ZeroDenominatorGivesNaN | ecoScraping.py:197-226 | with all fields present, a zero denominator gives NaN for that ratio |
| Ratios.RatiosAreExactQuotients | ecoScraping.py:194-228 | with all fields present, each ratio whose own denominator is non-zero is numerator / denominator, whatever the other denominators are |
| Ratios.CalculateRatiosAppend | ecoScraping.py:179-235 | computing a concatenation is concatenating the computations |
| Ratios.RowLocality | ecoScraping.py:179-233 | two tables that agree on a row agree on that row's ratios |
| Ratios.SampleRowRatios | ecoScraping.py:447-455 | the Apple sample row gives 143566/145308, 111088/62146 and 96995/383285, printed as 0.9880, 1.7875, 0.2531 |
| Ratios.ZeroLiabilitiesScenario | ecoScraping.py:197-199 | current assets 100 over current liabilities 0 gives NaN |
| Analysis.MissingColumns | ecoScraping.py:273 | the list holds exactly the required columns absent from the header, as a subsequence of the configured order |
| Analysis.CleanTableColumn | ecoScraping.py:287-302 | cleaning one present numeric column coerces its cells and leaves every other column of every row untouched |
| Analysis.CleanColumns | ecoScraping.py:287-302 | after the loop over the numeric columns, each present listed column is coerced cell by cell and every other column is untouched |
| Analysis.NumberOf | ecoScraping.py:187-188 | a cleaned cell reads as present exactly when it is a number, and then as that number |
| Analysis.RowOf | ecoScraping.py:179-191 | the labels are `row.get(...)` of the row, and the row is complete (no `missing_data`) exactly when every numeric cell is a number |
| Analysis.ComputeRatios | ecoScraping.py:309-311 | one ratio row per input row, each the engine applied to that row after cleaning |
| Analysis.ComputedRow | ecoScraping.py:309-311 | output row `i` of a table with every required column is the engine applied to cleaned row `i` |
| Analysis.CleaningKeepsColumn | ecoScraping.py:287-302 | cleaning leaves every non-numeric column of every row untouched |
| Analysis.Analyze | ecoScraping.py:246-311 | an empty table succeeds with no output; otherwise it fails with the missing list iff a required column is absent; it computes exactly when there is a row and every required column is present, giving one ratio row per input row |
| Analysis.CleanedRow | ecoScraping.py:287-302 | the numeric cells of each cleaned row are the coerced originals |
| Analysis.LabelColumnsNotNumeric | ecoScraping.py:280-284 | the label columns are not among the numeric columns that cleaning touches |
| Analysis.LabelsCopiedThrough | ecoScraping.py:180-183 | company name, ticker and year of each output row are those of its input row, or `'N/A'` when absent |
| Analysis.MarkerVoidsRow | ecoScraping.py:301 | a `'-'` or `''` in any numeric column of a row makes all three of its ratios NaN |
| Analysis.NumbersGiveExactRatios | ecoScraping.py:309-311 | when the numeric cells are numbers, each output ratio whose own denominator is non-zero is the exact quotient |
| Analysis.HeaderOnlyTableIsEmptyInput | ecoScraping.py:246-250 | a table without rows is an empty input whatever its header |
| Acquisition.Attempts | ecoScraping.py:100-103 | every downloader call is for the stripped, non-blank identifier at its position |
| Acquisition.AttemptsInOrder | ecoScraping.py:100 | the calls follow input order |
| Acquisition.AttemptsComplete | ecoScraping.py:100-118 | every identifier that is non-blank after stripping gets a call |
| Acquisition.Record | ecoScraping.py:128-150 | a failure adds one to `failed` only; a positive count adds one to `successful` and the count to the file total, leaving `failed` alone; a zero count changes nothing |
| Acquisition.TallyOf | ecoScraping.py:96-150 | the two counters together never exceed the number of calls |
| Acquisition.TallyCountsAnswers | ecoScraping.py:128-157 | `failed` is the number of calls that failed and `successful` the number that saved at least one filing, by independent counts |
| Acquisition.FilesDownloadedIsSumOfPositiveCounts | ecoScraping.py:128-131 | `total_files_downloaded` is the sum of the positive counts |
| Acquisition.AllFailedIff | ecoScraping.py:137-150 | `failed` equals the number of calls exactly when every call failed |
| Acquisition.NonEmptyCount | ecoScraping.py:167 | the denominator never exceeds the number of identifiers |
| Acquisition.NonEmptyCountSplits | ecoScraping.py:167 | the denominator is the number of calls plus the number of identifiers that are non-empty but blank after stripping; empty identifiers count in neither |
| Acquisition.AttemptsBoundedByNonEmpty | ecoScraping.py:101-103 | the calls never outnumber the identifiers non-empty before stripping |
| Acquisition.AttemptsOfStrippedIds | ecoScraping.py:167 | on pre-stripped, non-blank identifiers the denominator `len([id for id in identifiers if id])` counts every identifier |
| Acquisition.AttemptsOfStrippedIdsArePositional | ecoScraping.py:100-103 | on pre-stripped identifiers there is one call per identifier, and call `k` goes to identifier `k` unchanged |
| Acquisition.Acquire | ecoScraping.py:72-167 | an unusable user agent or failed set-up returns false with no calls; otherwise `successful + failed` ≤ calls ≤ denominator, the file total is the sum of positive counts, and the verdict is `failed` < pre-strip non-empty identifiers |
| Acquisition.AcquireFilings | ecoScraping.py:96-167 | the loop with its three counters computes exactly `Acquire` |
| Acquisition.AcquireIntended | ecoScraping.py:165-167 | the corrected verdict is true exactly when the guard passed and some call did not fail |
| Acquisition.IntendedImpliesAsWritten | ecoScraping.py:167 | the verdict as written is never stricter than the intended one |
| Acquisition.AcquireMatchesIntendedOnStrippedIds | ecoScraping.py:167 | on pre-stripped, non-blank identifiers the two verdicts coincide |
| Acquisition.WhitespaceIdentifierMasksFailure | ecoScraping.py:167 | `["AAPL", " "]` with a failing download returns true as written and false as intended |
| Pipeline.ReadIdentifiers | ecoScraping.py:355 | the identifiers read are stripped and non-blank, and are exactly the identifiers the acquisition loop would send for the raw lines |
| Pipeline.ReadIdentifiersEmptyIff | ecoScraping.py:355-359 | no identifier survives exactly when every line is whitespace |
| Pipeline.AcquisitionPhase | ecoScraping.py:345-376 | acquisition succeeds exactly when the identifier file is readable, the User-Agent is usable, the downloader is ready, and the download of some non-blank stripped identifier did not fail |
| Pipeline.AcquisitionPhaseMatchesSource | ecoScraping.py:361-368 | the phase's verdict equals `acquire_filings` as written on the identifiers `main` passes |
| Pipeline.AnalysisPhase | ecoScraping.py:389-401 | analysis succeeds iff the input loads and is empty, or has every required column and the output is writable; output is written exactly when ratios were computed and the output is writable, and what is written is exactly the computed ratio rows (ecoScraping.py:318) |
| Pipeline.Run | ecoScraping.py:344-422 | analysis is reached iff not skipped and acquisition skipped or succeeded; exit 0 iff every phase not skipped succeeded; the output written is the analysis phase's output when analysis is reached, and nothing otherwise |
| Pipeline.AcquisitionFailureBlocksAnalysis | ecoScraping.py:402-406 | when acquisition ran and failed, analysis is not attempted, nothing is written, and the exit code is 1 |
| Pipeline.SkippingBothExitsZero | ecoScraping.py:414-422 | skipping both phases exits with 0 |
| Pipeline.BlankIdentifierFileFailsRun | ecoScraping.py:356-359 | an identifiers file of blank lines fails the run and blocks analysis |
| Pipeline.MissingColumnFailsRun | ecoScraping.py:273-277 | when analysis is not skipped, a non-empty table lacking a required column fails the run with no output |

## Left out

- Logging and console output (`setup_logging`, every `logging.*` and `print`): side effects with no behavioural contract.
- The `sec_edgar_downloader` and `requests` calls: foreign library and network code. Each call is reduced to its outcome, and `Acquisition.OutcomesOf` only lists the downloader parameter's answers for the calls in order; the three exception classes and the HTTP 429 detection only change what is logged, and all three add one to `failed`.
- Directory creation and downloader construction: reduced to the boolean `downloaderReady`.
- CSV reading and writing, and 4-decimal float formatting of the output: I/O. A load failure of any kind (`FileNotFoundError`, `EmptyDataError`, `ParserError`, other) is the single case `UnreadableInputCsv`; a write failure of any kind is `outputWritable == false`.
- The exact grammar of `pd.to_numeric`: a parameter. Infinities it may produce (`"inf"`) have no `real` counterpart.
- Machine floating point: ratios are exact `real` quotients.
- The `TypeError`/`KeyError` branches of `calculate_ratios` (ecoScraping.py:202-205 and the like): they arise only when text reaches the engine. The model only feeds it cleaned rows, which hold no text; `Analysis.NumberOf` reads any text as NaN.
- The catch-all of `main` (ecoScraping.py:374-376): modelled only as an unreadable identifiers file.
- `argparse`, the user-agent pre-check and the dummy-file bootstrap of ecoScraping.py:425-460, and file-existence checks beyond "absent": plumbing.
- `Analysis.Table`: a row's keys are not tied to the header. pandas gives every row every column, so a loaded table always has them. The model also admits rows that lack a header column; for those `Get` reads NaN and the labels fall back to `"N/A"`. After the column check at ecoScraping.py:273 that default cannot fire in the script.

## Findings

| source | as written | input that shows it | evidently intended | confidence | as-written member | corrected member |
|---|---|---|---|---|---|---|
| ecoScraping.py:167 | the verdict compares `failed_downloads` with the number of identifiers non-empty before stripping, while the loop skips those blank after stripping (ecoScraping.py:101-103) | identifiers `["AAPL", " "]` with the AAPL download failing: one call, one failure, denominator 2, returns True | "not all failed": True exactly when some attempted download did not fail | not executed; latent, since `main` strips and drops blank lines first (ecoScraping.py:355) | Acquisition.Acquire | Acquisition.AcquireIntended |
