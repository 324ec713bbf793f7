# render_monitor in Dafny

A model of the rule passes of `render_monitor`, a small tool for a render
farm. It reads a table of render jobs. Each row has the columns Job ID, Show
Name, Status, Priority, Frames Requested and Frames Completed. The tool runs
three passes over that table:

- **Priority boost** (`prioritize_night_renders`). The rows of the
  high-priority show whose status is `PENDING` get the boost priority and
  the status `Overnight`. The table is changed in place. The pass reports
  how many rows changed and their Job IDs.
- **Utilization report** (`generate_report`). It sums the requested and the
  completed frames over all rows. It computes the utilization percentage
  only when the requested total is positive.
- **Failure report** (`generate_failure_report`). It copies out the `FAILED`
  rows and adds two columns to the copy: Frames Remaining (requested minus
  completed) and Cleanup Time (remaining times a per-frame heuristic).

The model also covers how the loader picks its input file
(`find_latest_log`). Among the directory entries whose name starts with the
configured prefix, it takes the one modified last.

Files and modules:

- `table.dfy` (`Table`): the job row, the status literals, and row selection by a predicate (`Filter`).
- `boost.dfy` (`Boost`): the boost rule stated on the table's contents, with its properties.
- `reports.dfy` (`Reports`): both reports as functions of the table's contents.
- `analyzer.dfy` (`Analyzer`): the class `RenderDataAnalyzer`. It owns the table as an `array<Job>`, rewrites rows in place during the boost, and caches report figures in fields. The module also holds the driver's sequence of passes (`Run`) and lemmas showing the boost does not change either report.
- `loader.dfy` (`Loader`): the file-selection rule over a given list of (name, modification time) entries.
- `wrappers.dfy` (`Wrappers`): `Option`.

Representation choices:

- Status is a string. The code compares it with the literals `"PENDING"` and `"FAILED"` and writes `"Overnight"`.
- Frame counts and priorities are `int`. Frame counts are not validated, so Frames Remaining may be negative, as in the code.
- The heuristic, the utilization percentage and the cleanup time are `real`.
- Modification times are `int`.
- Paths follow POSIX `os.path` (`posixpath.join`); the Windows path rules are not modelled.

Three behaviours of the code worth noting:

- The failure report keeps every column of the copied row, plus the two new ones. Only five of those columns are printed.
- A second boost leaves the table as the first one left it (`Boost.BoostIdempotent`). What differs is the report: the second run finds nothing pending.
- With no matching file, the loader's `max` over an empty list raises. It does not raise a dedicated "not found" error. The model returns `None` in that case.

## Model

| member | source | states |
|---|---|---|
| `Table.Filter` | render_monitor/render_monitor.py:200 | a boolean row selection keeps exactly the rows satisfying the predicate, and no more rows than the table has |
| `Table.FilterAppend` | render_monitor/render_monitor.py:200 | selecting from two stacked tables gives the two selections stacked, so the original row order is kept |
| `Table.FilterEmpty` | render_monitor/render_monitor.py:129 | a selection is empty if and only if no row satisfies the predicate |
| `Boost.SelectedRowsEmpty` | render_monitor/render_monitor.py:124-129 | nothing is selected if and only if no row is both the target show's and `PENDING` |
| `Boost.SelectedRowsSnoc` | render_monitor/render_monitor.py:131-132 | adding one row to the table adds that row to the selection exactly when it is the target show's and pending |
| `Boost.Boosted` | render_monitor/render_monitor.py:135-138 | the boosted table has as many rows as the original |
| `Boost.BoostedAt` | render_monitor/render_monitor.py:124-138 | each row of the boosted table is the original row, promoted if it was selected and otherwise untouched |
| `Boost.BoostPromotesSelected` | render_monitor/render_monitor.py:124-138 | every selected row ends with Priority equal to the boost value and Status `Overnight` |
| `Boost.BoostKeepsUnselected` | render_monitor/render_monitor.py:135-138 | every row outside the selection is unchanged in every column |
| `Boost.BoostKeepsIdentityAndFrames` | render_monitor/render_monitor.py:135-138 | no row changes its Job ID, Show Name, Frames Requested or Frames Completed |
| `Boost.BoostWithoutSelectionIsIdentity` | render_monitor/render_monitor.py:129-143 | when no row is selected, the table is unchanged |
| `Boost.BoostLeavesNothingPending` | render_monitor/render_monitor.py:124-138 | after the boost, no row of the target show is still pending |
| `Boost.BoostIdempotent` | render_monitor/render_monitor.py:124-138 | boosting twice gives the same table as boosting once |
| `Reports.SumsAppend` | render_monitor/render_monitor.py:159-160 | both column totals are additive over stacked tables, so every row is counted once |
| `Reports.UtilizationReport` | render_monitor/render_monitor.py:159-165 | the report carries both column totals; a rate is present if and only if the requested total is positive; the rate times the requested total equals 100 times the completed total |
| `Reports.SumsBounded` | render_monitor/render_monitor.py:159-160 | if every row has 0 <= completed <= requested, then 0 <= completed total <= requested total |
| `Reports.UtilizationIsPercentage` | render_monitor/render_monitor.py:163-165 | if every row has 0 <= completed <= requested, a computed rate lies between 0 and 100 |
| `Reports.UtilizationExample` | render_monitor/render_monitor.py:159-165 | requested 10, 20, 0 and completed 10, 10, 0 give totals 30 and 20 and a rate of 200/3 |
| `Reports.UtilizationWithoutRequests` | render_monitor/render_monitor.py:163-174 | when every row requests zero frames, the requested total is 0 and no rate is computed |
| `Reports.FailureReportOf` | render_monitor/render_monitor.py:200-212 | the pass stops early if and only if no row is `FAILED`; otherwise it lists the failed rows in table order, each with Frames Remaining = requested - completed (not clamped) and Cleanup Time = remaining x heuristic |
| `Reports.FailureReportIsExactlyTheFailedRows` | render_monitor/render_monitor.py:200 | every reported job is a `FAILED` row of the table, and every `FAILED` row is reported |
| `Reports.FailedJobsAppend` | render_monitor/render_monitor.py:200-212 | the annotated failures of two stacked tables are the two lists stacked, so original order is kept |
| `Reports.FailureReportExample` | render_monitor/render_monitor.py:207-212 | 100 requested, 40 completed and heuristic 2 give 60 frames remaining and cleanup time 120 |
| `Analyzer.RenderDataAnalyzer.constructor` | render_monitor/render_monitor.py:90-107 | the analyzer holds the given table, show, boost and heuristic; no report figures are cached yet |
| `Analyzer.RenderDataAnalyzer.SelectionMask` | render_monitor/render_monitor.py:124-126 | the mask has one entry per row, true exactly at rows of the target show with status `PENDING` |
| `Analyzer.RenderDataAnalyzer.PromoteSelected` | render_monitor/render_monitor.py:131-138 | in place, the table becomes the boosted table; the returned IDs are the selected rows' Job IDs in row order |
| `Analyzer.RenderDataAnalyzer.PrioritizeNightRenders` | render_monitor/render_monitor.py:109-143 | stores the selection mask and rewrites the table into the boosted table; reports "no pending jobs" exactly when nothing was selected, otherwise the boost value, the number of selected rows and their Job IDs in order |
| `Analyzer.RenderDataAnalyzer.GenerateReport` | render_monitor/render_monitor.py:145-174 | caches both column totals; caches the rate only when the requested total is positive, otherwise keeps the previous rate; never writes the table |
| `Analyzer.RenderDataAnalyzer.GenerateFailureReport` | render_monitor/render_monitor.py:176-216 | returns the failure report of the current table; caches the annotated copy, or an empty one when nothing failed; never writes the table |
| `Analyzer.BoostKeepsSums` | render_monitor/render_monitor.py:135-138 | the boost leaves both frame totals unchanged |
| `Analyzer.BoostKeepsUtilization` | render_monitor/render_monitor.py:233-234 | the utilization report after the boost equals the report on the original table |
| `Analyzer.BoostKeepsFailedRows` | render_monitor/render_monitor.py:135-138 | the boost leaves the set and order of `FAILED` rows, and their contents, unchanged |
| `Analyzer.BoostKeepsFailureReport` | render_monitor/render_monitor.py:233-235 | the failure report after the boost equals the report on the original table |
| `Analyzer.Run` | render_monitor/render_monitor.py:228-235 | runs boost, utilization report and failure report in that order; the table ends boosted; the boost report gives nothing pending exactly when nothing was selected, otherwise the boost value, the number of selected rows and their Job IDs in order; both reports equal those of the original table |
| `Loader.Join` | render_monitor/render_monitor.py:51 | joining the working directory with a name gives a path ending in that name; a relative name yields the working directory, then exactly one `/` when the directory does not already end in `/` (none when it does), then the name; an absolute name is returned unchanged |
| `Loader.LatestIndex` | render_monitor/render_monitor.py:54 | `max` by modification time picks a candidate at least as new as all the others and strictly newer than every candidate before it (the first of equally new ones) |
| `Loader.FindLatestLog` | render_monitor/render_monitor.py:44-56 | there is no result if and only if no entry's name starts with the prefix |
| `Loader.FindLatestLogIsNewest` | render_monitor/render_monitor.py:48-54 | the result is the joined path of an entry whose name starts with the prefix and that is at least as new as every other matching entry |

## Left out

- Reading and writing the CSV file (`read`, `write`) are calls into pandas. The table is taken as given, so loading and saving, and their round trip, are not modelled.
- Filesystem access in `find_latest_log` (`os.getcwd`, `os.listdir`, `os.path.getmtime`) is not modelled. The working directory and the entries with their modification times are parameters. The loader's `self.csv` field is not modelled either: the selection is a function.
- All console output (`print`, `.2f` formatting, `to_markdown`) is presentation only.
- Floating-point arithmetic is not modelled. The utilization percentage, the heuristic and the cleanup time are exact reals, so rounding is not captured. Modification times are integers.
- pandas dtypes are not modelled. In the model, a priority is an `int`. Missing values (NaN) in a column are not modelled, nor the way `sum` skips them.
- Reports.SumRequested and Reports.SumCompleted: the column sums at render_monitor/render_monitor.py:159-160 are int64 sums in numpy and wrap around on overflow; the model's `int` is unbounded, so that wrap-around is not captured.
- The `constants` module is not part of this model. The show name, boost value and heuristic are constructor parameters.
- Loading and saving in the `__main__` driver are not modelled. `Analyzer.Run` covers only the three passes it runs.
- The aliasing between the loader's table and the analyzer's table is partly modelled. The analyzer holds the caller's array, so the caller sees the boosted rows, as the driver relies on. The loader object itself is not modelled.
