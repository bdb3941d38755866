# Rolling-mean signal batch job, modelled in Dafny

The job reads a YAML configuration (`seed`, `window`, `version`) and a CSV
table of prices. It adds a trailing rolling mean of the `close` column and a
0/1 signal, which is 1 where the close is above that mean. It then drops the
rows whose mean is undefined and reports a metrics record. The record holds
the number of rows kept and the signal rate, which is the mean of the signal
column. Every failure on the way becomes an error record instead. A success
exits 0 and an error exits 1.

The model follows `run.py` stage by stage:

- `ConfigLoader` (config_loader.dfy): `load_config`. The outcome of reading
  the file is an input (`ConfigFile`): missing, unparseable, or a parsed
  mapping. `LoadConfig` scans the required fields in the order seed, window,
  version and stops at the first missing one. It is proved equal to the
  specification `LoadConfigSpec`.
- `DataLoader` (data_loader.dfy): `load_data`. The outcome of reading the
  CSV is an input (`CsvFile`). `DataFrame.empty` is true when either axis
  has length zero, so `IsEmpty` tests the row count and the column count.
  A `Table` is a subset type: when it has a `close` column, that column
  holds one value per row, as in every table the CSV reader produces.
- `SignalPipeline` (signal_pipeline.dfy): `compute_rolling_mean` and
  `generate_signal`. The spec functions are `RollingMean`, `SignalColumn`
  and `DropNa`. The DataFrame that the source changes in place is the class
  `PriceFrame`; its two methods add the `rolling_mean` and `signal`
  columns. `SlidingMeans` computes the rolling mean with a running total and
  is proved equal to `RollingMean`.
- `Metrics` (metrics.dfy): `compute_metrics`, and the definition
  `ErrorMetrics` of the error record built from a caught exception.
- `JobRunner` (job_runner.dfy): the `__main__` block. The definition
  `RollingWindow` is how the rolling-window library takes the configured
  window, and `ExitCode` maps a success record to 0 and an error record
  to 1. `Job` is the record one run writes. `RunJob` runs the stages as
  methods in order and is proved to produce `Job`'s record and the
  matching exit code.

Three behaviours of the code are easy to misread:

- Rows before the first full window get signal 0, because `np.where` on a
  NaN comparison gives 0. `dropna` then removes those rows.
- When no row survives, because the window is 0 or longer than the table,
  the run is a success. Its `rows_processed` is 0 and its value is undefined
  (NaN in the source; `None` here).
- The rolling-window library rejects a window that is not a non-negative
  integer, raising "window must be an integer 0 or greater". That error
  becomes an error record that carries the configured version. A window of 0
  is accepted, but no row then has a full window, so every mean is
  undefined.

All functions are deterministic, so identical inputs give identical records.
The latency is a parameter.

## Model

| member | source | states |
|---|---|---|
| ConfigLoader.LoadConfig | run.py:17-36 | the required-field loop with early exit returns exactly the specified outcome: the file errors, then the first missing field, else the document |
| ConfigLoader.LoadConfigSpec | run.py:17-36 | a successful load comes from a parsed document, returns it unchanged, and that document holds every required field |
| ConfigLoader.FirstMissing | run.py:28-30 | a reported field is one of the scanned fields and is missing from the document; when none is reported, every scanned field is present |
| ConfigLoader.FirstMissingIsLeftmost | run.py:26-30 | no field is reported exactly when all are present; a reported field is missing and every field before it is present |
| ConfigLoader.ConfigValidation | run.py:26-36 | a document passes if and only if it has seed, window and version, and is then returned unchanged; failures name seed first, then window, then version, whatever else is missing |
| DataLoader.LoadData | run.py:38-54 | succeeds exactly for a parsed, non-empty table with a `close` column, and returns that table unchanged with at least one row |
| DataLoader.EmptyRejectedBeforeColumn | run.py:47-50 | a zero-row table is reported as empty even without `close`; a non-empty table without `close` gets the missing-column message; these are the only validation messages |
| SignalPipeline.RollingMean | run.py:58 | one mean per row, and row i has a mean exactly when 1 <= window <= i + 1 |
| SignalPipeline.SlidingMeans | run.py:58 | the running-total window loop yields, for every row, the mean of the `window` closes ending there once a full window exists, and undefined before it |
| SignalPipeline.SignalColumn | run.py:63 | one signal per row, each 0 or 1, and 0 on every row whose mean is undefined |
| SignalPipeline.DropNa | run.py:64 | the kept rows are exactly the rows with a defined rolling mean, and there are no more of them than input rows |
| SignalPipeline.DropNaAppend | run.py:64 | dropping rows distributes over concatenation, so the kept rows keep their original order |
| SignalPipeline.DropNaDropsPrefix | run.py:64 | when the undefined rows form a prefix, dropping them leaves exactly the remaining suffix |
| SignalPipeline.SignalFacts | run.py:63 | every signal is 0 or 1; it is 1 exactly when the mean is defined and the close is above it; warm-up rows get 0 |
| SignalPipeline.Pipeline | run.py:56-65 | the stage keeps no more rows than it was given, and every kept row has a defined mean and a signal of 0 or 1 |
| SignalPipeline.PipelineIsSuffix | run.py:56-65 | the signal stage returns the full table minus its warm-up rows |
| SignalPipeline.PipelineKeepsFullWindows | run.py:56-65 | n - window + 1 rows are kept when 1 <= window <= n, otherwise none; kept row j is input row j + window - 1 with its close, its window mean and its signal |
| SignalPipeline.WindowOneSignalsZero | run.py:58-63 | with window 1 every row is kept, its mean equals its close and its signal is 0 |
| SignalPipeline.CloseAboveRisingWindow | run.py:58 | in a strictly rising series, the last close of a window of at least two is above that window's mean |
| SignalPipeline.IncreasingSignalsOne | run.py:58-64 | with strictly rising closes and window >= 2, every kept row has signal 1 |
| SignalPipeline.PriceFrame.constructor | run.py:109 | the loaded table has its close column and neither added column yet |
| SignalPipeline.PriceFrame.ComputeRollingMean | run.py:56-59 | adds the `rolling_mean` column equal to the rolling mean of the closes, and changes nothing else |
| SignalPipeline.PriceFrame.GenerateSignal | run.py:61-65 | adds the `signal` column, keeps the other columns, and returns the rows with a defined mean |
| Metrics.SignalSumCounts | run.py:69 | with 0/1 signals, the sum of the signal column is the number of rows with signal 1, which is at most the row count |
| Metrics.SignalRate | run.py:69 | the rate is undefined exactly when no rows are left |
| Metrics.SignalRateIsFraction | run.py:69 | on a non-empty table with 0/1 signals, the rate equals count(signal = 1) / rows and lies in [0, 1] |
| Metrics.ComputeMetrics | run.py:67-83 | a success record with metric "signal_rate", rows_processed equal to the kept row count, the caller's latency, and the config's version and seed; its value is undefined exactly when no row is kept |
| JobRunner.Job | run.py:106-136 | the record of one run: a success always has status "success" and metric "signal_rate" and comes from a parsed config and table; an error always has status "error", with version "v1" when config loading failed |
| JobRunner.RunJob | run.py:106-136 | running the stages as methods, with the table changed in place, yields the specified record and its exit code |
| JobRunner.JobRunsPipeline | run.py:108-115 | when config, table and window are all accepted, the record is the metrics of the signal stage's output |
| JobRunner.ExitCodeFollowsStatus | run.py:118-136 | a run's status is "success" exactly when it exits 0, and "error" exactly when it exits 1 |
| JobRunner.JobFailsIff | run.py:106-122 | a run yields an error record exactly when the config, the table or the window is rejected |
| JobRunner.WindowRejected | run.py:58 | once config and table are accepted, the run fails exactly when the configured window is not a non-negative integer, and that error record carries the configured version and the message "window must be an integer 0 or greater" |
| JobRunner.ConfigFailureUsesDefaultVersion | run.py:122-131 | when config loading fails, the record is an error with version "v1" and the loader's message, whatever the table |
| JobRunner.LaterFailureUsesConfigVersion | run.py:122-131 | a failure after config loading gives an error record with the configured version and the failing stage's message |
| JobRunner.SuccessRecordFields | run.py:106-119 | when config, table and window are accepted, the run succeeds with status "success", metric "signal_rate", the config's version and seed, and n - window + 1 rows (0 when the window is 0 or longer than the table); its value is undefined exactly when no rows are kept, and otherwise equals count(signal = 1) / rows and lies in [0, 1] |
| JobRunner.WindowOneRateZero | run.py:58-69 | with window 1 every row is kept and a non-empty table has signal rate 0 |
| JobRunner.RisingClosesRateOne | run.py:58-69 | with strictly rising closes and window >= 2, any kept rows have signal rate 1 |
| JobRunner.AllOneRateOne | run.py:69 | rows whose signals are all 1 have signal rate 1 |
| JobRunner.RisingFiveRowsStage | run.py:56-69 | the signal stage on closes 1..5 with window 3 keeps three rows with signal rate 1 |
| JobRunner.RisingFiveRowsExample | run.py:106-119 | closes 1..5 with window 3 give a success record with 3 rows and value 1 |

## Left out

- Argument parsing, logging setup and every log line: no logic.
- File existence checks and YAML and CSV parsing: they are foreign library
  calls. Their outcomes are inputs (`ConfigFile`, `CsvFile`). The messages
  raised for a missing or unparseable file are kept.
- A YAML document that parses to something other than a mapping (an empty
  file, a list or a scalar): the model takes every parsed document to be a
  key-to-value mapping.
- `np.random.seed`: a global side effect that nothing downstream uses. The
  model also does not capture numpy rejecting an unusable seed, which the
  source would report as an error with version "v1".
- Non-numeric `close` values, and missing values in any column: prices are
  exact reals with no gaps. Because of this, `dropna` removes only the
  warm-up rows, whereas the source would also drop rows with gaps in other
  columns. Columns other than `close` are carried by name only.
- Floating point: means are exact real arithmetic, the value is not rounded
  to four decimals, and NaN is `None`.
- The running total in `SlidingMeans` stands for the library's own rolling
  computation. Its floating-point drift is not modelled.
- Measuring latency with the wall clock: the latency is a parameter.
- Writing the record to the output file and to standard output, and the
  malformed fallback when that write fails: I/O.
