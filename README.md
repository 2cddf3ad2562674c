# Failure-window labelling of machine telemetry

A Dafny model of the signal synthesizer of a predictive-maintenance data
pipeline. The synthesizer takes a telemetry table and an event table. It
returns a copy of the telemetry with one boolean column appended,
`fail_window`. A row's flag is set when some failure event lies within three
days of the row's timestamp, before or after it, boundary included.
`MachineSignalSynth` stores the two tables and a labelling strategy, and its
`generate` runs that strategy on them.

Layout:

- `tables.dfy` (module `Tables`): the rows of the two input tables, the
  output row, absolute value, and appending a column.
- `labelling.dfy` (module `Labelling`): the failure filter, the window test,
  a row-by-row reference labelling `Labelled`, and lemmas about it.
- `synthesizer.dfy` (module `Synthesizer`): the two classes.
  `LinearSingleStep.Generate` keeps the source's nested loops over an array of
  flags that starts all `False`. It is proved equal to `Labelled`.

Modelling decisions:

- Timestamps and durations are integers of seconds. `DEL_T` is
  `3 * 86400 = 259200`.
- A telemetry row carries a machine id, a timestamp and a map of sensor
  readings. An event row carries a machine id, a timestamp and the `failure`
  flag. The model only reads the timestamp and the flag, as the source does.
- The deep copy of the telemetry is a copy of a sequence value. Dafny
  sequences are values, so the caller's table cannot be changed. The
  "unchanged apart from `fail_window`" promise is the `telemetry` part of
  each output row.
- The source's field `method` is named `strategy` here, because `method` is a
  keyword in Dafny.
- Although both tables carry machine ids, the code does not partition by
  machine: an event on any machine labels every telemetry row near it in
  time. The model does the same. `Labelling.MachineIdsIrrelevant` states it
  for all inputs, and `Labelling.CrossMachineLabelling` shows a machine-7
  failure labelling machine-9 rows.

## Model

| member | source | states |
|---|---|---|
| `Tables.Abs` | src/data/synthesizer.py:29 | the result is the non-negative magnitude of the time difference, `x` or `-x` |
| `Tables.AttachColumn` | src/data/synthesizer.py:33 | the result has one row per table row, in order: row `i` is table row `i` with flag `column[i]` |
| `Tables.AttachColumnRoundTrip` | src/data/synthesizer.py:33 | appending the column is lossless: reading back the telemetry part gives the original table and reading back the flags gives the column |
| `Labelling.FailureTimes` | src/data/synthesizer.py:11-12 | a timestamp is in the result iff some event with `failure` set has that timestamp; the result is no longer than the event table |
| `Labelling.FailureTimesAppend` | src/data/synthesizer.py:11-12 | the filter keeps table order: filtering two concatenated tables gives the concatenation of the filtered parts |
| `Labelling.NearAnyFailureTime` | src/data/synthesizer.py:11-12 | scanning the filtered failure timestamps finds one within the window exactly when some failure event lies within the window |
| `Labelling.Labelled` | src/data/synthesizer.py:10 | the labelled table has exactly as many rows as the telemetry |
| `Labelling.LabelledAt` | src/data/synthesizer.py:25-33 | row `i` of the output is telemetry row `i`, and its flag is set iff some failure event has `abs(t_i - t_fail) <= DEL_T` |
| `Labelling.LabelledRows` | src/data/synthesizer.py:25-33 | the same as `LabelledAt`, for all rows at once |
| `Labelling.LabelledUnique` | src/data/synthesizer.py:25-33 | any table that has the telemetry's rows in order, each flagged iff a failure is near it, is the reference labelling |
| `Labelling.InclusiveBoundary` | src/data/synthesizer.py:6 | a row exactly `delT` before or after a failure event is labelled `True` |
| `Labelling.NoFailuresNoLabels` | src/data/synthesizer.py:10-11 | when no event has `failure` set, every flag keeps its initial `False` |
| `Labelling.OnlyFailureTimesMatter` | src/data/synthesizer.py:11-12 | two event tables with the same set of failure timestamps give the same labelled table |
| `Labelling.NonFailureIgnored` | src/data/synthesizer.py:11 | inserting an event whose `failure` flag is not set, at any position, changes no label |
| `Labelling.PermutationInvariant` | src/data/synthesizer.py:28-30 | permuting the event table leaves the labelled table unchanged |
| `Labelling.WindowMonotone` | src/data/synthesizer.py:29 | with a wider window and the same events, no `True` label becomes `False` |
| `Labelling.MachineIdsIrrelevant` | src/data/synthesizer.py:26-30 | two telemetry tables with the same timestamps at each position, labelled against event tables with the same failure timestamps, get the same flags whatever their machine ids |
| `Labelling.CrossMachineLabelling` | src/data/synthesizer.py:26-30 | a machine-7 failure on day 5 labels machine-9 rows on day 2 and day 8 and leaves day 9 unlabelled |
| `Synthesizer.LinearSingleStep.Generate` | src/data/synthesizer.py:8-34 | the output has the telemetry's rows in order, unchanged; row `i` is flagged iff some failure event lies within `DEL_T` (three days) of it, in either direction, boundary included; the output equals `Labelled(tel, events, DEL_T)` |
| `Synthesizer.MachineSignalSynth.constructor` | src/data/synthesizer.py:39-42 | the strategy and both tables are stored unchanged |
| `Synthesizer.MachineSignalSynth.Generate` | src/data/synthesizer.py:44-46 | the result is the labelling of the stored tables with `DEL_T`, which is what the stored strategy's `Generate` returns |

## Left out

- src/data/files.py is not part of this model. It reads tables from S3 through `boto3` and decodes them with `pd.read_feather`. Both are I/O in libraries outside the model.
- The commented-out `df.apply` variant of the labeller is not modelled. It sits inside a string literal and never runs.
- pandas and `datetime` are not modelled. `deepcopy` is a sequence copy, `.loc` filtering is `FailureTimes`, `iterrows` is a loop over positions, and the column assignment is `AttachColumn`. Timestamps are whole seconds. Sub-second differences between pandas timestamps are not modelled.
- `events["failure"] == True` is modelled for a boolean `failure` column only. pandas' comparison of non-boolean values with `True` is not modelled.
- If the telemetry already has a `fail_window` column, the source overwrites it. The model's output row type always adds the flag as a new field.
- The row index labels of the frame are not modelled. The source's `index` loop variable is unused, and the flags are placed by position.
- Per-machine, per-component and forward-looking labelling, rolling statistics, convolution features, column joining, one-hot encoding and train/test splitting do not appear in src/data/synthesizer.py, so they are not modelled.
- Missing timestamps are not modelled. In the source, a telemetry row or a failure whose `datetime` is missing (`NaT`) makes the comparison at line 29 false, so such a failure labels nothing and such a row is never labelled. The model's timestamps are always present integers.
- The source's error paths are not modelled. A missing `failure` or `datetime` column raises `KeyError` (lines 11, 12 and 27), and subtracting a timezone-naive timestamp from a timezone-aware one raises `TypeError` (line 29). The typed rows of the model rule these inputs out.
- Aliasing in `MachineSignalSynth` is not modelled. Its constructor keeps references to the caller's frames (lines 40-42), so changing `tel` or `events` in place after construction changes what `generate()` returns. The model stores sequence values, which later changes by the caller cannot reach.
