/**
 The two input tables of the signal synthesizer and the table it produces.
 Timestamps (the `datetime` column) are whole seconds; durations too.
 */
module Tables {

  /** Seconds in one day. */
  const SECONDS_PER_DAY: nat := 86400

  /** One telemetry row: its machine, its timestamp and its sensor readings. */
  datatype TelemetryRow = TelemetryRow(machineID: int, datetime: int, readings: map<string, real>)

  /** One event row: its machine, its timestamp and whether it records a failure. */
  datatype EventRow = EventRow(machineID: int, datetime: int, failure: bool)

  /** A telemetry row with the `fail_window` column appended. */
  datatype SignalRow = SignalRow(telemetry: TelemetryRow, failWindow: bool)

  /** Absolute value, as `abs` of a time difference. */
  function Abs(x: int): (r: nat)
    ensures r == x || r == -x
  {
    if x < 0 then -x else x
  }

  /** Appends a boolean column to a table, one value per row and in row order. */
  function AttachColumn(df: seq<TelemetryRow>, column: seq<bool>): (r: seq<SignalRow>)
    requires |column| == |df|
    ensures |r| == |df|
    ensures forall i :: 0 <= i < |df| ==> r[i].telemetry == df[i] && r[i].failWindow == column[i]
  {
    seq(|df|, i requires 0 <= i < |df| => SignalRow(df[i], column[i]))
  }

  /** The telemetry part of each output row, in order. */
  function TelemetryOf(rows: seq<SignalRow>): (df: seq<TelemetryRow>)
    ensures |df| == |rows|
  {
    if rows == [] then [] else [rows[0].telemetry] + TelemetryOf(rows[1..])
  }

  /** The `fail_window` column of a table, in row order. */
  function FailWindowOf(rows: seq<SignalRow>): (column: seq<bool>)
    ensures |column| == |rows|
  {
    if rows == [] then [] else [rows[0].failWindow] + FailWindowOf(rows[1..])
  }

  /** Appending a column loses nothing: the original table and the column can be read back. */
  lemma {:induction false} AttachColumnRoundTrip(df: seq<TelemetryRow>, column: seq<bool>)
    requires |column| == |df|
    ensures TelemetryOf(AttachColumn(df, column)) == df
    ensures FailWindowOf(AttachColumn(df, column)) == column
  {
    if df != [] {
      AttachColumnRoundTrip(df[1..], column[1..]);
      assert AttachColumn(df, column)[1..] == AttachColumn(df[1..], column[1..]);
    }
  }
}
