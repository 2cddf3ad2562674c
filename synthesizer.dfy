/**
 The signal synthesizer: a labelling strategy that marks every telemetry row
 lying within three days of a failure, and the object that runs it on the
 tables it was given.
 */
module Synthesizer {
  import opened Tables
  import opened Labelling

  /** Labels telemetry rows by a symmetric window around every failure event. */
  class LinearSingleStep {
    /** The window half-width: three days. */
    static const DEL_T: nat := 3 * SECONDS_PER_DAY

    constructor ()
    {
    }

    /**
     Copies the telemetry, fills a list of `False` flags, sets the flag of
     every row within `DEL_T` of some failure timestamp, and appends the list
     as the `fail_window` column.
     */
    method Generate(tel: seq<TelemetryRow>, events: seq<EventRow>) returns (df: seq<SignalRow>)
      ensures |df| == |tel|
      ensures forall i :: 0 <= i < |tel| ==> df[i].telemetry == tel[i]
      ensures forall i :: 0 <= i < |tel| ==>
        (df[i].failWindow <==> exists e :: e in events && e.failure && Abs(tel[i].datetime - e.datetime) <= DEL_T)
      ensures df == Labelled(tel, events, DEL_T)
    {
      var copy := tel;
      var failWinValues := new bool[|copy|](_ => false);
      var tFailures := FailureTimes(events);

      var idx := 0;
      while idx < |copy|
        invariant 0 <= idx <= |copy| == failWinValues.Length
        invariant forall k :: 0 <= k < idx ==> (failWinValues[k] <==> NearAny(copy[k].datetime, tFailures, DEL_T))
        invariant forall k :: idx <= k < |copy| ==> !failWinValues[k]
      {
        var t := copy[idx].datetime;
        for j := 0 to |tFailures|
          invariant failWinValues[idx] <==> exists m :: 0 <= m < j && InWindow(t, tFailures[m], DEL_T)
          invariant forall k :: 0 <= k < idx ==> (failWinValues[k] <==> NearAny(copy[k].datetime, tFailures, DEL_T))
          invariant forall k :: idx < k < |copy| ==> !failWinValues[k]
        {
          if Abs(t - tFailures[j]) <= DEL_T {
            failWinValues[idx] := true;
          }
        }
        idx := idx + 1;
      }

      df := AttachColumn(copy, failWinValues[..]);
      forall i | 0 <= i < |tel|
        ensures df[i].failWindow <==> NearFailure(tel[i].datetime, events, DEL_T)
      {
        NearAnyFailureTime(tel[i].datetime, events, DEL_T);
      }
      LabelledUnique(tel, events, DEL_T, df);
    }
  }

  /** Holds the two tables and the strategy, and runs the strategy on them. */
  class MachineSignalSynth {
    var strategy: LinearSingleStep
    var tel: seq<TelemetryRow>
    var events: seq<EventRow>

    constructor (tel: seq<TelemetryRow>, events: seq<EventRow>, strategy: LinearSingleStep)
      ensures this.tel == tel && this.events == events && this.strategy == strategy
    {
      this.strategy := strategy;
      this.tel := tel;
      this.events := events;
    }

    /** The stored strategy applied to the stored tables. */
    method Generate() returns (machineSignal: seq<SignalRow>)
      ensures machineSignal == Labelled(tel, events, LinearSingleStep.DEL_T)
    {
      machineSignal := strategy.Generate(tel, events);
    }
  }
}
