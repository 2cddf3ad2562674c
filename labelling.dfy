/**
 What the failure-window labeller computes, stated without loops, and the
 properties of that labelling.
 */
module Labelling {
  import opened Tables

  /** The timestamps of the events flagged as failures, in table order. */
  function FailureTimes(events: seq<EventRow>): (ts: seq<int>)
    ensures |ts| <= |events|
    ensures forall t :: t in ts <==> exists e :: e in events && e.failure && e.datetime == t
  {
    if events == [] then []
    else
      var rest := FailureTimes(events[1..]);
      assert forall e :: e in events <==> e == events[0] || e in events[1..];
      if events[0].failure then [events[0].datetime] + rest else rest
  }

  /** Filtering keeps table order: the failures of two concatenated tables. */
  lemma {:induction false} FailureTimesAppend(a: seq<EventRow>, b: seq<EventRow>)
    ensures FailureTimes(a + b) == FailureTimes(a) + FailureTimes(b)
  {
    if a == [] {
      assert a + b == b;
    } else {
      assert (a + b)[1..] == a[1..] + b;
      FailureTimesAppend(a[1..], b);
    }
  }

  /** `t` lies within `delT` of `tFail`, on either side, boundary included. */
  predicate InWindow(t: int, tFail: int, delT: int)
  {
    Abs(t - tFail) <= delT
  }

  /** Some failure event, on any machine, lies within `delT` of time `t`. */
  predicate NearFailure(t: int, events: seq<EventRow>, delT: int)
  {
    exists e :: e in events && e.failure && InWindow(t, e.datetime, delT)
  }

  /** Some timestamp of `ts` lies within `delT` of time `t`. */
  predicate NearAny(t: int, ts: seq<int>, delT: int)
  {
    exists m :: 0 <= m < |ts| && InWindow(t, ts[m], delT)
  }

  /** Scanning the filtered failure timestamps decides exactly `NearFailure`. */
  lemma NearAnyFailureTime(t: int, events: seq<EventRow>, delT: int)
    ensures NearAny(t, FailureTimes(events), delT) <==> NearFailure(t, events, delT)
  {
    var ts := FailureTimes(events);
    if NearAny(t, ts, delT) {
      var m :| 0 <= m < |ts| && InWindow(t, ts[m], delT);
      assert ts[m] in ts;
    }
    if NearFailure(t, events, delT) {
      var e :| e in events && e.failure && InWindow(t, e.datetime, delT);
      assert e.datetime in ts;
      var m :| 0 <= m < |ts| && ts[m] == e.datetime;
    }
  }

  /**
   The reference labelling, row by row: each telemetry row, in order, with
   `fail_window` set when a failure event lies within `delT` of it.
   */
  function Labelled(tel: seq<TelemetryRow>, events: seq<EventRow>, delT: int): (df: seq<SignalRow>)
    ensures |df| == |tel|
  {
    if tel == [] then []
    else [SignalRow(tel[0], NearFailure(tel[0].datetime, events, delT))] + Labelled(tel[1..], events, delT)
  }

  /** Row `i` of the labelling is input row `i`, labelled iff a failure is near it. */
  lemma {:induction false} LabelledAt(tel: seq<TelemetryRow>, events: seq<EventRow>, delT: int, i: int)
    requires 0 <= i < |tel|
    ensures Labelled(tel, events, delT)[i].telemetry == tel[i]
    ensures Labelled(tel, events, delT)[i].failWindow <==> NearFailure(tel[i].datetime, events, delT)
  {
    if i > 0 {
      LabelledAt(tel[1..], events, delT, i - 1);
    }
  }

  /** The same labelling, for all rows at once. */
  lemma {:induction false} LabelledRows(tel: seq<TelemetryRow>, events: seq<EventRow>, delT: int)
    ensures forall i :: 0 <= i < |tel| ==>
      Labelled(tel, events, delT)[i].telemetry == tel[i] &&
      (Labelled(tel, events, delT)[i].failWindow <==> NearFailure(tel[i].datetime, events, delT))
  {
    forall i | 0 <= i < |tel|
      ensures Labelled(tel, events, delT)[i].telemetry == tel[i]
      ensures Labelled(tel, events, delT)[i].failWindow <==> NearFailure(tel[i].datetime, events, delT)
    {
      LabelledAt(tel, events, delT, i);
    }
  }

  /** A table whose rows equal the reference labelling's row for row is that labelling. */
  lemma LabelledUnique(tel: seq<TelemetryRow>, events: seq<EventRow>, delT: int, df: seq<SignalRow>)
    requires |df| == |tel|
    requires forall i :: 0 <= i < |tel| ==>
      df[i].telemetry == tel[i] && (df[i].failWindow <==> NearFailure(tel[i].datetime, events, delT))
    ensures df == Labelled(tel, events, delT)
  {
    LabelledRows(tel, events, delT);
  }

  /** Inclusive boundary: a row exactly `delT` before or after a failure is labelled. */
  lemma InclusiveBoundary(tel: seq<TelemetryRow>, events: seq<EventRow>, delT: int, i: int, e: EventRow)
    requires 0 <= i < |tel|
    requires e in events && e.failure
    requires e.datetime == tel[i].datetime + delT || e.datetime == tel[i].datetime - delT
    requires delT >= 0
    ensures Labelled(tel, events, delT)[i].failWindow
  {
    LabelledAt(tel, events, delT, i);
    assert InWindow(tel[i].datetime, e.datetime, delT);
  }

  /** With no failure events every row keeps its initial `False`. */
  lemma {:induction false} NoFailuresNoLabels(tel: seq<TelemetryRow>, events: seq<EventRow>, delT: int)
    requires forall e :: e in events ==> !e.failure
    ensures forall i :: 0 <= i < |tel| ==> !Labelled(tel, events, delT)[i].failWindow
  {
    LabelledRows(tel, events, delT);
  }

  /**
   Only the set of failure timestamps matters: event order, duplicate
   failures, machine identifiers and non-failure events do not.
   */
  lemma {:induction false} OnlyFailureTimesMatter(tel: seq<TelemetryRow>, ev1: seq<EventRow>, ev2: seq<EventRow>, delT: int)
    requires forall t :: t in FailureTimes(ev1) <==> t in FailureTimes(ev2)
    ensures Labelled(tel, ev1, delT) == Labelled(tel, ev2, delT)
  {
    if tel != [] {
      var t := tel[0].datetime;
      if NearFailure(t, ev1, delT) {
        var e :| e in ev1 && e.failure && InWindow(t, e.datetime, delT);
        assert e.datetime in FailureTimes(ev2);
      }
      if NearFailure(t, ev2, delT) {
        var e :| e in ev2 && e.failure && InWindow(t, e.datetime, delT);
        assert e.datetime in FailureTimes(ev1);
      }
      OnlyFailureTimesMatter(tel[1..], ev1, ev2, delT);
    }
  }

  /** An event whose `failure` flag is not set never affects a label, wherever it is inserted. */
  lemma {:induction false} NonFailureIgnored(tel: seq<TelemetryRow>, events: seq<EventRow>, delT: int, k: int, e: EventRow)
    requires 0 <= k <= |events|
    requires !e.failure
    ensures Labelled(tel, events[..k] + [e] + events[k..], delT) == Labelled(tel, events, delT)
  {
    var ev := events[..k] + [e] + events[k..];
    FailureTimesAppend(events[..k] + [e], events[k..]);
    FailureTimesAppend(events[..k], [e]);
    FailureTimesAppend(events[..k], events[k..]);
    assert events[..k] + events[k..] == events;
    assert FailureTimes([e]) == [];
    assert FailureTimes(ev) == FailureTimes(events);
    OnlyFailureTimesMatter(tel, ev, events, delT);
  }

  /** Permuting the events leaves every label unchanged. */
  lemma PermutationInvariant(tel: seq<TelemetryRow>, ev1: seq<EventRow>, ev2: seq<EventRow>, delT: int)
    requires multiset(ev1) == multiset(ev2)
    ensures Labelled(tel, ev1, delT) == Labelled(tel, ev2, delT)
  {
    forall e ensures e in ev1 <==> e in ev2 {
      assert e in ev1 <==> e in multiset(ev1);
      assert e in ev2 <==> e in multiset(ev2);
    }
    OnlyFailureTimesMatter(tel, ev1, ev2, delT);
  }

  /** A wider window never clears a label. */
  lemma {:induction false} WindowMonotone(tel: seq<TelemetryRow>, events: seq<EventRow>, d1: int, d2: int)
    requires d1 <= d2
    ensures forall i :: 0 <= i < |tel| && Labelled(tel, events, d1)[i].failWindow ==> Labelled(tel, events, d2)[i].failWindow
  {
    LabelledRows(tel, events, d1);
    LabelledRows(tel, events, d2);
    forall i | 0 <= i < |tel| && Labelled(tel, events, d1)[i].failWindow
      ensures Labelled(tel, events, d2)[i].failWindow
    {
      var e :| e in events && e.failure && InWindow(tel[i].datetime, e.datetime, d1);
      assert InWindow(tel[i].datetime, e.datetime, d2);
    }
  }

  /**
   No partitioning by machine: labels depend only on the row timestamps and
   the failure timestamps, never on the machine ids of either table.
   */
  lemma {:induction false} MachineIdsIrrelevant(tel1: seq<TelemetryRow>, tel2: seq<TelemetryRow>, ev1: seq<EventRow>, ev2: seq<EventRow>, delT: int)
    requires |tel1| == |tel2|
    requires forall i :: 0 <= i < |tel1| ==> tel1[i].datetime == tel2[i].datetime
    requires forall t :: t in FailureTimes(ev1) <==> t in FailureTimes(ev2)
    ensures forall i :: 0 <= i < |tel1| ==> Labelled(tel1, ev1, delT)[i].failWindow == Labelled(tel2, ev2, delT)[i].failWindow
  {
    LabelledRows(tel1, ev1, delT);
    LabelledRows(tel2, ev1, delT);
    OnlyFailureTimesMatter(tel2, ev1, ev2, delT);
  }

  /**
   A single scenario of the same: a machine-7 failure on day 5 labels machine-9
   rows on day 2 (exactly three days before) and day 8, but not day 9.
   */
  lemma CrossMachineLabelling(readings: map<string, real>)
    ensures
      var day := SECONDS_PER_DAY;
      var tel := [TelemetryRow(9, 2 * day, readings), TelemetryRow(9, 8 * day, readings), TelemetryRow(9, 9 * day, readings)];
      var events := [EventRow(7, 5 * day, true)];
      Labelled(tel, events, 3 * day) == [SignalRow(tel[0], true), SignalRow(tel[1], true), SignalRow(tel[2], false)]
  {
    var day := SECONDS_PER_DAY;
    var tel := [TelemetryRow(9, 2 * day, readings), TelemetryRow(9, 8 * day, readings), TelemetryRow(9, 9 * day, readings)];
    var events := [EventRow(7, 5 * day, true)];
    assert InWindow(tel[0].datetime, events[0].datetime, 3 * day);
    assert InWindow(tel[1].datetime, events[0].datetime, 3 * day);
    assert !NearFailure(tel[2].datetime, events, 3 * day);
    LabelledRows(tel, events, 3 * day);
  }
}
