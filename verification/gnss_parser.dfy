/**
 * The multi-log aligner and metric aggregator: given the epochs of several logs
 * recorded at the same time, finds their common time window and builds, per log,
 * the aligned series of HDOP, satellites in use, mean carrier-to-noise ratio, fix
 * type and latitude/longitude error against a reference position.
 */
module GNSSParser {
  import opened Wrappers
  import opened MicropyGps
  import ParseLogFile

  // ---------------------------------------------------------------------------
  // Timestamps, compared as Python compares the lists [hours, minutes, seconds]

  predicate Less(a: Timestamp, b: Timestamp)
  {
    || a.hour < b.hour
    || (a.hour == b.hour && a.minute < b.minute)
    || (a.hour == b.hour && a.minute == b.minute && a.second < b.second)
  }

  predicate LessEq(a: Timestamp, b: Timestamp) { Less(a, b) || a == b }

  /** Python's `max` over a non-empty list: the first element no other element exceeds. */
  function MaxTime(ts: seq<Timestamp>): (r: Timestamp)
    requires |ts| > 0
    ensures r in ts
    ensures forall k :: 0 <= k < |ts| ==> LessEq(ts[k], r)
  {
    if |ts| == 1 then ts[0]
    else
      var m := MaxTime(ts[..|ts| - 1]);
      if Less(m, ts[|ts| - 1]) then ts[|ts| - 1] else m
  }

  /** Python's `min` over a non-empty list. */
  function MinTime(ts: seq<Timestamp>): (r: Timestamp)
    requires |ts| > 0
    ensures r in ts
    ensures forall k :: 0 <= k < |ts| ==> LessEq(r, ts[k])
  {
    if |ts| == 1 then ts[0]
    else
      var m := MinTime(ts[..|ts| - 1]);
      if Less(ts[|ts| - 1], m) then ts[|ts| - 1] else m
  }

  /** A time of day as the decoder produces it: minutes and seconds in 0..59. */
  predicate ValidClock(t: Timestamp)
  {
    t.hour >= 0 && 0 <= t.minute < 60 && 0 <= t.second < 60
  }

  function SecondsOf(t: Timestamp): int
  {
    t.hour * 3600 + t.minute * 60 + t.second
  }

  /** The number of common epochs: `(eh - sh) * 3600 + (em - sm) * 60 + (es - ss)`. */
  function EpochCount(start: Timestamp, end: Timestamp): int
  {
    (end.hour - start.hour) * 3600 + (end.minute - start.minute) * 60 + (end.second - start.second)
  }

  /** One second later, carrying into minutes and hours. */
  function Tick(t: Timestamp): Timestamp
  {
    if t.second < 59 then t.(second := t.second + 1)
    else if t.minute < 59 then Timestamp(t.hour, t.minute + 1, 0)
    else Timestamp(t.hour + 1, 0, 0)
  }

  /** `n` seconds later. */
  function Ticks(t: Timestamp, n: nat): Timestamp
  {
    if n == 0 then t else Tick(Ticks(t, n - 1))
  }

  /** On valid clock readings the list order is the order of seconds since midnight. */
  lemma OrderIsSeconds(a: Timestamp, b: Timestamp)
    requires ValidClock(a) && ValidClock(b)
    ensures Less(a, b) <==> SecondsOf(a) < SecondsOf(b)
    ensures a == b <==> SecondsOf(a) == SecondsOf(b)
  {
  }

  /** The epoch count is non-negative exactly when the window is not reversed, and zero exactly when it is a single instant. */
  lemma EpochCountSign(start: Timestamp, end: Timestamp)
    requires ValidClock(start) && ValidClock(end)
    ensures EpochCount(start, end) >= 0 <==> LessEq(start, end)
    ensures EpochCount(start, end) == 0 <==> start == end
  {
    OrderIsSeconds(start, end);
  }

  lemma {:induction false} TicksSeconds(t: Timestamp, n: nat)
    requires ValidClock(t)
    ensures ValidClock(Ticks(t, n)) && SecondsOf(Ticks(t, n)) == SecondsOf(t) + n
  {
    if n > 0 {
      TicksSeconds(t, n - 1);
    }
  }

  /** A clock ticking once per second from the common start reaches the common end after exactly the epoch count. */
  lemma TicksReachEnd(start: Timestamp, end: Timestamp)
    requires ValidClock(start) && ValidClock(end) && LessEq(start, end)
    ensures EpochCount(start, end) >= 0 && Ticks(start, EpochCount(start, end)) == end
  {
    EpochCountSign(start, end);
    var n := EpochCount(start, end);
    TicksSeconds(start, n);
    OrderIsSeconds(Ticks(start, n), end);
  }

  /**
   * For a log stamped once per second from the common start, none of the
   * `count` aligned epochs is stamped with the common end: the series cover
   * [common start, common end) and leave the end epoch out.
   */
  lemma AlignedEpochsPrecedeEnd(log: seq<GpsState>, offset: nat, start: Timestamp, end: Timestamp)
    requires ValidClock(start) && ValidClock(end) && LessEq(start, end)
    requires offset + EpochCount(start, end) <= |log|
    requires forall j :: offset <= j < offset + EpochCount(start, end) ==> log[j].timestamp == Ticks(start, j - offset)
    ensures forall j :: offset <= j < offset + EpochCount(start, end) ==> Less(log[j].timestamp, end)
  {
    forall j | offset <= j < offset + EpochCount(start, end)
      ensures Less(log[j].timestamp, end)
    {
      TicksSeconds(start, j - offset);
      OrderIsSeconds(Ticks(start, j - offset), end);
    }
  }

  // ---------------------------------------------------------------------------
  // The common window

  predicate NonEmptyLogs(logs: seq<seq<GpsState>>)
  {
    forall i :: 0 <= i < |logs| ==> |logs[i]| > 0
  }

  /** `gnss_data[0].timestamp` of each log. */
  function StartTimes(logs: seq<seq<GpsState>>): seq<Timestamp>
    requires NonEmptyLogs(logs)
  {
    seq(|logs|, i requires 0 <= i < |logs| => logs[i][0].timestamp)
  }

  /** `gnss_data[-1].timestamp` of each log. */
  function StopTimes(logs: seq<seq<GpsState>>): seq<Timestamp>
    requires NonEmptyLogs(logs)
  {
    seq(|logs|, i requires 0 <= i < |logs| => logs[i][|logs[i]| - 1].timestamp)
  }

  function CommonStart(logs: seq<seq<GpsState>>): Timestamp
    requires |logs| > 0 && NonEmptyLogs(logs)
  {
    MaxTime(StartTimes(logs))
  }

  function CommonEnd(logs: seq<seq<GpsState>>): Timestamp
    requires |logs| > 0 && NonEmptyLogs(logs)
  {
    MinTime(StopTimes(logs))
  }

  /** The common start is the latest first epoch of some log, the common end the earliest last epoch of some log. */
  lemma CommonWindowBounds(logs: seq<seq<GpsState>>)
    requires |logs| > 0 && NonEmptyLogs(logs)
    ensures forall i :: 0 <= i < |logs| ==> LessEq(logs[i][0].timestamp, CommonStart(logs))
    ensures forall i :: 0 <= i < |logs| ==> LessEq(CommonEnd(logs), logs[i][|logs[i]| - 1].timestamp)
    ensures exists i :: 0 <= i < |logs| && logs[i][0].timestamp == CommonStart(logs)
    ensures exists i :: 0 <= i < |logs| && logs[i][|logs[i]| - 1].timestamp == CommonEnd(logs)
  {
    var starts, stops := StartTimes(logs), StopTimes(logs);
    assert forall i :: 0 <= i < |logs| ==> starts[i] == logs[i][0].timestamp;
    assert forall i :: 0 <= i < |logs| ==> stops[i] == logs[i][|logs[i]| - 1].timestamp;
    var s :| 0 <= s < |starts| && starts[s] == CommonStart(logs);
    var e :| 0 <= e < |stops| && stops[e] == CommonEnd(logs);
  }

  /** The indices `j < n` of `log` whose epoch is stamped `t`, ascending. */
  function Matches(log: seq<GpsState>, t: Timestamp, n: nat): seq<nat>
    requires n <= |log|
  {
    if n == 0 then []
    else Matches(log, t, n - 1) + (if log[n - 1].timestamp == t then [n - 1] else [])
  }

  /** `Matches` lists exactly the epochs stamped `t`, each once, in ascending order. */
  lemma {:induction false} MatchesExact(log: seq<GpsState>, t: Timestamp, n: nat)
    requires n <= |log|
    ensures forall j: nat :: j in Matches(log, t, n) <==> j < n && log[j].timestamp == t
    ensures forall a, b :: 0 <= a < b < |Matches(log, t, n)| ==> Matches(log, t, n)[a] < Matches(log, t, n)[b]
  {
    if n > 0 {
      MatchesExact(log, t, n - 1);
      var prev := Matches(log, t, n - 1);
      var extra: seq<nat> := if log[n - 1].timestamp == t then [n - 1] else [];
      assert Matches(log, t, n) == prev + extra;
      assert forall j :: j in prev ==> j < n - 1;
      forall j: nat
        ensures j in Matches(log, t, n) <==> j < n && log[j].timestamp == t
      {
        assert j in prev + extra <==> j in prev || j in extra;
      }
      forall a, b | 0 <= a < b < |prev + extra|
        ensures (prev + extra)[a] < (prev + extra)[b]
      {
        if b >= |prev| {
          assert prev[a] in prev;
        }
      }
    }
  }

  /** What the offset search appends, log after log: every matching index of every log. */
  function AllMatches(logs: seq<seq<GpsState>>, t: Timestamp): seq<nat>
  {
    if |logs| == 0 then []
    else
      var last := logs[|logs| - 1];
      AllMatches(logs[..|logs| - 1], t) + Matches(last, t, |last|)
  }

  /** Exactly one epoch of `log` is stamped `t`. */
  predicate StampedOnce(log: seq<GpsState>, t: Timestamp)
  {
    exists j :: 0 <= j < |log| && log[j].timestamp == t
      && forall k :: 0 <= k < |log| && log[k].timestamp == t ==> k == j
  }

  lemma {:induction false} MatchesOfUnique(log: seq<GpsState>, t: Timestamp, j: nat, n: nat)
    requires j < |log| && log[j].timestamp == t
    requires forall k :: 0 <= k < |log| && log[k].timestamp == t ==> k == j
    requires n <= |log|
    ensures Matches(log, t, n) == if j < n then [j] else []
  {
    if n > 0 {
      MatchesOfUnique(log, t, j, n - 1);
    }
  }

  lemma StampedOnceMatches(log: seq<GpsState>, t: Timestamp)
    requires StampedOnce(log, t)
    ensures |Matches(log, t, |log|)| == 1
    ensures var j := Matches(log, t, |log|)[0]; j < |log| && log[j].timestamp == t
  {
    var j :| 0 <= j < |log| && log[j].timestamp == t
      && forall k :: 0 <= k < |log| && log[k].timestamp == t ==> k == j;
    MatchesOfUnique(log, t, j, |log|);
  }

  /**
   * When every log has exactly one epoch at `t`, the offset recorded at position
   * i belongs to log i: it is the index of that log's epoch stamped `t`.
   */
  lemma {:induction false} UniqueStartOffsets(logs: seq<seq<GpsState>>, t: Timestamp)
    requires forall i :: 0 <= i < |logs| ==> StampedOnce(logs[i], t)
    ensures |AllMatches(logs, t)| == |logs|
    ensures forall i :: 0 <= i < |logs| ==>
      AllMatches(logs, t)[i] < |logs[i]| && logs[i][AllMatches(logs, t)[i]].timestamp == t
  {
    if |logs| > 0 {
      var front := logs[..|logs| - 1];
      var last := logs[|logs| - 1];
      UniqueStartOffsets(front, t);
      StampedOnceMatches(last, t);
    }
  }

  /** A log that repeats the start timestamp shifts the offsets of the logs after it. */
  lemma RepeatedStartShiftsOffsets(a: GpsState, b: GpsState)
    requires a.timestamp != b.timestamp
    ensures AllMatches([[a, b, a], [a]], a.timestamp) == [0, 2, 0]
  {
    var t := a.timestamp;
    var logs := [[a, b, a], [a]];
    assert Matches([a, b, a], t, 3) == [0, 2] by {
      assert Matches([a, b, a], t, 1) == [0];
      assert Matches([a, b, a], t, 2) == [0];
    }
    assert Matches([a], t, 1) == [0];
    assert logs[..1] == [[a, b, a]] && logs[..1][..0] == [];
    assert AllMatches(logs[..1], t) == [0, 2];
  }

  // ---------------------------------------------------------------------------
  // Aligned series

  function Len(count: int): nat { if count > 0 then count else 0 }

  /** Every `start_comp_cnts[i] + j` the series read is an epoch of log i. */
  predicate InBounds(logs: seq<seq<GpsState>>, offs: seq<nat>, count: int)
  {
    count > 0 ==> |offs| >= |logs| && forall i :: 0 <= i < |logs| ==> offs[i] + count <= |logs[i]|
  }

  /** The logs can be aligned without raising: at least one log, none empty, every aligned epoch present. */
  predicate Alignable(logs: seq<seq<GpsState>>)
  {
    && |logs| > 0 && NonEmptyLogs(logs)
    && InBounds(logs, AllMatches(logs, CommonStart(logs)), EpochCount(CommonStart(logs), CommonEnd(logs)))
  }

  /** One row per log, each `count` long, element j taken from epoch `offs[i] + j`. */
  ghost predicate IsSeries<T>(rows: seq<seq<T>>, logs: seq<seq<GpsState>>, offs: seq<nat>, count: int, f: GpsState -> T)
    requires InBounds(logs, offs, count)
  {
    && |rows| == |logs|
    && forall i :: 0 <= i < |logs| ==>
         && |rows[i]| == Len(count)
         && forall j :: 0 <= j < |rows[i]| ==> rows[i][j] == f(logs[i][offs[i] + j])
  }

  function Hdop(g: GpsState): real { g.hdop }

  function SatellitesInUse(g: GpsState): int { g.satellitesInUse }

  function FixType(g: GpsState): int { g.fixType }

  /** The loop shape shared by `hdops`, `sv_in_use` and `stats`: per log, one row of `f` over the aligned epochs. */
  method BuildSeries<T>(logs: seq<seq<GpsState>>, offs: seq<nat>, count: int, f: GpsState -> T)
    returns (rows: seq<seq<T>>)
    requires InBounds(logs, offs, count)
    ensures IsSeries(rows, logs, offs, count, f)
  {
    rows := [];
    for i := 0 to |logs|
      invariant |rows| == i
      invariant forall k :: 0 <= k < i ==> |rows[k]| == Len(count)
      invariant forall k, j :: 0 <= k < i && 0 <= j < |rows[k]| ==> rows[k][j] == f(logs[k][offs[k] + j])
    {
      var row := [];
      for j := 0 to Len(count)
        invariant |row| == j
        invariant forall m :: 0 <= m < j ==> row[m] == f(logs[i][offs[i] + m])
      {
        row := row + [f(logs[i][offs[i] + j])];
      }
      rows := rows + [row];
    }
  }

  // ---------------------------------------------------------------------------
  // Mean carrier-to-noise ratio

  function SnrSum(sats: seq<Satellite>): real
  {
    if |sats| == 0 then 0.0
    else SnrSum(sats[..|sats| - 1]) + (if sats[|sats| - 1].snr.Some? then sats[|sats| - 1].snr.value else 0.0)
  }

  function SnrCount(sats: seq<Satellite>): nat
  {
    if |sats| == 0 then 0
    else SnrCount(sats[..|sats| - 1]) + (if sats[|sats| - 1].snr.Some? then 1 else 0)
  }

  /** Mean SNR over the satellites that report one; None when none does. */
  function MeanSnr(sats: seq<Satellite>): Option<real>
  {
    if SnrCount(sats) == 0 then None else Some(SnrSum(sats) / SnrCount(sats) as real)
  }

  /** The inner loop over `satellite_data.items()`: count and sum the present SNR values, then divide. */
  method AverageSnr(sats: seq<Satellite>) returns (mean: Option<real>)
    ensures mean == MeanSnr(sats)
  {
    var count, summary := 0, 0.0;
    for k := 0 to |sats|
      invariant count == SnrCount(sats[..k]) && summary == SnrSum(sats[..k])
    {
      assert sats[..k + 1][..k] == sats[..k];
      if sats[k].snr.Some? {
        count := count + 1;
        summary := summary + sats[k].snr.value;
      }
    }
    assert sats[..|sats|] == sats;
    if count != 0 {
      mean := Some(summary / count as real);
    } else {
      mean := None;
    }
  }

  /** There is no mean exactly when no satellite reports an SNR value. */
  lemma {:induction false} MeanSnrAbsentIff(sats: seq<Satellite>)
    ensures MeanSnr(sats) == None <==> forall k :: 0 <= k < |sats| ==> sats[k].snr == None
  {
    if |sats| > 0 {
      MeanSnrAbsentIff(sats[..|sats| - 1]);
      assert forall k :: 0 <= k < |sats| - 1 ==> sats[..|sats| - 1][k] == sats[k];
    }
  }

  lemma {:induction false} SnrSumBounds(sats: seq<Satellite>, lo: real, hi: real)
    requires forall k :: 0 <= k < |sats| && sats[k].snr.Some? ==> lo <= sats[k].snr.value <= hi
    ensures lo * SnrCount(sats) as real <= SnrSum(sats) <= hi * SnrCount(sats) as real
  {
    if |sats| > 0 {
      SnrSumBounds(sats[..|sats| - 1], lo, hi);
    }
  }

  lemma DivideBounds(sum: real, n: real, lo: real, hi: real)
    requires n > 0.0 && lo * n <= sum <= hi * n
    ensures lo <= sum / n <= hi
  {
  }

  /** The mean lies between the smallest and the largest reported SNR: absent values pull it neither up nor down. */
  lemma MeanSnrBetween(sats: seq<Satellite>, lo: real, hi: real)
    requires forall k :: 0 <= k < |sats| && sats[k].snr.Some? ==> lo <= sats[k].snr.value <= hi
    requires MeanSnr(sats).Some?
    ensures lo <= MeanSnr(sats).value <= hi
  {
    SnrSumBounds(sats, lo, hi);
    DivideBounds(SnrSum(sats), SnrCount(sats) as real, lo, hi);
  }

  /** Three satellites with SNR None, 35.2 and 41.0: the mean is 38.1, not 25.4. */
  lemma MeanSnrSkipsAbsent(a: Satellite, b: Satellite, c: Satellite)
    requires a.snr == None && b.snr == Some(35.2) && c.snr == Some(41.0)
    ensures MeanSnr([a, b, c]) == Some(38.1)
  {
    var s := [a, b, c];
    assert s[..2] == [a, b] && [a, b][..1] == [a] && [a][..0] == [];
    assert SnrCount([a]) == 0 && SnrSum([a]) == 0.0;
    assert SnrCount([a, b]) == 1 && SnrSum([a, b]) == 35.2;
    assert SnrCount(s) == 2 && SnrSum(s) == 76.2;
  }

  /** A log's row of mean SNR over the aligned epochs. */
  function Cn0Row(log: seq<GpsState>, offset: nat, count: int): seq<Option<real>>
    requires count > 0 ==> offset + count <= |log|
  {
    seq(Len(count), j requires 0 <= j < Len(count) => MeanSnr(log[offset + j].satelliteData))
  }

  /** A row is kept only when the log's last aligned epoch had an SNR value (`add_line` after the loop). */
  predicate KeepsCn0Row(log: seq<GpsState>, offset: nat, count: int)
    requires count > 0 ==> offset + count <= |log|
  {
    count > 0 && MeanSnr(log[offset + count - 1].satelliteData).Some?
  }

  /** The rows `cn0ms` holds after the first n logs. */
  function KeptCn0Rows(logs: seq<seq<GpsState>>, offs: seq<nat>, count: int, n: nat): seq<seq<Option<real>>>
    requires InBounds(logs, offs, count) && n <= |logs|
  {
    if n == 0 then []
    else
      KeptCn0Rows(logs, offs, count, n - 1)
        + (if count > 0 && KeepsCn0Row(logs[n - 1], offs[n - 1], count) then [Cn0Row(logs[n - 1], offs[n - 1], count)] else [])
  }

  /** At most one row per log is kept, and every kept row spans the aligned epochs. */
  lemma {:induction false} KeptCn0RowsBound(logs: seq<seq<GpsState>>, offs: seq<nat>, count: int, n: nat)
    requires InBounds(logs, offs, count) && n <= |logs|
    ensures |KeptCn0Rows(logs, offs, count, n)| <= n
    ensures forall r :: 0 <= r < |KeptCn0Rows(logs, offs, count, n)| ==> |KeptCn0Rows(logs, offs, count, n)[r]| == Len(count)
  {
    if n > 0 {
      KeptCn0RowsBound(logs, offs, count, n - 1);
    }
  }

  /** The `cn0ms` loop, including `add_line` carried from one log to the next. */
  method BuildCn0Rows(logs: seq<seq<GpsState>>, offs: seq<nat>, count: int)
    returns (cn0ms: seq<seq<Option<real>>>, histCounter: nat)
    requires InBounds(logs, offs, count)
    ensures cn0ms == KeptCn0Rows(logs, offs, count, |logs|)
    ensures histCounter == |cn0ms| <= |logs|
  {
    cn0ms, histCounter := [], 0;
    var addLine := 0;
    for i := 0 to |logs|
      invariant cn0ms == KeptCn0Rows(logs, offs, count, i) && histCounter == |cn0ms|
      invariant count <= 0 ==> addLine == 0
    {
      var row: seq<Option<real>> := [];
      for j := 0 to Len(count)
        invariant |row| == j
        invariant forall m :: 0 <= m < j ==> row[m] == MeanSnr(logs[i][offs[i] + m].satelliteData)
        invariant count <= 0 ==> addLine == 0
        invariant j > 0 ==> (addLine != 0 <==> MeanSnr(logs[i][offs[i] + j - 1].satelliteData).Some?)
      {
        var mean := AverageSnr(logs[i][offs[i] + j].satelliteData);
        if mean.Some? {
          addLine := 1;
          row := row + [mean];
        } else {
          addLine := 0;
          row := row + [None];
        }
      }
      if count > 0 {
        assert row == Cn0Row(logs[i], offs[i], count);
        assert addLine != 0 <==> KeepsCn0Row(logs[i], offs[i], count);
      }
      if addLine != 0 {
        histCounter := histCounter + 1;
        cn0ms := cn0ms + [row];
      }
    }
    KeptCn0RowsBound(logs, offs, count, |logs|);
  }

  // ---------------------------------------------------------------------------
  // Position errors

  /** The reference position `true_llh`. */
  datatype Llh = Llh(latitude: real, longitude: real, altitude: real)

  /** `true_llh == [0, 0, 0]` switches the error series off. */
  predicate IsZeroReference(ref: Llh)
  {
    ref.latitude == 0.0 && ref.longitude == 0.0 && ref.altitude == 0.0
  }

  /** `angle[1] / 60 + angle[0]` (the hemisphere is not applied). */
  function DecimalDegrees(a: Angle): real
  {
    a.degrees as real + a.minutes / 60.0
  }

  /** With minutes in 0..60 the decimal value lies in the degree it names. */
  lemma DecimalDegreesInDegree(a: Angle)
    requires 0.0 <= a.minutes < 60.0
    ensures a.degrees as real <= DecimalDegrees(a) < a.degrees as real + 1.0
  {
  }

  /** Reference (55.983528048, 37.209562621), decoded 55 deg 59.016 min and 37 deg 12.57 min. */
  lemma ErrorExample(g: GpsState)
    requires g.latitude.degrees == 55 && g.latitude.minutes == 59.016
    requires g.longitude.degrees == 37 && g.longitude.minutes == 12.57
    ensures DecimalDegrees(g.latitude) - 55.983528048 == 0.000071952
    ensures DecimalDegrees(g.longitude) - 37.209562621 == -0.000062621
  {
  }

  /**
   * One latitude-error row and one longitude-error row per log; empty rows when
   * the reference is all zeros, otherwise decoded position minus reference.
   */
  ghost predicate ErrorRows(latRows: seq<seq<real>>, lonRows: seq<seq<real>>,
                            logs: seq<seq<GpsState>>, offs: seq<nat>, count: int, ref: Llh)
    requires InBounds(logs, offs, count)
  {
    && |latRows| == |logs| && |lonRows| == |logs|
    && forall i :: 0 <= i < |logs| ==>
         && |latRows[i]| == (if IsZeroReference(ref) then 0 else Len(count))
         && |lonRows[i]| == |latRows[i]|
         && forall j :: 0 <= j < |latRows[i]| ==>
              && latRows[i][j] == DecimalDegrees(logs[i][offs[i] + j].latitude) - ref.latitude
              && lonRows[i][j] == DecimalDegrees(logs[i][offs[i] + j].longitude) - ref.longitude
  }

  method BuildErrors(logs: seq<seq<GpsState>>, offs: seq<nat>, count: int, trueLlh: Llh)
    returns (latsErrors: seq<seq<real>>, lonsErrors: seq<seq<real>>)
    requires InBounds(logs, offs, count)
    ensures ErrorRows(latsErrors, lonsErrors, logs, offs, count, trueLlh)
  {
    latsErrors, lonsErrors := [], [];
    for i := 0 to |logs|
      invariant |latsErrors| == i && |lonsErrors| == i
      invariant forall k :: 0 <= k < i ==>
        && |latsErrors[k]| == (if IsZeroReference(trueLlh) then 0 else Len(count))
        && |lonsErrors[k]| == |latsErrors[k]|
      invariant forall k, j :: 0 <= k < i && 0 <= j < |latsErrors[k]| ==>
        && latsErrors[k][j] == DecimalDegrees(logs[k][offs[k] + j].latitude) - trueLlh.latitude
        && lonsErrors[k][j] == DecimalDegrees(logs[k][offs[k] + j].longitude) - trueLlh.longitude
    {
      var rowLat, rowLon := [], [];
      for j := 0 to Len(count)
        invariant |rowLat| == |rowLon| == (if IsZeroReference(trueLlh) then 0 else j)
        invariant forall m :: 0 <= m < |rowLat| ==>
          && rowLat[m] == DecimalDegrees(logs[i][offs[i] + m].latitude) - trueLlh.latitude
          && rowLon[m] == DecimalDegrees(logs[i][offs[i] + m].longitude) - trueLlh.longitude
      {
        if !IsZeroReference(trueLlh) {
          var epoch := logs[i][offs[i] + j];
          var lat := DecimalDegrees(epoch.latitude);
          var lon := DecimalDegrees(epoch.longitude);
          rowLat := rowLat + [lat - trueLlh.latitude];
          rowLon := rowLon + [lon - trueLlh.longitude];
        }
      }
      latsErrors := latsErrors + [rowLat];
      lonsErrors := lonsErrors + [rowLon];
    }
  }

  // ---------------------------------------------------------------------------
  // Offset search

  /** The nested loop that records, log after log, the indices stamped with the common start and end. */
  method FindOffsets(logs: seq<seq<GpsState>>, start: Timestamp, end: Timestamp)
    returns (startIndices: seq<nat>, endIndices: seq<nat>)
    ensures startIndices == AllMatches(logs, start)
    ensures endIndices == AllMatches(logs, end)
  {
    startIndices, endIndices := [], [];
    for i := 0 to |logs|
      invariant startIndices == AllMatches(logs[..i], start)
      invariant endIndices == AllMatches(logs[..i], end)
    {
      assert logs[..i + 1][..i] == logs[..i];
      for j := 0 to |logs[i]|
        invariant startIndices == AllMatches(logs[..i], start) + Matches(logs[i], start, j)
        invariant endIndices == AllMatches(logs[..i], end) + Matches(logs[i], end, j)
      {
        if logs[i][j].timestamp == start {
          startIndices := startIndices + [j];
        }
        if logs[i][j].timestamp == end {
          endIndices := endIndices + [j];
        }
      }
    }
    assert logs[..|logs|] == logs;
  }

  // ---------------------------------------------------------------------------
  // The aggregator object

  /** An entry of `stop_times_list`: a log's last timestamp, or (appended later) an index matching the common end. */
  datatype StopEntry = StopTime(time: Timestamp) | EndIndex(index: nat)

  function StopTimeEntries(ts: seq<Timestamp>): seq<StopEntry>
  {
    seq(|ts|, k requires 0 <= k < |ts| => StopTime(ts[k]))
  }

  function EndIndexEntries(indices: seq<nat>): seq<StopEntry>
  {
    seq(|indices|, k requires 0 <= k < |indices| => EndIndex(indices[k]))
  }

  /** The epochs of each file, parsed by a fresh reader with decoders starting in `init`. */
  function ParsedLogs(files: seq<seq<string>>, init: GpsState, step: Step): seq<seq<GpsState>>
    requires forall f :: 0 <= f < |files| ==> ParseLogFile.AllWellFormed(files[f])
  {
    seq(|files|, f requires 0 <= f < |files| =>
      ParseLogFile.Run(step, ParseLogFile.Reader(init, init, init, ParseLogFile.EmptyLog), files[f]).log.gnssData)
  }

  /** The aligned series for one set of logs (the outputs of the aggregation, as values). */
  datatype AlignedSeries = AlignedSeries(
    startCompCnts: seq<nat>,
    commonTimeCounter: int,
    hdops: seq<seq<real>>,
    svInUse: seq<seq<int>>,
    cn0ms: seq<seq<Option<real>>>,
    histCounter: nat,
    stats: seq<seq<int>>,
    latsErrors: seq<seq<real>>,
    lonsErrors: seq<seq<real>>)

  /**
   * `a` is the alignment of `logs`: offsets of the common start, the epoch count of
   * the common window, and every series built over the aligned epochs.
   */
  ghost predicate IsAlignment(a: AlignedSeries, logs: seq<seq<GpsState>>, trueLlh: Llh)
    requires Alignable(logs)
  {
    var start, end := CommonStart(logs), CommonEnd(logs);
    var offs, count := AllMatches(logs, start), EpochCount(start, end);
    && a.startCompCnts == offs
    && a.commonTimeCounter == count
    && IsSeries(a.hdops, logs, offs, count, Hdop)
    && IsSeries(a.svInUse, logs, offs, count, SatellitesInUse)
    && a.cn0ms == KeptCn0Rows(logs, offs, count, |logs|)
    && a.histCounter == |a.cn0ms| <= |logs|
    && IsSeries(a.stats, logs, offs, count, FixType)
    && ErrorRows(a.latsErrors, a.lonsErrors, logs, offs, count, trueLlh)
  }

  /**
   * The aggregation over logs already read: the common window from
   * the first and last timestamps of each log, the offset search, the epoch count and
   * the series. Also returns the indices matching the common end.
   */
  method AlignLogs(logs: seq<seq<GpsState>>, trueLlh: Llh, startTimes: seq<Timestamp>, stopTimes: seq<Timestamp>)
    returns (a: AlignedSeries, endIndices: seq<nat>)
    requires Alignable(logs)
    requires startTimes == StartTimes(logs) && stopTimes == StopTimes(logs)
    ensures IsAlignment(a, logs, trueLlh)
    ensures endIndices == AllMatches(logs, CommonEnd(logs))
  {
    var commonStartTime := MaxTime(startTimes);
    var commonEndTime := MinTime(stopTimes);

    var startIndices, endFound := FindOffsets(logs, commonStartTime, commonEndTime);
    var count := EpochCount(commonStartTime, commonEndTime);

    var hdops := BuildSeries(logs, startIndices, count, Hdop);
    var svInUse := BuildSeries(logs, startIndices, count, SatellitesInUse);
    var cn0ms, histCounter := BuildCn0Rows(logs, startIndices, count);
    var stats := BuildSeries(logs, startIndices, count, FixType);
    var latsErrors, lonsErrors := BuildErrors(logs, startIndices, count, trueLlh);
    a := AlignedSeries(startIndices, count, hdops, svInUse, cn0ms, histCounter, stats, latsErrors, lonsErrors);
    endIndices := endFound;
  }

  class GNSSParser {
    var numberOfLogs: nat
    var startCompCnts: seq<nat>
    var endCompCnts: seq<nat>
    var parsedFiles: seq<seq<GpsState>>
    var startTimesList: seq<Timestamp>
    var stopTimesList: seq<StopEntry>
    var commonTimeCounter: int
    var hdops: seq<seq<real>>
    var svInUse: seq<seq<int>>
    var cn0ms: seq<seq<Option<real>>>
    var histCounter: nat
    var stats: seq<seq<int>>
    var latsErrors: seq<seq<real>>
    var lonsErrors: seq<seq<real>>

    /** The state `__init__` leaves: no logs, every list empty, every counter zero. */
    ghost predicate Initial()
      reads this
    {
      && numberOfLogs == 0 && startCompCnts == [] && endCompCnts == [] && parsedFiles == []
      && startTimesList == [] && stopTimesList == [] && commonTimeCounter == 0
      && hdops == [] && svInUse == [] && cn0ms == [] && histCounter == 0 && stats == []
      && latsErrors == [] && lonsErrors == []
    }

    constructor ()
      ensures Initial()
    {
      numberOfLogs, startCompCnts, endCompCnts, parsedFiles := 0, [], [], [];
      startTimesList, stopTimesList, commonTimeCounter := [], [], 0;
      hdops, svInUse, cn0ms, histCounter, stats := [], [], [], 0, [];
      latsErrors, lonsErrors := [], [];
    }

    /** The series fields of this object, as one value. */
    function Outputs(): AlignedSeries
      reads this
    {
      AlignedSeries(startCompCnts, commonTimeCounter, hdops, svInUse, cn0ms, histCounter, stats, latsErrors, lonsErrors)
    }

    /** What the aggregation leaves in this object for the logs `logs` and reference `trueLlh`. */
    ghost predicate Aggregated(logs: seq<seq<GpsState>>, trueLlh: Llh)
      requires Alignable(logs)
      reads this
    {
      && numberOfLogs == |logs|
      && parsedFiles == logs
      && startTimesList == StartTimes(logs)
      && stopTimesList == StopTimeEntries(StopTimes(logs)) + EndIndexEntries(AllMatches(logs, CommonEnd(logs)))
      && endCompCnts == []
      && IsAlignment(Outputs(), logs, trueLlh)
    }

    /**
     * Parses every file, aligns the logs on their common window and fills the
     * per-log series. `files[f]` are the lines of the f-th log file.
     */
    method ParseFewLogsSimultaneously(files: seq<seq<string>>, trueLlh: Llh, init: GpsState, step: Step)
      requires Initial()
      requires forall f :: 0 <= f < |files| ==> ParseLogFile.AllWellFormed(files[f])
      requires Alignable(ParsedLogs(files, init, step))
      modifies this
      ensures Aggregated(ParsedLogs(files, init, step), trueLlh)
    {
      var stopTimes := ReadLogs(files, init, step);
      Aggregate(trueLlh, stopTimes);
    }

    /** The first loop: parse each file and note its first and last timestamps. */
    method ReadLogs(files: seq<seq<string>>, init: GpsState, step: Step) returns (stopTimes: seq<Timestamp>)
      requires Initial()
      requires forall f :: 0 <= f < |files| ==> ParseLogFile.AllWellFormed(files[f])
      requires NonEmptyLogs(ParsedLogs(files, init, step))
      modifies this`numberOfLogs, this`parsedFiles, this`startTimesList, this`stopTimesList
      ensures numberOfLogs == |files|
      ensures parsedFiles == ParsedLogs(files, init, step)
      ensures startTimesList == StartTimes(parsedFiles)
      ensures stopTimes == StopTimes(parsedFiles) && stopTimesList == StopTimeEntries(stopTimes)
    {
      ghost var logs := ParsedLogs(files, init, step);
      numberOfLogs := |files|;
      stopTimes := [];
      for f := 0 to |files|
        invariant parsedFiles == logs[..f]
        invariant startTimesList == StartTimes(logs)[..f]
        invariant stopTimes == StopTimes(logs)[..f]
        invariant stopTimesList == StopTimeEntries(stopTimes)
        invariant numberOfLogs == |files|
      {
        var parser := new ParseLogFile.ParseGNSSLogs();
        parser.ParseLogFile(files[f], init, step);
        var gnssData := parser.gnssData;
        assert gnssData == logs[f];
        parsedFiles := parsedFiles + [gnssData];
        startTimesList := startTimesList + [gnssData[0].timestamp];
        stopTimes := stopTimes + [gnssData[|gnssData| - 1].timestamp];
        stopTimesList := stopTimesList + [StopTime(gnssData[|gnssData| - 1].timestamp)];
      }
      assert logs[..|files|] == logs;
    }

    /** The common window, the offset search and the series, over the logs already read. */
    method Aggregate(trueLlh: Llh, stopTimes: seq<Timestamp>)
      requires Alignable(parsedFiles) && numberOfLogs == |parsedFiles|
      requires startTimesList == StartTimes(parsedFiles)
      requires stopTimes == StopTimes(parsedFiles) && stopTimesList == StopTimeEntries(stopTimes)
      requires startCompCnts == [] && endCompCnts == []
      modifies this`startCompCnts, this`stopTimesList, this`commonTimeCounter, this`hdops, this`svInUse
      modifies this`cn0ms, this`histCounter, this`stats, this`latsErrors, this`lonsErrors
      ensures stopTimesList == StopTimeEntries(stopTimes) + EndIndexEntries(AllMatches(parsedFiles, CommonEnd(parsedFiles)))
      ensures IsAlignment(Outputs(), parsedFiles, trueLlh)
    {
      var a, endIndices := AlignLogs(parsedFiles, trueLlh, startTimesList, stopTimes);
      Store(a, endIndices);
    }

    /** Writes an alignment into the series fields and appends the end indices to `stopTimesList`. */
    method Store(a: AlignedSeries, endIndices: seq<nat>)
      requires startCompCnts == []
      modifies this`startCompCnts, this`stopTimesList, this`commonTimeCounter, this`hdops, this`svInUse
      modifies this`cn0ms, this`histCounter, this`stats, this`latsErrors, this`lonsErrors
      ensures Outputs() == a
      ensures stopTimesList == old(stopTimesList) + EndIndexEntries(endIndices)
    {
      startCompCnts := startCompCnts + a.startCompCnts;
      stopTimesList := stopTimesList + EndIndexEntries(endIndices);
      commonTimeCounter := a.commonTimeCounter;
      hdops, svInUse := a.hdops, a.svInUse;
      cn0ms, histCounter := a.cn0ms, a.histCounter;
      stats := a.stats;
      latsErrors, lonsErrors := a.latsErrors, a.lonsErrors;
    }
  }

  /** Three logs starting at 14:58:10, 14:58:15 and 14:58:12 and ending at 15:02:00, 15:01:50 and 15:01:55 share 215 epochs. */
  lemma WindowExample()
    ensures MaxTime([Timestamp(14, 58, 10), Timestamp(14, 58, 15), Timestamp(14, 58, 12)]) == Timestamp(14, 58, 15)
    ensures MinTime([Timestamp(15, 2, 0), Timestamp(15, 1, 50), Timestamp(15, 1, 55)]) == Timestamp(15, 1, 50)
    ensures EpochCount(Timestamp(14, 58, 15), Timestamp(15, 1, 50)) == 215
  {
    var starts := [Timestamp(14, 58, 10), Timestamp(14, 58, 15), Timestamp(14, 58, 12)];
    var stops := [Timestamp(15, 2, 0), Timestamp(15, 1, 50), Timestamp(15, 1, 55)];
    assert starts[..2] == starts[..2] && starts[..2][..1] == [Timestamp(14, 58, 10)];
    assert stops[..2][..1] == [Timestamp(15, 2, 0)];
  }
}
