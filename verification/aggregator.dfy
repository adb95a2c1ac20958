/** The telemetry aggregator, `log_task`: it takes one line at a time,
    appends `+CSQ` and `$GPGGA` lines to the log with the current wall-clock
    second, keeps the latest CSQ value found by the signal-quality search,
    and copies the time, latitude and longitude fields of an NMEA 0183 GGA
    sentence. A GGA sentence that is too short, or whose latitude or
    longitude field is not a number, raises and ends the loop; whatever was
    assigned before the raise stays assigned. */
module Aggregator {
  import opened Text
  import opened CsqPattern
  import CsqDisplay

  /** The Python exceptions one step can raise. */
  datatype Exception = IndexError | ValueError

  /** One line of `data.log`: `int(time())` and the raw message. */
  datatype LogEntry = LogEntry(time: int, line: string)

  /** The loop's local variables, and the lines written to the log so far. */
  datatype State = State(csq: nat, gpsTime: string, gpsLat: string, gpsLon: string, log: seq<LogEntry>)

  /** What one step leaves behind: the new state, and the exception that
      ended the loop, if one was raised. */
  datatype StepResult = StepResult(state: State, raised: Option<Exception>)

  /** `str(round(float(field), 3))`: the floating-point conversion and
      formatting of a coordinate field; `None` where `float` raises
      `ValueError`. It is a parameter of the model. */
  type CoordFormat = string -> Option<string>

  const CsqPrefix := "+CSQ"
  const GgaPrefix := "$GPGGA"

  /** The state before the first message. */
  const Initial := State(0, "", "", "", [])

  predicate IsLogged(msg: string) {
    StartsWith(msg, CsqPrefix) || StartsWith(msg, GgaPrefix)
  }

  /** `int(t)` for a float: truncation toward zero. */
  function Truncate(t: real): (n: int)
    ensures t >= 0.0 ==> 0 <= n && n as real <= t < n as real + 1.0
    ensures t < 0.0 ==> n <= 0 && n as real - 1.0 < t <= n as real
  {
    if t >= 0.0 then t.Floor else -((-t).Floor)
  }

  /** The GGA part of a step, field by field in the order the source
      evaluates them, stopping at the first exception. */
  function GgaStep(st: State, fields: seq<string>, fmt: CoordFormat): (r: StepResult)
    ensures r.state.csq == st.csq && r.state.log == st.log
    ensures r.raised.None? <==> |fields| >= 6 && fmt(fields[2]).Some? && fmt(fields[4]).Some?
    ensures r.raised.None? ==>
      r.state.gpsTime == fields[1]
      && r.state.gpsLat == fmt(fields[2]).value + " " + fields[3]
      && r.state.gpsLon == fmt(fields[4]).value + " " + fields[5]
    ensures r.raised == Some(ValueError) <==>
      (|fields| >= 3 && fmt(fields[2]).None?) || (|fields| >= 5 && fmt(fields[2]).Some? && fmt(fields[4]).None?)
    // on an exception: the time is set once there is a field 1, the
    // latitude once it was complete, the longitude never
    ensures r.raised.Some? ==>
      r.state.gpsTime == (if |fields| >= 2 then fields[1] else st.gpsTime)
      && r.state.gpsLat == (if |fields| >= 4 && fmt(fields[2]).Some? then fmt(fields[2]).value + " " + fields[3] else st.gpsLat)
      && r.state.gpsLon == st.gpsLon
  {
    if |fields| < 2 then StepResult(st, Some(IndexError))
    else
      var st1 := st.(gpsTime := fields[1]);
      if |fields| < 3 then StepResult(st1, Some(IndexError))
      else if fmt(fields[2]).None? then StepResult(st1, Some(ValueError))
      else if |fields| < 4 then StepResult(st1, Some(IndexError))
      else
        var st2 := st1.(gpsLat := fmt(fields[2]).value + " " + fields[3]);
        if |fields| < 5 then StepResult(st2, Some(IndexError))
        else if fmt(fields[4]).None? then StepResult(st2, Some(ValueError))
        else if |fields| < 6 then StepResult(st2, Some(IndexError))
        else StepResult(st2.(gpsLon := fmt(fields[4]).value + " " + fields[5]), None)
  }

  /** The part of a step that cannot raise: the log line and the CSQ value. */
  function Record(st: State, msg: string, now: real): State {
    var log := if IsLogged(msg) then st.log + [LogEntry(Truncate(now), msg)] else st.log;
    st.(log := log, csq := CsqAfter(st.csq, msg))
  }

  /** `latest_csq` after message `msg`: group 1 of the search when it
      matches, the previous value otherwise. */
  function CsqAfter(csq: nat, msg: string): nat {
    match CsqValue(msg)
    case Some(v) => v
    case None => csq
  }

  /** One pass of the loop body for message `msg`, read at clock time `now`. */
  function Next(st: State, msg: string, now: real, fmt: CoordFormat): (r: StepResult)
    // logging: one entry exactly for +CSQ and $GPGGA lines
    ensures r.state.log == st.log + (if IsLogged(msg) then [LogEntry(Truncate(now), msg)] else [])
    // CSQ: the search result when there is one, the old value otherwise
    ensures r.state.csq == (if CsqValue(msg).Some? then CsqValue(msg).value else st.csq)
    // GPS: untouched, and no exception, unless the line is a GGA sentence
    ensures !StartsWith(msg, GgaPrefix) ==>
      r.raised.None? && r.state.gpsTime == st.gpsTime && r.state.gpsLat == st.gpsLat && r.state.gpsLon == st.gpsLon
    ensures StartsWith(msg, GgaPrefix) ==>
      r == GgaStep(st.(log := r.state.log, csq := r.state.csq), Split(msg, ','), fmt)
  {
    var st1 := Record(st, msg, now);
    if StartsWith(msg, GgaPrefix) then GgaStep(st1, Split(msg, ','), fmt)
    else StepResult(st1, None)
  }

  /** A modem's `+CSQ: <rssi>,<ber>` answer: the line is logged, the CSQ
      value becomes rssi, the GPS fields stay, and the bar drawn next shows
      min(rssi, 30) filled slots. */
  lemma CsqResponseStep(st: State, rssi: nat, ber: nat, now: real, fmt: CoordFormat)
    ensures var msg := "+CSQ: " + NatToString(rssi) + "," + NatToString(ber);
      var r := Next(st, msg, now, fmt);
      r.raised.None?
      && r.state.log == st.log + [LogEntry(Truncate(now), msg)]
      && r.state.csq == rssi
      && r.state.gpsTime == st.gpsTime && r.state.gpsLat == st.gpsLat && r.state.gpsLon == st.gpsLon
      && Count(CsqDisplay.Bar(r.state.csq), '#') == (if rssi < 30 then rssi else 30)
  {
    var msg := "+CSQ: " + NatToString(rssi) + "," + NatToString(ber);
    assert StartsWith(msg, CsqPrefix) by { assert msg[..4] == CsqPrefix; }
    assert !StartsWith(msg, GgaPrefix) by { assert msg[0] != GgaPrefix[0]; }
    CsqResponseValue(rssi, ber);
    CsqDisplay.FilledCount(rssi);
  }

  /** The comma-separated fields of a GGA sentence built from its parts:
      the five fields after the tag, then the fields of the rest. */
  lemma GgaFields(utc: string, lat: string, ns: string, lon: string, ew: string, rest: string)
    requires ',' !in utc && ',' !in lat && ',' !in ns && ',' !in lon && ',' !in ew
    ensures Split(GgaPrefix + "," + utc + "," + lat + "," + ns + "," + lon + "," + ew + "," + rest, ',')
      == [GgaPrefix, utc, lat, ns, lon, ew] + Split(rest, ',')
  {
    var head := [GgaPrefix, utc, lat, ns, lon, ew];
    JoinWithSix(GgaPrefix, utc, lat, ns, lon, ew, ',');
    SplitFields(head, ',', rest);
  }

  /** Fields 1 to 5 of a list that starts with six known fields. */
  lemma SixFields<T>(a: T, b: T, c: T, d: T, e: T, f: T, t: seq<T>)
    ensures |[a, b, c, d, e, f] + t| >= 6
    ensures ([a, b, c, d, e, f] + t)[1] == b && ([a, b, c, d, e, f] + t)[2] == c && ([a, b, c, d, e, f] + t)[3] == d
    ensures ([a, b, c, d, e, f] + t)[4] == e && ([a, b, c, d, e, f] + t)[5] == f
  {
  }

  /** A well-formed GGA sentence: the step sets the three GPS fields from
      fields 1 to 5 and raises nothing. */
  lemma GgaSentenceStep(st: State, utc: string, lat: string, ns: string, lon: string, ew: string, rest: string,
                        now: real, fmt: CoordFormat)
    requires ',' !in utc && ',' !in lat && ',' !in ns && ',' !in lon && ',' !in ew
    requires fmt(lat).Some? && fmt(lon).Some?
    ensures var r := Next(st, GgaPrefix + "," + utc + "," + lat + "," + ns + "," + lon + "," + ew + "," + rest, now, fmt);
      r.raised.None?
      && r.state.gpsTime == utc
      && r.state.gpsLat == fmt(lat).value + " " + ns
      && r.state.gpsLon == fmt(lon).value + " " + ew
  {
    var msg := GgaPrefix + "," + utc + "," + lat + "," + ns + "," + lon + "," + ew + "," + rest;
    assert StartsWith(msg, GgaPrefix) by { assert msg[..6] == GgaPrefix; }
    GgaFields(utc, lat, ns, lon, ew, rest);
    var fields := Split(msg, ',');
    SixFields(GgaPrefix, utc, lat, ns, lon, ew, Split(rest, ','));
    var r := Next(st, msg, now, fmt);
    assert r == GgaStep(st.(log := r.state.log, csq := r.state.csq), fields, fmt);
  }

  /** The loop over a stream of messages, `clocks[k]` being the time read
      while handling `msgs[k]`. It stops after the first exception;
      `consumed` counts the messages taken off the queue. */
  datatype RunResult = RunResult(state: State, raised: Option<Exception>, consumed: nat)

  function Run(st: State, msgs: seq<string>, clocks: seq<real>, fmt: CoordFormat): (r: RunResult)
    requires |clocks| == |msgs|
    ensures r.consumed <= |msgs|
    ensures r.raised.None? ==> r.consumed == |msgs|
    ensures r.raised.Some? ==> 1 <= r.consumed && StartsWith(msgs[r.consumed - 1], GgaPrefix)
    decreases |msgs|
  {
    if msgs == [] then RunResult(st, None, 0)
    else
      var r := Next(st, msgs[0], clocks[0], fmt);
      if r.raised.Some? then RunResult(r.state, r.raised, 1)
      else
        var rest := Run(r.state, msgs[1..], clocks[1..], fmt);
        RunResult(rest.state, rest.raised, rest.consumed + 1)
  }

  /** A run that raises stops at the first message whose step raises: the
      messages before it are handled without an exception, and the step on
      it gives the final state and the exception. */
  lemma {:induction false} RunStopsAtFirst(st: State, msgs: seq<string>, clocks: seq<real>, fmt: CoordFormat)
    requires |clocks| == |msgs|
    ensures var r := Run(st, msgs, clocks, fmt);
      r.raised.Some? ==>
        var pre := Run(st, msgs[..r.consumed - 1], clocks[..r.consumed - 1], fmt);
        pre.raised.None? &&
        Next(pre.state, msgs[r.consumed - 1], clocks[r.consumed - 1], fmt) == StepResult(r.state, r.raised)
    decreases |msgs|
  {
    var r := Run(st, msgs, clocks, fmt);
    if r.raised.Some? {
      var n := Next(st, msgs[0], clocks[0], fmt);
      if n.raised.Some? {
        assert r == RunResult(n.state, n.raised, 1);
        assert msgs[..0] == [] && clocks[..0] == [];
      } else {
        var rest := Run(n.state, msgs[1..], clocks[1..], fmt);
        assert r == RunResult(rest.state, rest.raised, rest.consumed + 1);
        RunStopsAtFirst(n.state, msgs[1..], clocks[1..], fmt);
        var k := rest.consumed;
        var pm, pc := msgs[..k], clocks[..k];
        assert pm[0] == msgs[0] && pc[0] == clocks[0];
        assert pm[1..] == msgs[1..][..k - 1] && pc[1..] == clocks[1..][..k - 1];
        assert msgs[k] == msgs[1..][k - 1] && clocks[k] == clocks[1..][k - 1];
        var pre := Run(n.state, pm[1..], pc[1..], fmt);
        assert Run(st, pm, pc, fmt) == RunResult(pre.state, pre.raised, pre.consumed + 1);
      }
    }
  }

  /** The log lines a sequence of messages produces. */
  function LogEntries(msgs: seq<string>, clocks: seq<real>): seq<LogEntry>
    requires |clocks| == |msgs|
  {
    if msgs == [] then []
    else (if IsLogged(msgs[0]) then [LogEntry(Truncate(clocks[0]), msgs[0])] else [])
         + LogEntries(msgs[1..], clocks[1..])
  }

  /** The log is append-only: after a run it holds the old log followed by
      exactly the entries of the +CSQ and $GPGGA lines handled, in order,
      the line that raised included. */
  lemma {:induction false} RunLog(st: State, msgs: seq<string>, clocks: seq<real>, fmt: CoordFormat)
    requires |clocks| == |msgs|
    ensures var r := Run(st, msgs, clocks, fmt);
      r.state.log == st.log + LogEntries(msgs[..r.consumed], clocks[..r.consumed])
    decreases |msgs|
  {
    var r := Run(st, msgs, clocks, fmt);
    if msgs == [] {
      assert msgs[..0] == [];
    } else {
      var n := Next(st, msgs[0], clocks[0], fmt);
      var head := if IsLogged(msgs[0]) then [LogEntry(Truncate(clocks[0]), msgs[0])] else [];
      assert n.state.log == st.log + head;
      LogEntriesFirst(msgs, clocks, r.consumed);
      if n.raised.None? {
        var rest := Run(n.state, msgs[1..], clocks[1..], fmt);
        assert r == RunResult(rest.state, rest.raised, rest.consumed + 1);
        RunLog(n.state, msgs[1..], clocks[1..], fmt);
        AppendAssoc(st.log, head, LogEntries(msgs[1..][..rest.consumed], clocks[1..][..rest.consumed]));
      } else {
        assert r == RunResult(n.state, n.raised, 1);
        assert msgs[1..][..0] == [];
        assert st.log + head + [] == st.log + head;
      }
    }
  }

  // Regrouping a concatenation of three sequences.
  lemma AppendAssoc<T>(a: seq<T>, b: seq<T>, c: seq<T>)
    ensures a + b + c == a + (b + c)
  {
  }

  /** The entries of a non-empty prefix: those of its first line, then
      those of the rest. */
  lemma LogEntriesFirst(msgs: seq<string>, clocks: seq<real>, k: nat)
    requires |clocks| == |msgs| && 1 <= k <= |msgs|
    ensures LogEntries(msgs[..k], clocks[..k])
      == (if IsLogged(msgs[0]) then [LogEntry(Truncate(clocks[0]), msgs[0])] else [])
         + LogEntries(msgs[1..][..k - 1], clocks[1..][..k - 1])
  {
    assert msgs[..k][1..] == msgs[1..][..k - 1];
    assert clocks[..k][1..] == clocks[1..][..k - 1];
  }

  /** The CSQ value after handling `msgs` in order, starting from `csq`. */
  function CsqAfterAll(csq: nat, msgs: seq<string>): nat
    decreases |msgs|
  {
    if msgs == [] then csq else CsqAfterAll(CsqAfter(csq, msgs[0]), msgs[1..])
  }

  /** Last writer wins: the value after a sequence of messages is that of
      the last message in which the search matched, or the starting value
      when there was none. */
  lemma {:induction false} LastWriterWins(csq: nat, msgs: seq<string>)
    ensures (forall k :: 0 <= k < |msgs| ==> CsqValue(msgs[k]).None?) ==> CsqAfterAll(csq, msgs) == csq
    ensures forall k ::
      (0 <= k < |msgs| && CsqValue(msgs[k]).Some? && (forall j :: k < j < |msgs| ==> CsqValue(msgs[j]).None?))
      ==> CsqAfterAll(csq, msgs) == CsqValue(msgs[k]).value
    decreases |msgs|
  {
    if msgs != [] {
      var tail := msgs[1..];
      LastWriterWins(CsqAfter(csq, msgs[0]), tail);
      forall k | 1 <= k < |msgs| ensures msgs[k] == tail[k - 1] { }
    }
  }

  /** The CSQ value after a run is that of the handled messages, the one
      that raised included. */
  lemma {:induction false} RunCsq(st: State, msgs: seq<string>, clocks: seq<real>, fmt: CoordFormat)
    requires |clocks| == |msgs|
    ensures var r := Run(st, msgs, clocks, fmt);
      r.state.csq == CsqAfterAll(st.csq, msgs[..r.consumed])
    decreases |msgs|
  {
    var r := Run(st, msgs, clocks, fmt);
    if msgs == [] {
      assert msgs[..0] == [];
    } else {
      var n := Next(st, msgs[0], clocks[0], fmt);
      assert n.state.csq == CsqAfter(st.csq, msgs[0]);
      assert msgs[..r.consumed][1..] == msgs[1..][..r.consumed - 1];
      if n.raised.None? {
        var rest := Run(n.state, msgs[1..], clocks[1..], fmt);
        assert r == RunResult(rest.state, rest.raised, rest.consumed + 1);
        RunCsq(n.state, msgs[1..], clocks[1..], fmt);
      } else {
        assert r == RunResult(n.state, n.raised, 1);
        assert msgs[1..][..0] == [];
      }
    }
  }

  /** A stream without GGA sentences never raises and never touches the
      GPS fields. */
  lemma {:induction false} RunWithoutGga(st: State, msgs: seq<string>, clocks: seq<real>, fmt: CoordFormat)
    requires |clocks| == |msgs|
    requires forall k :: 0 <= k < |msgs| ==> !StartsWith(msgs[k], GgaPrefix)
    ensures var r := Run(st, msgs, clocks, fmt);
      r.raised.None? && r.consumed == |msgs|
      && r.state.gpsTime == st.gpsTime && r.state.gpsLat == st.gpsLat && r.state.gpsLon == st.gpsLon
    decreases |msgs|
  {
    if msgs != [] {
      var n := Next(st, msgs[0], clocks[0], fmt);
      RunWithoutGga(n.state, msgs[1..], clocks[1..], fmt);
    }
  }

  /** The loop's locals and the log file, updated in place by each message. */
  class Telemetry {
    var latestCsq: nat
    var latestGpsTime: string
    var latestGpsLat: string
    var latestGpsLon: string
    var log: seq<LogEntry>

    function Snapshot(): State
      reads this
    {
      State(latestCsq, latestGpsTime, latestGpsLat, latestGpsLon, log)
    }

    /** `latest_csq = 0` and empty GPS strings; nothing logged yet. */
    constructor ()
      ensures Snapshot() == Initial
    {
      latestCsq := 0;
      latestGpsTime := "";
      latestGpsLat := "";
      latestGpsLon := "";
      log := [];
    }

    /** The body of the `while True` loop for one message. */
    method Step(msg: string, now: real, fmt: CoordFormat) returns (raised: Option<Exception>)
      modifies this
      ensures StepResult(Snapshot(), raised) == Next(old(Snapshot()), msg, now, fmt)
      ensures log == old(log) + (if IsLogged(msg) then [LogEntry(Truncate(now), msg)] else [])
    {
      if StartsWith(msg, CsqPrefix) || StartsWith(msg, GgaPrefix) {
        log := log + [LogEntry(Truncate(now), msg)];
      }
      var found := Search(msg);
      if found.Some? {
        latestCsq := DigitsValue(msg[found.value.numStart..found.value.numEnd]);
      }
      assert Snapshot() == Record(old(Snapshot()), msg, now);
      if StartsWith(msg, GgaPrefix) {
        raised := UpdateGps(Split(msg, ','), fmt);
      } else {
        raised := None;
      }
    }

    /** The GGA branch of the loop body: fields 1 to 5 are copied in order,
        and the first missing field or unparsable coordinate raises. */
    method UpdateGps(fields: seq<string>, fmt: CoordFormat) returns (raised: Option<Exception>)
      modifies this
      ensures StepResult(Snapshot(), raised) == GgaStep(old(Snapshot()), fields, fmt)
    {
      if |fields| < 2 { return Some(IndexError); }
      latestGpsTime := fields[1];
      if |fields| < 3 { return Some(IndexError); }
      var lat := fmt(fields[2]);
      if lat.None? { return Some(ValueError); }
      if |fields| < 4 { return Some(IndexError); }
      latestGpsLat := lat.value + " " + fields[3];
      if |fields| < 5 { return Some(IndexError); }
      var lon := fmt(fields[4]);
      if lon.None? { return Some(ValueError); }
      if |fields| < 6 { return Some(IndexError); }
      latestGpsLon := lon.value + " " + fields[5];
      raised := None;
    }

    /** The `while True` loop over a finite stream of messages: it handles
        them in order and stops at the first exception. */
    method Consume(msgs: seq<string>, clocks: seq<real>, fmt: CoordFormat) returns (raised: Option<Exception>, consumed: nat)
      requires |clocks| == |msgs|
      modifies this
      ensures RunResult(Snapshot(), raised, consumed) == Run(old(Snapshot()), msgs, clocks, fmt)
    {
      var i := 0;
      while i < |msgs|
        invariant 0 <= i <= |msgs|
        invariant Run(old(Snapshot()), msgs, clocks, fmt)
          == var r := Run(Snapshot(), msgs[i..], clocks[i..], fmt); RunResult(r.state, r.raised, r.consumed + i)
      {
        assert msgs[i..][1..] == msgs[i + 1..];
        assert clocks[i..][1..] == clocks[i + 1..];
        raised := Step(msgs[i], clocks[i], fmt);
        i := i + 1;
        if raised.Some? {
          return raised, i;
        }
      }
      raised, consumed := None, i;
    }
  }
}
