/**
  Client runs of the stopwatch, each proved from the operations' contracts
  alone, the way a caller of `src/lib.rs` would use it.
 */
module Scenarios {
  import opened Durations
  import opened Text
  import opened StopWatchModel

  /**
    Ticks "b", "a", "b": the labels are listed in first-seen order, and "b"
    is charged the two disjoint segments that ended at its ticks.
   */
  method FirstSeenOrder(t0: nat, t1: nat, t2: nat, t3: nat) returns (order: seq<string>, table: map<string, nat>)
    requires t0 <= t1 <= t2 <= t3
    ensures order == ["b", "a"]
    ensures table.Keys == {"a", "b"}
    ensures table["b"] == (t1 - t0) + (t3 - t2) && table["a"] == t2 - t1
  {
    assert "a" != "b" by { assert "a"[0] != "b"[0]; }
    var sw := new StopWatch(true, false, t0);
    var _ := sw.Tick("b", t1);
    assert sw.keys == ["b"] && sw.data.Keys == {"b"} && sw.data["b"] == t1 - t0;
    var _ := sw.Tick("a", t2);
    assert sw.keys == ["b", "a"] && sw.data.Keys == {"a", "b"};
    var _ := sw.Tick("b", t3);
    order, table := sw.keys, sw.data;
  }

  /**
    Tick "a", reset, tick "a" again: after the reset the listed label has no
    entry, so `breakdown` would fail on it; the second tick lists "a" a
    second time.
   */
  method ResetKeepsStaleLabels(t0: nat, t1: nat, t2: nat, t3: nat)
    returns (breakdownAfterReset: bool, order: seq<string>, table: map<string, nat>)
    requires t0 <= t1 <= t2 <= t3
    ensures !breakdownAfterReset
    ensures order == ["a", "a"]
    ensures table.Keys == {"a"} && table["a"] == t3 - t2
  {
    var sw := new StopWatch(true, false, t0);
    var _ := sw.Tick("a", t1);
    sw.Reset(t2);
    breakdownAfterReset := sw.CanBreakdown();
    var _ := sw.Tick("a", t3);
    order, table := sw.keys, sw.data;
  }

  /**
    A reset with nothing ticked since: the report has no lines and a total of
    0 ms, the one reachable report whose total is zero.
   */
  method ResetThenBreakdown(t0: nat, t1: nat, n: u32, unit: string) returns (report: Option<Report>)
    requires t0 <= t1
    ensures report.Some?
    ensures report.value.totalMs == 0 && report.value.lines == []
    ensures report.value.header == Header(n, unit)
  {
    var sw := new StopWatch(true, false, t0);
    sw.Reset(t1);
    report := sw.Breakdown(n, unit);
  }

  /**
    A disabled stopwatch records nothing and reports nothing, but still echoes
    every tick's label when asked to.
   */
  method DisabledEchoes(t0: nat, t1: nat, t2: nat) returns (echoed: string, report: Option<Report>, table: map<string, nat>)
    requires t0 <= t1 <= t2
    ensures echoed == "load\n"
    ensures report == None
    ensures table == map[]
  {
    var sw := new StopWatch(false, true, t0);
    echoed := sw.Tick("load", t1);
    sw.Reset(t2);
    report := sw.Breakdown(1, "request");
    table := sw.data;
  }

  /** Ticks of 10 and 30 ms charged to two different labels. */
  method LoadedRun(load: string, compute: string) returns (sw: StopWatch)
    requires load != compute
    ensures fresh(sw) && sw.enabled && sw.Valid() && sw.Telescoped() && sw.last == 40_000_000 && sw.origin == 0
    ensures sw.keys == [load, compute] && sw.data.Keys == {load, compute}
    ensures sw.data[load] == 10_000_000 && sw.data[compute] == 30_000_000
  {
    sw := new StopWatch(true, false, 0);
    var _ := sw.Tick(load, 10_000_000);
    assert sw.keys == [load] && sw.data.Keys == {load} && sw.data[load] == 10_000_000;
    var _ := sw.Tick(compute, 40_000_000);
  }

  /** `LoadedRun` followed by a tick of 1 ms charged to a third label. */
  method ProfiledRun(load: string, compute: string, log: string) returns (sw: StopWatch)
    requires load != compute && load != log && compute != log
    ensures fresh(sw) && sw.enabled && sw.Telescoped() && sw.last == 41_000_000 && sw.origin == 0
    ensures sw.keys == [load, compute, log] && sw.data.Keys == {load, compute, log}
    ensures sw.data[load] == 10_000_000 && sw.data[compute] == 30_000_000 && sw.data[log] == 1_000_000
  {
    sw := LoadedRun(load, compute);
    var _ := sw.Tick(log, 41_000_000);
  }

  /** The lines of a table of 10, 30 and 1 ms out of a 41 ms total. */
  lemma ProfileLines(load: string, compute: string, log: string, m: map<string, nat>)
    requires m.Keys == {load, compute, log}
    requires m[load] == 10_000_000 && m[compute] == 30_000_000 && m[log] == 1_000_000
    ensures LinesOf([load, compute, log], m, 41)
            == [Line(load, 10, true), Line(compute, 30, true), Line(log, 1, false)]
  {
    var lines := LinesOf([load, compute, log], m, 41);
    assert lines[0] == LineFor(load, m, 41);
    assert lines[1] == LineFor(compute, m, 41);
    assert lines[2] == LineFor(log, m, 41);
  }

  /**
    `breakdown(n, unit)` after `ProfiledRun`: the lines come in tick order,
    the total is 41 ms, the 10 ms line (about 24%) and the 30 ms line (about
    73%) are highlighted and the 1 ms line (about 2%) is not.
   */
  method Profile(load: string, compute: string, log: string, n: u32, unit: string) returns (report: Option<Report>)
    requires load != compute && load != log && compute != log
    ensures report.Some?
    ensures report.value.header == Header(n, unit)
    ensures report.value.totalMs == 41
    ensures report.value.lines == [Line(load, 10, true), Line(compute, 30, true), Line(log, 1, false)]
  {
    var sw := ProfiledRun(load, compute, log);
    ProfileLines(load, compute, log, sw.data);
    report := sw.Breakdown(n, unit);
  }

  /** The report's header for one "request" is 51 bytes and its separator 50 markers. */
  lemma RequestReportWidth(keys: seq<string>, m: map<string, nat>)
    requires forall i :: 0 <= i < |keys| ==> keys[i] in m
    ensures Utf8Len(ReportOf(1, "request", keys, m).header) == 51
    ensures |ReportOf(1, "request", keys, m).separator| == 50
  {
    HeaderLength(1, "request");
    ReportProperties(1, "request", keys, m);
    assert NatToString(1) == "1";
    assert Utf8Len("request") == 7;
  }

  /** Ticks of 9 ms and 1 ms charged to two different labels. */
  method BoundaryRun(work: string, idle: string) returns (sw: StopWatch)
    requires work != idle
    ensures fresh(sw) && sw.enabled && sw.Telescoped() && sw.last == 10_000_000 && sw.origin == 0
    ensures sw.keys == [work, idle] && sw.data.Keys == {work, idle}
    ensures sw.data[work] == 9_000_000 && sw.data[idle] == 1_000_000
  {
    sw := new StopWatch(true, false, 0);
    var _ := sw.Tick(work, 9_000_000);
    var _ := sw.Tick(idle, 10_000_000);
  }

  /** The lines of a table of 9 and 1 ms out of a 10 ms total. */
  lemma BoundaryLines(work: string, idle: string, m: map<string, nat>)
    requires m.Keys == {work, idle}
    requires m[work] == 9_000_000 && m[idle] == 1_000_000
    ensures LinesOf([work, idle], m, 10) == [Line(work, 9, true), Line(idle, 1, false)]
  {
    var lines := LinesOf([work, idle], m, 10);
    assert lines[0] == LineFor(work, m, 10);
    assert lines[1] == LineFor(idle, m, 10);
  }

  /**
    A label at exactly a tenth of the total is not highlighted: after
    `BoundaryRun` the total is 10 ms, and only the 9 ms line stands out.
   */
  method TenPercentBoundary(work: string, idle: string, n: u32, unit: string) returns (report: Option<Report>)
    requires work != idle
    ensures report.Some?
    ensures report.value.totalMs == 10
    ensures report.value.lines == [Line(work, 9, true), Line(idle, 1, false)]
  {
    var sw := BoundaryRun(work, idle);
    BoundaryLines(work, idle, sw.data);
    report := sw.Breakdown(n, unit);
  }
}
