/**
  The stopwatch of `src/lib.rs`.

  A `StopWatch` keeps the time of its last mark, a table from label to the
  time charged to it, the labels in the order they were first charged, and two
  flags: whether it measures at all and whether each tick echoes its label.
  The clock is not read here: every operation that reads it in the source
  takes the current time `now` (in nanoseconds) as an argument instead.
 */
module StopWatchModel {
  import opened Durations
  import opened Text

  /** Rust's `u32`, the type of the report's work count. */
  newtype u32 = x: int | 0 <= x < 0x1_0000_0000

  datatype Option<T> = None | Some(value: T)

  function Max(a: int, b: int): int
  {
    if a < b then b else a
  }

  /** Terminal escape sequences that switch bright yellow on and back off. */
  const HighlightOn: string := "\U{1B}[93m"
  const HighlightOff: string := "\U{1B}[0m"

  /** The run of markers on either side of the report's title. */
  const Bar: string := "%%%%%%%%%%%%%"

  /** One line of the report: a label, its whole milliseconds, and whether the line is highlighted. */
  datatype Line = Line(key: string, ms: nat, highlighted: bool)

  /**
    The report `breakdown` prints, as structure: the header line as emitted,
    one line per listed label, the total in whole milliseconds, the unit of
    the closing throughput line and the closing separator.
   */
  datatype Report = Report(header: string, lines: seq<Line>, totalMs: nat, unit: string, separator: string)

  /** The report's first line, `format!("%%%%%%%%%%%%% Breakdown of {} {} %%%%%%%%%%%%%\n", n, unit)`. */
  function Header(n: u32, unit: string): string
  {
    Bar + " Breakdown of " + NatToString(n as nat) + " " + unit + " " + Bar + "\n"
  }

  /** Byte lengths of the two escape sequences. */
  lemma EscapeLengths()
    ensures Utf8Len(HighlightOn) == 5 && Utf8Len(HighlightOff) == 4
  {
  }

  /** Byte lengths of the header's fixed pieces. */
  lemma BarLength()
    ensures Utf8Len(Bar) == 13
  {
  }

  lemma TitleLength()
    ensures Utf8Len(" Breakdown of ") == 14
  {
  }

  lemma SpaceAndNewlineLength()
    ensures Utf8Len(" ") == 1 && Utf8Len("\n") == 1
  {
  }

  /** The header is 43 bytes plus the digits of `n` plus the bytes of `unit`, so never shorter than 44. */
  lemma HeaderLength(n: u32, unit: string)
    ensures Utf8Len(Header(n, unit)) == 43 + |NatToString(n as nat)| + Utf8Len(unit)
    ensures Utf8Len(Header(n, unit)) >= 44
  {
    BarLength();
    TitleLength();
    SpaceAndNewlineLength();
    var digits := NatToString(n as nat);
    AsciiUtf8Len(digits);
    var a := Bar + " Breakdown of ";
    Utf8LenConcat(Bar, " Breakdown of ");
    var b := a + digits;
    Utf8LenConcat(a, digits);
    var c := b + " ";
    Utf8LenConcat(b, " ");
    var d := c + unit;
    Utf8LenConcat(c, unit);
    var e := d + " ";
    Utf8LenConcat(d, " ");
    var f := e + Bar;
    Utf8LenConcat(e, Bar);
    Utf8LenConcat(f, "\n");
    assert Header(n, unit) == f + "\n";
  }

  /**
    The closing separator: `max(top.len() - 10, 26)` markers, where `top` is
    the highlighted header.  The subtraction is on `usize`, so `top` must be
    at least ten bytes long.
   */
  function Separator(top: string): (sep: string)
    requires Utf8Len(top) >= 10
    ensures |sep| == Max(Utf8Len(top) - 10, 26)
    ensures forall i :: 0 <= i < |sep| ==> sep[i] == '%'
  {
    seq(Max(Utf8Len(top) - 10, 26), _ => '%')
  }

  /**
    The integer form of the highlight decision `percentage > 10.0`, read as
    `ms / total_ms * 100 > 10` over exact fractions.  When `total_ms` is zero
    the source computes NaN, which compares false; so does this.
   */
  predicate ExceedsTenPercent(ms: nat, totalMs: nat)
  {
    ms * 10 > totalMs
  }

  /** The sum of the lines' whole milliseconds. */
  function LinesMillis(lines: seq<Line>): nat
  {
    if lines == [] then 0 else lines[0].ms + LinesMillis(lines[1..])
  }

  /** The number of highlighted lines. */
  function HotCount(lines: seq<Line>): nat
  {
    if lines == [] then 0 else (if lines[0].highlighted then 1 else 0) + HotCount(lines[1..])
  }

  /** The sum of the highlighted lines' whole milliseconds. */
  function HotMillis(lines: seq<Line>): nat
  {
    if lines == [] then 0 else (if lines[0].highlighted then lines[0].ms else 0) + HotMillis(lines[1..])
  }

  /** The report line for label `k`: its whole milliseconds, highlighted when above a tenth of the total. */
  function LineFor(k: string, m: map<string, nat>, totalMs: nat): (line: Line)
    requires k in m
    ensures line.key == k && line.ms == AsMillis(m[k])
    ensures line.highlighted <==> line.ms * 10 > totalMs
  {
    var ms := AsMillis(m[k]);
    Line(k, ms, ExceedsTenPercent(ms, totalMs))
  }

  /** One report line per listed label, in list order, duplicates included. */
  function LinesOf(keys: seq<string>, m: map<string, nat>, totalMs: nat): (lines: seq<Line>)
    requires forall i :: 0 <= i < |keys| ==> keys[i] in m
    ensures |lines| == |keys|
    ensures forall i :: 0 <= i < |keys| ==> lines[i] == LineFor(keys[i], m, totalMs)
  {
    if keys == [] then [] else [LineFor(keys[0], m, totalMs)] + LinesOf(keys[1..], m, totalMs)
  }

  /** Building the lines one label at a time, as the loop over `keys` does, gives the same lines. */
  lemma {:induction false} LinesOfSnoc(keys: seq<string>, k: string, m: map<string, nat>, totalMs: nat)
    requires forall i :: 0 <= i < |keys| ==> keys[i] in m
    requires k in m
    ensures LinesOf(keys + [k], m, totalMs) == LinesOf(keys, m, totalMs) + [LineFor(k, m, totalMs)]
  {
    if keys != [] {
      assert (keys + [k])[1..] == keys[1..] + [k];
      LinesOfSnoc(keys[1..], k, m, totalMs);
    } else {
      assert keys + [k] == [k];
    }
  }

  /** The lines carry the listed labels' milliseconds. */
  lemma {:induction false} LinesMillisIsListed(keys: seq<string>, m: map<string, nat>, totalMs: nat)
    requires forall i :: 0 <= i < |keys| ==> keys[i] in m
    ensures LinesMillis(LinesOf(keys, m, totalMs)) == ListedMillis(keys, m)
  {
    if keys != [] {
      LinesMillisIsListed(keys[1..], m, totalMs);
    }
  }

  /** Each highlighted line holds more than a tenth of the total. */
  lemma {:induction false} HotMillisBound(lines: seq<Line>, totalMs: nat)
    requires forall i :: 0 <= i < |lines| ==> lines[i].highlighted == ExceedsTenPercent(lines[i].ms, totalMs)
    ensures HotMillis(lines) <= LinesMillis(lines)
    ensures HotMillis(lines) * 10 >= HotCount(lines) * (totalMs + 1)
  {
    if lines != [] {
      var rest := lines[1..];
      HotMillisBound(rest, totalMs);
      var t := totalMs + 1;
      if lines[0].highlighted {
        assert HotCount(lines) == 1 + HotCount(rest);
        assert HotCount(lines) * t == t + HotCount(rest) * t;
      } else {
        assert HotCount(lines) == HotCount(rest);
      }
    }
  }

  /** When the lines' milliseconds add up to at most the total, at most nine lines are highlighted. */
  lemma AtMostNineHighlighted(lines: seq<Line>, totalMs: nat)
    requires forall i :: 0 <= i < |lines| ==> lines[i].highlighted == ExceedsTenPercent(lines[i].ms, totalMs)
    requires LinesMillis(lines) <= totalMs
    ensures HotCount(lines) <= 9
  {
    HotMillisBound(lines, totalMs);
  }

  /**
    The separator has as many markers as the header line has bytes, less its
    newline; the floor of 26 never applies.
   */
  lemma SeparatorWidth(n: u32, unit: string)
    ensures Utf8Len(HighlightOn + Header(n, unit) + HighlightOff) >= 10
    ensures |Separator(HighlightOn + Header(n, unit) + HighlightOff)| == Utf8Len(Header(n, unit)) - 1
    ensures |Separator(HighlightOn + Header(n, unit) + HighlightOff)| > 26
  {
    var h := Header(n, unit);
    HeaderLength(n, unit);
    EscapeLengths();
    var a := HighlightOn + h;
    Utf8LenConcat(HighlightOn, h);
    Utf8LenConcat(a, HighlightOff);
  }

  /**
    For an ASCII unit, bytes and characters coincide, so the separator is
    exactly as wide as the header line without its newline.
   */
  lemma SeparatorWidthAscii(n: u32, unit: string)
    requires IsAscii(unit)
    ensures Utf8Len(HighlightOn + Header(n, unit) + HighlightOff) >= 10
    ensures |Separator(HighlightOn + Header(n, unit) + HighlightOff)| == |Header(n, unit)| - 1
  {
    SeparatorWidth(n, unit);
    HeaderLength(n, unit);
    AsciiUtf8Len(unit);
  }

  /**
    The report `breakdown` builds from the table and the list: the header
    (emitted unhighlighted), one line per listed label, the total of all
    durations in whole milliseconds, and a separator whose length is computed
    from the highlighted header.
   */
  ghost function ReportOf(n: u32, unit: string, keys: seq<string>, m: map<string, nat>): Report
    requires forall i :: 0 <= i < |keys| ==> keys[i] in m
  {
    var top := Header(n, unit);
    var totalMs := AsMillis(Sum(m));
    SeparatorWidth(n, unit);
    Report(top, LinesOf(keys, m, totalMs), totalMs, unit,
           StopWatch.HighlightIf(Separator(StopWatch.HighlightIf(top, true)), false))
  }

  /**
    What the report says: the emitted header is the plain one; the separator
    is plain, all markers, and one marker per byte of the header less its
    newline; no line's milliseconds exceed the total.  When every label of
    the table is listed exactly once, the lines add up to at most the total,
    lose less than a millisecond each, and at most nine are highlighted.
   */
  lemma ReportProperties(n: u32, unit: string, keys: seq<string>, m: map<string, nat>)
    requires forall i :: 0 <= i < |keys| ==> keys[i] in m
    ensures var r := ReportOf(n, unit, keys, m);
            && r.header == Header(n, unit)
            && r.totalMs == AsMillis(Sum(m))
            && |r.separator| == Utf8Len(r.header) - 1
            && (forall i :: 0 <= i < |r.separator| ==> r.separator[i] == '%')
            && (forall i :: 0 <= i < |r.lines| ==> r.lines[i].ms <= r.totalMs)
    ensures var r := ReportOf(n, unit, keys, m);
            Distinct(keys) && Elems(keys) == m.Keys ==>
              && LinesMillis(r.lines) <= r.totalMs
              && (keys != [] ==> r.totalMs < LinesMillis(r.lines) + |keys|)
              && HotCount(r.lines) <= 9
  {
    var r := ReportOf(n, unit, keys, m);
    SeparatorWidth(n, unit);
    forall i | 0 <= i < |keys| ensures r.lines[i].ms <= r.totalMs {
      MillisAtMostTotal(m, keys[i]);
    }
    if Distinct(keys) && Elems(keys) == m.Keys {
      LinesMillisIsListed(keys, m, r.totalMs);
      TotalMillisBounds(keys, m);
      AtMostNineHighlighted(r.lines, r.totalMs);
    }
  }

  class StopWatch {
    /** Time of the last mark: construction, the last enabled reset or the last enabled tick. */
    var last: nat
    /** Time charged to each label since construction or the last enabled reset. */
    var data: map<string, nat>
    /** Labels in the order they were first charged; not cleared by reset. */
    var keys: seq<string>
    const enabled: bool
    const prints: bool

    /** Time of construction or of the last enabled reset. */
    ghost var origin: nat

    /**
      The invariant every operation keeps: the last mark is not before the
      origin, every label of the table is listed, and a disabled stopwatch
      never records anything.
     */
    ghost predicate Valid()
      reads this
    {
      && origin <= last
      && data.Keys <= Elems(keys)
      && (!enabled ==> data == map[] && keys == [] && last == origin)
    }

    /**
      The table's durations add up to the time since construction or the last
      reset: each tick charges exactly the time since the previous mark.
     */
    ghost predicate Telescoped()
      reads this
    {
      Sum(data) == last - origin
    }

    /** The list holds every label of the table exactly once. Ticks keep this; a reset breaks it. */
    ghost predicate Consistent()
      reads this
      ensures Consistent() ==> CanBreakdown()
    {
      Distinct(keys) && Elems(keys) == data.Keys
    }

    /** Every listed label has an entry, so that `breakdown`'s `unwrap` succeeds. */
    predicate CanBreakdown()
      reads this
    {
      forall i :: 0 <= i < |keys| ==> keys[i] in data
    }

    /** `StopWatch::new`, with the clock's reading passed in as `now`. */
    constructor (enabled: bool, prints: bool, now: nat)
      ensures Valid() && Telescoped() && Consistent()
      ensures last == now && data == map[] && keys == []
      ensures this.enabled == enabled && this.prints == prints
      ensures origin == now
    {
      last := now;
      data := map[];
      keys := [];
      this.enabled := enabled;
      this.prints := prints;
      origin := now;
    }

    /** `reset`: clears the table and restarts the clock, but keeps the list of labels. */
    method Reset(now: nat)
      requires Valid() && last <= now
      modifies this
      ensures Valid() && Telescoped()
      ensures keys == old(keys)
      ensures enabled ==> data == map[] && last == now && origin == now
      ensures !enabled ==> data == old(data) && last == old(last) && origin == old(origin)
      ensures Consistent() <==> keys == []
      ensures CanBreakdown() <==> keys == []
    {
      if !enabled {
        assert Elems(keys) == data.Keys;
        return;
      }
      data := map[];
      last := now;
      origin := now;
      if keys != [] {
        assert keys[0] in Elems(keys);
      }
    }

    /**
      `tick`: echoes the label when `prints` is set (returned as the text
      written), then, when enabled, charges the time since the last mark to
      the label and lists the label if it has no entry yet.
     */
    method Tick(msg: string, now: nat) returns (echoed: string)
      requires Valid() && last <= now
      modifies this
      ensures Valid() && origin == old(origin)
      ensures echoed == if prints then msg + "\n" else ""
      ensures !enabled ==> last == old(last) && data == old(data) && keys == old(keys)
      ensures enabled ==> last == now
      ensures enabled ==> Sum(data) == old(Sum(data)) + (now - old(last))
      ensures enabled ==> data == old(data)[msg := Lookup(old(data), msg) + (now - old(last))]
      ensures enabled && msg in old(data) ==> keys == old(keys)
      ensures enabled && msg !in old(data) ==> keys == old(keys) + [msg]
      ensures old(Telescoped()) ==> Telescoped()
      ensures old(Consistent()) ==> Consistent()
    {
      echoed := if prints then msg + "\n" else "";
      if !enabled {
        return;
      }
      var elapsed := now - last;
      var charged := Lookup(data, msg) + elapsed;
      var listed := if msg in data then keys else keys + [msg];
      SumCharge(data, msg, elapsed);
      ListCovers(keys, data, msg, charged);
      if Consistent() {
        ListFirstSeen(keys, data, msg, charged);
      }
      last, keys, data := now, listed, data[msg := charged];
    }

    /** `highlight_if`: wraps `s` in the highlight escape sequences exactly when `b` holds. */
    static function HighlightIf(s: string, b: bool): (r: string)
      ensures b ==> r == HighlightOn + s + HighlightOff
      ensures !b ==> r == s
    {
      if b then HighlightOn + s + HighlightOff else s
    }

    /** Highlighting adds the nine bytes of the two escape sequences and leaves the text itself intact. */
    static lemma HighlightLength(s: string, b: bool)
      ensures Utf8Len(HighlightIf(s, b)) == Utf8Len(s) + (if b then 9 else 0)
      ensures b ==> HighlightIf(s, b)[5..|s| + 5] == s
    {
      if b {
        EscapeLengths();
        var a := HighlightOn + s;
        Utf8LenConcat(HighlightOn, s);
        Utf8LenConcat(a, HighlightOff);
      }
    }

    /**
      `breakdown`, as the report it would print; `None` when disabled.  It
      changes nothing.  Every listed label must have an entry (the source
      unwraps the lookup).
     */
    method Breakdown(n: u32, unit: string) returns (report: Option<Report>)
      requires enabled ==> CanBreakdown()
      ensures report == if enabled then Some(ReportOf(n, unit, keys, data)) else None
    {
      if !enabled {
        return None;
      }
      var totalNanos := TotalNanos();
      var totalMs := AsMillis(totalNanos);
      var top := Header(n, unit);
      var breakdownLines: seq<Line> := [];
      for i := 0 to |keys|
        invariant breakdownLines == LinesOf(keys[..i], data, totalMs)
      {
        var ms := AsMillis(data[keys[i]]);
        LinesOfSnoc(keys[..i], keys[i], data, totalMs);
        assert keys[..i + 1] == keys[..i] + [keys[i]];
        breakdownLines := breakdownLines + [Line(keys[i], ms, ExceedsTenPercent(ms, totalMs))];
      }
      assert keys[..|keys|] == keys;
      var highlighted := HighlightIf(top, true);
      SeparatorWidth(n, unit);
      var separator := HighlightIf(Separator(highlighted), false);
      report := Some(Report(top, breakdownLines, totalMs, unit, separator));
    }

    /** `self.data.values().sum()`: the table's durations added up in whatever order the map yields them. */
    method TotalNanos() returns (total: nat)
      ensures total == Sum(data)
    {
      total := 0;
      var rest := data;
      while rest != map[]
        invariant total + Sum(rest) == Sum(data)
        decreases |rest|
      {
        var k :| k in rest;
        SumRemove(rest, k);
        total := total + rest[k];
        rest := rest - {k};
      }
    }
  }
}
