# StopWatch, modelled in Dafny

`src/lib.rs` defines a small profiling stopwatch. It has three operations:

- `tick(msg)` charges the time since the last mark to a label.
- `reset()` forgets what was charged and restarts the clock.
- `breakdown(n, unit)` prints a report with:
  - one line per label, in the order the labels were first ticked;
  - the highlight, which marks a line holding more than a tenth of the total;
  - the total, plus a separator whose width comes from the highlighted header.

A stopwatch built with `enabled == false` records nothing and prints no report. A stopwatch built with `prints == true` echoes every tick's label.

The project has four modules.

- `Durations` (`durations.dfy`) covers nanosecond durations and the table from label to accumulated time. It has:
  - the order-independent sum of the table, `Sum`;
  - `Duration::as_millis`, as `AsMillis`;
  - first-seen listing, as `ListFirstSeen`;
  - the relation between the rounded total and the rounded per-label times.
- `Text` (`text.dfy`) covers byte lengths of UTF-8 text (`str::len`) and decimal rendering of integers.
- `StopWatchModel` (`stopwatch.dfy`) holds the `StopWatch` class. Its fields are the source's, with an extra ghost field `origin` for the time of construction or of the last enabled reset.
  - `Reset` and `Tick` change the object. Their contracts give the whole new state.
  - `Breakdown` changes nothing and returns the report as a structure. Its contract ties that structure to the specification function `ReportOf`, and the lemmas prove what `ReportOf` guarantees.
- `Scenarios` (`scenarios.dfy`) holds client runs proved from the operations' contracts alone:
  - first-seen order;
  - reset leaving stale labels;
  - a report right after a reset, with no lines and a zero total;
  - disabled mode;
  - a three-label profile;
  - the exact ten-percent boundary.

The model keeps several source details, some of them surprising:

- `reset` clears the table but not `keys`. After a reset that follows any tick, `breakdown` would unwrap a missing entry, so `CanBreakdown` is false. A later tick of an already-listed label lists it a second time.
- The header is emitted unhighlighted. `top` is highlighted only after it has been copied into the message, and only to compute the separator's width. Because of those nine escape bytes, the separator has one marker per byte of the header line, less its newline, and the 26 floor never applies. For an ASCII unit that is exactly the header line's width; a unit with multi-byte characters makes the separator wider than the header line.
- The total is the rounded-down sum of nanoseconds, not the sum of the rounded-down label times. Each label can lose up to a millisecond.

## Model

| member | source | states |
|---|---|---|
| StopWatchModel.StopWatch.Valid | src/lib.rs:5-11 | the invariant: the last mark is not before the origin, every label of the table is listed, and a disabled stopwatch has recorded nothing |
| StopWatchModel.StopWatch.Telescoped | src/lib.rs:42-52 | the table's durations add up to the time from the origin to the last mark |
| StopWatchModel.StopWatch.Consistent | src/lib.rs:45-47 | the list holds every label of the table exactly once |
| StopWatchModel.StopWatch.CanBreakdown | src/lib.rs:65 | every listed label has an entry, so that the `unwrap` succeeds |
| StopWatchModel.StopWatch.constructor | src/lib.rs:15-23 | a new stopwatch has an empty table and an empty list, its last mark is `now`, it stores both flags, and it satisfies the invariant, the telescoping sum and list/table consistency |
| StopWatchModel.StopWatch.Reset | src/lib.rs:26-32 | when disabled, nothing changes; when enabled, the table is emptied and the clock restarts at `now`; the list of labels is kept in both cases; afterwards the list matches the table, and `breakdown` can succeed, exactly when the list is empty |
| StopWatchModel.StopWatch.Tick | src/lib.rs:35-53 | the echo is `msg` plus a newline exactly when `prints`; a disabled stopwatch is unchanged; an enabled one sets its last mark to `now`, adds the elapsed time to `msg`'s entry (a new entry starts at zero), and appends `msg` to the list exactly when it had no entry; the table's sum rises by exactly the elapsed time; the telescoping sum and list/table consistency are preserved |
| StopWatchModel.StopWatch.Breakdown | src/lib.rs:56-85 | disabled gives no report; enabled gives exactly `ReportOf` of the current list and table, and the state is unchanged; it requires every listed label to have an entry, as the `unwrap` demands |
| StopWatchModel.StopWatch.TotalNanos | src/lib.rs:60 | the loop over the table, in whatever order the entries are taken, adds up to `Sum` of the table |
| StopWatchModel.StopWatch.HighlightIf | src/lib.rs:87-93 | wraps the text in the bright-yellow and reset escape sequences when the flag holds, and returns it unchanged otherwise |
| StopWatchModel.StopWatch.HighlightLength | src/lib.rs:87-93 | highlighting adds exactly 9 bytes and leaves the original text intact between the escape sequences |
| StopWatchModel.ReportProperties | src/lib.rs:56-85 | the emitted header is the unhighlighted one; the total is the rounded-down sum of all durations; the separator is plain, all `%`, and one byte shorter than the header; no line exceeds the total; with every label listed once, the lines add up to at most the total, fall short of it by less than one per label, and at most nine are highlighted |
| StopWatchModel.Header | src/lib.rs:62 | the header line: thirteen `%`, " Breakdown of ", `n` in decimal, a space, the unit, a space, thirteen `%` and a newline |
| StopWatchModel.ReportOf | src/lib.rs:56-85 | the report built from the list and the table: the plain header, one line per listed label, the rounded-down total, the unit, and the separator sized from the highlighted header |
| StopWatchModel.ExceedsTenPercent | src/lib.rs:67-70 | the highlight test, in exact integers: a line's milliseconds exceed a tenth of the total |
| StopWatchModel.HeaderLength | src/lib.rs:62 | the header is 43 bytes plus the digits of `n` plus the bytes of `unit`, so at least 44 bytes |
| StopWatchModel.SeparatorWidth | src/lib.rs:79-81 | the highlighted header is long enough for the `usize` subtraction; the separator has one byte fewer than the plain header and more than 26 markers |
| StopWatchModel.SeparatorWidthAscii | src/lib.rs:62-81 | for an ASCII unit, the separator has exactly one marker fewer than the header line's characters |
| StopWatchModel.Separator | src/lib.rs:81 | `max(len - 10, 26)` copies of `%` |
| StopWatchModel.LineFor | src/lib.rs:65-71 | a label's line carries the label and its whole milliseconds, and is highlighted exactly when they exceed a tenth of the total |
| StopWatchModel.LinesOf | src/lib.rs:64-72 | one line per listed label, in list order with duplicates kept, each line built from its own label as `LineFor` builds it |
| StopWatchModel.LinesOfSnoc | src/lib.rs:64-72 | building the lines one label at a time gives the same lines as `LinesOf` |
| StopWatchModel.LinesMillisIsListed | src/lib.rs:64-66 | the lines' milliseconds add up to the listed labels' rounded-down durations |
| StopWatchModel.HotMillisBound | src/lib.rs:67-70 | each highlighted line has at least a tenth of the total plus one, counted in tenths |
| StopWatchModel.AtMostNineHighlighted | src/lib.rs:67-70 | when the lines add up to at most the total, at most nine of them are highlighted |
| Durations.AsMillis | src/lib.rs:61 | the whole milliseconds are the largest count of milliseconds that fits in the duration |
| Durations.Lookup | src/lib.rs:48-51 | a label's stored duration, or zero when it has no entry |
| Durations.Sum | src/lib.rs:60 | the sum of all of the table's durations, taken in an unspecified order |
| Durations.SumRemove | src/lib.rs:60 | any entry may be taken out of the sum first, so the sum does not depend on the hash map's order |
| Durations.SumUpdate | src/lib.rs:48-52 | replacing an entry changes the sum by the difference |
| Durations.SumCharge | src/lib.rs:48-52 | charging `e` nanoseconds to a label, new or not, raises the sum by exactly `e` |
| Durations.SumAtLeast | src/lib.rs:60 | no entry exceeds the sum |
| Durations.MillisAtMostTotal | src/lib.rs:61-66 | no label's whole milliseconds exceed the total's whole milliseconds |
| Durations.ListFirstSeen | src/lib.rs:45-47 | appending a label only when it has no entry keeps the list duplicate-free and equal, as a set, to the table's labels |
| Durations.ListCovers | src/lib.rs:45-47 | appending a label only when it has no entry keeps every label of the table listed |
| Durations.Elems | src/lib.rs:8 | the labels in the list, as a set |
| Durations.ListedNanosFrame | src/lib.rs:64-65 | dropping an unlisted entry leaves the listed labels' durations unchanged |
| Durations.ListedNanosIsSum | src/lib.rs:60-65 | with every label listed exactly once, the listed durations add up to the table's sum |
| Durations.ListedMillisBounds | src/lib.rs:61-66 | rounding each listed label down loses less than one millisecond per label |
| Durations.TotalMillisBounds | src/lib.rs:60-66 | the rounded total is at least the sum of the rounded labels and, for a non-empty list, less than that sum plus the number of labels |
| Durations.TotalIsNotSumOfLabelMillis | src/lib.rs:60-66 | two labels of 0.6 ms each show 0 ms each but a total of 1 ms |
| Text.CharUtf8Len | src/lib.rs:81 | each character takes 1 to 4 bytes, and exactly 1 for ASCII |
| Text.Utf8Len | src/lib.rs:81 | the UTF-8 byte length of a string, as `str::len` counts it |
| Text.Utf8LenConcat | src/lib.rs:81 | byte length adds up over concatenation |
| Text.Utf8LenBounds | src/lib.rs:81 | a string's byte length lies between its character count and four times that |
| Text.AsciiUtf8Len | src/lib.rs:81 | for ASCII text, bytes and characters coincide |
| Text.DigitChar | src/lib.rs:62 | the decimal digit character whose value is the given digit |
| Text.NatToString | src/lib.rs:62 | the decimal rendering is non-empty ASCII digits with no leading zero |
| Text.NatToStringRoundTrip | src/lib.rs:62 | reading the rendered digits back gives the number |
| Scenarios.FirstSeenOrder | src/lib.rs:35-53 | ticks "b", "a", "b" list "b" before "a", and "b" is charged both segments that ended at its ticks |
| Scenarios.ResetKeepsStaleLabels | src/lib.rs:26-32 | after tick "a" and reset, `breakdown` cannot succeed; a second tick "a" lists "a" twice with only the post-reset time |
| Scenarios.ResetThenBreakdown | src/lib.rs:26-72 | a report right after a reset, with nothing ticked since, has no lines and a total of 0 ms |
| Scenarios.DisabledEchoes | src/lib.rs:35-41 | a disabled, printing stopwatch echoes its tick, records nothing and reports nothing |
| Scenarios.LoadedRun | src/lib.rs:35-53 | ticks at 10 and 40 ms charge 10 and 30 ms to two labels, listed in tick order |
| Scenarios.ProfiledRun | src/lib.rs:35-53 | ticks at 10, 40 and 41 ms charge 10, 30 and 1 ms to three labels, listed in tick order |
| Scenarios.ProfileLines | src/lib.rs:64-72 | out of 41 ms, labels of 10, 30 and 1 ms give lines highlighted, highlighted and plain |
| Scenarios.Profile | src/lib.rs:56-72 | the report after `ProfiledRun` totals 41 ms and highlights the 10 and 30 ms lines but not the 1 ms line |
| Scenarios.RequestReportWidth | src/lib.rs:62-81 | for one "request", the header is 51 bytes and the separator 50 markers |
| Scenarios.BoundaryRun | src/lib.rs:35-53 | ticks at 9 and 10 ms charge 9 and 1 ms to two labels |
| Scenarios.BoundaryLines | src/lib.rs:64-72 | out of 10 ms, labels of 9 and 1 ms give a highlighted line and a plain one |
| Scenarios.TenPercentBoundary | src/lib.rs:67-70 | a line holding exactly a tenth of the total is not highlighted |

## Left out

- Clock: `Instant::now()` is not read. Each operation that reads it takes the current time `now` in nanoseconds, and requires it to be no earlier than the last mark. `duration_since` saturates at zero for an earlier instant, a case this precondition excludes.
- Output: `println!` is not performed. `Tick` returns the echoed text, and `Breakdown` returns the report as a `Report` value instead of printing one string.
- Percentages and throughput: the `{:.1}%` percentage and the `{:.2}` throughput line are floating-point text and are not rendered. The report keeps the numbers they come from: each line's milliseconds, the total, and the unit.
- StopWatchModel.ExceedsTenPercent: the highlight test `percentage > 10.0` on `f64` is modelled as the exact comparison `ms * 10 > total_ms`.
  - The two agree at an exact tenth, because `m / (10 m)` rounds to the same `f64` as `0.1`, and `0.1 * 100.0` is `10.0`.
  - They agree when the total is zero: NaN compares false, and `0 > 0` is false too. `Scenarios.ResetThenBreakdown` reaches a zero total, with no lines at all.
  - They can differ only when the ratio is within `f64` rounding error of a tenth, which needs totals around 10^15 ms.
- Durations.AsMillis: models `as_millis` on unbounded integers. `Duration` overflow panics (seconds beyond `u64`) and the `u128` result width are not modelled.
- Hash-map order: the order of `data.values()` stays unspecified. Only the sum is used, proved independent of order by `Durations.SumRemove`.
- `Breakdown`'s `unwrap` panic on a listed label with no entry is excluded by the precondition `CanBreakdown`. It is not modelled as an error result. `Scenarios.ResetKeepsStaleLabels` shows that a reset reaches that state.
