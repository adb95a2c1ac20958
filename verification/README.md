# trek telemetry core, in Dafny

trek reads lines from a cellular modem and a GPS receiver, appends the
interesting ones to `data.log` and redraws a terminal dashboard after every
line. This project models the two pieces of `trek.py` that hold its logic:

- `make_csq_display`: the signal-quality bar. A colour reset and `[`, then 30
  slots, then a colour reset and `] <csq> / 30`. Each slot is a colour escape that depends only
  on its index (red up to 9, yellow up to 14, green up to 19, blue up to 30)
  followed by `#` when the index is at most the CSQ value and `.` otherwise.
- The body of the `log_task` loop. It works on `latest_csq`, the three
  `latest_gps_*` strings and the append-only log. For each message it:
  - logs `+CSQ` and `$GPGGA` lines with `int(time())`;
  - sets `latest_csq` from `re.search(r'CSQ.*?(\d+),(\d+)', msg)`. This is
    the `+CSQ: <rssi>,<ber>` response of section 8.5 of 3GPP TS 27.007;
  - copies fields 1 to 5 of an NMEA 0183 GGA sentence.

Files:

- `text.dfy` (module `Text`):
  - ASCII digits, `int(...)` on a digit string and `str(...)` on an integer;
  - `str.startswith`, `str.split` on one character, `sep.join` and `''.join`;
  - `s.count(c)`.
- `csq_pattern.dfy` (module `CsqPattern`): the regular expression as an
  explicit matcher, proved sound and complete against a declarative reading
  of the pattern.
- `csq_display.dfy` (module `CsqDisplay`): the loop that builds the bar, its
  specification `Bar`, and the layout and counting lemmas.
- `aggregator.dfy` (module `Aggregator`):
  - one step as a function `Next` over a `State` value;
  - the loop over a finite stream as `Run`;
  - class `Telemetry`, whose fields are the loop's locals and the log. Its
    methods `Step`, `UpdateGps` and `Consume` change them in place and are
    proved equal to `Next`, `GgaStep` and `Run`.

How the model reads the Python:

- `float(field)`, `round(..., 3)` and the formatting of the rounded number
  are one parameter `fmt: string -> Option<string>`. `None` stands for the
  `ValueError` that `float` raises.
- The wall clock is a `real` parameter. `int(time())` truncates it toward
  zero.
- A GGA line that is too short or has a non-numeric coordinate raises.
  The step returns that exception, and the run stops there, as the
  `while True` loop does. Assignments made before the failing field stay
  made: the time is set before the latitude is converted, and the latitude
  before the longitude.
- The regular expression has Python semantics:
  - the leftmost start wins;
  - `.*?` is lazy and does not cross a line feed;
  - `(\d+)` is greedy, so group 1 is a whole digit run followed by `,` and a
    digit.

The model follows `trek.py` as written:

- No coordinate is divided by 100.
- There is no staleness timer and no band-name label after the bar.
- A malformed GGA line is not ignored; it raises.
- `int(...)` converts a digit string of any length. CPython 3.11, and the
  2022 security releases of 3.7 to 3.10, refuse by default to convert more
  than 4300 digits. The model is an interpreter without that limit, or one
  run with `PYTHONINTMAXSTRDIGITS=0`.

## Model

| member | source | states |
|---|---|---|
| CsqDisplay.ColourCode | trek.py:41-48 | the colour escape of slot i: red up to 9, yellow up to 14, green up to 19, blue up to 30 |
| CsqDisplay.Bar | trek.py:33-58 | the bar the function returns: the opening, the 30 slots in order, and the closing summary `] <csq> / 30` |
| CsqDisplay.MakeCsqDisplay | trek.py:33-58 | the loop that appends the opening, a colour and a marker per slot, and the closing piece, then joins them, returns exactly `Bar(csq)` |
| CsqDisplay.ConcatPieces | trek.py:34-54 | joining the opening and the colour/marker pieces of slots 1..n gives the opening followed by slots 1..n |
| CsqDisplay.SlotsLength | trek.py:39-54 | the first n slots take 6n characters |
| CsqDisplay.SlotsAt | trek.py:39-54 | slot i sits at offset 6(i-1) of the slot text, for every i up to n |
| CsqDisplay.SlotShape | trek.py:40-54 | each slot is a 5-character colour escape followed by its marker |
| CsqDisplay.BarEnds | trek.py:37-57 | the bar is the 5-character opening, 180 characters of slots, then the closing piece |
| CsqDisplay.BarFrame | trek.py:37-57 | the output starts with `\033[0m[` and ends with `\033[0m] <csq> / 30` |
| CsqDisplay.BarSlot | trek.py:39-54 | slot i carries the colour of band i, and its marker is `#` exactly when i <= csq |
| CsqDisplay.BarShape | trek.py:37-57 | the whole layout: opening, then each of the 30 slots with its colour and its marker, then the closing piece |
| CsqDisplay.FilledPrefix | trek.py:51-54 | every slot marker is `#` or `.`, and when slot i is filled every slot before it is filled too |
| CsqDisplay.ColourIndependentOfCsq | trek.py:41-48 | the colour of a slot is the same for any two CSQ values |
| CsqDisplay.SlotMarks | trek.py:40-54 | a slot holds one marker and no other `#` or `.` |
| CsqDisplay.SlotsCount | trek.py:39-54 | the first n slots hold min(max(csq, 0), n) `#` and the rest `.` |
| CsqDisplay.FrameHasNoMarker | trek.py:37-57 | the opening and the closing summary contain no `#` and no `.` |
| CsqDisplay.FilledCount | trek.py:33-58 | the bar contains exactly min(max(csq, 0), 30) `#`, and 30 marker characters in all |
| CsqPattern.RunEnd | trek.py:75 | the end of the maximal digit run at a position: every character before it is a digit, and the one at it is not |
| CsqPattern.RunEndUnique | trek.py:75 | a digit run followed by a comma is the maximal run, so `(\d+),` cannot stop early |
| CsqPattern.GroupAt | trek.py:75 | at a gap end q, `(\d+),(\d+)` succeeds exactly with the maximal digit run, and fails when no match has that gap end |
| CsqPattern.ScanGap | trek.py:75 | the lazy `.*?`: the shortest gap without a line feed after which the groups match; no match for any shorter gap; none at all when it fails |
| CsqPattern.SearchFrom | trek.py:75 | the leftmost start at or after p that has a match, with its shortest gap; no match starts earlier; none when it fails |
| CsqPattern.Search | trek.py:75 | `re.search`: a match that is leftmost, then lazy, then greedy; no result exactly when no start, gap and digit run match the pattern |
| CsqPattern.CsqValue | trek.py:75-78 | `int(group(1))` of the match `re.search` reports; none exactly when no start, gap and digit run match the pattern |
| CsqPattern.CsqResponseValue | trek.py:75-78 | on `+CSQ: <rssi>,<ber>` the search yields `int(group(1)) == rssi` |
| Text.StartsWith | trek.py:72 | `str.startswith`: the prefix is no longer than the string and equals its first characters |
| Text.StartsWithAppend | trek.py:72 | a prefix followed by anything starts with that prefix, and a string starts with a prefix exactly when it is that prefix followed by its remaining characters |
| Text.DigitsValue | trek.py:78 | `int(...)` on a string of ASCII digits: the decimal value, most significant digit first |
| Text.NatToString | trek.py:57 | `str(n)` is a non-empty digit string without leading zeros |
| Text.DigitsValueOfNatToString | trek.py:78 | `int(str(n)) == n` |
| Text.IntToString | trek.py:57 | `'{}'.format(n)`: the digits read back give the magnitude, with a leading minus for a negative n, and there are no leading zeros |
| Text.FirstIndex | trek.py:81 | the first occurrence of the separator, with none before it |
| Text.Split | trek.py:81 | `msg.split(',')` gives at least one field, no field contains a comma, and joining the fields with commas gives `msg` back |
| Text.SplitCount | trek.py:81 | the number of fields is the number of commas plus one |
| Text.FirstIndexAfter | trek.py:81 | in `a + sep + b` with no separator in `a`, the first separator comes right after `a` |
| Text.SplitStep | trek.py:81 | splitting `a + sep + b` with no separator in `a` gives `a` and then the fields of `b` |
| Text.SplitFields | trek.py:81 | splitting comma-free leading fields joined with commas, then a tail, gives those fields and then the tail's fields |
| Text.SplitJoinWith | trek.py:81 | splitting a comma join of comma-free fields gives the same fields back |
| Text.Concat | trek.py:58 | `''.join(parts)`: the parts one after another, in order |
| Aggregator.IsLogged | trek.py:72 | a line is logged exactly when it starts with `+CSQ` or `$GPGGA` |
| Aggregator.Truncate | trek.py:73 | `int(t)` truncates toward zero: the largest integer not above t for t >= 0, the smallest not below it for t < 0 |
| Aggregator.GgaStep | trek.py:80-86 | CSQ and log untouched; no exception exactly when there are 6 fields and both coordinates convert, and then time, latitude and longitude come from fields 1-5; `ValueError` exactly when a present coordinate fails to convert; on an exception, only the assignments made before it |
| Aggregator.CsqAfter | trek.py:75-78 | `latest_csq` after a line: group 1 read as a number when the search matches, the previous value otherwise |
| Aggregator.Record | trek.py:72-78 | the part of the loop body before the GGA branch: the log entry for a logged line and the CSQ update |
| Aggregator.Next | trek.py:69-86 | one entry `(int(now), msg)` is logged exactly for `+CSQ`/`$GPGGA` lines; the CSQ becomes the search result or stays; a non-GGA line raises nothing and leaves the GPS fields; a GGA line is handled by `GgaStep` |
| Aggregator.CsqResponseStep | trek.py:72-78 | a `+CSQ: <rssi>,<ber>` line is logged, sets the CSQ to rssi, leaves the GPS fields, and the next bar shows min(rssi, 30) filled slots |
| Aggregator.GgaFields | trek.py:81 | a GGA sentence built from comma-free parts splits into the tag, those five parts, and the fields of the rest |
| Aggregator.GgaSentenceStep | trek.py:80-86 | a well-formed GGA sentence with convertible coordinates raises nothing and sets time, latitude and longitude from fields 1-5 |
| Aggregator.Run | trek.py:68-86 | the loop over a stream: with no exception it consumes every message; an exception ends the run at a `$GPGGA` line |
| Aggregator.RunStopsAtFirst | trek.py:68-86 | a run that raises stops at the first raising message: the messages before it raise nothing, and the step on it gives the final state and the exception |
| Aggregator.RunLog | trek.py:72-73 | after a run the log is the old log followed by the entries of exactly the handled `+CSQ` and `$GPGGA` lines, in order |
| Aggregator.LastWriterWins | trek.py:77-78 | the CSQ after a stream is that of the last message where the search matched, or the starting value when none matched |
| Aggregator.RunCsq | trek.py:75-78 | the CSQ after a run is the value after handling the consumed messages in order |
| Aggregator.RunWithoutGga | trek.py:80-86 | a stream without `$GPGGA` lines never raises, is consumed entirely, and never changes the GPS fields |
| Aggregator.Telemetry.constructor | trek.py:63-66 | the initial state: CSQ 0, empty GPS strings, empty log |
| Aggregator.Telemetry.Step | trek.py:69-86 | the in-place loop body ends with the fields and returns the exception that `Next` gives for the fields it started from; the log grows by one entry exactly for logged lines |
| Aggregator.Telemetry.UpdateGps | trek.py:80-86 | the in-place GGA branch, with its early exits, ends with the fields and returns the exception that `GgaStep` gives for the fields it started from |
| Aggregator.Telemetry.Consume | trek.py:68-86 | the in-place loop over a stream ends in the state, exception and message count of `Run` |

## Left out

- `device_task` (trek.py:10-24): serial-port reads, decoding, `strip()` and `sleep`. Messages are an input sequence.
- `main` (trek.py:96-113): device discovery, thread start-up and shutdown.
- The `Queue` and the threads. Messages are handled one at a time, in order.
- The endless `while True` loop is modelled over a finite sequence of messages (`Run`, `Telemetry.Consume`).
- Terminal output at trek.py:89-93: cursor control and the four dashboard lines. The bar they print is modelled as `MakeCsqDisplay`.
- File output: `data.log` is a sequence of `(time, line)` entries, not the text that `print` writes.
- `time()`: a real-valued parameter, one per message.
- `round(float(field), 3)` and the formatting of the result: floating point. They are the parameter `fmt`, which either yields the text or fails as `float` does.
- CsqPattern.CsqValue: reads `int(match.group(1))` (trek.py:78) without CPython's 4300-digit limit on int/str conversion. Under that limit a CSQ group of more than 4300 digits raises `ValueError` after the line is logged and before `latest_csq` is set, and the loop ends; the model yields the group's value instead.
- Aggregator.CsqAfter: reads `int(match.group(1))` (trek.py:78) without CPython's 4300-digit limit on int/str conversion. Under that limit a CSQ group of more than 4300 digits raises `ValueError` after the line is logged and before `latest_csq` is set, and the loop ends; the model sets the CSQ to the group's value instead.
- Aggregator.Next: reads `int(match.group(1))` (trek.py:78) without CPython's 4300-digit limit on int/str conversion. Under that limit a CSQ group of more than 4300 digits raises `ValueError` after the line is logged and before `latest_csq` is set, and the loop ends; the model raises only on `$GPGGA` lines.
- Aggregator.CsqResponseStep: reads `int(match.group(1))` (trek.py:78) without CPython's 4300-digit limit on int/str conversion. Under that limit a CSQ group of more than 4300 digits raises `ValueError` after the line is logged and before `latest_csq` is set, and the loop ends; the model promises no exception for an rssi of any length.
- Aggregator.GgaSentenceStep: reads `int(match.group(1))` (trek.py:78) without CPython's 4300-digit limit on int/str conversion. Under that limit a CSQ group of more than 4300 digits raises `ValueError` after the line is logged and before `latest_csq` is set, and the loop ends; the model promises no exception even when the sentence's tail holds such a group.
- Aggregator.Run: reads `int(match.group(1))` (trek.py:78) without CPython's 4300-digit limit on int/str conversion. Under that limit a CSQ group of more than 4300 digits raises `ValueError` after the line is logged and before `latest_csq` is set, and the loop ends; the model's run stops only at a `$GPGGA` line.
- Aggregator.RunWithoutGga: reads `int(match.group(1))` (trek.py:78) without CPython's 4300-digit limit on int/str conversion. Under that limit a CSQ group of more than 4300 digits raises `ValueError` after the line is logged and before `latest_csq` is set, and the loop ends; the model's stream without `$GPGGA` lines never raises.
- Aggregator.Telemetry.Step: reads `int(match.group(1))` (trek.py:78) without CPython's 4300-digit limit on int/str conversion. Under that limit a CSQ group of more than 4300 digits raises `ValueError` after the line is logged and before `latest_csq` is set, and the loop ends; it mirrors `Next` and raises only on `$GPGGA` lines.
- Aggregator.Telemetry.Consume: reads `int(match.group(1))` (trek.py:78) without CPython's 4300-digit limit on int/str conversion. Under that limit a CSQ group of more than 4300 digits raises `ValueError` after the line is logged and before `latest_csq` is set, and the loop ends; it mirrors `Run`.
- CsqPattern.Search: `\d` is read as the ASCII digits `0`-`9`. Python's `\d` on a `str` pattern also matches other Unicode decimal digits, and `int` accepts them.
