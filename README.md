# GBIPLogger, modelled in Dafny

GBIPLogger is a set of Python scripts that log readings from GPIB bench
instruments. They reach the instruments through a Prologix Ethernet-to-GPIB
bridge. This project models three parts of it and proves properties of each:

- **The bridge driver** (`PrologixEthernetGPIB`). It escapes command text
  (`_escape`) and frames each message as one LF-terminated line (`_send`).
  It sends the bridge's fixed `++` directives (`select`, `read`, `_setup`),
  strips blanks from replies (`read`) and composes `query`.
  - Modules: `Escaping` (the pure escaping function and its decoder),
    `Prologix` (class `Driver`).
  - The socket becomes two fields: `sent`, the lines written, and `inbox`,
    the replies the bridge will deliver. An empty inbox means the next `recv`
    times out.
- **The measurement-session skeleton** that every logging script repeats:
  1. `open` runs outside the `try`;
  2. setup, the header, then an endless loop of sample → row → cadence sleep;
  3. `finally: close()`;
  4. an outer loop that restarts on `GPIBTimeout`, in the scripts that have
     that handler.

  - Modules: `Bench`, `Logging`, `Session`.
  - `Bench.Lab` is the bench as the scripts see it. It keeps an ordered log of
    bus operations and their outcomes, plus rows, header and stdout lines; a
    clock in integer milliseconds; and stderr.
  - Each bus call's outcome comes from the environment: a reply, a timeout or
    another error, fixed in advance for each log position (`world`), and each
    call takes a duration fixed per log position (`cost`).
  - Every method that changes the log keeps it honest (`Lab.Honest`): each
    logged call carries the environment's outcome for its position.
  - `Session` is written once, generic in a `Logging.Protocol`, and
    instantiated for each of the five logging scripts (`DualTempLogger`,
    `TestLogger`, `TempAndMatrix`, `TwoInputMatrix`, `FiveInOne`).
  - The scripts' endless loops are bounded by a number of cycles and a number
    of sessions.
- **The instrument sequencing logic.**
  - The Keithley 705 matrix's cross-point commands, as a state machine over
    the set of closed (column, row) points (`Matrix`, `Instruments`).
  - The EIP 575 EPROM reader: `%04X` addresses, hex byte parsing, the address
    loop and the dump ordering (`Eprom`, on `Numerals` and `Text`).
  - The K3322 calibration dumper: `PadHex`, the stepped address loop and its
    extra queries (`K3322`).

Notes on the source's behaviour that shape the model:

- `read` strips space, tab, CR and LF from both ends of a reply
  (gpib/prologix/ethernet.py:37).
- `query` escapes its command twice, once itself and once in `write`
  (gpib/prologix/ethernet.py:33, 40; see Findings).
- `select` sends `++addr` and stores nothing, so the driver keeps no record of
  the selected address (gpib/prologix/ethernet.py:29-30).
- The Prologix driver never raises `GPIBTimeout`; a socket timeout escapes as
  the socket's own exception (gpib/prologix/ethernet.py:17, 59-61), so the
  scripts' restart handler never fires with this driver (see Findings).
- `open` runs before the `try` of `RunMeasurements` (dual_temp_logger.py:25-26),
  so a failed `open` never reaches `close`. The session still ends with that
  exception, and the main loop restarts it only if the exception is
  `GPIBTimeout` (dual_temp_logger.py:93-99), which this driver's `open` never
  raises.
- The five-input script has no cadence sleep and no timeout handler: both are
  commented out (five_in_one_meter_matrix.py:135-137, 151-156).
- `test.py` writes no header; that line is commented out (test.py:53).

## Model

| member | source | states |
|---|---|---|
| Text.StripIsMaximalTrim | gpib/prologix/ethernet.py:37 | `strip` cuts exactly the maximal runs of blanks from both ends: the result is a slice of the input, everything removed is a blank, and the result neither starts nor ends with one |
| Text.StripIdempotent | gpib/prologix/ethernet.py:37 | stripping a stripped reply changes nothing |
| Text.TailShape | eip575_memory_reader.py:51-53 | `data[-k:]` is a suffix of `data`: for k >= 1 of length min(k, len(data)), including when `data` is shorter than k; for k = 0 (`data[-0:]`) the whole of `data` |
| Numerals.IntDecimalRoundTrip | gpib/prologix/ethernet.py:30 | the `'%i'` text of any integer, negative ones included, parses back to that integer |
| Numerals.HexRoundTrip | dump_K3322_cal.py:21 | the digits of `hex(n)` are non-empty hex digits of the requested case, have no leading zero unless n is 0, and have value n |
| Numerals.ZeroPadHex | dump_K3322_cal.py:22 | `zfill(w)` gives length max(w, len) and keeps the hex value and the letter case |
| Numerals.ParseHexDigits | eip575_memory_reader.py:53 | `int(s, 16)` on a non-empty string of hex digits succeeds with their value |
| Numerals.Format04XRoundTrip | eip575_memory_reader.py:47 | for 0 ≤ a ≤ 0xFFFF, `'%04X' % a` is exactly four upper-case hex digits that parse back to a |
| Numerals.PadHexShape | dump_K3322_cal.py:20-22 | for i ≥ 0, `PadHex(i, w)` is the lower-case hex of i without `0x`, zero-padded to max(w, digits), and parses back to i |
| Numerals.ByteFieldInRange | eip575_memory_reader.py:53 | two hex digits parse to a value in 0..255 |
| Numerals.Format02dDigits | five_in_one_meter_matrix.py:117 | `{c:02d}` for c < 100 is the tens digit followed by the units digit |
| Escaping.EscapeCons | gpib/prologix/ethernet.py:47-52 | the four `replace` calls act per character: ESC becomes ESC ESC; '+', LF and CR get an ESC before them; other characters are kept |
| Escaping.FramingRoundTrip | gpib/prologix/ethernet.py:47-57 | decoding `_escape(s) + LF + rest` up to the first bare LF (ESC c → c) gives back exactly s and leaves rest untouched, so no payload LF ends the line early |
| Escaping.EscapeLength | gpib/prologix/ethernet.py:47-52 | the escaped length is the input length plus the number of ESC, '+', LF and CR characters in it |
| Escaping.EscapeIdentity | gpib/prologix/ethernet.py:47-52 | `_escape(s) == s` exactly when s holds none of ESC, '+', LF, CR |
| Escaping.EscapeTwiceIdentity | gpib/prologix/ethernet.py:40 | escaping twice leaves s unchanged exactly when s holds none of the four special characters |
| Escaping.EscapeAscii | gpib/prologix/ethernet.py:47-56 | escaping keeps a command ASCII and adds no non-ASCII character, so `encode('ascii')` fails on the escaped text exactly when it fails on the command |
| Escaping.EscapedNeverDirective | gpib/prologix/ethernet.py:47-52 | an escaped payload never starts with '+', so it cannot be taken for a `++` directive |
| Prologix.NumberDirective | gpib/prologix/ethernet.py:30 | a `prefix + '%i' % n` directive starts with the prefix, and the text after the prefix parses back to n |
| Prologix.AddrDirective | gpib/prologix/ethernet.py:30 | the `++addr` directive is ASCII, so `select` never fails to encode |
| Prologix.TimeoutDirective | gpib/prologix/ethernet.py:74 | the `++read_tmo_ms` directive is ASCII |
| Prologix.SetupDirectives | gpib/prologix/ethernet.py:63-77 | `_setup` has five directives, all ASCII |
| Prologix.ReplyIsStripped | gpib/prologix/ethernet.py:37 | a successful `read` result neither starts nor ends with space, tab, CR or LF, and stripping it again changes nothing |
| Prologix.Driver.constructor | gpib/prologix/ethernet.py:10-17 | a new driver is unconnected, has sent nothing, and keeps host and timeout |
| Prologix.Driver.Send | gpib/prologix/ethernet.py:55-57 | `_send` appends exactly `value + LF` when that is ASCII and the socket is connected; otherwise it fails with the encode or socket error and sends nothing |
| Prologix.Driver.Recv | gpib/prologix/ethernet.py:59-61 | `_recv` consumes one reply: a timeout when none is pending, a decode error for non-ASCII, the text otherwise; a socket error when not connected |
| Prologix.Driver.Setup | gpib/prologix/ethernet.py:63-77 | on a connected socket, appends exactly the five lines `++savecfg 0`, `++mode 1`, `++auto 0`, `++read_tmo_ms <timeout*1000>`, `++eos 3`, in that order |
| Prologix.Driver.Open | gpib/prologix/ethernet.py:19-23 | a reachable, unconnected driver connects and then sends the five setup lines and nothing else; otherwise it raises a socket error and nothing changes |
| Prologix.Driver.Close | gpib/prologix/ethernet.py:26-27 | the socket ends closed, whatever its state (closing twice is allowed) |
| Prologix.Driver.Select | gpib/prologix/ethernet.py:29-30 | appends exactly `++addr <decimal addr>` + LF; no selection is recorded and the inbox is untouched |
| Prologix.Driver.Write | gpib/prologix/ethernet.py:32-33 | appends exactly one line, `_escape(cmd) + LF`, or fails (encode error for non-ASCII, socket error when not connected) with nothing sent |
| Prologix.Driver.Read | gpib/prologix/ethernet.py:35-37 | sends `++read eoi`, then returns the next reply stripped of blanks at both ends, or the timeout or decode error from `_recv` |
| Prologix.Driver.Query | gpib/prologix/ethernet.py:39-41 | as written: sends `_escape(_escape(cmd))` and then `++read eoi`, and returns what `read` returns |
| Prologix.Driver.QueryEscapedOnce | gpib/prologix/ethernet.py:39-41 | corrected: sends `_escape(cmd)` and then `++read eoi`, and returns what `read` returns |
| Prologix.QueryForwardsEscapedCommand | gpib/prologix/ethernet.py:39-41 | the bridge decodes the line `query` writes into `_escape(cmd)`, which equals cmd only when cmd has no ESC, '+', LF or CR |
| Prologix.QueryPlusExample | gpib/prologix/ethernet.py:40 | `query("1E+3")` makes the instrument receive "1E", ESC, "+3" instead of "1E+3" |
| Prologix.QueryOnceForwardsCommand | gpib/prologix/ethernet.py:32-33 | the line the corrected query writes decodes to exactly cmd |
| Bench.Lab.Do | gpib/base.py:11-54 | each bus call appends one event carrying the outcome the environment gives at that log position (a sleep or `close` always returns), advances the clock by that call's duration there, and keeps the log honest: every logged call has the environment's outcome for its position |
| Bench.Perform | dual_temp_logger.py:28-47 | a straight-line sequence of bus calls runs in order and stops at the first exception; its replies are those of the reads, in order; the k-th logged call is the plan's k-th operation with the environment's outcome at its log position; the clock advances by exactly the time the calls it made took |
| Bench.HonestTail | gpib/base.py:11-54 | in an honest log, every call logged after a given prefix has the environment's outcome at its own position |
| Bench.HonestRun | dual_temp_logger.py:28-47 | in an honest log, the k-th event of a plan's run is a call of the plan's k-th operation with the environment's outcome at its position |
| Bench.CompleteReplies | dual_temp_logger.py:60-69 | a sequence that ran to the end yielded exactly one reply per reading operation |
| Matrix.TokenShape | five_in_one_meter_matrix.py:117 | a cross-point token is `C` or `N`, two column digits, `:`, one row digit, and it parses back to the same action |
| Matrix.CommandOne | test_temp_and_matrix.py:100-108 | a one-point command is the token followed by `X` |
| Matrix.CommandTwo | two_input_two_meter_matrix.py:152 | a two-point command is the two tokens joined by one space, then `X` |
| Matrix.ParseSpell | two_input_two_meter_matrix.py:166-167 | the space-joined tokens of any non-empty action list parse back to that list |
| Matrix.EffectCommand | two_input_two_meter_matrix.py:152 | the switch performs exactly the actions a cross-point command spells, in order |
| Matrix.EffectReset | two_input_two_meter_matrix.py:151 | `RX` is the reset action |
| Matrix.ResetClears | test_temp_and_matrix.py:72 | `RX` to the addressed switch opens every cross-point and changes nothing else |
| Matrix.WriteTo | two_input_two_meter_matrix.py:150-152 | a cross-point command to the addressed switch closes and opens its points in order |
| Matrix.NotAddressed | two_input_two_meter_matrix.py:155-162 | while another device is addressed, writes, reads and queries leave the switch as it is |
| Matrix.RunAppend | two_input_two_meter_matrix.py:132-176 | running two operation sequences one after the other equals running their concatenation: same final state, readings and isolation |
| Matrix.InertRun | two_input_two_meter_matrix.py:155-162 | operations that do not address the switch leave it unchanged; every reading taken meanwhile sees the same closed points |
| Instruments.ThermometerReadsTwo | dual_temp_logger.py:63-69 | the thermometer cycle reads twice: channel 7, then channel 8 |
| Instruments.SwitchSetupOthers | two_input_two_meter_matrix.py:82-89 | the switch setup commands other than `RX` move no cross-point |
| Instruments.SwitchSetupResets | two_input_two_meter_matrix.py:81-89 | after the switch setup, the switch is addressed and has every cross-point open, from any prior state |
| Instruments.ThermometerLeavesSwitch | two_input_two_meter_matrix.py:132-138 | the thermometer's setup and cycle move no cross-point, and the cycle's two readings see the switch as it was |
| Instruments.MeterLeavesSwitch | two_input_two_meter_matrix.py:92-101 | the 2015 setup moves no cross-point |
| Logging.RowsPaced | dual_temp_logger.py:57-80 | each row's timestamp is the clock when its cycle started; the next cycle starts exactly `delay` later when the cycle took less than `delay`, never sooner than `delay`, and right when the cycle ended when it took longer or the script has no delay |
| Logging.SessionPassesClocked | dual_temp_logger.py:54-80 | the completed cycles of a session (as `Session.RunMeasurements` returns it) each ran their whole cycle, start when the cycle before and its pause are over, and took as elapsed time exactly what their own bus calls took |
| Logging.ClockedRows | dual_temp_logger.py:57-80 | for such cycles, the timestamp of the i-th row is the clock when sampling began plus the time taken by every bus call and sleep of the cycles before it, at the log positions they were made at |
| Logging.StampIsClock | dual_temp_logger.py:57-80 | in paced, clocked passes, each pass starts when everything logged before it has taken its time, and its elapsed time is the time of its own cycle's calls |
| Logging.NextStartSpent | dual_temp_logger.py:57-80 | the next cycle after paced, clocked passes starts exactly when all they logged (calls, rows and sleeps) has taken its time |
| Logging.PassSpent | dual_temp_logger.py:76-80 | a cycle, its row and its cadence sleep together take max(delay, elapsed) |
| Logging.RowsOfSession | dual_temp_logger.py:54-84 | the rows in a session's log are exactly the rows of its completed cycles, one per cycle, in order: a cycle broken by an exception writes no partial row |
| Logging.ClosedOnEveryExit | dual_temp_logger.py:82-84 | when `open` fails, the log holds only that `open` (no `close`); when an opened session stops on an exception, its last event is `close`; reaching the cycle bound means open and setup succeeded and every cycle completed |
| Session.AllWellFormed | test_temp_and_matrix.py:78 | every script's header names the timestamp and each column of its rows; setup and cycle never open or close the connection |
| Session.Retrying | two_input_two_meter_matrix.py:206-212 | the dual-temperature, test and temperature-and-matrix scripts restart on `GPIBTimeout`; the two-input and five-input scripts have no handler |
| Session.SampleCycle | dual_temp_logger.py:60-74 | the cycle's calls run in order, stopping at the first exception; a row exists only when every call succeeded and is built from the replies in order; the clock advances by exactly the time the calls took |
| Session.Cadence | dual_temp_logger.py:78-80 | logs one sleep of delay − elapsed when elapsed < delay, and nothing otherwise; the clock advances by exactly that sleep |
| Session.RunMeasurements | dual_temp_logger.py:22-84 | one session's log is open, setup, header, the completed cycles with their rows and sleeps, the broken cycle, then `close` on every exceptional exit after a successful `open`; sampling begins once `open` and the setup calls have taken their time; each completed cycle's elapsed time is the time its own bus calls took, each later cycle starts when the one before and its pause are over, and the clock at the end is when the next cycle would start |
| Session.MeasureCycles | dual_temp_logger.py:54-80 | the measurement loop: every pass it logs completes a cycle, writes the row built from that cycle's replies and keeps the cadence; it stops after `cycles` passes, or at the first cycle that raises, with that cycle's events logged and its exception returned; each pass starts at the clock the pass before it left (the first at the loop's start), its elapsed time is exactly the time its cycle's bus calls took at the log positions they were made at, and after its pause the clock stands at start + max(delay, elapsed) |
| Session.RunPass | dual_temp_logger.py:57-80 | one pass: `start` is the clock, the cycle runs; on success its row is written, its elapsed time is what its calls took and the clock ends at start + max(delay, elapsed); on an exception only the broken cycle's events are logged, and the clock advances by exactly their time |
| Session.Supervise | dual_temp_logger.py:93-99 | consecutive sessions; every session but the last ended in a caught `GPIBTimeout`; fewer sessions than allowed means the last ended with an exception that is not caught; one stderr line per caught timeout |
| Session.Attempt | dual_temp_logger.py:94-99 | one pass of the restart loop: one more session that conforms to the protocol is appended to the log, and a warning line goes to stderr exactly when that session ended in a caught timeout |
| Session.RunScript | five_in_one_meter_matrix.py:150-156 | each script runs the shared skeleton with its own protocol; the two scripts without a handler run at most one session and write nothing to stderr |
| Session.NoneCaught | two_input_two_meter_matrix.py:206-212 | without a handler no ending is caught |
| Session.DriverFault | gpib/base.py:56-57 | as written: no driver failure becomes `GPIBTimeout`, so a socket timeout reaches the scripts as some other exception |
| Session.DriverTimeoutNotCaught | dual_temp_logger.py:93-99 | as written: with this driver, no failure restarts a session, even in the scripts that catch `GPIBTimeout` |
| Session.IntendedFault | gpib/base.py:56-57 | corrected: the driver failure that becomes `GPIBTimeout` is exactly the socket timeout |
| Session.IntendedTimeoutCaught | dual_temp_logger.py:93-99 | corrected: a failure restarts the session exactly when it is a socket timeout and the script has the handler |
| DualTempLogger.PlanWellFormed | dual_temp_logger.py:52 | the header `DateTime, T7, T8` has one name per cell of a row |
| DualTempLogger.SetupOrder | dual_temp_logger.py:28-47 | `interface_clear` comes first and `select(11)` second, before every setup write |
| DualTempLogger.RowShape | dual_temp_logger.py:60-74 | a row is [start, reading of channel 7, reading of channel 8] |
| TestLogger.CycleReadsTwo | test.py:64-70 | a cycle takes two readings: the 2015's `:READ?` query, then the 196's `read` |
| TestLogger.PlanWellFormed | test.py:61-70 | the cycle's reads supply every column of the row, and neither setup nor cycle opens or closes the connection |
| TestLogger.SetupOrder | test.py:25-28 | the first bus action after `open` is `select(10)`, and setup has no `interface_clear` |
| TestLogger.RowShape | test.py:61-70 | a row is [start, "23.0", the 2015's reading, the 196's reading] |
| TempAndMatrix.ToggleText | test_temp_and_matrix.py:99-108 | each toggle writes `C01:rX`, sleeps 0.1 s and writes `N01:rX`, for r = 1, 2, 3 |
| TempAndMatrix.ToggleRun | test_temp_and_matrix.py:100-102 | one toggle from an open matrix closes only (1, r), then reopens it: at most one point closed, none at the end |
| TempAndMatrix.TogglesRun | test_temp_and_matrix.py:99-108 | the three toggles in turn keep at most one point closed and leave none closed |
| TempAndMatrix.CycleIsolated | test_temp_and_matrix.py:89-108 | a cycle from an open matrix keeps at most one point closed and ends with all open; its two readings see no closed point |
| TempAndMatrix.SetupResets | test_temp_and_matrix.py:68-72 | setup leaves the switch with every point open, from any prior state |
| TempAndMatrix.SessionIsolated | test_temp_and_matrix.py:72-108 | after setup, any number of cycles keep at most one point closed and end with all open |
| TempAndMatrix.CycleReadsTwo | test_temp_and_matrix.py:89-95 | a cycle reads twice |
| TempAndMatrix.PlanWellFormed | test_temp_and_matrix.py:78 | the header `DateTime, Temp7, Temp8` has one name per cell of a row |
| TempAndMatrix.SetupOrder | test_temp_and_matrix.py:32-72 | setup starts with `interface_clear`, and `RX` is written before the loop |
| TempAndMatrix.RowShape | test_temp_and_matrix.py:86-95 | a row is [start, channel 7, channel 8], as long as the 3-column header |
| TwoInputMatrix.MeasureAverage | two_input_two_meter_matrix.py:29-36 | with count > 0, reads exactly count times (stopping at the first exception) and returns the mean of the readings; count = 0 raises (division by zero); count < 0 reads nothing and returns 0 |
| TwoInputMatrix.CommandText | two_input_two_meter_matrix.py:152-167 | the routing commands are `C01:2 C02:1X`, `N01:2 N02:1X` and `C01:1 C02:2X` |
| TwoInputMatrix.PhasesRouteOneToOne | two_input_two_meter_matrix.py:150-167 | in each reading phase both input columns are routed, each to exactly one row, and the two columns use different rows; the two phases swap the rows |
| TwoInputMatrix.RouteFirstRun | two_input_two_meter_matrix.py:150-156 | `RX` then `C01:2 C02:1X` leaves exactly (1,2) and (2,1) closed, from any prior state |
| TwoInputMatrix.RouteSecondRun | two_input_two_meter_matrix.py:165-171 | from the first phase, `N01:2 N02:1X` then `C01:1 C02:2X` leaves exactly (1,1) and (2,2) closed |
| TwoInputMatrix.MeasureRun | two_input_two_meter_matrix.py:155-162 | the 4 + 10 averaged readings all see the routing in place and leave it as it is |
| TwoInputMatrix.CycleRouting | two_input_two_meter_matrix.py:132-176 | of a cycle's 30 readings, the two temperatures see the prior state, readings 2..15 the first routing and 16..29 the second |
| TwoInputMatrix.CycleLeavesSecond | two_input_two_meter_matrix.py:164-176 | a cycle ends with the second routing closed |
| TwoInputMatrix.CycleReads | two_input_two_meter_matrix.py:132-176 | a cycle reads 2 + 2 × (4 + 10) = 30 times |
| TwoInputMatrix.PlanWellFormed | two_input_two_meter_matrix.py:121 | the 7-name header matches the row |
| TwoInputMatrix.RowShape | two_input_two_meter_matrix.py:179-182 | the row is start, both temperatures, then the 2015 mean on EDC, the 196 mean on EDC, the 2015 mean on JFET, the 196 mean on JFET, in the header's order |
| TwoInputMatrix.MeasureHalf | two_input_two_meter_matrix.py:155-162 | reads the 2015 4 times and the 196 10 times, stopping at the first exception, and returns the two means |
| TwoInputMatrix.SampleFirst | two_input_two_meter_matrix.py:132-162 | temperatures, then the first routing, then the two averaged measurements, with the replies split as the row needs |
| TwoInputMatrix.SampleSecond | two_input_two_meter_matrix.py:165-176 | the second routing, then the two averaged measurements |
| TwoInputMatrix.Sample | two_input_two_meter_matrix.py:123-182 | a sample runs the whole cycle in order, stopping at the first exception; on success its row is built from the cycle's replies |
| FiveInOne.ColumnText | five_in_one_meter_matrix.py:116-126 | column c's step writes `C0c:1X` and `N0c:1X` for c < 10 |
| FiveInOne.ScanText | five_in_one_meter_matrix.py:117-126 | for columns 1 and 5, the literal texts are `C01:1X`/`N01:1X` and `C05:1X`/`N05:1X` |
| FiveInOne.SpanSplit | five_in_one_meter_matrix.py:114 | the column steps for lo..hi are those for lo..mid followed by those for mid..hi |
| FiveInOne.ColumnReadsOne | five_in_one_meter_matrix.py:121-122 | each column step queries once |
| FiveInOne.SpanReads | five_in_one_meter_matrix.py:114-126 | the column loop queries once per column |
| FiveInOne.CycleReadsSeven | five_in_one_meter_matrix.py:101-126 | a cycle reads 2 + 5 times |
| FiveInOne.ColumnRun | five_in_one_meter_matrix.py:116-126 | from an open matrix, a column step's query sees exactly (c,1) closed, and the step ends with all points open |
| FiveInOne.WiringShape | five_in_one_meter_matrix.py:114-122 | the expected readings for columns lo..hi are one per column, with exactly (c,1) closed |
| FiveInOne.SpanRun | five_in_one_meter_matrix.py:114-126 | columns 1..5 in order: each query sees exactly its own cross-point closed, and none stays closed at the end |
| FiveInOne.CycleRouting | five_in_one_meter_matrix.py:101-126 | a cycle from an open matrix: the temperatures see none closed, each voltage sees only its own column; all open at the end |
| FiveInOne.SetupResets | five_in_one_meter_matrix.py:68-86 | setup leaves every cross-point open, with the 2015 addressed last |
| FiveInOne.CyclesRun | five_in_one_meter_matrix.py:93-126 | any number of cycles keep at most one cross-point closed and end with all open |
| FiveInOne.SessionIsolated | five_in_one_meter_matrix.py:72-126 | after setup, any number of cycles keep at most one cross-point closed at a time |
| FiveInOne.PlanWellFormed | five_in_one_meter_matrix.py:91 | the 8-name header has one name per cell of a row, and the cycle's reads supply every column |
| FiveInOne.Numbers | five_in_one_meter_matrix.py:105-122 | each reply becomes one number cell, in order |
| FiveInOne.RowShape | five_in_one_meter_matrix.py:99-129 | a row is the start, then the two temperatures and the five voltages in reading order, as long as the header |
| FiveInOne.ScanColumns | five_in_one_meter_matrix.py:114-126 | the loop runs the steps for columns 1..5 in order, stopping at the first exception; on success it returns the five readings in order |
| FiveInOne.Sample | five_in_one_meter_matrix.py:99-126 | a sample runs the whole cycle in order; on success its row is built from the replies |
| Eprom.ReadAddress | eip575_memory_reader.py:44-53 | writes `TA10`, then `'%04X' % address`, sleeps 0.15 s, reads, prints the last 7 characters, writes `TP`, and returns `int(data[-2:], 16)`, in that order; any exception stops it there; an unparsable tail raises; each call's outcome is the environment's at its position, and the clock advances by exactly the time the calls took |
| Eprom.ShortHexBounds | eip575_memory_reader.py:53 | `int(s, 16)` of at most two characters lies in −15..255 when it succeeds |
| Eprom.ByteBounds | eip575_memory_reader.py:53 | the returned value is always in −15..255, and in 0..255 when the last two characters are hex digits |
| Eprom.ReadValueBounds | eip575_memory_reader.py:44-53 | a successful read has written the address and returned a value in −15..255 parsed from its reply |
| Eprom.ReadShape | eip575_memory_reader.py:48-53 | a successful read logged six events: first `TA10`, then the `'%04X'` address, and fourth the `readeol` that returned; the value is the byte parsed from that reply |
| Eprom.ReadEprom | eip575_memory_reader.py:55-62 | reads start, start+1, … in ascending order and stores the byte for start+i at offset i; on success exactly offsets 0..length−1 are filled; an exception stops it with the earlier offsets filled; the clock advances by exactly the time of every call logged |
| Eprom.ImageComplete | eip575_memory_reader.py:59-60 | a complete image has exactly the keys 0..length−1, and read i wrote the address start+i |
| Eprom.ResetAndRead | eip575_memory_reader.py:71-101 | select(2), `interface_clear`, `selected_device_clear` and a 0.5 s sleep all come before any read; then addresses 0..0x7FF are read; an exception in the reset skips the reads; the clock advances by the reset's time plus the reads' time, each at its log positions |
| Eprom.DumpEproms | eip575_memory_reader.py:65-107 | if `open` fails only it is logged, and the clock advances by its duration; otherwise the announcement, reset and reads are followed by `close`, on every exit, and the clock advances by the time of `open`, the reset, the reads and `close`, each at its log position |
| Eprom.DumpOpened | eip575_memory_reader.py:66-107 | after a successful `open`: the announcement, reset and reads, then `close` on every exit; the clock ends at the time before `open` plus the whole dump's time |
| Eprom.DumpTimeIsSpent | eip575_memory_reader.py:65-107 | the dump's time (open, reset, reads, close, at their positions) is exactly the time its whole logged sequence takes |
| K3322.RangeShape | dump_K3322_cal.py:36 | `range(lo, hi, step)` is lo, lo+step, … with the last value below hi and hi at most one step beyond it; empty when lo ≥ hi |
| K3322.AddressesVisited | dump_K3322_cal.py:36-40 | the loop visits 0x1000, 0x1002, …, 0x100E in order, and exactly 0x1000 and 0x1008 are multiples of 8 |
| K3322.PaddedAddress | dump_K3322_cal.py:37 | each address pads to 7 characters, `000` plus its lower-case hex, which parses back to it |
| K3322.FourDigits | dump_K3322_cal.py:21 | every address from 0x1000 to 0xFFFF has exactly four hex digits |
| K3322.LineShape | dump_K3322_cal.py:38-43 | the printed line is the padded address, `: `, and the one reply, or the three replies joined by single spaces |
| K3322.DumpAddress | dump_K3322_cal.py:37-43 | queries `` `~1,<paddr> ``, and also `` `~2,<paddr> `` and `` `~3,<paddr> `` exactly when addr % 8 == 0, then prints the line; an exception stops it; the clock advances by exactly the time the calls took |
| K3322.DumpRange | dump_K3322_cal.py:36-43 | the addresses are dumped in ascending order, stopping at the first exception; the clock advances by exactly the time every dumped address's calls took |
| K3322.PreludeReply | dump_K3322_cal.py:30-34 | the bus-clear, select and `?ID` sequence yields exactly one reply |
| K3322.Calibration | dump_K3322_cal.py:30-43 | `interface_clear`, `select(2)` and the `?ID` query come before the loop; the ID is printed before any address; an exception in the prelude skips the loop; the clock advances by the prelude's time plus the loop's time at its log positions |
| K3322.CalibrationTimeIsSpent | dump_K3322_cal.py:30-43 | the prelude's time plus the loop's time after the printed ID is exactly the time of the whole logged sequence |
| K3322.DumpCalConstants | dump_K3322_cal.py:24-49 | if `open` fails only it is logged and the clock advances by its duration; otherwise `close` follows the dump on every exit, and the clock advances by the time of `open`, the prelude, the loop and `close` |
| K3322.CalibrateOpened | dump_K3322_cal.py:28-49 | after a successful `open`: the prelude, the ID line and the loop, then `close` on every exit; the clock ends at the time before `open` plus all of it |

## Left out

- Sockets: `connect`, partial `send`, `recv` sizes and `settimeout`
  (gpib/prologix/ethernet.py:14-17, 56-60). These become the `sent` log and the
  scripted inbox. Reachability of the bridge is a parameter of
  `Prologix.Driver.Open`.
- ASCII codec errors are modelled as `Result` errors rather than excluded by a
  precondition.
- `interface_clear`, `selected_device_clear` and `readeol` are declared in
  gpib/base.py but never defined by the driver. They appear only as abstract
  bus operations of the session model, with environment-given outcomes and no
  wire text.
- Under `ABCMeta`, Python would refuse to construct the driver for lack of the
  three methods above. The model assumes a constructed driver.
- The session model does not run the `Prologix.Driver` itself: each bus call's
  outcome is given by the environment. The two meet only in `Session.DriverFault`.
- `Prologix.TimeoutDirective`: whole seconds only; `int(timeout * 1e3)` of a
  fractional timeout is not modelled.
- Wall-clock time, `datetime` and `strftime`. Time is an integer number of
  milliseconds from an abstract per-call duration, and the timestamp cell is
  that millisecond count.
- `Numerals.ParseHexInt` handles ASCII input only. Python's `int(s, 16)` also
  strips non-ASCII whitespace such as `'\xa0'`, accepts any Unicode decimal
  digit and accepts `_` between digits; on such text the model returns None
  where Python returns a number. The `readeol` replies that
  `Eprom.ReadAddress` parses are taken to be ASCII.
- `float()` is an abstract conversion. A reply it rejects is modelled as that
  read's "other error" outcome.
- `round(…, 7)` and `round(…, 6)` in the two matrix scripts, and
  floating-point accuracy. Means are taken over `real`.
- CSV text and stdout/stderr byte output. A row is a list of cells; `print` and
  stdout lines are log events; stderr is a list of lines.
- IntelHex storage and `tofile` (eip575_memory_reader.py:57, 62). The image is a
  map from offset to value; the file is not written.
- The endless loops are bounded by a cycle count and a session count. Sessions
  beyond the bound are not modelled.
- The commented-out `ReadEprom` calls in `DumpEproms` are not modelled.
- The instrument command strings are opaque literals, except the 705 matrix's
  cross-point commands.
- dump_k2015_cal.py, plot.py, plot_twoin_twoout.py, plot_five_in_tc.py: not part
  of this model. They are a straight-line command script and offline plotting.

## Findings

| source | as written | input that shows it | evidently intended | confidence | as-written member | corrected member |
|---|---|---|---|---|---|---|
| gpib/prologix/ethernet.py:39-41 | `query` passes `_escape(cmd)` to `write`, which escapes it again, so the instrument receives `_escape(cmd)` rather than `cmd` | `query("1E+3")`: the instrument receives "1E", ESC, "+3" | escape once, so the instrument receives `cmd` | high (not executed) | Prologix.Driver.Query, Prologix.QueryPlusExample | Prologix.Driver.QueryEscapedOnce, Prologix.QueryOnceForwardsCommand |
| gpib/base.py:56-57 | the driver never raises `GPIBTimeout`; a `recv` timeout escapes as `socket.timeout` (gpib/prologix/ethernet.py:17, 59-61), so the `except GPIBTimeout` restart (dual_temp_logger.py:93-99) never fires | a reading that times out in dual_temp_logger.py ends the program instead of restarting the session | the driver turns a socket timeout into `GPIBTimeout` | high (not executed) | Session.DriverFault, Session.DriverTimeoutNotCaught | Session.IntendedFault, Session.IntendedTimeoutCaught |

The script queries (`:READ?`, `?ID`, `` `~1,… ``) contain no ESC, '+', LF or CR.
On them, the as-written and corrected `query` send the same line
(`Escaping.EscapeTwiceIdentity`), so the session model is the same for both.
The session model uses the corrected fault mapping: a timeout outcome restarts
the scripts that have the handler.
