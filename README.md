# BoostPi: the LCD drivers and the boost telemetry loop, in Dafny

BoostPi reads intake manifold and barometric pressure from an OBD-II
adapter. It shows the boost, and the peak boost, on an HD44780 character
LCD. The LCD is wired in 4-bit mode behind an I2C GPIO expander. This
project models two parts of BoostPi and proves properties of them.

**The LCD driver.** It exists in three revisions:

- `internal/display/display.go`, the current driver: a failed bus write is logged;
- `display/display.go`, the older driver: a failed write calls `log.Fatal`;
- the prototype in `main.go`, which has a four-line address table and a `WriteCmd` that returns the bus result.

Every driver operation comes down to single expander bytes written by
`writeCmd`. Each revision is a class:

- `InternalDisplay.Display`, `LegacyDisplay.Display` and `Prototype.Display`;
- its `trace` field holds the bytes handed to the bus;
- its methods mirror the Go functions one for one, except `Prototype.Display.LineAddress`, the line branch that `lcdDisplayString` in `main.go` has inline, kept as a method of its own to keep that proof small.

The shared byte protocol is in module `Hd44780`:

- the opcode and flag constants;
- `Encode`, which turns one 8-bit write into six expander bytes;
- `Stream`, the bytes of a list of writes;
- a model of what the controller does with those bytes. `Latched` gives the nibbles it latches on each falling edge of EN, and `Assemble` rebuilds writes from nibble pairs.

Module `Hd44780Properties` proves statements about the fixed sequences,
on the bytes, as the controller sees them, or both (the loading screen
and the error-and-shutdown screen only as the controller sees them). The
sequences are Reset, Clear, ShutdownDisplay, LcdDisplayString, the
loading screen and the error-and-shutdown screen.

**Failed writes.** They come from an oracle: `failing`, the set of attempt
numbers whose `WriteBytes` call fails (module `Bus`).

- The current driver sends every byte whatever fails, and logs exactly the failing attempts.
- The fatal drivers keep a ghost `intended` stream. Their invariant says the trace is `Sent(failing, intended)`: the intended bytes up to and including the first failure.
- `halted` records that the process has ended.

**The telemetry loop.** This is `GetAndDisplayValues` in `internal/utilities/utilities.go`, modelled as class `Telemetry.Monitor`:

- the `peak` field;
- `Step`, one iteration of the loop body;
- `Run`, the loop over a finite sequence of sensor samples.

Each method is proved against specification functions: `StepOutcome`, `Outcomes`, `PeakAfter`, `StepBytes` and `RunBytes`. Lemmas then prove the properties of the peak and of the stage order on those functions.

Module `Strconv` gives two things:

- `strconv.ParseUint(s, 10, 32)`, as `ParseUint32`;
- the two-decimal rendering of a value, on exact fixed-point numbers.

Boost is exact: a number of millionths of a psi, the kPa difference times 145038.

Two details of the code the model keeps as written:

- **Line addresses.** Only the prototype's table (main.go:167-177) has bases 0x14 and 0x54 for lines 3 and 4. The two-line drivers send address 0 for every line other than 1 and 2 (`TwoLineTable`).
- **Trailing space.** Every rendered line ends in `" psi "` with a trailing space, whatever the width of the number (`LineShape`).

## Model

| member | source | states |
|---|---|---|
| Hd44780.EncodeHalves | internal/display/display.go:180-183 | (definitional bridge) the six bytes of a write are the two nibble transfers of the mode ORed with `cmd&0xF0`, then of the mode ORed with `(cmd<<4)&0xF0` (8-bit shift), high nibble first |
| Hd44780.Stream | internal/display/display.go:102-106 | a list of writes is sent as exactly six expander bytes per write |
| Hd44780.EncodeBytes | internal/display/display.go:166-183 | for mode 0 or RS, every byte of a write has the backlight bit set and bit 0 equal to the mode; EN is set on the middle byte of each triple only; the first triple carries the value's high nibble and the second its low nibble |
| Hd44780.EncodePins | internal/display/display.go:166-183 | every byte of a write keeps the backlight on and carries the mode in RS |
| Hd44780.EncodeEnable | internal/display/display.go:166-171 | EN is high on bytes 1 and 4 of a write and low on the other four |
| Hd44780.EncodeData | internal/display/display.go:180-183 | bytes 0-2 carry the value's high nibble on D7-D4, bytes 3-5 its low nibble |
| Hd44780.FourBitsPins | internal/display/display.go:166-177 | the three bytes of one nibble transfer: backlight on, RS kept, EN high on the middle byte only |
| Hd44780.FourBitsData | internal/display/display.go:174-177 | the three bytes of one nibble transfer all carry the data nibble on D7-D4 |
| Hd44780.HalvesBits | internal/display/display.go:180-183 | both transfers of a write have EN low, RS equal to the mode, and the value's high and then low nibble on D7-D4 |
| Hd44780.FourBitsLatch | internal/display/display.go:166-177 | the controller latches exactly one nibble, with its RS level, from one nibble transfer |
| Hd44780.EncodeLatches | internal/display/display.go:180-183 | the controller latches exactly two nibbles from one write: the high nibble, then the low nibble, with RS equal to the mode |
| Hd44780.StreamEndsEnableLow | internal/display/display.go:169 | every stream of writes ends on a byte with EN low |
| Hd44780.LatchedAppend | internal/display/display.go:166-171 | nothing is latched across the boundary after a byte with EN low |
| Hd44780.StreamLatches | internal/display/display.go:102-106 | the controller latches, from a stream of writes, exactly their nibbles in order |
| Hd44780.NibblesAssemble | internal/display/display.go:180-183 | pairing the latched nibbles gives back the writes |
| Hd44780.StreamRoundTrip | internal/display/display.go:102-106 | the controller reassembles exactly the list of writes that was sent |
| Hd44780.CharWrites | internal/display/display.go:104-106 | one character write per byte of the string, in order, each with RS set |
| Hd44780.DisplayStringWrites | internal/display/display.go:102-106 | LcdDisplayString's writes are all instruction or character writes |
| Hd44780.Ascii | internal/display/display.go:56-59 | a string of ASCII characters becomes the same number of bytes with the same codes |
| Hd44780Properties.ResetStream | internal/display/display.go:110-119 | Reset sends 48 bytes: the encodings of 0x03, 0x03, 0x03, 0x02, 0x28, 0x0C, 0x01, 0x06, all in mode 0 |
| Hd44780Properties.EightWrites | internal/display/display.go:110-119 | the stream of eight writes is their six-byte encodings, one after another |
| Hd44780Properties.ClearStream | internal/display/display.go:124-127 | (definitional bridge) Clear sends 12 bytes: clear display (0x01), then return home (0x02); the controller reassembles exactly those two instructions |
| Hd44780Properties.ResetLatches | internal/display/display.go:110-119 | during Reset the controller latches 16 nibbles with RS low: 0,3,0,3,0,3,0,2,2,8,0,C,0,1,0,6, so each 0x03 is sent as the two nibbles 0x0 and 0x3 |
| Hd44780Properties.NoEnableNoLatch | internal/display/display.go:143-150 | bytes with EN low throughout latch nothing |
| Hd44780Properties.StreamThenRaw | internal/display/display.go:130-134 | writes followed by EN-low raw bytes are reassembled as just the writes |
| Hd44780Properties.ShutdownLatches | internal/display/display.go:130-150 | ShutdownDisplay is 14 bytes ending in 0x00, 0x00; the controller receives only clear display and return home, and never a display-off instruction |
| Hd44780Properties.ShutdownEndsDark | internal/display/display.go:130-150 | whatever was sent before, the bus ends on 0x00, 0x00 after a ShutdownDisplay |
| Hd44780Properties.ShutdownTwice | internal/display/display.go:130-150 | two shutdowns deliver clear display and return home twice, and the 28 bytes end on 0x00, 0x00 as one shutdown's do |
| Hd44780Properties.RepeatedView | internal/display/display.go:130-134 | the same writes and raw EN-low bytes sent twice reassemble as the writes twice |
| Hd44780Properties.RawBetween | internal/display/display.go:143-150 | raw EN-low bytes between two streams separate what the controller latches from each |
| Hd44780Properties.DisplayStringView | internal/display/display.go:92-107 | LcdDisplayString sends 6*(1+len(str)) bytes, which the controller reassembles as the set-DDRAM-address instruction and then each byte of the string as character data |
| Hd44780Properties.AddressInstruction | internal/display/display.go:102 | `0x80+posNew` is a set-DDRAM-address instruction exactly when the address is below 0x80; from 0x80 on, the 8-bit sum wraps to another instruction |
| Hd44780Properties.TwoLineTable | internal/display/display.go:93-100 | line 1 starts at 0x00 and line 2 at 0x40; lines 0, 3 and 4 map to 0; `0x40+pos` wraps at 8 bits; the fixed (line, pos) cases are worked examples of the definition |
| Hd44780Properties.FourLineTable | main.go:167-177 | the prototype table: lines 3 and 4 start at 0x14 and 0x54; other lines agree with the two-line table; (1,5)→0x05, (2,3)→0x43, (3,0)→0x14, (4,2)→0x56 as worked examples of the definition |
| Hd44780Properties.FourLinePanel | main.go:167-177 | on a 20-column, four-line panel every cell of lines 1..4 lands in DDRAM (0x00-0x27 or 0x40-0x67), below the 0x80 wrap of the address instruction; lines 3 and 4 continue lines 1 and 2 from column 20 |
| Hd44780Properties.FourLineDistinct | main.go:167-177 | no two cells of the 20-by-4 panel share a DDRAM address |
| Hd44780Properties.ValidWritesAppend | internal/display/display.go:84-89 | joining two lists of instruction and character writes keeps them valid |
| Hd44780Properties.ConcatView | internal/display/display.go:78-81 | two lists of writes sent one after the other are reassembled as their concatenation |
| Hd44780Properties.ErrorAndShutdownView | internal/display/display.go:84-89 | ShowErrorAndShutdown reaches the controller as: clear and home; the line 1 address and "ERROR"; the line 2 address and "SHUTTING DOWN"; clear and home again |
| Hd44780Properties.FramedView | internal/display/display.go:84-89 | writes, two more lists, the first ones again and raw EN-low bytes are reassembled as the four lists |
| Hd44780Properties.LoadingView | internal/display/display.go:78-81 | ShowLoadingText is the line 1 address and "----BoostPi-----", then the line 2 address and "----Loading-----" |
| Bus.SentCount | display/display.go:150-160 | no more bytes than were attempted reach the bus |
| Bus.SentCountAll | display/display.go:155-158 | while no attempt has failed, every attempted byte is sent |
| Bus.SentCountStops | display/display.go:155-158 | once an attempt has failed, no further byte is sent |
| Bus.SentPrefix | display/display.go:155-158 | the bytes sent are a prefix of those intended, and all of them when nothing fails |
| Bus.SentExtend | display/display.go:155-158 | after a failure, more intended bytes add nothing; with no failure they are all appended |
| Bus.SentUpToFirstFailure | display/display.go:155-158 | the bytes sent run up to and including the first failed attempt |
| Bus.HaltedAfterStep | display/display.go:155-158 | having failed by attempt n+1 means having failed before, or at attempt n |
| Bus.FailedAttempts | internal/display/display.go:158-161 | only failing attempts are logged, in strictly increasing order, so none twice |
| Bus.FailedAttemptsComplete | internal/display/display.go:158-161 | every failing attempt is logged, and no other |
| InternalDisplay.Display.WriteCmd | internal/display/display.go:153-163 | appends exactly `cmd`; a failed write is logged and nothing else changes |
| InternalDisplay.Display.LcdStrobe | internal/display/display.go:166-171 | appends the data with EN and BL set, then the data with EN cleared and BL set |
| InternalDisplay.Display.LcdWriteFourBits | internal/display/display.go:174-177 | appends the data with BL set, then the strobe |
| InternalDisplay.Display.LcdWrite | internal/display/display.go:180-183 | appends the six bytes of Encode(cmd, mode) |
| InternalDisplay.Display.LcdDisplayString | internal/display/display.go:92-107 | appends the address write for `TwoLineAddress(line, pos)`, then one RS write per byte of `str`, in order |
| InternalDisplay.Display.Reset | internal/display/display.go:110-121 | appends the stream of the eight reset writes |
| InternalDisplay.Display.Clear | internal/display/display.go:124-127 | appends clear display, then return home |
| InternalDisplay.Display.ShutdownDisplay | internal/display/display.go:130-134 | appends Clear's bytes and the two raw bytes 0x00, 0x00 |
| InternalDisplay.Display.ShowError | internal/display/display.go:137-140 | appends "ERROR" at line 1, column 0, and "SHUTTING DOWN" at line 2, column 0 |
| InternalDisplay.Display.TurnBacklightOff | internal/display/display.go:143-145 | appends the raw byte 0x00 |
| InternalDisplay.Display.TurnDisplayOff | internal/display/display.go:148-150 | appends the raw byte 0x00 (lcdDisplayOff) |
| InternalDisplay.Display.ShowLoadingText | internal/display/display.go:78-81 | appends the two loading lines at column 0 |
| InternalDisplay.Display.ShowErrorAndShutdown | internal/display/display.go:84-89 | appends Clear, showError and ShutdownDisplay, in that order |
| LegacyDisplay.Display.WriteCmd | display/display.go:150-160 | the intended stream grows by `cmd`; the byte reaches the bus only if no earlier write failed; a failure halts the process, and once halted nothing more is written |
| LegacyDisplay.Display.LcdStrobe | display/display.go:163-168 | the intended stream grows by the strobe pair; the trace is what reaches the bus, up to and including the first failed attempt |
| LegacyDisplay.Display.LcdWriteFourBits | display/display.go:171-174 | the intended stream grows by the nibble and its strobe |
| LegacyDisplay.Display.LcdWrite | display/display.go:177-180 | the intended stream grows by Encode(cmd, mode) |
| LegacyDisplay.Display.LcdDisplayString | display/display.go:89-104 | the intended stream grows by the address write and one RS write per byte of `str` |
| LegacyDisplay.Display.Reset | display/display.go:107-118 | the intended stream grows by the eight reset writes |
| LegacyDisplay.Display.Clear | display/display.go:121-124 | the intended stream grows by clear display and return home |
| LegacyDisplay.Display.ShutdownDisplay | display/display.go:127-131 | the intended stream grows by Clear and the two raw 0x00 bytes |
| LegacyDisplay.Display.ShowError | display/display.go:134-137 | the intended stream grows by the two error lines at column 0 |
| LegacyDisplay.Display.TurnBacklightOff | display/display.go:140-142 | the intended stream grows by 0x00 |
| LegacyDisplay.Display.TurnDisplayOff | display/display.go:145-147 | the intended stream grows by 0x00 |
| LegacyDisplay.Display.ShowLoadingText | display/display.go:75-78 | the intended stream grows by the two loading lines |
| LegacyDisplay.Display.ShowErrorAndShutdown | display/display.go:81-86 | the intended stream grows by Clear, showError and ShutdownDisplay |
| Prototype.Display.WriteCmd | main.go:107-117 | one intended byte equal to `cmd`; it reaches the bus only if no earlier write failed; a failure halts every further write; the result is 1 when the byte was written |
| Prototype.Display.LcdStrobe | main.go:139-144 | the intended stream grows by the data with En and BL set, then the data with En cleared and BL set |
| Prototype.Display.LcdWriteFourBits | main.go:147-150 | the intended stream grows by the data with BL set, then the strobe |
| Prototype.Display.LcdWrite | main.go:153-156 | the intended stream grows by Encode(cmd, mode): six bytes, high nibble first |
| Prototype.Display.LcdWriteChar | main.go:160-163 | the intended stream grows by exactly the bytes LcdWrite sends for the same value and mode |
| Prototype.Display.LineAddress | main.go:167-177 | the branch computes the prototype table `FourLineAddress(line, pos)`, and any cell of lines 1..4 below column 20 gets an address inside DDRAM (0x00-0x27 or 0x40-0x67) |
| Prototype.Display.LcdDisplayString | main.go:166-186 | the intended stream grows by the address write for the four-line table, then one RS write per byte of `str` |
| Prototype.Display.Reset | main.go:120-130 | the intended stream grows by the eight reset writes, built from the constants at main.go:19-54 |
| Prototype.Display.Clear | main.go:133-136 | the intended stream grows by clear display and return home |
| Strconv.ParseUint32 | internal/utilities/utilities.go:49 | parsing succeeds exactly for a non-empty string of decimal digits whose value is below 2^32, and gives that value |
| Strconv.ParseDigitsValue | internal/utilities/utilities.go:49 | the digit scan stops with an error at the first non-digit, or when the value reaches 2^32; otherwise it yields the value of the digits |
| Strconv.LeadingZero | internal/utilities/utilities.go:55 | a leading zero does not change the parse |
| Strconv.Decimal | internal/utilities/utilities.go:81-82 | the numeral of n: non-empty digits, no leading zero, value n |
| Strconv.DigitsValueSnoc | internal/utilities/utilities.go:81-82 | one more digit on the right multiplies the value by ten and adds the digit |
| Strconv.DecimalParse | internal/utilities/utilities.go:49 | the numeral of every 32-bit value parses back to it; that of any larger value is a range error |
| Strconv.RoundToHundredths | internal/utilities/utilities.go:81-82 | rounding is to the nearest hundredth, halves up |
| Strconv.TwoDigits | internal/utilities/utilities.go:81-82 | two digits, with a leading zero, whose value is the number |
| Strconv.FormatFixed2 | internal/utilities/utilities.go:81-82 | digits, a point, and exactly two more digits |
| Strconv.FormatFixed2Value | internal/utilities/utilities.go:81-82 | reading the text back gives the value rounded to hundredths; the integer part has no leading zero |
| Strconv.FormatFixed2Short | internal/utilities/utilities.go:81-82 | a value below 9.995 psi renders as exactly four characters |
| Strconv.RoundMonotone | internal/utilities/utilities.go:76-82 | a larger value never renders as a smaller one |
| Telemetry.Uint64Sub | internal/utilities/utilities.go:62-65 | uint64 subtraction stays below 2^64 |
| Telemetry.NoUnderflow | internal/utilities/utilities.go:62-65 | for parsed 32-bit values the difference is m - b when m > b and 0 otherwise: the subtraction never wraps |
| Telemetry.BoostProperties | internal/utilities/utilities.go:30 | boost is zero exactly when m ≤ b, otherwise (m - b)·0.145038 psi; it grows with the manifold pressure |
| Telemetry.StepOutcome | internal/utilities/utilities.go:75-78 | after a rendered iteration the peak is the larger of the old peak and the current boost |
| Telemetry.StepStages | internal/utilities/utilities.go:37-59 | an iteration renders exactly when both reads succeed and both texts parse; otherwise it names the first failing step, in the order: read barometric, read manifold, parse manifold, parse barometric |
| Telemetry.LineShape | internal/utilities/utilities.go:84-87 | each of the two lines is its label, the two-decimal value and " psi " with the trailing space; for the same value both have the same length, 15 characters below 9.995 psi |
| Telemetry.Outcomes | internal/utilities/utilities.go:36-94 | the loop produces at most one outcome per sample |
| Telemetry.RunEnd | internal/utilities/utilities.go:36-94 | when the loop stops, the samples taken already decide the whole run |
| Telemetry.RunStep | internal/utilities/utilities.go:36-94 | one iteration extends the outcomes, the bytes, the peak and the halted flag as the loop specification says |
| Telemetry.RunSnoc | internal/utilities/utilities.go:36-94 | one more iteration appends its bytes and, if it rendered, sets the peak |
| Telemetry.OutcomesStep | internal/utilities/utilities.go:36-94 | each sample adds exactly one outcome, or none once halted |
| Telemetry.OnlyLastFails | internal/utilities/utilities.go:37-59 | every iteration but the last renders, so the error screen appears at most once, at the end |
| Telemetry.HaltedStays | internal/utilities/utilities.go:37-59 | after the first failure, later samples change nothing |
| Telemetry.PeakNonDecreasing | internal/utilities/utilities.go:35 | the peak shown never decreases from one rendered iteration to a later one |
| Telemetry.RenderedPeakBound | internal/utilities/utilities.go:76-78 | every rendered peak is at least that iteration's boost |
| Telemetry.PeakAfterLast | internal/utilities/utilities.go:76-78 | the peak carried after a rendered iteration is the peak it showed |
| Telemetry.PeakBoundsCurrent | internal/utilities/utilities.go:76-78 | every rendered peak is at least every boost shown up to then |
| Telemetry.PeakIsSeen | internal/utilities/utilities.go:35 | every rendered peak is 0 or one of the boosts shown so far; with PeakBoundsCurrent, it is the maximum boost seen |
| Telemetry.FinalPeakIsMax | internal/utilities/utilities.go:75-78 | when a run ends on a rendered iteration, its final peak is the maximum boost shown: at least every rendered current boost, and 0 or one of them |
| Telemetry.ScenarioBoost | internal/utilities/utilities.go:49-90 | manifold "130", barometric "98": boost 4.641216 psi, shown as "Curr: 4.64 psi " and "Peak: 4.64 psi " |
| Telemetry.ScenarioVacuum | internal/utilities/utilities.go:62-78 | manifold "90" below barometric "98" after a 4.64 peak: boost 0, shown "0.00", and the peak stays |
| Telemetry.ScenarioSensorFailure | internal/utilities/utilities.go:37-41 | a failed first barometric read sends the error screen and shutdown once; later samples are never read |
| Telemetry.SmallFixed2 | internal/utilities/utilities.go:81-82 | a value below 9.995 psi (rounded value below 10.00) renders as one digit, a point and two digits |
| Telemetry.ParsedLiteral | internal/utilities/utilities.go:49 | the numeral of a 32-bit value parses to it |
| Telemetry.Monitor.Step | internal/utilities/utilities.go:37-90 | one iteration yields `StepOutcome(old peak, reads)`; it halts exactly on failure; it keeps the peak as the maximum; it sends exactly the two rendered lines, or the error-and-shutdown screen |
| Telemetry.Monitor.Run | internal/utilities/utilities.go:34-94 | over a sequence of samples, starting at peak 0, the loop produces `Outcomes(samples)` and stops at the first failure; the peak and the display bytes follow |

## Left out

- Hardware and I/O: the sleeps, the log and `fmt` output, `Initialize`, opening the I2C device and `Close`, are not modelled. The current driver's log becomes the `logged` field. A failed write is given by the `failing` oracle.
- `ConvertToUint8` is not part of this model.
- Reading the adapter (`elm327`) is not modelled: each sensor read is an input value, `Ok(text)` or `Err`.
- The prototype's `main()` demo script is not modelled.
- The endless `for {}` of GetAndDisplayValues is bounded by a finite sequence of samples.
- Telemetry.Monitor.Step and Telemetry.Monitor.Run require `!halted`: after `log.Fatal` the process has ended, so there is no later call to model.
- Floating point is not modelled. Boost is an exact number of millionths of a psi, and `strconv.FormatFloat(v, 'f', 2, 64)` is modelled as rounding to the nearest hundredth, halves up. float64 representation error near a half is ignored.
- The `calculatedBoost < 0` clamp remains in Telemetry.Monitor.Step, but with exact non-negative values its branch is never taken.
- Hd44780.Ascii: a character at U+0080 or above: the model sends one byte, its code modulo 256, where Go sends its two to four UTF-8 bytes. The byte count `6*(1+len(str))` then differs too. Every string the model sends is ASCII.
- Prototype.Display.WriteCmd returns 0 once the process has halted. In Go no caller receives a result after `log.Fatal`; the value exists only so that the method returns something on every path.
- The `fmt.Printf` of each character in the prototype's `LcdDisplayString` is not modelled.
