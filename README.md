# Plant-watering controller: a Dafny model of its decision and timing loop

The firmware in `src/main.rs` runs an Arduino that waters one plant once a
day. Each pass of its endless loop powers the water and moisture sensors,
reads them, decides whether the plant needs water, runs the pump for a fixed
dose if so, and then counts down to the next check on a two-row, 16-column
character display, one "HHh:MMmin" tick per minute.

This project models that core in Dafny:

- `machine_words.dfy` (module `MachineWords`): the firmware's `u8`, `u16` and
  `u32` as bounded newtypes, so every narrowing cast and every unsigned
  subtraction is a proof obligation; ASCII encoding and decoding of text.
- `countdown.dfy` (module `Countdown`): `CountDown::new`, the in-place digit
  writer `num_to_utf8slice` (a method with a loop over an `array<uint8>`), and
  `to_str`, which overwrites the nine-byte buffer with the template
  "00h:00min" and fills both fields. Both methods are proved against
  specification functions (`WriteDigits`, `Formatted`), and those are tied by
  lemmas to an independent decoder (`DecimalValue`) and to a direct statement
  of the layout (`Rendered`).
- `irrigation.dfy` (module `Irrigation`): the three-way threshold decision
  on the two readings and the message each branch shows.
- `schedule.dfy` (module `Schedule`): the wait until the next check and its
  split into whole minutes and a millisecond remainder.
- `cycle.dfy` (module `Cycle`): one pass of the loop body and `clear_print`
  as a class whose methods append effects to a trace. The effects are pin
  writes, display calls, delays and the sensor reading. A small observable
  board state (two display rows, cursor, pin levels, delay time elapsed,
  delay time with the pump on) gives each trace a meaning. Lemmas about that
  state show the following. The pump pin goes high only on the dry branch.
  For a pass that starts with the pump off, the pump stays on for exactly the
  pump delay, and the pump and sensor pins are low at the end. Every branch
  spends the same delay time. The countdown runs from the minute count down
  to 1 and always formats. `clear_print` leaves exactly its two rows on the
  display and is idempotent.

Only the delays take time in the model, so the durations below are delay
time, a lower bound on the device's real time. The delays of one pass add
up to one day, plus twice the sensing time, plus the one-second pause of
every countdown tick, plus the 100 us settling pause of each `clear_print`
(`Cycle.IterationRun`, `Cycle.ShippedIterationLength`). With the shipped
constants that is about 24 h 24 min 5 s, so a pass lasts at least that long,
not one day.

Three behaviours of the code are modelled as written:

- `clear_print` clears the display once and toggles no display power
  (`src/main.rs:106-114`).
- When a field of the countdown reaches 100, `to_str` silently leaves the
  buffer as it was (`Countdown.Formatted`, `Countdown.OverflowLeavesBuffer`).
  The loop never reaches this case: `Cycle.EveryTickFormats` shows that
  every tick value of a pass is at most 1440 minutes and is formatted.
- The pump-time/sensing-time precondition is not checked at run time. The
  model states it as the precondition of `Schedule.ScheduleFor`. Below it,
  the code's 16-bit subtraction would underflow.

## Model

| member | source | states |
|---|---|---|
| `Countdown.New` | src/main.rs:123-128 | hours * 60 + minutes gives back the minute count, and the minutes are below 60 |
| `Countdown.Digits` | src/main.rs:131-139 | the digits written are ASCII '0'..'9', and a positive number gets at least one digit and no leading zero |
| `Countdown.DigitsRoundTrip` | src/main.rs:131-139 | decoding the written digits gives back the number |
| `Countdown.DigitsFit` | src/main.rs:131-139 | a number below 10^k needs at most k bytes, so a two-digit field has room for any value below 100 |
| `Countdown.DigitsExact` | src/main.rs:131-139 | the number of digits written is exact: 10^(k-1) <= n < 10^k |
| `Countdown.WriteDigitsEffect` | src/main.rs:131-139 | writing digits ending at index i changes only the digit-count bytes before i, puts ASCII digits there, and those bytes decode to the number |
| `Countdown.NumToUtf8Slice` | src/main.rs:131-139 | the loop leaves the buffer exactly as `WriteDigits` describes; for 0 nothing is written |
| `Countdown.Formatted` | src/main.rs:152-160 | the buffer after `to_str` has nine bytes, and they stay ASCII when they were, so the UTF-8 conversion cannot fail |
| `Countdown.TwoDigitField` | src/main.rs:154-158 | overwriting a "00" field with the digits of n < 100, right-aligned, gives n zero-padded to two digits |
| `Countdown.TemplateFilled` | src/main.rs:153-158 | the template with minutes written before index 6 and hours before index 2 is exactly the zero-padded "HHh:MMmin" |
| `Countdown.ToStr` | src/main.rs:152-161 | the buffer becomes the rendering when both fields are below 100 and is untouched otherwise; the returned bytes are the buffer's, and they are ASCII whenever the incoming buffer was |
| `Countdown.RenderedLayout` | src/main.rs:141-154 | the rendering is nine ASCII bytes: two digits, "h:", two digits, "min"; its two fields decode to the hours and the minutes |
| `Countdown.RenderedInjective` | src/main.rs:141-154 | different hours/minutes pairs never render alike |
| `Countdown.RenderedExamples` | src/main.rs:141-151 | {07, 23} renders as "07h:23min", {0, 0} as "00h:00min", {99, 5} as "99h:05min" |
| `Countdown.FormattedCountdown` | src/main.rs:123-159 | every minute count below 6000 takes the formatting branch and renders its hours and its minutes modulo 60 |
| `Countdown.OverflowLeavesBuffer` | src/main.rs:153 | with a field of 100 or more the zeroed buffer of the loop stays nine zero bytes |
| `Irrigation.Decide` | src/main.rs:69-77 | not-in-soil exactly when moisture < 20; needs-water exactly when 20 <= moisture < 500 and water < 100; enough water otherwise; a reading equal to a threshold is not below it |
| `Irrigation.MessageFor` | src/main.rs:71-76 | every branch message fits a 16-column row |
| `Irrigation.ProbeCheckTakesPrecedence` | src/main.rs:69-71 | a moisture reading below 20 decides "not in soil" whatever the water reading |
| `Irrigation.MoreWaterStaysSufficient` | src/main.rs:72-76 | a higher water reading never turns "enough water" into "dry" |
| `Irrigation.MessagesIdentifyDecision` | src/main.rs:69-77 | the three messages are distinct, and only the "pump ON" message goes with the pump |
| `Irrigation.DecisionExamples` | src/main.rs:41-43 | worked readings, including readings equal to each threshold |
| `Schedule.ScheduleFor` | src/main.rs:51-55 | wait + pump time = one day + sensing time; minutes * 60000 + remainder = wait; the remainder is below a minute, so the 16-bit cast is lossless; the wait is 1438 to 1440 minutes |
| `Schedule.ShippedSchedule` | src/main.rs:46-55 | a 6315 ms pump time gives a wait of 86,396,685 ms = 1439 min + 56,685 ms |
| `Cycle.ClearPrintShows` | src/main.rs:106-114 | from any display state, `clear_print` shows exactly its two rows, puts the cursor at (0,0), leaves the pins alone and spends 100 us in delay |
| `Cycle.ClearPrintIdempotent` | src/main.rs:106-114 | doing `clear_print` twice with the same rows shows what doing it once shows |
| `Cycle.RowShows` | src/main.rs:109-112 | a row printed after a clear shows the text followed by blanks |
| `Cycle.SensingRun` | src/main.rs:62-67 | the sensing phase shows its status message, spends 3 s plus the settling pause in delays and leaves the sensor pin low |
| `Cycle.SampledWhilePowered` | src/main.rs:62-66 | both readings are taken while the sensors are powered, after the full 3 s hold |
| `Cycle.DecisionRun` | src/main.rs:69-79 | starting with the pump off, the decision phase shows its branch's message, runs the pump for exactly the pump time when the soil is dry and not at all otherwise, spends the same delay time in every branch and ends with the pump off |
| `Cycle.TickRun` | src/main.rs:83-89 | a countdown tick shows "Measures in" over the formatted text, leaves the pins alone and spends 61 s plus the settling pause in delays |
| `Cycle.TickShows` | src/main.rs:83-89 | for any tick value of at most 1440 the second row shows the zero-padded hours and minutes left |
| `Cycle.TicksRun` | src/main.rs:81-90 | the countdown loop leaves both pins as they were and adds one tick's delay time per minute |
| `Cycle.TicksAppend` | src/main.rs:81-90 | one more tick appends that tick's effects to the countdown's |
| `Cycle.CountdownDescends` | src/main.rs:81-82 | the tick values run from the minute count down to 1, strictly descending, all between 1 and the count |
| `Cycle.FinalRun` | src/main.rs:91-92 | the last step shows "Measures in" / "less than 1 min" and waits the remainder |
| `Cycle.IterationRun` | src/main.rs:61-92 | a pass started with the pump off ends with both pins low and "less than 1 min" shown; its delay time is fixed by the pump time alone, and the pump runs exactly the pump time on the dry branch and never otherwise |
| `Cycle.IterationTimeIndependentOfReadings` | src/main.rs:72-78 | two passes on any readings spend equal delay time |
| `Cycle.ShippedIterationLength` | src/main.rs:50-92 | with the shipped constants the delays of a pass add up to 87,845,144,200 us, a lower bound on its length |
| `Cycle.EveryTickFormats` | src/main.rs:81-88 | every tick value of a pass takes the formatting branch of `to_str` and shows its zero-padded hours and minutes |
| `Cycle.CountdownStep` | src/main.rs:81-90 | taking one more value of the countdown appends that value's tick |
| `Cycle.ClearPrintPrints` | src/main.rs:109-112 | the only texts `clear_print` prints are its two rows |
| `Cycle.FormatMinutes` | src/main.rs:86-87 | `to_str` on a fresh zeroed buffer gives the zero-padded rendering when both fields fit and nine NUL characters otherwise |
| `Cycle.TicksNeverPump` | src/main.rs:81-90 | the countdown never touches a pin and prints only texts that fit a row |
| `Cycle.PumpHighOnlyWhenDry` | src/main.rs:69-79 | the pump pin is set high in a pass exactly when the decision is "needs water" |
| `Cycle.PrintsFitRow` | src/main.rs:61-92 | every text a pass prints fits a 16-column row |
| `Cycle.Controller.ClearPrint` | src/main.rs:106-114 | appends exactly clear, position (0,0), first row, 100 us pause, position (0,1), second row, position (0,0) |
| `Cycle.Controller.CountdownTicks` | src/main.rs:81-90 | appends one tick per value from the minute count down to 1 |
| `Cycle.Controller.Tick` | src/main.rs:83-89 | appends clear, the 1 s pause, `clear_print` of "Measures in" over the formatted text, and the 60 s pause |
| `Cycle.Controller.LoopIteration` | src/main.rs:61-92 | appends the sensing, decision, countdown and final effects of one pass, with the decision made by the source's own if/else chain |

## Left out

- Peripheral, pin, ADC and display set-up, and the 2 s start-up pause at line 11 (`src/main.rs:11-38`): the set-up is hardware configuration through crates that are not part of this model, and the pause happens once before the loop, so it is outside every modelled pass.
- The floating-point pump-time computation `(300. / 0.0475) as u16` (`src/main.rs:50`) is not modelled. The pump time is a `uint16` parameter, and the shipped value 6315 is a constant.
- The display driver (`clear`, `set_position`, `print`) and the delays are not part of this model. They appear as trace events. Their meaning is a simplified display of two 16-column rows: text past column 16 is dropped, and the controller's 40-character line memory is not modelled.
- The ADC reads are not modelled. The two readings are parameters of a pass, recorded by a `Sample` event.
- `core::str::from_utf8(...).unwrap()` (`src/main.rs:160`) is modelled as decoding ASCII bytes. The bytes stay ASCII when the incoming buffer was ASCII, as the loop's zeroed buffer is, so there the call cannot fail. The panic on a buffer that is not valid UTF-8 (such as one holding 0xFF) with an overflowing field is not modelled.
- Display calls, pin writes and sensor reads take no time in the model; only `delay_ms`/`delay_us` do. Every duration stated is therefore delay time, a lower bound on real time, and branches whose messages differ in length may differ in real time by the display driver's work.
- The endless `loop` and the diverging entry point are not modelled. The model covers one pass, plus the fact that a pass ends in the state it needs to start from (pump off).
- The commented-out serial logging (`src/main.rs:57-59`) is not modelled.
- Countdown.NumToUtf8Slice: works on an array of any length, not only the nine-byte buffer. It needs room for the digits before `end`, because the source would index out of bounds or underflow `i` otherwise.
- Schedule.ScheduleFor: requires a pump time of at least the 3000 ms sensing time. Below it the source's `u16` subtraction underflows (a panic or a wrap, depending on the build), and that behaviour is not modelled.
