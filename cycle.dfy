/** One pass of the controller's endless loop, and `clear_print`, as the
    sequence of effects they have: pin writes, display calls, delays and the
    moment the sensors are read. A `Board` gives those effects a meaning (what
    the two display rows show, the pin levels, the delay time spent and the
    part of it the pump ran), so that properties of a pass can be stated about what a user of
    the device would observe. Only the delays take time in this model: display
    calls, pin writes and sensor reads are instantaneous, so every duration
    here is the delay time, a lower bound on the device's real time. */
module Cycle {
  import opened MachineWords
  import opened Countdown
  import opened Irrigation
  import opened Schedule

  /** One effect on the hardware. `SetSensor` drives the pin powering both
      sensors, `SetPump` the pin powering the pump; `Sample` is the moment the
      two ADC readings are taken, with the values read. */
  datatype Event =
    | SetSensor(high: bool)
    | SetPump(high: bool)
    | Sample(water: uint16, moisture: uint16)
    | Clear
    | SetPosition(col: nat, row: nat)
    | Print(text: string)
    | DelayMs(ms: nat)
    | DelayUs(us: nat)

  /** Characters per display row. */
  const Columns := 16
  /** The settling pause `clear_print` makes between the two rows, in us. */
  const SettleUs := 100
  /** The pause after clearing the display at each countdown tick, in ms. */
  const TickClearMs := 1000

  /** `clear_print`: clear once, write the first row from (0, 0), pause, write
      the second row from (0, 1), and put the cursor back at (0, 0). */
  function ClearPrintEvents(firstRow: string, secondRow: string): seq<Event> {
    [Clear, SetPosition(0, 0), Print(firstRow), DelayUs(SettleUs),
     SetPosition(0, 1), Print(secondRow), SetPosition(0, 0)]
  }

  /** What can be observed of the device: both display rows, the cursor, the
      two pin levels, the delay time elapsed and, of that, the delay time
      with the pump on (both in microseconds). */
  datatype Board = Board(top: string, bottom: string, col: nat, row: nat,
                         sensor: bool, pump: bool, elapsedUs: nat, pumpUs: nat)

  function BlankRow(): string {
    seq(Columns, _ => ' ')
  }

  /** `text` written into `line` from column `col`; what falls past the end
      of the row is not shown. */
  function Put(line: string, col: nat, text: string): (r: string)
    ensures |r| == |line|
  {
    seq(|line|, j requires 0 <= j < |line| => if col <= j < col + |text| then text[j - col] else line[j])
  }

  /** A cleared row showing `text` from its first column. */
  function Row(text: string): string {
    Put(BlankRow(), 0, text)
  }

  function Wait(b: Board, us: nat): Board {
    b.(elapsedUs := b.elapsedUs + us, pumpUs := if b.pump then b.pumpUs + us else b.pumpUs)
  }

  function Step(b: Board, e: Event): Board {
    match e
    case SetSensor(high) => b.(sensor := high)
    case SetPump(high) => b.(pump := high)
    case Sample(_, _) => b
    case Clear => b.(top := BlankRow(), bottom := BlankRow(), col := 0, row := 0)
    case SetPosition(c, r) => b.(col := c, row := r)
    case Print(t) =>
      if b.row == 0 then b.(top := Put(b.top, b.col, t), col := b.col + |t|)
      else if b.row == 1 then b.(bottom := Put(b.bottom, b.col, t), col := b.col + |t|)
      else b.(col := b.col + |t|)
    case DelayMs(ms) => Wait(b, 1000 * ms)
    case DelayUs(us) => Wait(b, us)
  }

  /** The board after the events, in order. */
  function Run(b: Board, es: seq<Event>): Board
    decreases |es|
  {
    if es == [] then b else Run(Step(b, es[0]), es[1..])
  }

  lemma {:induction false} RunAppend(b: Board, xs: seq<Event>, ys: seq<Event>)
    ensures Run(b, xs + ys) == Run(Run(b, xs), ys)
    decreases |xs|
  {
    if xs == [] {
      assert xs + ys == ys;
    } else {
      assert (xs + ys)[1..] == xs[1..] + ys;
      RunAppend(Step(b, xs[0]), xs[1..], ys);
    }
  }

  lemma RunOne(b: Board, e: Event)
    ensures Run(b, [e]) == Step(b, e)
  {
    assert [e][1..] == [];
  }

  /** A row written after a clear shows the text followed by blanks. */
  lemma RowShows(text: string)
    requires |text| <= Columns
    ensures |Row(text)| == Columns
    ensures Row(text)[..|text|] == text
    ensures forall j :: |text| <= j < Columns ==> Row(text)[j] == ' '
  {
  }

  /** Whatever the display showed, `clear_print` leaves exactly the two rows
      on it, the cursor at (0, 0), the pins alone, and takes the settling
      pause. */
  lemma {:induction false} ClearPrintShows(b: Board, firstRow: string, secondRow: string)
    ensures Run(b, ClearPrintEvents(firstRow, secondRow))
         == Wait(b, SettleUs).(top := Row(firstRow), bottom := Row(secondRow), col := 0, row := 0)
  {
    var es := ClearPrintEvents(firstRow, secondRow);
    assert es == [es[0]] + [es[1]] + [es[2]] + [es[3]] + [es[4]] + [es[5]] + [es[6]];
    RunAppend(b, [es[0]] + [es[1]] + [es[2]] + [es[3]] + [es[4]] + [es[5]], [es[6]]);
    RunAppend(b, [es[0]] + [es[1]] + [es[2]] + [es[3]] + [es[4]], [es[5]]);
    RunAppend(b, [es[0]] + [es[1]] + [es[2]] + [es[3]], [es[4]]);
    RunAppend(b, [es[0]] + [es[1]] + [es[2]], [es[3]]);
    RunAppend(b, [es[0]] + [es[1]], [es[2]]);
    RunAppend(b, [es[0]], [es[1]]);
    var b1 := Step(b, es[0]);
    RunOne(b, es[0]);
    var b2 := Step(b1, es[1]);
    RunOne(b1, es[1]);
    var b3 := Step(b2, es[2]);
    RunOne(b2, es[2]);
    var b4 := Step(b3, es[3]);
    RunOne(b3, es[3]);
    var b5 := Step(b4, es[4]);
    RunOne(b4, es[4]);
    var b6 := Step(b5, es[5]);
    RunOne(b5, es[5]);
    RunOne(b6, es[6]);
  }

  /** Clearing and printing the same two rows twice shows what doing it once
      shows. */
  lemma ClearPrintIdempotent(b: Board, firstRow: string, secondRow: string)
    ensures var once := Run(b, ClearPrintEvents(firstRow, secondRow));
      var twice := Run(once, ClearPrintEvents(firstRow, secondRow));
      twice.top == once.top && twice.bottom == once.bottom && twice.col == once.col && twice.row == once.row
  {
    var once := Run(b, ClearPrintEvents(firstRow, secondRow));
    ClearPrintShows(b, firstRow, secondRow);
    ClearPrintShows(once, firstRow, secondRow);
  }

  /** The sensing phase (`src/main.rs:62-67`): sensors on, status message, hold, read
      both sensors, sensors off. */
  function SensingEvents(water: uint16, moisture: uint16): seq<Event> {
    [SetSensor(true)] + ClearPrintEvents("Water & moisture", "sensors ON")
    + [DelayMs(SensorsOnMs as nat), Sample(water, moisture), SetSensor(false)]
  }

  /** The decision phase (`src/main.rs:69-79`): the branch's message, the pump high
      only when the soil is dry, the same hold in every branch, pump low. */
  function DecisionEvents(d: Decision, pumpOnMs: uint16): seq<Event> {
    ClearPrintEvents(MessageFor(d).firstRow, MessageFor(d).secondRow)
    + (if PumpOn(d) then [SetPump(true)] else [])
    + [DelayMs(pumpOnMs as nat), SetPump(false)]
  }

  /** The fresh all-zero buffer of each countdown tick. */
  function Zeros(): (z: seq<uint8>)
    ensures |z| == BufferLength && IsAscii(z)
  {
    seq(BufferLength, _ => 0 as uint8)
  }

  /** The text `to_str` gives for `minutes` left, from a zeroed buffer. */
  function TickText(minutes: uint32): (t: string)
    ensures |t| == BufferLength
  {
    Text(Formatted(New(minutes), Zeros()))
  }

  /** One countdown tick (`src/main.rs:83-89`). */
  function TickEvents(minutes: uint32): seq<Event> {
    [Clear, DelayMs(TickClearMs)] + ClearPrintEvents("Measures in", TickText(minutes)) + [DelayMs(MinuteMs as nat)]
  }

  /** The ticks for the given minute counts, in order. */
  function Ticks(vs: seq<uint32>): seq<Event> {
    if vs == [] then [] else TickEvents(vs[0]) + Ticks(vs[1..])
  }

  /** The values `(1..=n).rev()` yields. */
  function CountdownValues(n: uint32): seq<uint32> {
    seq(n as int, k requires 0 <= k < n as int => (n as int - k) as uint32)
  }

  /** The last step (`src/main.rs:91-92`): "less than 1 min" for the remainder. */
  function FinalEvents(remainderMs: uint16): seq<Event> {
    ClearPrintEvents("Measures in", "less than 1 min") + [DelayMs(remainderMs as nat)]
  }

  /** One pass of the loop body on the given readings. */
  function IterationEvents(pumpOnMs: uint16, water: uint16, moisture: uint16): seq<Event>
    requires SensorsOnMs <= pumpOnMs
  {
    var schedule := ScheduleFor(pumpOnMs);
    SensingEvents(water, moisture) + DecisionEvents(Decide(water, moisture), pumpOnMs)
    + Ticks(CountdownValues(schedule.nextCheckMins)) + FinalEvents(schedule.nextCheckRemainderMs)
  }

  lemma {:induction false} TicksAppend(vs: seq<uint32>, v: uint32)
    ensures Ticks(vs + [v]) == Ticks(vs) + TickEvents(v)
  {
    if vs == [] {
      assert [v][1..] == [];
    } else {
      assert (vs + [v])[1..] == vs[1..] + [v];
      TicksAppend(vs[1..], v);
    }
  }

  /** The countdown runs from `n` down to 1: strictly descending, one value
      per minute, inclusive of 1. */
  lemma CountdownDescends(n: uint32)
    ensures var vs := CountdownValues(n);
      && |vs| == n as int
      && (n > 0 ==> vs[0] == n && vs[|vs| - 1] == 1)
      && (forall i, j :: 0 <= i < j < |vs| ==> vs[i] > vs[j])
      && (forall i :: 0 <= i < |vs| ==> 1 <= vs[i] <= n)
  {
  }

  /** Duration of one countdown tick in microseconds. */
  const TickUs := (TickClearMs + MinuteMs as int) * 1000 + SettleUs

  /** A countdown tick leaves "Measures in" over `to_str`'s text on the
      display, the pins alone, and spends `TickUs` in delays. */
  lemma TickRun(b: Board, minutes: uint32)
    ensures Run(b, TickEvents(minutes))
         == Wait(b, TickUs).(top := Row("Measures in"), bottom := Row(TickText(minutes)), col := 0, row := 0)
  {
    var pre := [Clear, DelayMs(TickClearMs)];
    var cp := ClearPrintEvents("Measures in", TickText(minutes));
    RunAppend(b, pre + cp, [DelayMs(MinuteMs as nat)]);
    RunAppend(b, pre, cp);
    RunAppend(b, [Clear], [DelayMs(TickClearMs)]);
    assert pre == [Clear] + [DelayMs(TickClearMs)];
    RunOne(b, Clear);
    RunOne(Step(b, Clear), DelayMs(TickClearMs));
    ClearPrintShows(Run(b, pre), "Measures in", TickText(minutes));
    RunOne(Run(b, pre + cp), DelayMs(MinuteMs as nat));
  }

  /** For any count of at most a day, `to_str` takes its formatting branch and
      the tick shows the zero-padded hours and minutes left. */
  lemma TickShows(b: Board, minutes: uint32)
    requires minutes <= 1440
    ensures var after := Run(b, TickEvents(minutes));
      && after.top == Row("Measures in")
      && after.bottom == Row(Text(Rendered(minutes as nat / 60, minutes as nat % 60)))
  {
    TickRun(b, minutes);
    FormattedCountdown(minutes, Zeros());
  }

  /** Every tick of a pass takes the formatting branch of `to_str`: the
      countdown never goes past the 1440 minutes the schedule allows, so the
      zeroed buffer is never shown unformatted. */
  lemma EveryTickFormats(pumpOnMs: uint16)
    requires SensorsOnMs <= pumpOnMs
    ensures forall v :: v in CountdownValues(ScheduleFor(pumpOnMs).nextCheckMins) ==>
      TickText(v) == Text(Rendered(v as nat / 60, v as nat % 60))
  {
    var n := ScheduleFor(pumpOnMs).nextCheckMins;
    CountdownDescends(n);
    forall v | v in CountdownValues(n)
      ensures TickText(v) == Text(Rendered(v as nat / 60, v as nat % 60))
    {
      FormattedCountdown(v, Zeros());
    }
  }

  /** Ticks leave both pins as they were and spend `TickUs` of delay each. */
  lemma {:induction false} TicksRun(b: Board, vs: seq<uint32>)
    ensures var after := Run(b, Ticks(vs));
      && after.sensor == b.sensor && after.pump == b.pump
      && after.elapsedUs == b.elapsedUs + |vs| * TickUs
      && after.pumpUs == b.pumpUs + (if b.pump then |vs| * TickUs else 0)
    decreases |vs|
  {
    if vs != [] {
      var rest := vs[1..];
      assert Ticks(vs) == TickEvents(vs[0]) + Ticks(rest);
      RunAppend(b, TickEvents(vs[0]), Ticks(rest));
      TickRun(b, vs[0]);
      var mid := Run(b, TickEvents(vs[0]));
      TicksRun(mid, rest);
      assert |vs| * TickUs == TickUs + |rest| * TickUs;
    }
  }

  /** The sensing phase holds the sensors on for `SensorsOnMs` and switches
      them off again, leaving its status message on the display. */
  lemma SensingRun(b: Board, water: uint16, moisture: uint16)
    ensures Run(b, SensingEvents(water, moisture))
         == Wait(b, SettleUs + 1000 * SensorsOnMs as nat).(top := Row("Water & moisture"), bottom := Row("sensors ON"),
                                                          col := 0, row := 0, sensor := false)
  {
    var cp := ClearPrintEvents("Water & moisture", "sensors ON");
    var hold := [DelayMs(SensorsOnMs as nat)];
    var rest := [Sample(water, moisture), SetSensor(false)];
    assert SensingEvents(water, moisture) == [SetSensor(true)] + cp + hold + rest;
    RunAppend(b, [SetSensor(true)] + cp + hold, rest);
    RunAppend(b, [SetSensor(true)] + cp, hold);
    RunAppend(b, [SetSensor(true)], cp);
    RunOne(b, SetSensor(true));
    ClearPrintShows(Step(b, SetSensor(true)), "Water & moisture", "sensors ON");
    var held := Run(b, [SetSensor(true)] + cp + hold);
    RunOne(Run(b, [SetSensor(true)] + cp), DelayMs(SensorsOnMs as nat));
    RunAppend(held, [Sample(water, moisture)], [SetSensor(false)]);
    assert rest == [Sample(water, moisture)] + [SetSensor(false)];
    RunOne(held, Sample(water, moisture));
    RunOne(held, SetSensor(false));
  }

  /** Both readings are taken while the sensors are powered, after the whole
      settling hold. */
  lemma SampledWhilePowered(b: Board, water: uint16, moisture: uint16)
    ensures var events := SensingEvents(water, moisture);
      var before := Run(b, events[..9]);
      && events[9] == Sample(water, moisture)
      && before.sensor
      && before.elapsedUs == b.elapsedUs + SettleUs + 1000 * SensorsOnMs as nat
  {
    var cp := ClearPrintEvents("Water & moisture", "sensors ON");
    var events := SensingEvents(water, moisture);
    assert events[..9] == [SetSensor(true)] + cp + [DelayMs(SensorsOnMs as nat)];
    RunAppend(b, [SetSensor(true)] + cp, [DelayMs(SensorsOnMs as nat)]);
    RunAppend(b, [SetSensor(true)], cp);
    RunOne(b, SetSensor(true));
    ClearPrintShows(Step(b, SetSensor(true)), "Water & moisture", "sensors ON");
    RunOne(Run(b, [SetSensor(true)] + cp), DelayMs(SensorsOnMs as nat));
  }

  /** Starting with the pump off, the decision phase shows the branch's
      message, runs the pump for exactly `pumpOnMs` when the soil is dry and
      not at all otherwise, spends the same delay time in every branch, and ends
      with the pump off. */
  lemma DecisionRun(b: Board, d: Decision, pumpOnMs: uint16)
    requires !b.pump
    ensures Run(b, DecisionEvents(d, pumpOnMs))
         == b.(top := Row(MessageFor(d).firstRow), bottom := Row(MessageFor(d).secondRow), col := 0, row := 0,
               elapsedUs := b.elapsedUs + SettleUs + 1000 * pumpOnMs as nat,
               pumpUs := b.pumpUs + (if PumpOn(d) then 1000 * pumpOnMs as nat else 0),
               pump := false)
  {
    var cp := ClearPrintEvents(MessageFor(d).firstRow, MessageFor(d).secondRow);
    var on: seq<Event> := if PumpOn(d) then [SetPump(true)] else [];
    var tail := [DelayMs(pumpOnMs as nat), SetPump(false)];
    RunAppend(b, cp + on, tail);
    RunAppend(b, cp, on);
    ClearPrintShows(b, MessageFor(d).firstRow, MessageFor(d).secondRow);
    var shown := Run(b, cp);
    if PumpOn(d) {
      RunOne(shown, SetPump(true));
    } else {
      assert cp + on == cp;
    }
    var ready := Run(b, cp + on);
    assert tail == [DelayMs(pumpOnMs as nat)] + [SetPump(false)];
    RunAppend(ready, [DelayMs(pumpOnMs as nat)], [SetPump(false)]);
    RunOne(ready, DelayMs(pumpOnMs as nat));
    RunOne(Step(ready, DelayMs(pumpOnMs as nat)), SetPump(false));
  }

  lemma FinalRun(b: Board, remainderMs: uint16)
    ensures Run(b, FinalEvents(remainderMs))
         == Wait(b, SettleUs + 1000 * remainderMs as nat).(top := Row("Measures in"), bottom := Row("less than 1 min"),
                                                          col := 0, row := 0)
  {
    var cp := ClearPrintEvents("Measures in", "less than 1 min");
    RunAppend(b, cp, [DelayMs(remainderMs as nat)]);
    ClearPrintShows(b, "Measures in", "less than 1 min");
    RunOne(Run(b, cp), DelayMs(remainderMs as nat));
  }

  /** The delay time of one pass of the loop, in microseconds: a day plus twice
      the sensing time, plus the one-second pause of every countdown tick,
      plus the settling pause of every `clear_print`. It depends only on the
      pump time. */
  function IterationUs(pumpOnMs: uint16): nat
    requires SensorsOnMs <= pumpOnMs
  {
    var minutes := ScheduleFor(pumpOnMs).nextCheckMins as nat;
    (DayMs as nat + 2 * SensorsOnMs as nat + TickClearMs * minutes) * 1000 + SettleUs * (minutes + 3)
  }

  /** One pass of the loop, started with the pump off: it ends with both pins
      low and "less than 1 min" on the display, spends `IterationUs` in delays whatever
      the readings, and runs the pump for exactly `pumpOnMs` when the soil is
      dry and not at all otherwise. So the pump-off precondition holds again
      for the next pass. */
  lemma IterationRun(b: Board, pumpOnMs: uint16, water: uint16, moisture: uint16)
    requires SensorsOnMs <= pumpOnMs && !b.pump
    ensures var after := Run(b, IterationEvents(pumpOnMs, water, moisture));
      && !after.pump && !after.sensor
      && after.top == Row("Measures in") && after.bottom == Row("less than 1 min")
      && after.elapsedUs == b.elapsedUs + IterationUs(pumpOnMs)
      && after.pumpUs == b.pumpUs + (if Decide(water, moisture) == NeedsWater then 1000 * pumpOnMs as nat else 0)
  {
    var schedule := ScheduleFor(pumpOnMs);
    var sensing := SensingEvents(water, moisture);
    var deciding := DecisionEvents(Decide(water, moisture), pumpOnMs);
    var ticks := Ticks(CountdownValues(schedule.nextCheckMins));
    var last := FinalEvents(schedule.nextCheckRemainderMs);
    RunAppend(b, sensing + deciding + ticks, last);
    RunAppend(b, sensing + deciding, ticks);
    RunAppend(b, sensing, deciding);
    SensingRun(b, water, moisture);
    DecisionRun(Run(b, sensing), Decide(water, moisture), pumpOnMs);
    TicksRun(Run(b, sensing + deciding), CountdownValues(schedule.nextCheckMins));
    FinalRun(Run(b, sensing + deciding + ticks), schedule.nextCheckRemainderMs);
  }

  /** Every branch of the decision costs the same delay: two passes on any
      readings spend equal delay time. */
  lemma IterationTimeIndependentOfReadings(b: Board, pumpOnMs: uint16, w1: uint16, m1: uint16, w2: uint16, m2: uint16)
    requires SensorsOnMs <= pumpOnMs && !b.pump
    ensures Run(b, IterationEvents(pumpOnMs, w1, m1)).elapsedUs == Run(b, IterationEvents(pumpOnMs, w2, m2)).elapsedUs
  {
    IterationRun(b, pumpOnMs, w1, m1);
    IterationRun(b, pumpOnMs, w2, m2);
  }

  /** With the shipped constants the delays of a pass add up to 86,400,000 ms + 6,000 ms +
      1,439 s of tick pauses + 144.2 ms of settling pauses. */
  lemma ShippedIterationLength()
    ensures IterationUs(ShippedPumpOnMs) == 87_845_144_200
  {
    ShippedSchedule();
  }

  lemma {:induction false} TicksNeverPump(vs: seq<uint32>)
    ensures forall e :: e in Ticks(vs) ==> !e.SetPump? && !e.SetSensor?
    ensures forall e :: e in Ticks(vs) && e.Print? ==> |e.text| <= Columns
  {
    if vs != [] {
      TicksNeverPump(vs[1..]);
    }
  }

  /** The pump pin is driven high in a pass exactly when the soil is dry. */
  lemma PumpHighOnlyWhenDry(pumpOnMs: uint16, water: uint16, moisture: uint16)
    requires SensorsOnMs <= pumpOnMs
    ensures SetPump(true) in IterationEvents(pumpOnMs, water, moisture) <==> Decide(water, moisture) == NeedsWater
  {
    var schedule := ScheduleFor(pumpOnMs);
    var d := Decide(water, moisture);
    var sensing := SensingEvents(water, moisture);
    var deciding := DecisionEvents(d, pumpOnMs);
    var ticks := Ticks(CountdownValues(schedule.nextCheckMins));
    var last := FinalEvents(schedule.nextCheckRemainderMs);
    assert IterationEvents(pumpOnMs, water, moisture) == sensing + deciding + ticks + last;
    TicksNeverPump(CountdownValues(schedule.nextCheckMins));
    assert SetPump(true) !in sensing;
    assert SetPump(true) !in last;
    assert SetPump(true) in deciding <==> PumpOn(d);
  }

  /** The texts `clear_print` prints are its two rows. */
  lemma ClearPrintPrints(firstRow: string, secondRow: string, e: Event)
    requires e in ClearPrintEvents(firstRow, secondRow) && e.Print?
    ensures e.text == firstRow || e.text == secondRow
  {
  }

  /** Every text a pass prints fits a display row. */
  lemma PrintsFitRow(pumpOnMs: uint16, water: uint16, moisture: uint16)
    requires SensorsOnMs <= pumpOnMs
    ensures forall e :: e in IterationEvents(pumpOnMs, water, moisture) && e.Print? ==> |e.text| <= Columns
  {
    var schedule := ScheduleFor(pumpOnMs);
    var d := Decide(water, moisture);
    var sensing := SensingEvents(water, moisture);
    var deciding := DecisionEvents(d, pumpOnMs);
    var ticks := Ticks(CountdownValues(schedule.nextCheckMins));
    var last := FinalEvents(schedule.nextCheckRemainderMs);
    assert IterationEvents(pumpOnMs, water, moisture) == sensing + deciding + ticks + last;
    TicksNeverPump(CountdownValues(schedule.nextCheckMins));
    forall e: Event | e in sensing + deciding + ticks + last && e.Print?
      ensures |e.text| <= Columns
    {
      if e in sensing {
        ClearPrintPrints("Water & moisture", "sensors ON", e);
      } else if e in deciding {
        ClearPrintPrints(MessageFor(d).firstRow, MessageFor(d).secondRow, e);
      } else if e in last {
        ClearPrintPrints("Measures in", "less than 1 min", e);
      }
    }
  }

  lemma Regroup(a: seq<Event>, b: seq<Event>, c: seq<Event>, d: seq<Event>, e: seq<Event>)
    ensures a + b + c + d + e == a + (b + c + d + e)
  {
  }

  /** The controller's hardware, seen through the effects applied to it. */
  class Controller {
    var trace: seq<Event>

    constructor ()
      ensures trace == []
    {
      trace := [];
    }

    /** Applies one effect: a pin write, a display call or a delay. */
    method Emit(e: Event)
      modifies this
      ensures trace == old(trace) + [e]
    {
      trace := trace + [e];
    }

    /** `ClearPrint::clear_print`. */
    method ClearPrint(firstRow: string, secondRow: string)
      modifies this
      ensures trace == old(trace) + ClearPrintEvents(firstRow, secondRow)
    {
      Emit(Clear);
      Emit(SetPosition(0, 0));
      Emit(Print(firstRow));
      Emit(DelayUs(SettleUs));
      Emit(SetPosition(0, 1));
      Emit(Print(secondRow));
      Emit(SetPosition(0, 0));
    }

    /** One pass of the main loop on the readings the ADC returns, with the
        schedule computed before the loop. */
    method LoopIteration(pumpOnMs: uint16, schedule: CycleSchedule, water: uint16, moisture: uint16)
      requires SensorsOnMs <= pumpOnMs && schedule == ScheduleFor(pumpOnMs)
      modifies this
      ensures trace == old(trace) + IterationEvents(pumpOnMs, water, moisture)
    {
      ghost var start := trace;
      Emit(SetSensor(true));
      ClearPrint("Water & moisture", "sensors ON");
      Emit(DelayMs(SensorsOnMs as nat));
      Emit(Sample(water, moisture));
      Emit(SetSensor(false));
      assert trace == start + SensingEvents(water, moisture);

      ghost var sensed := trace;
      if moisture < MoistureSensorLowerLimit {
        ClearPrint("Moisture sensor", "not in soil");
      } else if water < WaterSensorLimit && moisture < MoistureSensorDrySoilLimit {
        ClearPrint("Plant is dry:", "pump ON");
        Emit(SetPump(true));
      } else {
        ClearPrint("Plant has enough", "water: pump OFF");
      }
      Emit(DelayMs(pumpOnMs as nat));
      Emit(SetPump(false));
      assert trace == sensed + DecisionEvents(Decide(water, moisture), pumpOnMs);

      ghost var decided := trace;
      CountdownTicks(schedule.nextCheckMins);
      ghost var counted := trace;
      ClearPrint("Measures in", "less than 1 min");
      Emit(DelayMs(schedule.nextCheckRemainderMs as nat));
      assert trace == counted + FinalEvents(schedule.nextCheckRemainderMs);
      ghost var sensing := SensingEvents(water, moisture);
      ghost var deciding := DecisionEvents(Decide(water, moisture), pumpOnMs);
      ghost var ticks := Ticks(CountdownValues(schedule.nextCheckMins));
      ghost var last := FinalEvents(schedule.nextCheckRemainderMs);
      assert IterationEvents(pumpOnMs, water, moisture) == sensing + deciding + ticks + last;
      assert trace == start + sensing + deciding + ticks + last;
      Regroup(start, sensing, deciding, ticks, last);
    }

    /** The countdown loop (`src/main.rs:81-90`): one tick per minute left, from
        `minutes` down to 1. */
    method CountdownTicks(minutes: uint32)
      modifies this
      ensures trace == old(trace) + Ticks(CountdownValues(minutes))
    {
      var i := minutes;
      while i >= 1
        invariant i <= minutes
        invariant trace == old(trace) + Ticks(CountdownValues(minutes)[..minutes - i])
      {
        Tick(i);
        CountdownStep(minutes, i);
        i := i - 1;
      }
      assert CountdownValues(minutes)[..minutes] == CountdownValues(minutes);
    }

    /** One countdown tick (`src/main.rs:83-89`). */
    method Tick(minutes: uint32)
      modifies this
      ensures trace == old(trace) + TickEvents(minutes)
    {
      var countDown := New(minutes);
      Emit(Clear);
      Emit(DelayMs(TickClearMs));
      var text := FormatMinutes(countDown);
      ClearPrint("Measures in", text);
      Emit(DelayMs(MinuteMs as nat));
      assert trace == old(trace) + ([Clear, DelayMs(TickClearMs)] + ClearPrintEvents("Measures in", text) + [DelayMs(MinuteMs as nat)]);
    }
  }

  /** `to_str` on a fresh zeroed buffer (`src/main.rs:86-87`), decoded as the
      text `clear_print` is given: the zero-padded "HHh:MMmin" whenever both
      fields fit, nine NUL characters otherwise. */
  method FormatMinutes(countDown: CountDown) returns (text: string)
    ensures text == Text(Formatted(countDown, Zeros()))
    ensures countDown.hoursLeft < 100 && countDown.minsLeft < 100
      ==> text == Text(Rendered(countDown.hoursLeft as nat, countDown.minsLeft as nat))
    ensures countDown.hoursLeft >= 100 || countDown.minsLeft >= 100 ==> text == seq(BufferLength, _ => 0 as char)
  {
    var buffer := new uint8[BufferLength](_ => 0);
    assert buffer[..] == Zeros();
    var bytes := ToStr(countDown, buffer);
    text := Text(bytes);
  }

  /** Taking one more value of the countdown appends that value's tick. */
  lemma CountdownStep(n: uint32, i: uint32)
    requires 1 <= i <= n
    ensures Ticks(CountdownValues(n)[..n - i + 1]) == Ticks(CountdownValues(n)[..n - i]) + TickEvents(i)
  {
    var vs := CountdownValues(n);
    assert vs[..n - i + 1] == vs[..n - i] + [i];
    TicksAppend(vs[..n - i], i);
  }
}
