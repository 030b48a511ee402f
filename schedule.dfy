/** The time arithmetic done once before the main loop: how long the next
    check waits, split into whole minutes and a millisecond remainder. */
module Schedule {
  import opened MachineWords

  /** How long the sensors stay powered before they are read, in ms. */
  const SensorsOnMs: uint16 := 3000
  /** One day in milliseconds. */
  const DayMs: uint32 := 24 * 60 * 60 * 1000
  const MinuteMs: uint32 := 60_000
  /** The pump time the shipped constants give: 300 ml at 0.0475 ml/ms,
      truncated to whole milliseconds. */
  const ShippedPumpOnMs: uint16 := 6315

  datatype CycleSchedule = CycleSchedule(nextCheckMs: uint32, nextCheckMins: uint32, nextCheckRemainderMs: uint16)

  /** The wait after sensing and pumping is a day less the pump time in
      excess of the sensing time; it splits exactly into whole minutes and a
      remainder under a minute, which therefore fits the 16-bit cast. The
      caller must give a pump time of at least the sensing time, or the
      16-bit subtraction underflows. */
  function ScheduleFor(pumpOnMs: uint16): (s: CycleSchedule)
    requires SensorsOnMs <= pumpOnMs
    ensures s.nextCheckMs as int + pumpOnMs as int == DayMs as int + SensorsOnMs as int
    ensures s.nextCheckMins as int * MinuteMs as int + s.nextCheckRemainderMs as int == s.nextCheckMs as int
    ensures s.nextCheckRemainderMs < MinuteMs as uint16
    ensures 1438 <= s.nextCheckMins <= 1440
  {
    var excess := pumpOnMs - SensorsOnMs;
    var nextCheckMs := DayMs - excess as uint32;
    CycleSchedule(nextCheckMs, nextCheckMs / MinuteMs, (nextCheckMs % MinuteMs) as uint16)
  }

  /** The schedule of the shipped constants. */
  lemma ShippedSchedule()
    ensures ScheduleFor(ShippedPumpOnMs) == CycleSchedule(86_396_685, 1439, 56_685)
  {
  }
}
