/** The irrigation decision of the main loop: two raw ADC readings against
    three fixed thresholds give one of three outcomes, each with its own
    two-row message and pump setting. */
module Irrigation {
  import opened MachineWords

  /** A water reading below this means the water sensor touches no water. */
  const WaterSensorLimit: uint16 := 100
  /** A moisture reading below this means the moisture probe is not in soil. */
  const MoistureSensorLowerLimit: uint16 := 20
  /** A moisture reading below this means the soil is dry enough to water. */
  const MoistureSensorDrySoilLimit: uint16 := 500

  datatype Decision = SensorNotInSoil | NeedsWater | SufficientWater

  /** The two rows the display shows for a decision. */
  datatype Message = Message(firstRow: string, secondRow: string)

  /** The branch taken on the readings: the probe check first, then "dry"
      (little water and dry soil), otherwise "enough water". Every comparison
      is strict, so a reading equal to a threshold is not below it. */
  function Decide(water: uint16, moisture: uint16): (d: Decision)
    ensures d == SensorNotInSoil <==> moisture < MoistureSensorLowerLimit
    ensures d == NeedsWater <==>
      MoistureSensorLowerLimit <= moisture < MoistureSensorDrySoilLimit && water < WaterSensorLimit
    ensures d == SufficientWater <==>
      MoistureSensorLowerLimit <= moisture && (WaterSensorLimit <= water || MoistureSensorDrySoilLimit <= moisture)
  {
    if moisture < MoistureSensorLowerLimit then SensorNotInSoil
    else if water < WaterSensorLimit && moisture < MoistureSensorDrySoilLimit then NeedsWater
    else SufficientWater
  }

  /** The rows `clear_print` is given in each branch. */
  function MessageFor(d: Decision): (m: Message)
    ensures |m.firstRow| <= 16 && |m.secondRow| <= 16
  {
    match d
    case SensorNotInSoil => Message("Moisture sensor", "not in soil")
    case NeedsWater => Message("Plant is dry:", "pump ON")
    case SufficientWater => Message("Plant has enough", "water: pump OFF")
  }

  /** Whether the branch drives the pump pin high. */
  predicate PumpOn(d: Decision) {
    d == NeedsWater
  }

  /** The probe check wins: a moisture reading below the lower limit decides
      alone, whatever the water sensor says. */
  lemma ProbeCheckTakesPrecedence(water1: uint16, water2: uint16, moisture: uint16)
    requires moisture < MoistureSensorLowerLimit
    ensures Decide(water1, moisture) == Decide(water2, moisture) == SensorNotInSoil
  {
  }

  /** More water at the water sensor never turns "enough water" into "dry". */
  lemma MoreWaterStaysSufficient(water: uint16, wetter: uint16, moisture: uint16)
    requires Decide(water, moisture) == SufficientWater && water <= wetter
    ensures Decide(wetter, moisture) == SufficientWater
  {
  }

  /** The three messages are distinct, so the display tells which branch ran;
      only the "dry" message is shown with the pump on. */
  lemma MessagesIdentifyDecision(d1: Decision, d2: Decision)
    ensures MessageFor(d1) == MessageFor(d2) <==> d1 == d2
    ensures PumpOn(d1) <==> MessageFor(d1) == Message("Plant is dry:", "pump ON")
  {
  }

  /** The worked readings: probe out of soil, dry soil, enough water, and the
      thresholds themselves counting as "not below". */
  lemma DecisionExamples()
    ensures Decide(50, 10) == SensorNotInSoil
    ensures Decide(50, 300) == NeedsWater
    ensures Decide(150, 300) == SufficientWater
    ensures Decide(0, 20) == NeedsWater
    ensures Decide(100, 300) == SufficientWater
    ensures Decide(0, 500) == SufficientWater
  {
  }
}
