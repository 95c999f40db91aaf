/**
  dual_temp_logger.py: log channels 7 and 8 of a Keithley 740 scanning
  thermometer every five seconds, restarting the session on a GPIB timeout.
 */
module DualTempLogger {
  import opened Common
  import opened Bench
  import opened Logging
  import opened Instruments

  const Thermometer: int := 11
  /** `MEASUREMENT_DELAY`, 5.0 seconds. */
  const Delay: nat := 5000

  function Plan(): Protocol
  {
    Protocol(
      [InterfaceClear] + ThermometerSetup(Thermometer),
      Some(["DateTime", "T7", "T8"]),
      ThermometerCycle(Thermometer),
      [Value(0), Value(1)],
      Some(Delay),
      true)
  }

  lemma PlanWellFormed()
    ensures WellFormed(Plan())
  {
    ThermometerReadsTwo(Thermometer);
  }

  /** The bus is cleared before the thermometer is addressed, and both come before every setup write. */
  lemma SetupOrder()
    ensures Plan().setup[0] == InterfaceClear && Plan().setup[1] == Select(Thermometer)
    ensures forall i :: 2 <= i < |Plan().setup| ==> Plan().setup[i].Write?
  {
  }

  /** A row is the cycle's start time and the two readings, in channel order. */
  lemma RowShape(start: nat, replies: seq<string>, toFloat: string -> real)
    requires |replies| == 2
    ensures ReadCount(Plan().cycle) == |replies| && Fits(Plan().columns, |replies|)
    ensures RowOf(start, Plan().columns, replies, toFloat) == [Stamp(start), Number(toFloat(replies[0])), Number(toFloat(replies[1]))]
  {
    ThermometerReadsTwo(Thermometer);
  }
}
