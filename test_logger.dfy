/**
  test.py: a Keithley 2015 (queried) and a Keithley 196 (read) logged every
  five seconds next to a fixed temperature text, restarting on a GPIB timeout.
  It writes no header: that line is commented out.
 */
module TestLogger {
  import opened Common
  import opened Bench
  import opened Logging

  const Multimeter: int := 10
  const Voltmeter: int := 11
  const Delay: nat := 5000

  function MultimeterSetup(): seq<Op>
  {
    [Select(Multimeter), Write(":FUNC 'VOLT:DC'"), Write(":VOLT:DC:RANGE 10"), Write(":VOLT:DC:NPLC 10"),
     Write(":VOLT:DC:DIG MAX"), Write(":FORMAT:DATA ASCII"), Write(":VOLT:DC:AVER:TCON MOV"),
     Write(":VOLT:DC:AVER:COUNT 10"), Write(":VOLT:DC:AVER:STATE ON")]
  }

  function VoltmeterSetup(): seq<Op>
  {
    [Select(Voltmeter), Write("F0X"), Write("R3X"), Write("Z0X"), Write("S3X"), Write("B0X"),
     Write("G1X"), Write("P99X"), Write("N1X"), Write("T0X"), Write("A1X")]
  }

  function Cycle(): seq<Op>
  {
    [Select(Multimeter), Query(":READ?"), Select(Voltmeter), Read]
  }

  function Plan(): Protocol
  {
    Protocol(MultimeterSetup() + VoltmeterSetup(), None, Cycle(), [Fixed("23.0"), Value(0), Value(1)], Some(Delay), true)
  }

  lemma CycleReadsTwo()
    ensures ReadCount(Cycle()) == 2
  {
    var q := Cycle();
    assert q[..1][..0] == [];
    assert ReadCount(q[..1]) == 0;
    assert q[..2][..1] == q[..1];
    assert ReadCount(q[..2]) == 1;
    assert q[..3][..2] == q[..2];
    assert ReadCount(q[..3]) == 1;
    assert q[..3] == q[..|q| - 1];
  }

  lemma PlanWellFormed()
    ensures WellFormed(Plan())
  {
    CycleReadsTwo();
    SetupSessionFree();
    CycleSessionFree();
  }

  /** Neither the setup nor the cycle opens or closes the connection. */
  lemma SetupSessionFree()
    ensures NoSession(Plan().setup)
  {
  }

  lemma CycleSessionFree()
    ensures NoSession(Cycle())
  {
  }

  /** No `interface_clear`: the first bus action after `open` addresses the 2015. */
  lemma SetupOrder()
    ensures Plan().setup[0] == Select(Multimeter)
    ensures InterfaceClear !in Plan().setup
  {
  }

  /** A row is the start time, the text "23.0", the 2015's reply to `:READ?`, then the 196's reading. */
  lemma RowShape(start: nat, replies: seq<string>, toFloat: string -> real)
    requires |replies| == 2
    ensures ReadCount(Plan().cycle) == |replies| && Fits(Plan().columns, |replies|)
    ensures RowOf(start, Plan().columns, replies, toFloat)
         == [Stamp(start), Text("23.0"), Number(toFloat(replies[0])), Number(toFloat(replies[1]))]
  {
    CycleReadsTwo();
  }
}
