/**
  Setup and reading sequences that several logging scripts repeat word for
  word: the Keithley 740 scanning thermometer (channels 7 and 8, type K), the
  Keithley 705 scanner in matrix mode, and the Keithley 2015 multimeter in
  one-shot DC volts. Command strings are opaque to the model except for the
  705's cross-point commands.
 */
module Instruments {
  import opened Common
  import opened Bench
  import M = Matrix

  /** Configure the 740 at `addr` and turn on channels 7 and 8 as type K. */
  function ThermometerSetup(addr: int): seq<Op>
  {
    [Select(addr), Write("K0X"), Write("P1X"), Write("O0X"), Write("N10X"), Write("T0X"),
     Write("G2X"), Write("F0X"), Write("B0X"), Write("C07N2X"), Write("C08N2X")]
  }

  /** Read channel 7, then channel 8, of the 740 at `addr`. */
  function ThermometerCycle(addr: int): seq<Op>
  {
    [Select(addr), Write("C07X"), Read, Write("C08X"), Read]
  }

  /** The thermometer cycle reads twice: channel 7, then channel 8. */
  lemma ThermometerReadsTwo(addr: int)
    ensures ReadCount(ThermometerCycle(addr)) == 2
  {
    var q := ThermometerCycle(addr);
    assert q[..1][..0] == [];
    assert ReadCount(q[..1]) == 0;
    assert q[..2][..1] == q[..1];
    assert ReadCount(q[..2]) == 0;
    assert q[..3][..2] == q[..2];
    assert ReadCount(q[..3]) == 1;
    assert q[..4][..3] == q[..3];
    assert ReadCount(q[..4]) == 1;
    assert q[..4] == q[..|q| - 1];
  }

  /** Put the 705 at `addr` in matrix mode and open every cross-point. */
  function SwitchSetup(addr: int): seq<Op>
  {
    [Select(addr), Write("K0X"), Write("T6X"), Write("A0X"), Write(M.ResetCommand), Write("B011X")]
  }

  /** Configure the 2015 at `addr` for one-shot DC volts, filter off. */
  function MeterSetup(addr: int): seq<Op>
  {
    [Select(addr), Write(":FUNC 'VOLT:DC'"), Write(":VOLT:DC:RANGE 10"), Write(":VOLT:DC:NPLC 10"),
     Write(":VOLT:DC:DIG MAX"), Write(":FORMAT:DATA ASCII"), Write(":VOLT:DC:AVER:STATE OFF"),
     Write(":INIT:CONT OFF")]
  }

  /** The commands of the switch setup other than the reset leave the cross-points alone. */
  lemma SwitchSetupOthers()
    ensures M.Effect("K0X") == [] && M.Effect("T6X") == [] && M.Effect("A0X") == [] && M.Effect("B011X") == []
  {
    assert "K0X"[..2] == "K0";
    assert "T6X"[..2] == "T6";
    assert "A0X"[..2] == "A0";
    assert "B011X"[..4] == "B011";
  }

  /** Whatever was closed before, the switch setup leaves every cross-point open, with the switch addressed. */
  lemma SwitchSetupResets(addr: int, s: M.Switch)
    ensures M.Run(addr, s, SwitchSetup(addr)) == M.Switch(Some(addr), {})
    ensures M.Readings(addr, s, SwitchSetup(addr)) == []
    ensures M.Isolated(addr, s, SwitchSetup(addr)) <==> |s.closed| <= 1
  {
    SwitchSetupOthers();
    var modes := [Write("K0X"), Write("T6X"), Write("A0X")];
    M.SelectThenInert(addr, addr, s, modes);
    ResetThenRoute(addr, s.(listener := Some(addr)));
    assert SwitchSetup(addr) == [Select(addr)] + modes + ResetTail();
    M.RunAppend(addr, s, [Select(addr)] + modes, ResetTail());
  }

  /** The end of the switch setup: the reset, then the routing mode. */
  function ResetTail(): seq<Op>
  {
    [Write(M.ResetCommand), Write("B011X")]
  }

  /** With the switch addressed, the end of its setup opens every cross-point and reads nothing. */
  lemma ResetThenRoute(addr: int, s: M.Switch)
    requires s.listener == Some(addr)
    ensures M.Run(addr, s, ResetTail()) == M.Switch(Some(addr), {})
    ensures M.Readings(addr, s, ResetTail()) == []
    ensures M.Isolated(addr, s, ResetTail()) <==> |s.closed| <= 1
  {
    SwitchSetupOthers();
    M.EffectReset();
    M.ResetClears(addr, s);
    M.InertRun(addr, M.Switch(Some(addr), {}), ResetTail()[1..]);
  }

  /** Commands written to another device leave the switch's cross-points as they are, while each reading sees them. */
  lemma ThermometerLeavesSwitch(sw: int, addr: int, s: M.Switch)
    requires addr != sw
    ensures M.Run(sw, s, ThermometerCycle(addr)) == s.(listener := Some(addr))
    ensures M.Readings(sw, s, ThermometerCycle(addr)) == [s.closed, s.closed]
    ensures M.Isolated(sw, s, ThermometerCycle(addr)) <==> |s.closed| <= 1
    ensures M.Run(sw, s, ThermometerSetup(addr)) == s.(listener := Some(addr))
    ensures M.Readings(sw, s, ThermometerSetup(addr)) == []
  {
    var cycle := ThermometerCycle(addr);
    assert cycle == [Select(addr)] + cycle[1..];
    assert cycle[1..] == [Write("C07X"), Read, Write("C08X"), Read];
    ThermometerReadsTwo(addr);
    assert ReadCount(cycle) == ReadCount([Select(addr)]) + ReadCount(cycle[1..]) by {
      ReadCountAppend([Select(addr)], cycle[1..]);
    }
    assert ReadCount([Select(addr)]) == 0 by { assert [Select(addr)][..0] == []; }
    M.SelectThenInert(sw, addr, s, cycle[1..]);
    var setup := ThermometerSetup(addr);
    assert setup == [Select(addr)] + setup[1..];
    WritesOnly(setup[1..]);
    M.SelectThenInert(sw, addr, s, setup[1..]);
  }

  /** The same for the multimeter's setup. */
  lemma MeterLeavesSwitch(sw: int, addr: int, s: M.Switch)
    requires addr != sw
    ensures M.Run(sw, s, MeterSetup(addr)) == s.(listener := Some(addr))
    ensures M.Readings(sw, s, MeterSetup(addr)) == []
  {
    var setup := MeterSetup(addr);
    assert setup == [Select(addr)] + setup[1..];
    WritesOnly(setup[1..]);
    M.SelectThenInert(sw, addr, s, setup[1..]);
  }

  /** A sequence of writes reads nothing. */
  lemma {:induction false} WritesOnly(ops: seq<Op>)
    requires forall i :: 0 <= i < |ops| ==> ops[i].Write?
    ensures ReadCount(ops) == 0
    decreases |ops|
  {
    if ops != [] {
      WritesOnly(ops[..|ops| - 1]);
    }
  }
}
