/**
  test_temp_and_matrix.py: the two-channel thermometer log of
  dual_temp_logger.py (thermometer at address 3), plus a Keithley 705 matrix
  at address 4 on which each cycle closes and opens the cross-points of
  column 1 with rows 1, 2 and 3 in turn. Restarts on a GPIB timeout.
 */
module TempAndMatrix {
  import opened Common
  import opened Bench
  import opened Logging
  import opened Instruments
  import Numerals
  import M = Matrix

  const Thermometer: int := 3
  const Switch: int := 4
  const Delay: nat := 5000
  /** `time.sleep(0.1)` between closing and opening a cross-point. */
  const Dwell: nat := 100

  /** Close column 1 to `row`, wait, open it again. */
  function Toggle(row: nat): seq<Op>
    requires row < 10
  {
    [Write(M.Command([M.Close(M.Point(1, row))])), Sleep(Dwell), Write(M.Command([M.Open(M.Point(1, row))]))]
  }

  function Cycle(): seq<Op>
  {
    ThermometerCycle(Thermometer) + [Select(Switch)] + Toggle(1) + Toggle(2) + Toggle(3)
  }

  function Setup(): seq<Op>
  {
    [InterfaceClear] + ThermometerSetup(Thermometer) + SwitchSetup(Switch)
  }

  function Plan(): Protocol
  {
    Protocol(
      Setup(),
      Some(["DateTime", "Temp7", "Temp8"]),
      Cycle(),
      [Value(0), Value(1)],
      Some(Delay),
      true)
  }

  /** The toggles write the script's literal commands. */
  lemma ToggleText()
    ensures Toggle(1) == [Write("C01:1X"), Sleep(Dwell), Write("N01:1X")]
    ensures Toggle(2) == [Write("C01:2X"), Sleep(Dwell), Write("N01:2X")]
    ensures Toggle(3) == [Write("C01:3X"), Sleep(Dwell), Write("N01:3X")]
  {
    M.CommandOne(M.Close(M.Point(1, 1)));
    M.CommandOne(M.Open(M.Point(1, 1)));
    M.CommandOne(M.Close(M.Point(1, 2)));
    M.CommandOne(M.Open(M.Point(1, 2)));
    M.CommandOne(M.Close(M.Point(1, 3)));
    M.CommandOne(M.Open(M.Point(1, 3)));
  }

  /** With the switch addressed and open, a toggle closes one cross-point at most, and leaves it open again. */
  lemma ToggleRun(row: nat)
    requires row < 10
    ensures var s := M.Switch(Some(Switch), {});
            M.Run(Switch, s, Toggle(row)) == s && M.Isolated(Switch, s, Toggle(row)) && M.Readings(Switch, s, Toggle(row)) == []
  {
    var s := M.Switch(Some(Switch), {});
    var p := M.Point(1, row);
    var ops := Toggle(row);
    var s1 := M.Switch(Some(Switch), {p});
    M.WriteTo(Switch, s, [M.Close(p)]);
    M.WriteTo(Switch, s1, [M.Open(p)]);
    assert M.Step(Switch, s, ops[0]) == s1;
    assert M.Step(Switch, s1, ops[1]) == s1;
    assert M.Step(Switch, s1, ops[2]) == s;
    M.Unfold(Switch, s, ops, 0);
    M.Unfold(Switch, s1, ops, 1);
    M.Unfold(Switch, s1, ops, 2);
    assert ops[0..] == ops;
    assert ops[3..] == [];
  }

  /** The three toggles, from an addressed and open switch. */
  lemma TogglesRun()
    ensures var s := M.Switch(Some(Switch), {});
            var ops := Toggle(1) + Toggle(2) + Toggle(3);
            M.Run(Switch, s, ops) == s && M.Isolated(Switch, s, ops) && M.Readings(Switch, s, ops) == []
  {
    var s := M.Switch(Some(Switch), {});
    ToggleRun(1);
    ToggleRun(2);
    ToggleRun(3);
    M.RunAppend(Switch, s, Toggle(1), Toggle(2));
    M.RunAppend(Switch, s, Toggle(1) + Toggle(2), Toggle(3));
  }

  /** The thermometer readings, then addressing the switch. */
  lemma ReadingsRun(s: M.Switch)
    requires s.closed == {}
    ensures var ops := ThermometerCycle(Thermometer) + [Select(Switch)];
            M.Run(Switch, s, ops) == M.Switch(Some(Switch), {}) && M.Isolated(Switch, s, ops) && M.Readings(Switch, s, ops) == [{}, {}]
  {
    var t := ThermometerCycle(Thermometer);
    var s1 := s.(listener := Some(Thermometer));
    ThermometerLeavesSwitch(Switch, Thermometer, s);
    M.SelectRun(Switch, s1, Switch);
    M.RunAppend(Switch, s, t, [Select(Switch)]);
    assert s1.(listener := Some(Switch)) == M.Switch(Some(Switch), {});
  }

  /**
    Starting with every cross-point open, a cycle never has more than one
    closed, leaves none closed, and the thermometer reads with none closed.
   */
  lemma CycleIsolated(s: M.Switch)
    requires s.closed == {}
    ensures M.Run(Switch, s, Cycle()) == M.Switch(Some(Switch), {})
    ensures M.Isolated(Switch, s, Cycle())
    ensures M.Readings(Switch, s, Cycle()) == [{}, {}]
  {
    var first := ThermometerCycle(Thermometer) + [Select(Switch)];
    var toggles := Toggle(1) + Toggle(2) + Toggle(3);
    ReadingsRun(s);
    TogglesRun();
    assert Cycle() == first + toggles;
    M.RunAppend(Switch, s, first, toggles);
  }

  /** Whatever the switch held before, the setup leaves it addressed with every cross-point open. */
  lemma SetupResets(s: M.Switch)
    ensures M.Run(Switch, s, Setup()) == M.Switch(Some(Switch), {})
  {
    assert M.Run(Switch, s, [InterfaceClear]) == s;
    ThermometerLeavesSwitch(Switch, Thermometer, s);
    SwitchSetupResets(Switch, s.(listener := Some(Thermometer)));
    M.RunAppend(Switch, s, [InterfaceClear], ThermometerSetup(Thermometer));
    M.RunAppend(Switch, s, [InterfaceClear] + ThermometerSetup(Thermometer), SwitchSetup(Switch));
  }

  /** Over any number of cycles after the setup, at most one cross-point is closed at any moment. */
  lemma SessionIsolated(s: M.Switch, n: nat)
    ensures M.Isolated(Switch, M.Run(Switch, s, Setup()), Again(Cycle(), n))
    ensures M.Run(Switch, M.Run(Switch, s, Setup()), Again(Cycle(), n)) == M.Switch(Some(Switch), {})
  {
    SetupResets(s);
    CycleIsolated(M.Switch(Some(Switch), {}));
    M.AgainRun(Switch, M.Switch(Some(Switch), {}), Cycle(), n);
  }

  lemma CycleReadsTwo()
    ensures ReadCount(Cycle()) == 2
  {
    ThermometerReadsTwo(Thermometer);
    var rest := [Select(Switch)] + Toggle(1) + Toggle(2) + Toggle(3);
    assert Cycle() == ThermometerCycle(Thermometer) + rest;
    ReadCountAppend(ThermometerCycle(Thermometer), rest);
    assert ReadCount(rest) == 0 by {
      assert forall i :: 0 <= i < |rest| ==> !Reads(rest[i]);
      NoReads(rest);
    }
  }

  lemma PlanWellFormed()
    ensures WellFormed(Plan())
  {
    CycleReadsTwo();
    SetupSessionFree();
    CycleSessionFree();
  }

  /** Neither the setup nor the cycle opens or closes the connection. */
  lemma SetupSessionFree()
    ensures NoSession(Setup())
  {
  }

  lemma CycleSessionFree()
    ensures NoSession(Cycle())
  {
  }

  /** The setup resets the matrix after clearing the bus and configuring the thermometer, before any cycle. */
  lemma SetupOrder()
    ensures Plan().setup[0] == InterfaceClear
    ensures Plan().setup[|Plan().setup| - 2] == Write(M.ResetCommand)
  {
  }

  /** A row holds the start time and the two temperatures, matching the three-column header. */
  lemma RowShape(start: nat, replies: seq<string>, toFloat: string -> real)
    requires |replies| == 2
    ensures ReadCount(Plan().cycle) == |replies| && Fits(Plan().columns, |replies|)
    ensures RowOf(start, Plan().columns, replies, toFloat) == [Stamp(start), Number(toFloat(replies[0])), Number(toFloat(replies[1]))]
    ensures |RowOf(start, Plan().columns, replies, toFloat)| == |Plan().header.value|
  {
    CycleReadsTwo();
  }
}
