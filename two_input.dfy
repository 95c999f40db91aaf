/**
  two_input_two_meter_matrix.py: two inputs (columns 1 and 2 of a Keithley
  705 matrix: an EDC calibrator and a JFET reference) are routed to two
  meters (row 2: a Keithley 2015, row 1: a Keithley 196), then swapped, so
  each meter measures each input once per cycle; each measurement is the mean
  of several readings. Two temperatures come first. The main loop has no
  exception handler: any exception ends the program after `close`.
 */
module TwoInputMatrix {
  import opened Common
  import opened Bench
  import L = Logging
  import opened Instruments
  import Numerals
  import M = Matrix

  const Thermometer: int := 11
  const Switch: int := 10
  const Multimeter: int := 1
  const Voltmeter: int := 2
  /** `K2015_MEASURE_COUNT` and `K196_MEASURE_COUNT`. */
  const MultimeterCount: nat := 4
  const VoltmeterCount: nat := 10
  /** `MEASUREMENT_DELAY`, 10.0 seconds, and `MATRIX_SWITCH_STABILISE_DELAY`, 0.2 seconds. */
  const Delay: nat := 10000
  const Settle: nat := 200

  function VoltmeterSetup(): seq<Op>
  {
    [Select(Voltmeter), Write("K0X"), Write("F0X"), Write("R3X"), Write("Z0X"), Write("S3X"),
     Write("B0X"), Write("G1X"), Write("P0X"), Write("N1X"), Write("A1X"), Write("T0X")]
  }

  function Setup(): seq<Op>
  {
    [InterfaceClear] + ThermometerSetup(Thermometer) + SwitchSetup(Switch) + MeterSetup(Multimeter) + VoltmeterSetup()
  }

  /** EDC (column 1) to the 2015 (row 2), JFET reference (column 2) to the 196 (row 1). */
  function FirstRouting(): seq<M.Action>
  {
    [M.Close(M.Point(1, 2)), M.Close(M.Point(2, 1))]
  }

  function Unrouting(): seq<M.Action>
  {
    [M.Open(M.Point(1, 2)), M.Open(M.Point(2, 1))]
  }

  /** EDC to the 196 (row 1), JFET reference to the 2015 (row 2). */
  function SecondRouting(): seq<M.Action>
  {
    [M.Close(M.Point(1, 1)), M.Close(M.Point(2, 2))]
  }

  /** Address the switch, write two commands, let the contacts settle, address the 2015. */
  function Route(first: string, second: string): seq<Op>
  {
    [Select(Switch), Write(first), Write(second), Sleep(Settle), Select(Multimeter)]
  }

  function RouteFirst(): seq<Op>
  {
    Route(M.ResetCommand, M.Command(FirstRouting()))
  }

  function RouteSecond(): seq<Op>
  {
    Route(M.Command(Unrouting()), M.Command(SecondRouting()))
  }

  /** Averaged readings of both meters, the 2015 addressed on entry. */
  function Measure(): seq<Op>
  {
    Half(MultimeterCount, VoltmeterCount)
  }

  function Cycle(): seq<Op>
  {
    ThermometerCycle(Thermometer) + RouteFirst() + Measure() + RouteSecond() + Measure()
  }

  /**
    Replies 0 and 1 are the temperatures, 2..5 the 2015 on EDC, 6..15 the 196
    on the JFET reference, 16..19 the 2015 on the JFET reference, 20..29 the
    196 on EDC; the row lists 2015 EDC, 196 EDC, 2015 JFET, 196 JFET.
   */
  function Columns(): seq<L.Column>
  {
    [L.Value(0), L.Value(1), L.Mean(2, 6), L.Mean(20, 30), L.Mean(16, 20), L.Mean(6, 16)]
  }

  function Plan(): L.Protocol
  {
    L.Protocol(
      Setup(),
      Some(["DateTime", "TWindow", "TRoom", "K2015A_EDC", "K196A_EDC", "K2015A_JVR", "K196A_JVR"]),
      Cycle(),
      Columns(),
      Some(Delay),
      false)
  }

  /** The routing commands are the script's literal strings. */
  lemma CommandText()
    ensures M.Command(FirstRouting()) == "C01:2 C02:1X"
    ensures M.Command(Unrouting()) == "N01:2 N02:1X"
    ensures M.Command(SecondRouting()) == "C01:1 C02:2X"
  {
    TwoTokens(true, 1, 2, 2, 1);
    TwoTokens(false, 1, 2, 2, 1);
    TwoTokens(true, 1, 1, 2, 2);
  }

  /** Two actions of one kind on columns below 10. */
  lemma TwoTokens(close: bool, c1: nat, r1: nat, c2: nat, r2: nat)
    requires c1 < 10 && r1 < 10 && c2 < 10 && r2 < 10
    ensures var k := if close then 'C' else 'N';
            var a := if close then M.Close(M.Point(c1, r1)) else M.Open(M.Point(c1, r1));
            var b := if close then M.Close(M.Point(c2, r2)) else M.Open(M.Point(c2, r2));
            M.Command([a, b]) == [k, '0', Numerals.DigitChar(c1), ':', Numerals.DigitChar(r1), ' ', k, '0', Numerals.DigitChar(c2), ':', Numerals.DigitChar(r2), 'X']
  {
    var a := if close then M.Close(M.Point(c1, r1)) else M.Open(M.Point(c1, r1));
    var b := if close then M.Close(M.Point(c2, r2)) else M.Open(M.Point(c2, r2));
    M.TokenShape(a);
    M.TokenShape(b);
    M.CommandTwo(a, b);
  }

  /** The cross-points closed during the first and during the second half of a cycle. */
  function FirstPhase(): set<M.Point> { {M.Point(1, 2), M.Point(2, 1)} }
  function SecondPhase(): set<M.Point> { {M.Point(1, 1), M.Point(2, 2)} }

  /** In each half both inputs are routed, each to one meter, never both to the same one; and each input changes meter between the halves. */
  lemma PhasesRouteOneToOne()
    ensures M.OneToOne(FirstPhase()) && M.OneToOne(SecondPhase())
    ensures (set p | p in FirstPhase() :: p.col) == {1, 2} && (set p | p in SecondPhase() :: p.col) == {1, 2}
    ensures forall p, q :: p in FirstPhase() && q in SecondPhase() && p.col == q.col ==> p.row != q.row
  {
  }

  lemma RouteRun(s: M.Switch, first: string, second: string)
    ensures M.Run(Switch, s, Route(first, second))
         == M.Switch(Some(Multimeter), M.ApplyAll(M.ApplyAll(s.closed, M.Effect(first)), M.Effect(second)))
    ensures M.Readings(Switch, s, Route(first, second)) == []
  {
    var head, tail := [Select(Switch), Write(first), Write(second)], [Sleep(Settle), Select(Multimeter)];
    assert Route(first, second) == head + tail;
    M.Quiet(Switch, s, head + tail);
    RouteWrites(s, first, second);
    M.RunAppend(Switch, s, head, tail);
    SettleRun(M.Run(Switch, s, head));
  }

  /** Waiting for the contacts, then addressing the 2015, leaves the cross-points alone. */
  lemma SettleRun(s: M.Switch)
    ensures M.Run(Switch, s, [Sleep(Settle), Select(Multimeter)]) == s.(listener := Some(Multimeter))
  {
    var tail := [Sleep(Settle), Select(Multimeter)];
    M.Unfold(Switch, s, tail, 0);
    M.Unfold(Switch, s, tail, 1);
    assert tail[0..] == tail && tail[2..] == [];
  }

  /** Addressing the switch and writing two commands applies the first's actions, then the second's. */
  lemma RouteWrites(s: M.Switch, first: string, second: string)
    ensures M.Run(Switch, s, [Select(Switch), Write(first), Write(second)])
         == M.Switch(Some(Switch), M.ApplyAll(M.ApplyAll(s.closed, M.Effect(first)), M.Effect(second)))
  {
    var ops := [Select(Switch), Write(first), Write(second)];
    var s1 := s.(listener := Some(Switch));
    var s2 := s1.(closed := M.ApplyAll(s.closed, M.Effect(first)));
    M.Unfold(Switch, s, ops, 0);
    M.Unfold(Switch, s1, ops, 1);
    M.Unfold(Switch, s2, ops, 2);
    assert ops[0..] == ops && ops[3..] == [];
  }

  lemma RouteFirstRun(s: M.Switch)
    ensures M.Run(Switch, s, RouteFirst()) == M.Switch(Some(Multimeter), FirstPhase())
    ensures M.Readings(Switch, s, RouteFirst()) == []
  {
    RouteRun(s, M.ResetCommand, M.Command(FirstRouting()));
    M.EffectReset();
    M.EffectCommand(FirstRouting());
    ResetOpensAll(s.closed);
    FirstRoutingCloses();
  }

  lemma RouteSecondRun(s: M.Switch)
    requires s.closed == FirstPhase()
    ensures M.Run(Switch, s, RouteSecond()) == M.Switch(Some(Multimeter), SecondPhase())
    ensures M.Readings(Switch, s, RouteSecond()) == []
  {
    RouteRun(s, M.Command(Unrouting()), M.Command(SecondRouting()));
    M.EffectCommand(Unrouting());
    M.EffectCommand(SecondRouting());
    UnroutingOpens();
    SecondRoutingCloses();
  }

  /** A reset opens every cross-point. */
  lemma ResetOpensAll(closed: set<M.Point>)
    ensures M.ApplyAll(closed, [M.Reset]) == {}
  {
    assert M.ApplyAll(closed, [M.Reset]) == M.ApplyAll({}, []);
  }

  lemma FirstRoutingCloses()
    ensures M.ApplyAll({}, FirstRouting()) == FirstPhase()
  {
    assert FirstRouting()[1..] == [M.Close(M.Point(2, 1))];
  }

  /** Opening the first phase's two cross-points leaves none closed. */
  lemma UnroutingOpens()
    ensures M.ApplyAll(FirstPhase(), Unrouting()) == {}
  {
    assert Unrouting()[1..] == [M.Open(M.Point(2, 1))];
  }

  lemma SecondRoutingCloses()
    ensures M.ApplyAll({}, SecondRouting()) == SecondPhase()
  {
    assert SecondRouting()[1..] == [M.Close(M.Point(2, 2))];
  }

  /** Every reading of a measurement half sees the cross-points of that half, and the switch is left alone. */
  lemma MeasureRun(s: M.Switch)
    requires s.listener == Some(Multimeter)
    ensures M.Run(Switch, s, Measure()) == s.(listener := Some(Voltmeter))
    ensures |M.Readings(Switch, s, Measure())| == MultimeterCount + VoltmeterCount
    ensures forall k :: 0 <= k < |M.Readings(Switch, s, Measure())| ==> M.Readings(Switch, s, Measure())[k] == s.closed
    ensures ReadCount(Measure()) == MultimeterCount + VoltmeterCount
  {
    HalfRun(s, MultimeterCount, VoltmeterCount);
  }

  /** `MeasureRun` for any number of readings of each meter. */
  lemma HalfRun(s: M.Switch, m: nat, v: nat)
    requires s.listener == Some(Multimeter)
    ensures M.Run(Switch, s, Half(m, v)) == s.(listener := Some(Voltmeter))
    ensures |M.Readings(Switch, s, Half(m, v))| == m + v == ReadCount(Half(m, v))
    ensures forall k :: 0 <= k < |M.Readings(Switch, s, Half(m, v))| ==> M.Readings(Switch, s, Half(m, v))[k] == s.closed
  {
    var queries := Repeat(Query(":READ?"), m);
    var rest := [Select(Voltmeter)] + Repeat(Read, v);
    assert Half(m, v) == queries + rest by {
      Associate(queries, [Select(Voltmeter)], Repeat(Read, v));
    }
    MultimeterReadings(s, m);
    VoltmeterReadings(s, v);
    ghost var a, b := M.Readings(Switch, s, queries), M.Readings(Switch, s, rest);
    assert M.Run(Switch, s, Half(m, v)) == M.Run(Switch, s, rest) && M.Readings(Switch, s, Half(m, v)) == a + b by {
      M.RunAppend(Switch, s, queries, rest);
    }
    Uniform(a, b, s.closed);
    ReadCountAppend(queries, rest);
  }

  /** The 2015's readings, with the switch left alone. */
  lemma MultimeterReadings(s: M.Switch, m: nat)
    requires s.listener == Some(Multimeter)
    ensures var queries := Repeat(Query(":READ?"), m);
            && M.Run(Switch, s, queries) == s
            && |M.Readings(Switch, s, queries)| == m == ReadCount(queries)
            && forall k :: 0 <= k < |M.Readings(Switch, s, queries)| ==> M.Readings(Switch, s, queries)[k] == s.closed
  {
    var queries := Repeat(Query(":READ?"), m);
    RepeatShape(Query(":READ?"), m);
    RepeatReads(Query(":READ?"), m);
    M.InertRun(Switch, s, queries);
  }

  /** The 196 addressed, then its readings, with the switch left alone. */
  lemma VoltmeterReadings(s: M.Switch, v: nat)
    ensures var rest := [Select(Voltmeter)] + Repeat(Read, v);
            && M.Run(Switch, s, rest) == s.(listener := Some(Voltmeter))
            && |M.Readings(Switch, s, rest)| == v == ReadCount(rest)
            && forall k :: 0 <= k < |M.Readings(Switch, s, rest)| ==> M.Readings(Switch, s, rest)[k] == s.closed
  {
    var readings := Repeat(Read, v);
    RepeatShape(Read, v);
    RepeatReads(Read, v);
    M.SelectThenInert(Switch, Voltmeter, s, readings);
    ReadCountAppend([Select(Voltmeter)], readings);
    assert ReadCount([Select(Voltmeter)]) == 0 by { assert [Select(Voltmeter)][..0] == []; }
  }

  /** The temperatures see whatever the switch held; the first routing is then made and measured. */
  lemma FirstHalf(s: M.Switch, s1: M.Switch, s2: M.Switch, s3: M.Switch)
    requires s1 == M.Run(Switch, s, ThermometerCycle(Thermometer))
    requires s2 == M.Run(Switch, s1, RouteFirst())
    requires s3 == M.Run(Switch, s2, Measure())
    ensures M.Readings(Switch, s, ThermometerCycle(Thermometer)) == [s.closed, s.closed]
    ensures M.Readings(Switch, s1, RouteFirst()) == []
    ensures s2 == M.Switch(Some(Multimeter), FirstPhase())
    ensures |M.Readings(Switch, s2, Measure())| == 14
    ensures forall k :: 0 <= k < 14 ==> M.Readings(Switch, s2, Measure())[k] == FirstPhase()
    ensures s3.closed == FirstPhase()
  {
    ThermometerLeavesSwitch(Switch, Thermometer, s);
    RouteFirstRun(s1);
    MeasureRun(s2);
  }

  /** From the first routing, the second is made and measured, and stays. */
  lemma SecondHalf(s3: M.Switch, s4: M.Switch)
    requires s3.closed == FirstPhase()
    requires s4 == M.Run(Switch, s3, RouteSecond())
    ensures M.Readings(Switch, s3, RouteSecond()) == []
    ensures s4 == M.Switch(Some(Multimeter), SecondPhase())
    ensures |M.Readings(Switch, s4, Measure())| == 14
    ensures forall k :: 0 <= k < 14 ==> M.Readings(Switch, s4, Measure())[k] == SecondPhase()
    ensures M.Run(Switch, s4, Measure()).closed == SecondPhase()
  {
    RouteSecondRun(s3);
    MeasureRun(s4);
  }

  /** Five consecutive pieces of a plan, run one after another. */
  lemma Chain(s: M.Switch, a: seq<Op>, b: seq<Op>, c: seq<Op>, d: seq<Op>, e: seq<Op>,
              s1: M.Switch, s2: M.Switch, s3: M.Switch, s4: M.Switch)
    requires s1 == M.Run(Switch, s, a) && s2 == M.Run(Switch, s1, b)
    requires s3 == M.Run(Switch, s2, c) && s4 == M.Run(Switch, s3, d)
    ensures M.Run(Switch, s, a + b + c + d + e) == M.Run(Switch, s4, e)
    ensures M.Readings(Switch, s, a + b + c + d + e)
         == M.Readings(Switch, s, a) + M.Readings(Switch, s1, b) + M.Readings(Switch, s2, c)
            + M.Readings(Switch, s3, d) + M.Readings(Switch, s4, e)
  {
    M.RunAppend(Switch, s, a, b);
    M.RunAppend(Switch, s, a + b, c);
    M.RunAppend(Switch, s, a + b + c, d);
    M.RunAppend(Switch, s, a + b + c + d, e);
  }

  /**
    Over one cycle: the temperatures are read with whatever the switch held;
    then all 14 readings of the first half see exactly the first routing, and
    all 14 of the second half exactly the second; the second routing stays.
   */
  lemma CycleRouting(s: M.Switch)
    ensures |M.Readings(Switch, s, Cycle())| == 30
    ensures M.Readings(Switch, s, Cycle())[0] == s.closed && M.Readings(Switch, s, Cycle())[1] == s.closed
    ensures forall k :: 2 <= k < 16 ==> M.Readings(Switch, s, Cycle())[k] == FirstPhase()
    ensures forall k :: 16 <= k < 30 ==> M.Readings(Switch, s, Cycle())[k] == SecondPhase()
  {
    var s1 := M.Run(Switch, s, ThermometerCycle(Thermometer));
    var s2 := M.Run(Switch, s1, RouteFirst());
    var s3 := M.Run(Switch, s2, Measure());
    var s4 := M.Run(Switch, s3, RouteSecond());
    CycleParts(s, s1, s2, s3, s4);
    FirstHalf(s, s1, s2, s3);
    SecondHalf(s3, s4);
    Layout(M.Readings(Switch, s, Cycle()), M.Readings(Switch, s, ThermometerCycle(Thermometer)), M.Readings(Switch, s1, RouteFirst()),
           M.Readings(Switch, s2, Measure()), M.Readings(Switch, s3, RouteSecond()), M.Readings(Switch, s4, Measure()),
           FirstPhase(), SecondPhase());
  }

  /** A cycle leaves the second routing made, which the next cycle's reset undoes. */
  lemma CycleLeavesSecond(s: M.Switch)
    ensures M.Run(Switch, s, Cycle()).closed == SecondPhase()
  {
    var s1 := M.Run(Switch, s, ThermometerCycle(Thermometer));
    var s2 := M.Run(Switch, s1, RouteFirst());
    var s3 := M.Run(Switch, s2, Measure());
    var s4 := M.Run(Switch, s3, RouteSecond());
    FirstHalf(s, s1, s2, s3);
    SecondHalf(s3, s4);
    CycleParts(s, s1, s2, s3, s4);
  }

  /** A cycle is its five pieces run one after another. */
  lemma CycleParts(s: M.Switch, s1: M.Switch, s2: M.Switch, s3: M.Switch, s4: M.Switch)
    requires s1 == M.Run(Switch, s, ThermometerCycle(Thermometer)) && s2 == M.Run(Switch, s1, RouteFirst())
    requires s3 == M.Run(Switch, s2, Measure()) && s4 == M.Run(Switch, s3, RouteSecond())
    ensures M.Run(Switch, s, Cycle()) == M.Run(Switch, s4, Measure())
    ensures M.Readings(Switch, s, Cycle())
         == M.Readings(Switch, s, ThermometerCycle(Thermometer)) + M.Readings(Switch, s1, RouteFirst())
            + M.Readings(Switch, s2, Measure()) + M.Readings(Switch, s3, RouteSecond()) + M.Readings(Switch, s4, Measure())
  {
    Chain(s, ThermometerCycle(Thermometer), RouteFirst(), Measure(), RouteSecond(), Measure(), s1, s2, s3, s4);
  }

  /** Where the readings of the two measurement halves sit among the 30 of a cycle. */
  lemma Layout<T>(r: seq<T>, a: seq<T>, b: seq<T>, c: seq<T>, d: seq<T>, e: seq<T>, x: T, y: T)
    requires r == a + b + c + d + e
    requires |a| == 2 && b == [] && d == []
    requires |c| == 14 && forall k :: 0 <= k < 14 ==> c[k] == x
    requires |e| == 14 && forall k :: 0 <= k < 14 ==> e[k] == y
    ensures |r| == 30 && r[0] == a[0] && r[1] == a[1]
    ensures forall k :: 2 <= k < 16 ==> r[k] == x
    ensures forall k :: 16 <= k < 30 ==> r[k] == y
  {
    assert r == a + c + e;
    forall k | 2 <= k < 16
      ensures r[k] == x
    {
      assert r[k] == c[k - 2];
    }
    forall k | 16 <= k < 30
      ensures r[k] == y
    {
      assert r[k] == e[k - 16];
    }
  }


  lemma CycleReads()
    ensures ReadCount(Cycle()) == 30
  {
    ThermometerReadsTwo(Thermometer);
    HalfRun(M.Switch(Some(Multimeter), {}), MultimeterCount, VoltmeterCount);
    assert ReadCount(RouteFirst()) == 0 by { NoReads(RouteFirst()); }
    assert ReadCount(RouteSecond()) == 0 by { NoReads(RouteSecond()); }
    CycleCountSplit(ThermometerCycle(Thermometer), RouteFirst(), Measure(), RouteSecond());
  }

  /** The reads of a cycle shaped like this script's are the reads of its parts. */
  lemma CycleCountSplit(t: seq<Op>, first: seq<Op>, half: seq<Op>, second: seq<Op>)
    ensures ReadCount(t + first + half + second + half) == ReadCount(t) + ReadCount(first) + ReadCount(half) + ReadCount(second) + ReadCount(half)
  {
    ReadCountAppend(t, first);
    ReadCountAppend(t + first, half);
    ReadCountAppend(t + first + half, second);
    ReadCountAppend(t + first + half + second, half);
  }

  /** A measurement half neither opens nor closes the adapter. */
  lemma MeasureQuiet()
    ensures L.NoSession(Measure())
  {
    RepeatShape(Query(":READ?"), MultimeterCount);
    RepeatShape(Read, VoltmeterCount);
    var q := Repeat(Query(":READ?"), MultimeterCount);
    var r := Repeat(Read, VoltmeterCount);
    assert Open !in q && Close !in q;
    assert Open !in r && Close !in r;
  }

  lemma SetupQuiet()
    ensures L.NoSession(Setup())
  {
    assert L.NoSession(ThermometerSetup(Thermometer));
    assert L.NoSession(SwitchSetup(Switch));
    assert L.NoSession(MeterSetup(Multimeter));
    assert L.NoSession(VoltmeterSetup());
  }

  lemma CycleQuiet()
    ensures L.NoSession(Cycle())
  {
    MeasureQuiet();
    assert L.NoSession(ThermometerCycle(Thermometer));
    assert L.NoSession(RouteFirst());
    assert L.NoSession(RouteSecond());
  }

  lemma PlanWellFormed()
    ensures L.WellFormed(Plan())
  {
    CycleReads();
    SetupQuiet();
    CycleQuiet();
    assert L.Fits(Columns(), 30);
  }



  /** After `done` readings of `op` that logged `evs` without a fault, every one replied and `sum` adds up `toFloat` of the replies. */
  ghost predicate Summed(op: Op, done: nat, evs: seq<Event>, sum: real, toFloat: string -> real)
  {
    Ran(Repeat(op, done), evs, None) && |Replies(evs)| == |evs| && sum == L.Total(Replies(evs), toFloat)
  }

  /**
    `count` readings of `op` were performed and logged `evs`: they stopped at
    the first reading that raised `fault`, and without a fault every one
    replied and `sum` adds up `toFloat` of the replies.
   */
  ghost predicate Totalled(op: Op, count: nat, evs: seq<Event>, sum: real, fault: Option<Fault>, toFloat: string -> real)
  {
    && Ran(Repeat(op, count), evs, fault)
    && (fault == None ==> |Replies(evs)| == count && sum == L.Total(Replies(evs), toFloat))
  }

  /**
    One pass of the averaging loop: perform the reading `op` once, after
    `done` readings that logged `evs` and added up to `sum`, with `left`
    of the `count` readings still to come, and add `float()` of its reply
    to the sum. A reading that raises ends the run of `count` there.
   */
  method ReadOnce(lab: Lab, op: Op, sum: real, ghost count: nat, ghost left: nat, ghost done: nat,
                  ghost evs: seq<Event>, ghost head: seq<Event>, ghost began: int)
    returns (o: Outcome, total: real, ghost after: seq<Event>)
    requires Reads(op) && done + 1 + left == count
    requires Summed(op, done, evs, sum, lab.toFloat) && Tracked(lab.log, lab.clock, lab.cost, head, evs, began)
    requires lab.Honest()
    modifies lab`log, lab`clock
    ensures lab.Honest()
    ensures after == evs + [Act(op, o)] && Tracked(lab.log, lab.clock, lab.cost, head, after, began)
    ensures o.Raised? ==> Totalled(op, count, after, total, Some(o.fault), lab.toFloat)
    ensures o.Done? ==> Summed(op, done + 1, after, total, lab.toFloat)
  {
    ghost var next := |lab.log|;
    o := lab.Do(op);
    after := evs + [Act(op, o)];
    SpentStep(lab.cost, evs, op, o, |head|, next);
    RepeatStep(op, done, evs, o);
    total := sum;
    if o.Done? {
      TotalOne(Replies(evs), o.reply, lab.toFloat);
      total := sum + lab.toFloat(o.reply);
    } else {
      RepeatStops(op, done + 1, left, count, after, o.fault);
    }
  }

  /**
    The loop of `MakeMultipleMeasurementsAndAverage`: perform the reading
    operation `op` while the count, counting down, is positive, adding up
    `float()` of the replies. A count of 0 or less performs nothing. An
    exception from a reading stops the loop.
   */
  method TotalReadings(lab: Lab, op: Op, count: nat) returns (sum: real, fault: Option<Fault>, ghost evs: seq<Event>)
    requires Reads(op)
    requires lab.Honest()
    modifies lab`log, lab`clock
    ensures lab.Honest()
    ensures lab.log == old(lab.log) + evs
    ensures lab.clock == old(lab.clock) + Spent(lab.cost, evs, old(|lab.log|))
    ensures Totalled(op, count, evs, sum, fault, lab.toFloat)
  {
    sum := 0.0;
    var i := count;
    evs := [];
    ghost var done: nat := 0;
    ghost var head, began := lab.log, lab.clock;
    while i > 0
      invariant done + i == count
      invariant lab.Honest()
      invariant Tracked(lab.log, lab.clock, lab.cost, head, evs, began)
      invariant Summed(op, done, evs, sum, lab.toFloat)
    {
      i := i - 1;
      var o;
      o, sum, evs := ReadOnce(lab, op, sum, count, i, done, evs, head, began);
      if o.Raised? {
        fault := Some(o.fault);
        return;
      }
      done := done + 1;
    }
    SummedAll(op, count, evs, sum, lab.toFloat);
    fault := None;
  }

  /**
    `MakeMultipleMeasurementsAndAverage`: perform the reading operation `op`
    `count` times, counting down, and return the mean of `float()` of the
    replies. Python raises `ZeroDivisionError` when `count` is 0; a negative
    count performs nothing and yields 0.0. An exception from a reading stops
    the loop and propagates.
   */
  method MeasureAverage(lab: Lab, op: Op, count: int) returns (mean: real, fault: Option<Fault>, ghost evs: seq<Event>)
    requires Reads(op)
    requires lab.Honest()
    modifies lab`log, lab`clock
    ensures lab.Honest()
    ensures lab.log == old(lab.log) + evs
    ensures lab.clock == old(lab.clock) + Spent(lab.cost, evs, old(|lab.log|))
    ensures count <= 0 ==> evs == []
    ensures count < 0 ==> fault == None && mean == 0.0
    ensures count == 0 ==> fault == Some(OtherError)
    ensures count > 0 ==> Ran(Repeat(op, count), evs, fault)
    ensures count > 0 && fault == None ==> |Replies(evs)| == count && mean == L.Average(Replies(evs), lab.toFloat)
  {
    if count < 0 {
      mean, fault, evs := 0.0, None, [];
      return;
    }
    var sum;
    sum, fault, evs := TotalReadings(lab, op, count);
    if fault.Some? {
      mean := 0.0;
      return;
    }
    if count == 0 {
      fault := Some(OtherError);
      mean := 0.0;
      return;
    }
    mean := sum / (count as real);
  }

  /** `Repeat` of a sum, as the two repeats one after the other. */
  lemma RepeatSplit<T>(x: T, a: nat, b: nat, n: nat)
    requires a + b == n
    ensures Repeat(x, a) + Repeat(x, b) == Repeat(x, n)
  {
    RepeatAppend(x, a, b);
  }

  /** A reading that raised after `done` readings stops a run of `count` of them there. */
  lemma RepeatStops(op: Op, done: nat, rest: nat, count: nat, evs: seq<Event>, f: Fault)
    requires done + rest == count && Ran(Repeat(op, done), evs, Some(f))
    ensures Ran(Repeat(op, count), evs, Some(f))
  {
    RanStops(Repeat(op, done), evs, f, Repeat(op, rest));
    RepeatSplit(op, done, rest, count);
  }

  /** `count` readings without a fault replied `count` times. */
  lemma SummedAll(op: Op, count: nat, evs: seq<Event>, sum: real, toFloat: string -> real)
    requires Summed(op, count, evs, sum, toFloat)
    ensures Totalled(op, count, evs, sum, None, toFloat)
  {
    RepeatShape(op, count);
  }

  lemma RepeatStep(op: Op, n: nat, evs: seq<Event>, o: Outcome)
    requires Reads(op) && Ran(Repeat(op, n), evs, None)
    ensures Ran(Repeat(op, n + 1), evs + [Act(op, o)], if o.Raised? then Some(o.fault) else None)
    ensures o.Done? ==> Replies(evs + [Act(op, o)]) == Replies(evs) + [o.reply]
  {
    var e := Act(op, o);
    assert Ran([op], [e], if o.Raised? then Some(o.fault) else None);
    RanThen(Repeat(op, n), evs, [op], [e], if o.Raised? then Some(o.fault) else None);
    assert (evs + [e])[..|evs|] == evs;
  }

  lemma TotalOne(replies: seq<string>, r: string, toFloat: string -> real)
    ensures L.Total(replies + [r], toFloat) == L.Total(replies, toFloat) + toFloat(r)
  {
    assert (replies + [r])[..|replies|] == replies;
  }

  /**
    The row of a cycle with 30 replies: the two temperatures, then the 2015
    on EDC (replies 2..5), the 196 on EDC (20..29), the 2015 on the JFET
    reference (16..19) and the 196 on it (6..15), as the header names them.
   */
  lemma RowShape(start: nat, replies: seq<string>, toFloat: string -> real)
    requires |replies| == 30
    ensures L.Fits(Columns(), |replies|)
    ensures L.RowOf(start, Columns(), replies, toFloat)
         == [Stamp(start), Number(toFloat(replies[0])), Number(toFloat(replies[1])),
             Number(L.Average(replies[2..6], toFloat)), Number(L.Average(replies[20..30], toFloat)),
             Number(L.Average(replies[16..20], toFloat)), Number(L.Average(replies[6..16], toFloat))]
    ensures |L.RowOf(start, Columns(), replies, toFloat)| == |Plan().header.value|
  {
    assert L.Fits(Columns(), 30);
  }

  /** Where the two parts of a cycle's replies sit among all 30. */
  lemma Slices(a: seq<string>, b: seq<string>)
    requires |a| == 16 && |b| == 14
    ensures var r := a + b;
            && |r| == 30 && r[0] == a[0] && r[1] == a[1]
            && r[2..6] == a[2..6] && r[6..16] == a[6..16] && r[16..20] == b[..4] && r[20..30] == b[4..]
  {
    var r := a + b;
    assert r[..16] == a;
    assert r[16..] == b;
    assert r[2..6] == r[..16][2..6];
    assert r[6..16] == r[..16][6..16];
    assert r[16..20] == r[16..][..4];
    assert r[20..30] == r[16..][4..];
  }

  /** The two temperature reads and the first routing: two replies. */
  lemma HeadReadsTwo()
    ensures ReadCount(ThermometerCycle(Thermometer) + RouteFirst()) == 2
  {
    ThermometerReadsTwo(Thermometer);
    NoReads(RouteFirst());
    ReadCountAppend(ThermometerCycle(Thermometer), RouteFirst());
  }

  /** A lone `select` returns no reply. */
  lemma SelectNoReply(addr: int, evs: seq<Event>)
    requires Ran([Select(addr)], evs, None)
    ensures Replies(evs) == []
  {
    assert evs == [evs[0]];
    assert evs[..0] == [];
  }

  /** The operations of a measurement half with `m` readings of the 2015 and `v` of the 196. */
  function Half(m: nat, v: nat): seq<Op>
  {
    Repeat(Query(":READ?"), m) + [Select(Voltmeter)] + Repeat(Read, v)
  }

  /**
    One measurement half: the 2015 (already addressed) is read `m` times and
    averaged, then the 196 is addressed and read `v` times and averaged. The
    means are those of the half's first `m` and last `v` replies.
   */
  method MeasureHalf(lab: Lab, m: nat, v: nat) returns (k2015: real, k196: real, fault: Option<Fault>, ghost evs: seq<Event>)
    requires m > 0 && v > 0
    requires lab.Honest()
    modifies lab`log, lab`clock
    ensures lab.Honest()
    ensures lab.log == old(lab.log) + evs
    ensures lab.clock == old(lab.clock) + Spent(lab.cost, evs, old(|lab.log|))
    ensures Ran(Half(m, v), evs, fault)
    ensures fault == None ==> |Replies(evs)| == m + v
    ensures fault == None ==> k2015 == L.Average(Replies(evs)[..m], lab.toFloat) && k196 == L.Average(Replies(evs)[m..], lab.toFloat)
  {
    ghost var q, r := Repeat(Query(":READ?"), m), Repeat(Read, v);
    k196 := 0.0;
    ghost var e1;
    k2015, fault, e1 := MeasureAverage(lab, Query(":READ?"), m);
    evs := e1;
    if fault.Some? {
      assert Ran(Half(m, v), evs, fault) by {
        RanStops(q, e1, fault.value, [Select(Voltmeter)] + r);
        assert Half(m, v) == q + ([Select(Voltmeter)] + r);
      }
      return;
    }
    ghost var mid := |lab.log|;
    var _, f2, e2 := Perform(lab, [Select(Voltmeter)]);
    assert Ran(q + [Select(Voltmeter)], e1 + e2, f2) by {
      Extend(q, e1, [Select(Voltmeter)], e2, f2);
    }
    Associate(old(lab.log), e1, e2);
    SpentThen(lab.cost, e1, e2, old(|lab.log|), mid);
    evs, fault := e1 + e2, f2;
    if f2.Some? {
      assert Ran(Half(m, v), evs, fault) by {
        RanStops(q + [Select(Voltmeter)], evs, f2.value, r);
      }
      return;
    }
    assert Replies(e1 + e2) == Replies(e1) by {
      SelectNoReply(Voltmeter, e2);
      RepliesAppend(e1, e2);
    }
    ghost var e3;
    ghost var mid3 := |lab.log|;
    k196, fault, e3 := MeasureAverage(lab, Read, v);
    assert Ran(Half(m, v), e1 + e2 + e3, fault) by {
      RanThen(q + [Select(Voltmeter)], e1 + e2, r, e3, fault);
    }
    assert Replies(e1 + e2 + e3) == Replies(e1) + Replies(e3) by {
      RepliesAppend(e1 + e2, e3);
    }
    if fault == None {
      Halves(Replies(e1), Replies(e3), m);
    }
    Associate(old(lab.log), e1 + e2, e3);
    SpentThen(lab.cost, e1 + e2, e3, old(|lab.log|), mid3);
    evs := e1 + e2 + e3;
  }

  /** The first `m` of `a + b` are `a` when `a` has `m` elements, and the rest are `b`. */
  lemma Halves(a: seq<string>, b: seq<string>, m: nat)
    requires |a| == m
    ensures (a + b)[..m] == a && (a + b)[m..] == b && |a + b| == m + |b|
  {
  }

  /**
    The first part of a cycle: the temperatures, the first routing, and the
    first measurement half. Its 16 replies are the two temperatures, the
    2015's four on EDC and the 196's ten on the JFET reference.
   */
  method SampleFirst(lab: Lab) returns (temps: seq<string>, edc2015: real, jfr196: real, fault: Option<Fault>, ghost evs: seq<Event>)
    requires lab.Honest()
    modifies lab`log, lab`clock
    ensures lab.Honest()
    ensures lab.log == old(lab.log) + evs
    ensures lab.clock == old(lab.clock) + Spent(lab.cost, evs, old(|lab.log|))
    ensures Ran(ThermometerCycle(Thermometer) + RouteFirst() + Measure(), evs, fault)
    ensures fault == None ==> |Replies(evs)| == 16 && temps == Replies(evs)[..2]
    ensures fault == None ==> edc2015 == L.Average(Replies(evs)[2..6], lab.toFloat) && jfr196 == L.Average(Replies(evs)[6..16], lab.toFloat)
  {
    var head := ThermometerCycle(Thermometer) + RouteFirst();
    ghost var half := Measure();
    edc2015, jfr196 := 0.0, 0.0;
    var f1;
    ghost var e1;
    temps, f1, e1 := Perform(lab, head);
    evs, fault := e1, f1;
    if f1.Some? {
      assert Ran(head + half, evs, fault) by {
        RanStops(head, e1, f1.value, half);
      }
      return;
    }
    assert |temps| == 2 by {
      HeadReadsTwo();
      CompleteReplies(head, e1);
    }
    ghost var e2;
    ghost var mid := |lab.log|;
    edc2015, jfr196, fault, e2 := MeasureHalf(lab, MultimeterCount, VoltmeterCount);
    assert Ran(head + half, e1 + e2, fault) by {
      RanThen(head, e1, half, e2, fault);
    }
    assert Replies(e1 + e2) == temps + Replies(e2) by {
      RepliesAppend(e1, e2);
    }
    Associate(old(lab.log), e1, e2);
    SpentThen(lab.cost, e1, e2, old(|lab.log|), mid);
    evs := e1 + e2;
    if fault == None {
      SlicesFirst(temps, Replies(e2));
    }
  }

  /** Where the temperatures and the first half's replies sit among the first 16. */
  lemma SlicesFirst(a: seq<string>, b: seq<string>)
    requires |a| == 2 && |b| == 14
    ensures |a + b| == 16 && (a + b)[..2] == a && (a + b)[2..6] == b[..4] && (a + b)[6..16] == b[4..]
  {
    assert (a + b)[2..] == b;
    assert (a + b)[2..6] == (a + b)[2..][..4];
    assert (a + b)[6..16] == (a + b)[2..][4..];
  }

  /**
    The second part of a cycle: the second routing and the second
    measurement half. Its 14 replies are the 2015's four on the JFET
    reference and the 196's ten on EDC.
   */
  method SampleSecond(lab: Lab) returns (jfr2015: real, edc196: real, fault: Option<Fault>, ghost evs: seq<Event>)
    requires lab.Honest()
    modifies lab`log, lab`clock
    ensures lab.Honest()
    ensures lab.log == old(lab.log) + evs
    ensures lab.clock == old(lab.clock) + Spent(lab.cost, evs, old(|lab.log|))
    ensures Ran(RouteSecond() + Measure(), evs, fault)
    ensures fault == None ==> |Replies(evs)| == 14
    ensures fault == None ==> jfr2015 == L.Average(Replies(evs)[..4], lab.toFloat) && edc196 == L.Average(Replies(evs)[4..], lab.toFloat)
  {
    ghost var half := Measure();
    jfr2015, edc196 := 0.0, 0.0;
    var _, f1, e1 := Perform(lab, RouteSecond());
    evs, fault := e1, f1;
    if f1.Some? {
      assert Ran(RouteSecond() + half, evs, fault) by {
        RanStops(RouteSecond(), e1, f1.value, half);
      }
      return;
    }
    assert Replies(e1) == [] by {
      NoReads(RouteSecond());
      CompleteReplies(RouteSecond(), e1);
    }
    ghost var e2;
    ghost var mid := |lab.log|;
    jfr2015, edc196, fault, e2 := MeasureHalf(lab, MultimeterCount, VoltmeterCount);
    assert Ran(RouteSecond() + half, e1 + e2, fault) by {
      RanThen(RouteSecond(), e1, half, e2, fault);
    }
    assert Replies(e1 + e2) == Replies(e2) by {
      RepliesAppend(e1, e2);
    }
    Associate(old(lab.log), e1, e2);
    SpentThen(lab.cost, e1, e2, old(|lab.log|), mid);
    evs := e1 + e2;
  }

  /**
    One pass of the sampling loop: the temperatures, the first routing and its
    measurements, the second routing and its measurements. The row is written
    only when the whole cycle completed, and then holds what the columns
    specify for the cycle's replies.
   */
  method Sample(lab: Lab, start: nat) returns (row: seq<Cell>, fault: Option<Fault>, ghost evs: seq<Event>)
    requires lab.Honest()
    modifies lab`log, lab`clock
    ensures lab.Honest()
    ensures lab.log == old(lab.log) + evs
    ensures lab.clock == old(lab.clock) + Spent(lab.cost, evs, old(|lab.log|))
    ensures Ran(Cycle(), evs, fault)
    ensures fault == None ==> L.Fits(Columns(), |Replies(evs)|) && row == L.RowOf(start, Columns(), Replies(evs), lab.toFloat)
  {
    ghost var first, second := ThermometerCycle(Thermometer) + RouteFirst() + Measure(), RouteSecond() + Measure();
    assert Cycle() == first + second;
    row := [];
    var temps, edc2015, jfr196, f1, e1 := SampleFirst(lab);
    evs, fault := e1, f1;
    if f1.Some? {
      RanStops(first, e1, f1.value, second);
      return;
    }
    ghost var mid := |lab.log|;
    var jfr2015, edc196, f2, e2 := SampleSecond(lab);
    RanThen(first, e1, second, e2, f2);
    Associate(old(lab.log), e1, e2);
    SpentThen(lab.cost, e1, e2, old(|lab.log|), mid);
    evs, fault := e1 + e2, f2;
    if f2.Some? {
      return;
    }
    row := [Stamp(start), Number(lab.toFloat(temps[0])), Number(lab.toFloat(temps[1])),
            Number(edc2015), Number(edc196), Number(jfr2015), Number(jfr196)];
    assert L.Fits(Columns(), |Replies(evs)|) && row == L.RowOf(start, Columns(), Replies(evs), lab.toFloat) by {
      RepliesAppend(e1, e2);
      Slices(Replies(e1), Replies(e2));
      RowShape(start, Replies(evs), lab.toFloat);
    }
  }
}
