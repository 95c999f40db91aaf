/**
  five_in_one_meter_matrix.py: the two thermometer channels, then five inputs
  on columns 1 to 5 of the Keithley 705 matrix, each connected in turn to
  row 1 (the Keithley 2015 multimeter) for one reading and disconnected
  again. The script's own cadence is commented out, and so is its catch of
  the GPIB timeout: every session runs until something raises.
 */
module FiveInOne {
  import opened Common
  import opened Bench
  import opened Logging
  import opened Instruments
  import Numerals
  import M = Matrix

  const Thermometer: int := 11
  const Switch: int := 10
  const Multimeter: int := 1
  /** `MATRIX_SWITCH_STABILISE_DELAY`, 0.2 seconds. */
  const Settle: nat := 200
  /** Columns 1 to `Inputs` are read, `range(1, 6)`. */
  const Inputs: nat := 5

  function Setup(): seq<Op>
  {
    [InterfaceClear] + ThermometerSetup(Thermometer) + SwitchSetup(Switch) + MeterSetup(Multimeter)
  }

  /** Connect column `c` to row 1, let it settle, read the 2015, disconnect it again. */
  function ColumnOps(c: nat): seq<Op>
    requires c < 100
  {
    [Select(Switch), Write(M.Command([M.Close(M.Point(c, 1))])), Sleep(Settle),
     Select(Multimeter), Query(":READ?"),
     Select(Switch), Write(M.Command([M.Open(M.Point(c, 1))]))]
  }

  /** The column steps for columns `lo` up to `hi - 1`, in order. */
  function Span(lo: nat, hi: nat): seq<Op>
    requires hi <= 100
    decreases hi
  {
    if hi <= lo then [] else Span(lo, hi - 1) + ColumnOps(hi - 1)
  }

  function Cycle(): seq<Op>
  {
    ThermometerCycle(Thermometer) + Span(1, Inputs + 1)
  }

  /** Every value in a row is a reply read with `float()`, in the order read. */
  function Columns(): seq<Column>
  {
    seq(Inputs + 2, k requires 0 <= k => Value(k))
  }

  function Plan(): Protocol
  {
    Protocol(
      Setup(),
      Some(["DateTime", "T7", "T8", "C1", "C2", "C3", "C4", "C5"]),
      Cycle(),
      Columns(),
      None,
      false)
  }

  /** Each column step writes the script's `C{col:02d}:1X` and `N{col:02d}:1X`. */
  lemma ColumnText(c: nat)
    requires c < 10
    ensures ColumnOps(c)[1] == Write(['C', '0', Numerals.DigitChar(c), ':', '1', 'X'])
    ensures ColumnOps(c)[6] == Write(['N', '0', Numerals.DigitChar(c), ':', '1', 'X'])
  {
    M.CommandOne(M.Close(M.Point(c, 1)));
    M.CommandOne(M.Open(M.Point(c, 1)));
  }

  /** For the five columns read, the commands are literally these. */
  lemma ScanText()
    ensures ColumnOps(1)[1] == Write("C01:1X") && ColumnOps(1)[6] == Write("N01:1X")
    ensures ColumnOps(5)[1] == Write("C05:1X") && ColumnOps(5)[6] == Write("N05:1X")
  {
    ColumnText(1);
    ColumnText(5);
  }

  /** Column steps for adjacent ranges join up. */
  lemma {:induction false} SpanSplit(lo: nat, mid: nat, hi: nat)
    requires lo <= mid <= hi <= 100
    ensures Span(lo, hi) == Span(lo, mid) + Span(mid, hi)
    decreases hi
  {
    if hi == mid {
      assert Span(mid, hi) == [];
      assert Span(lo, mid) + [] == Span(lo, mid);
    } else {
      SpanSplit(lo, mid, hi - 1);
      Associate(Span(lo, mid), Span(mid, hi - 1), ColumnOps(hi - 1));
    }
  }

  lemma ColumnReadsOne(c: nat)
    requires c < 100
    ensures ReadCount(ColumnOps(c)) == 1
  {
    var ops := ColumnOps(c);
    var a, q, b := ops[..4], [ops[4]], ops[5..];
    assert ops == a + q + b;
    ReadCountAppend(a, q);
    ReadCountAppend(a + q, b);
    assert forall i :: 0 <= i < |a| ==> !Reads(a[i]);
    assert forall i :: 0 <= i < |b| ==> !Reads(b[i]);
    NoReads(a);
    NoReads(b);
    assert q[..0] == [];
  }

  /** One reading per column. */
  lemma {:induction false} SpanReads(lo: nat, hi: nat)
    requires lo <= hi <= 100
    ensures ReadCount(Span(lo, hi)) == hi - lo
    decreases hi
  {
    if hi > lo {
      SpanReads(lo, hi - 1);
      ColumnReadsOne(hi - 1);
      ReadCountAppend(Span(lo, hi - 1), ColumnOps(hi - 1));
    }
  }

  lemma CycleReadsSeven()
    ensures ReadCount(Cycle()) == Inputs + 2
  {
    ThermometerReadsTwo(Thermometer);
    SpanReads(1, Inputs + 1);
    ReadCountAppend(ThermometerCycle(Thermometer), Span(1, Inputs + 1));
  }

  /** Addressing the switch and closing column `c` to row 1, from nothing closed. */
  lemma ConnectRun(c: nat, s: M.Switch)
    requires c < 100 && s.closed == {}
    ensures var ops := ColumnOps(c)[..2];
            M.Run(Switch, s, ops) == M.Switch(Some(Switch), {M.Point(c, 1)}) &&
            M.Readings(Switch, s, ops) == [] && M.Isolated(Switch, s, ops)
  {
    var close := [M.Close(M.Point(c, 1))];
    assert M.Crossing(close[0]);
    M.SelectWriteRun(Switch, s, close);
    assert ColumnOps(c)[..2] == [Select(Switch), Write(M.Command(close))];
    assert M.ApplyAll({}, close) == {M.Point(c, 1)};
  }

  /** Settling and reading the multimeter see the one closed cross-point and leave it closed. */
  lemma ReadRun(c: nat, s: M.Switch)
    requires c < 100 && s == M.Switch(Some(Switch), {M.Point(c, 1)})
    ensures var ops := ColumnOps(c)[2..5];
            M.Run(Switch, s, ops) == s.(listener := Some(Multimeter)) &&
            M.Readings(Switch, s, ops) == [s.closed] && M.Isolated(Switch, s, ops)
  {
    var ops := ColumnOps(c)[2..5];
    var s1 := s.(listener := Some(Multimeter));
    M.Unfold(Switch, s, ops, 0);
    M.Unfold(Switch, s, ops, 1);
    M.Unfold(Switch, s1, ops, 2);
    assert ops[0..] == ops;
    assert ops[3..] == [];
  }

  /** Addressing the switch again and opening column `c`: nothing is left closed. */
  lemma DisconnectRun(c: nat, s: M.Switch)
    requires c < 100 && s.closed == {M.Point(c, 1)}
    ensures var ops := ColumnOps(c)[5..];
            M.Run(Switch, s, ops) == M.Switch(Some(Switch), {}) &&
            M.Readings(Switch, s, ops) == [] && M.Isolated(Switch, s, ops)
  {
    var ops := ColumnOps(c)[5..];
    var s1 := M.Switch(Some(Switch), s.closed);
    M.WriteTo(Switch, s1, [M.Open(M.Point(c, 1))]);
    M.Unfold(Switch, s, ops, 0);
    M.Unfold(Switch, s1, ops, 1);
    assert ops[0..] == ops;
    assert ops[2..] == [];
  }

  /**
    From a switch with nothing closed, a column step closes exactly its own
    cross-point to row 1, the multimeter reads with that one closed, and
    nothing is left closed.
   */
  lemma ColumnRun(c: nat, s: M.Switch)
    requires c < 100 && s.closed == {}
    ensures M.Run(Switch, s, ColumnOps(c)) == M.Switch(Some(Switch), {})
    ensures M.Readings(Switch, s, ColumnOps(c)) == [{M.Point(c, 1)}]
    ensures M.Isolated(Switch, s, ColumnOps(c))
  {
    var ops := ColumnOps(c);
    var a, b, d := ops[..2], ops[2..5], ops[5..];
    assert ops == a + b + d;
    var s2 := M.Switch(Some(Switch), {M.Point(c, 1)});
    ConnectRun(c, s);
    ReadRun(c, s2);
    DisconnectRun(c, s2.(listener := Some(Multimeter)));
    M.RunAppend(Switch, s, a, b);
    M.RunAppend(Switch, s, a + b, d);
  }

  /** What the multimeter should see over columns `lo` to `hi - 1`: each column alone, connected to row 1. */
  function Wiring(lo: nat, hi: nat): seq<set<M.Point>>
    decreases hi
  {
    if hi <= lo then [] else Wiring(lo, hi - 1) + [{M.Point(hi - 1, 1)}]
  }

  /** The k-th of them is column `lo + k` alone. */
  lemma {:induction false} WiringShape(lo: nat, hi: nat)
    requires lo <= hi
    ensures |Wiring(lo, hi)| == hi - lo
    ensures forall k :: 0 <= k < hi - lo ==> Wiring(lo, hi)[k] == {M.Point(lo + k, 1)}
    decreases hi
  {
    if hi > lo {
      WiringShape(lo, hi - 1);
    }
  }

  /** Over a run of columns, each reading sees its own column alone, and no more than one is ever closed. */
  lemma {:induction false} SpanRun(lo: nat, hi: nat, s: M.Switch)
    requires lo <= hi <= 100 && s.closed == {}
    ensures M.Run(Switch, s, Span(lo, hi)).closed == {}
    ensures M.Isolated(Switch, s, Span(lo, hi))
    ensures M.Readings(Switch, s, Span(lo, hi)) == Wiring(lo, hi)
    decreases hi
  {
    if hi > lo {
      var a, b := Span(lo, hi - 1), ColumnOps(hi - 1);
      var s1 := M.Run(Switch, s, a);
      assert s1.closed == {} && M.Isolated(Switch, s, a) && M.Readings(Switch, s, a) == Wiring(lo, hi - 1) by {
        SpanRun(lo, hi - 1, s);
      }
      assert M.Run(Switch, s1, b).closed == {} && M.Readings(Switch, s1, b) == [{M.Point(hi - 1, 1)}] && M.Isolated(Switch, s1, b) by {
        ColumnRun(hi - 1, s1);
      }
      M.RunAppend(Switch, s, a, b);
    } else {
      assert Span(lo, hi) == [];
    }
  }

  /**
    The thermometer channels, then columns 1 to `n`, from a switch with
    nothing closed: the thermometer reads with nothing closed, each column
    is read alone, never two are closed, and none is left closed.
   */
  lemma ScanRouting(s: M.Switch, n: nat)
    requires s.closed == {} && n < 100
    ensures var ops := ThermometerCycle(Thermometer) + Span(1, n + 1);
            M.Run(Switch, s, ops).closed == {} && M.Isolated(Switch, s, ops) &&
            M.Readings(Switch, s, ops) == [{}, {}] + Wiring(1, n + 1)
  {
    var t, scan := ThermometerCycle(Thermometer), Span(1, n + 1);
    var s1 := s.(listener := Some(Thermometer));
    assert M.Run(Switch, s, t) == s1 && M.Isolated(Switch, s, t) && M.Readings(Switch, s, t) == [{}, {}] by {
      ThermometerLeavesSwitch(Switch, Thermometer, s);
    }
    assert M.Run(Switch, s1, scan).closed == {} && M.Isolated(Switch, s1, scan) && M.Readings(Switch, s1, scan) == Wiring(1, n + 1) by {
      SpanRun(1, n + 1, s1);
    }
    M.RunAppend(Switch, s, t, scan);
  }

  /**
    Starting with nothing closed, the thermometer reads with nothing closed,
    the k-th multimeter reading sees column k connected to row 1 and nothing
    else, no two cross-points are ever closed together, and none is left
    closed.
   */
  lemma CycleRouting(s: M.Switch)
    requires s.closed == {}
    ensures M.Run(Switch, s, Cycle()).closed == {}
    ensures M.Isolated(Switch, s, Cycle())
    ensures M.Readings(Switch, s, Cycle()) == [{}, {}] + Wiring(1, Inputs + 1)
  {
    ScanRouting(s, Inputs);
  }

  /** Whatever the switch held before, the setup leaves every cross-point open and the multimeter addressed. */
  lemma SetupResets(s: M.Switch)
    ensures M.Run(Switch, s, Setup()) == M.Switch(Some(Multimeter), {})
    ensures M.Readings(Switch, s, Setup()) == []
  {
    assert M.Run(Switch, s, [InterfaceClear]) == s;
    var s1 := s.(listener := Some(Thermometer));
    var s2 := M.Switch(Some(Switch), {});
    ThermometerLeavesSwitch(Switch, Thermometer, s);
    SwitchSetupResets(Switch, s1);
    MeterLeavesSwitch(Switch, Multimeter, s2);
    var a := [InterfaceClear] + ThermometerSetup(Thermometer);
    M.RunAppend(Switch, s, [InterfaceClear], ThermometerSetup(Thermometer));
    M.RunAppend(Switch, s, a, SwitchSetup(Switch));
    M.RunAppend(Switch, s, a + SwitchSetup(Switch), MeterSetup(Multimeter));
  }

  /** Any number of cycles from an open switch keep at most one cross-point closed and end with none. */
  lemma {:induction false} CyclesRun(s: M.Switch, n: nat)
    requires s.closed == {}
    ensures M.Isolated(Switch, s, Again(Cycle(), n))
    ensures M.Run(Switch, s, Again(Cycle(), n)).closed == {}
  {
    if n > 0 {
      CyclesRun(s, n - 1);
      CycleAfter(s, Again(Cycle(), n - 1));
    }
  }

  /** One more cycle after a run that left the switch open. */
  lemma CycleAfter(s: M.Switch, before: seq<Op>)
    requires M.Isolated(Switch, s, before) && M.Run(Switch, s, before).closed == {}
    ensures M.Isolated(Switch, s, before + Cycle())
    ensures M.Run(Switch, s, before + Cycle()).closed == {}
  {
    CycleRouting(M.Run(Switch, s, before));
    M.RunAppend(Switch, s, before, Cycle());
  }

  /** Over a whole session, whatever the switch held before, no two inputs are ever connected to the meter together. */
  lemma SessionIsolated(s: M.Switch, n: nat)
    ensures M.Isolated(Switch, M.Run(Switch, s, Setup()), Again(Cycle(), n))
  {
    SetupResets(s);
    CyclesRun(M.Run(Switch, s, Setup()), n);
  }

  lemma ColumnQuiet(c: nat)
    requires c < 100
    ensures NoSession(ColumnOps(c))
  {
  }

  lemma {:induction false} SpanQuiet(lo: nat, hi: nat)
    requires hi <= 100
    ensures NoSession(Span(lo, hi))
    decreases hi
  {
    if hi > lo {
      SpanQuiet(lo, hi - 1);
      ColumnQuiet(hi - 1);
    }
  }

  lemma PlanWellFormed()
    ensures WellFormed(Plan())
  {
    CycleReadsSeven();
    SpanQuiet(1, Inputs + 1);
    ThermometerSessionFree();
    SetupSessionFree();
    ColumnsWithin();
  }

  /** Neither the setup nor the thermometer's part of the cycle opens or closes the connection. */
  lemma SetupSessionFree()
    ensures NoSession(Setup())
  {
    assert NoSession(ThermometerSetup(Thermometer));
    assert NoSession(SwitchSetup(Switch));
    assert NoSession(MeterSetup(Multimeter));
  }

  lemma ThermometerSessionFree()
    ensures NoSession(ThermometerCycle(Thermometer))
  {
  }

  /** Every column reads one of the cycle's seven replies. */
  lemma ColumnsWithin()
    ensures forall c :: c in Columns() ==> Within(c, Inputs + 2)
  {
  }

  /** `float()` of each reply, in order. */
  function Numbers(replies: seq<string>, toFloat: string -> real): (r: seq<Cell>)
    ensures |r| == |replies|
    ensures forall k :: 0 <= k < |r| ==> r[k] == Number(toFloat(replies[k]))
  {
    if replies == [] then [] else Numbers(replies[..|replies| - 1], toFloat) + [Number(toFloat(replies[|replies| - 1]))]
  }

  /** One more reply adds its value at the end. */
  lemma NumbersStep(replies: seq<string>, x: string, toFloat: string -> real)
    ensures Numbers(replies + [x], toFloat) == Numbers(replies, toFloat) + [Number(toFloat(x))]
  {
    assert (replies + [x])[..|replies|] == replies;
  }

  /** The temperatures' values, then the columns', are the values of all the replies. */
  lemma NumbersJoin(start: nat, temps: seq<string>, rest: seq<string>, toFloat: string -> real)
    requires |temps| == 2
    ensures [Stamp(start)] + [Number(toFloat(temps[0]))] + [Number(toFloat(temps[1]))] + Numbers(rest, toFloat)
            == [Stamp(start)] + Numbers(temps + rest, toFloat)
  {
    var lhs := [Stamp(start)] + [Number(toFloat(temps[0]))] + [Number(toFloat(temps[1]))] + Numbers(rest, toFloat);
    var rhs := [Stamp(start)] + Numbers(temps + rest, toFloat);
    assert |lhs| == |rhs|;
    forall k | 0 <= k < |lhs|
      ensures lhs[k] == rhs[k]
    {
      if k >= 3 {
        assert lhs[k] == Numbers(rest, toFloat)[k - 3];
        assert (temps + rest)[k - 1] == rest[k - 3];
      }
    }
  }

  /** A row is the start time and the seven readings in the order read, as many as the header names after the time. */
  lemma RowShape(start: nat, replies: seq<string>, toFloat: string -> real)
    requires |replies| == Inputs + 2
    ensures Fits(Columns(), |replies|)
    ensures RowOf(start, Columns(), replies, toFloat) == [Stamp(start)] + Numbers(replies, toFloat)
    ensures |RowOf(start, Columns(), replies, toFloat)| == |Plan().header.value|
  {
    assert forall c :: c in Columns() ==> Within(c, |replies|);
  }

  /**
    The column loop: each column in turn, appending each value as it is
    read. It stops at the first operation that raises.
   */
  method ScanColumns(lab: Lab) returns (values: seq<Cell>, fault: Option<Fault>, ghost evs: seq<Event>)
    requires lab.Honest()
    modifies lab`log, lab`clock
    ensures lab.Honest()
    ensures lab.log == old(lab.log) + evs
    ensures lab.clock == old(lab.clock) + Spent(lab.cost, evs, old(|lab.log|))
    ensures Ran(Span(1, Inputs + 1), evs, fault)
    ensures fault == None ==> |Replies(evs)| == Inputs && values == Numbers(Replies(evs), lab.toFloat)
  {
    values, fault, evs := [], None, [];
    for c := 1 to Inputs + 1
      invariant lab.Honest()
      invariant lab.log == old(lab.log) + evs
      invariant lab.clock == old(lab.clock) + Spent(lab.cost, evs, old(|lab.log|))
      invariant Ran(Span(1, c), evs, None)
      invariant |Replies(evs)| == c - 1
      invariant values == Numbers(Replies(evs), lab.toFloat)
    {
      var got;
      var f;
      ghost var e;
      ghost var mid := |lab.log|;
      got, f, e := Perform(lab, ColumnOps(c));
      ColumnStep(c, evs, e, f);
      Associate(old(lab.log), evs, e);
      SpentThen(lab.cost, evs, e, old(|lab.log|), mid);
      if f.Some? {
        evs, fault := evs + e, f;
        return;
      }
      NumbersStep(Replies(evs), got[0], lab.toFloat);
      values := values + [Number(lab.toFloat(got[0]))];
      evs := evs + e;
    }
  }

  /** The column loop after column `c`: either the scan stopped there, or it ran one column further with one more reply. */
  lemma ColumnStep(c: nat, evs: seq<Event>, e: seq<Event>, f: Option<Fault>)
    requires 1 <= c <= Inputs
    requires Ran(Span(1, c), evs, None) && Ran(ColumnOps(c), e, f)
    ensures f.Some? ==> Ran(Span(1, Inputs + 1), evs + e, f)
    ensures f.None? ==> Ran(Span(1, c + 1), evs + e, None) && |Replies(e)| == 1 && Replies(evs + e) == Replies(evs) + Replies(e)
  {
    RanThen(Span(1, c), evs, ColumnOps(c), e, f);
    if f.Some? {
      SpanSplit(1, c + 1, Inputs + 1);
      RanStops(Span(1, c + 1), evs + e, f.value, Span(c + 1, Inputs + 1));
    } else {
      ColumnReadsOne(c);
      CompleteReplies(ColumnOps(c), e);
      RepliesAppend(evs, e);
    }
  }

  /**
    One pass of the measurement loop: the thermometer channels, then the
    columns. The cycle stops at the first operation that raises.
   */
  method Sample(lab: Lab, start: nat) returns (row: seq<Cell>, fault: Option<Fault>, ghost evs: seq<Event>)
    requires lab.Honest()
    modifies lab`log, lab`clock
    ensures lab.Honest()
    ensures lab.log == old(lab.log) + evs
    ensures lab.clock == old(lab.clock) + Spent(lab.cost, evs, old(|lab.log|))
    ensures Ran(Cycle(), evs, fault)
    ensures fault == None ==> Fits(Columns(), |Replies(evs)|) && row == RowOf(start, Columns(), Replies(evs), lab.toFloat)
  {
    var head := ThermometerCycle(Thermometer);
    ghost var scan := Span(1, Inputs + 1);
    row := [Stamp(start)];
    var temps;
    var f1;
    ghost var e1;
    temps, f1, e1 := Perform(lab, head);
    evs, fault := e1, f1;
    if f1.Some? {
      RanStops(head, e1, f1.value, scan);
      return;
    }
    assert |temps| == 2 by {
      ThermometerReadsTwo(Thermometer);
      CompleteReplies(head, e1);
    }
    row := row + [Number(lab.toFloat(temps[0]))];
    row := row + [Number(lab.toFloat(temps[1]))];
    var values;
    ghost var e2;
    ghost var mid := |lab.log|;
    values, fault, e2 := ScanColumns(lab);
    assert Ran(head + scan, e1 + e2, fault) by {
      RanThen(head, e1, scan, e2, fault);
    }
    Associate(old(lab.log), e1, e2);
    SpentThen(lab.cost, e1, e2, old(|lab.log|), mid);
    evs := e1 + e2;
    if fault == None {
      assert Replies(evs) == temps + Replies(e2) by {
        RepliesAppend(e1, e2);
      }
      row := row + values;
      assert row == [Stamp(start)] + Numbers(Replies(evs), lab.toFloat) by {
        NumbersJoin(start, temps, Replies(e2), lab.toFloat);
      }
      RowShape(start, Replies(evs), lab.toFloat);
    }
  }
}
