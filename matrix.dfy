/**
  The Keithley 705 scanner used as a cross-point matrix by the switching
  scripts. A cross-point joins an input column (two digits) to an output row
  (one digit); its channel is written "cc:r". `Ccc:r` closes it, `Ncc:r` opens
  it, several such actions may share one command separated by single spaces,
  every command ends in `X`, and `RX` opens every cross-point. Any other
  command (`K0X`, `T6X`, `A0X`, `B011X`, ...) leaves the cross-points as they are.

  The switch sees a command only when it is the addressed device, i.e. the
  last `select` on the bus named the switch's address.
 */
module Matrix {
  import opened Common
  import opened Numerals
  import Bench

  datatype Point = Point(col: nat, row: nat)

  /** Cross-points the channel syntax can name: two column digits, one row digit. */
  predicate Nameable(p: Point)
  {
    p.col < 100 && p.row < 10
  }

  datatype Action = Reset | Close(p: Point) | Open(p: Point)

  predicate Crossing(a: Action)
  {
    (a.Close? || a.Open?) && Nameable(a.p)
  }

  // ---------------------------------------------------------------- command text

  /** One action as text: `Ccc:r` or `Ncc:r`. */
  function Token(a: Action): string
    requires Crossing(a)
  {
    [if a.Close? then 'C' else 'N'] + Format02d(a.p.col) + ":" + Decimal(a.p.row)
  }

  /** Several actions separated by single spaces. */
  function Spell(acts: seq<Action>): string
    requires |acts| > 0 && forall i :: 0 <= i < |acts| ==> Crossing(acts[i])
    decreases |acts|
  {
    Token(acts[0]) + if |acts| == 1 then "" else " " + Spell(acts[1..])
  }

  /** The command that performs `acts` in one go, e.g. `C01:2 C02:1X`. */
  function Command(acts: seq<Action>): string
    requires |acts| > 0 && forall i :: 0 <= i < |acts| ==> Crossing(acts[i])
  {
    Spell(acts) + "X"
  }

  const ResetCommand: string := "RX"

  /** Reads one `Ccc:r` / `Ncc:r` token. */
  function ParseToken(t: string): Option<Action>
  {
    if |t| == 5 && (t[0] == 'C' || t[0] == 'N') && IsDigit(t[1]) && IsDigit(t[2]) && t[3] == ':' && IsDigit(t[4]) then
      var p := Point(DigitValue(t[1]) * 10 + DigitValue(t[2]), DigitValue(t[4]));
      Some(if t[0] == 'C' then Close(p) else Open(p))
    else None
  }

  /** Reads space-separated tokens; None unless the whole text is such a list. */
  function ParseActions(body: string): Option<seq<Action>>
    decreases |body|
  {
    if |body| < 5 then None
    else match ParseToken(body[..5])
      case None => None
      case Some(a) =>
        if |body| == 5 then Some([a])
        else if body[5] == ' ' then
          match ParseActions(body[6..])
          case None => None
          case Some(rest) => Some([a] + rest)
        else None
  }

  /** What a command does to the cross-points. */
  function Effect(cmd: string): seq<Action>
  {
    if cmd == ResetCommand then [Reset]
    else if |cmd| > 1 && cmd[|cmd| - 1] == 'X' then
      match ParseActions(cmd[..|cmd| - 1])
      case Some(acts) => acts
      case None => []
    else []
  }

  lemma TokenShape(a: Action)
    requires Crossing(a)
    ensures Token(a) == [if a.Close? then 'C' else 'N', DigitChar(a.p.col / 10), DigitChar(a.p.col % 10), ':', DigitChar(a.p.row)]
    ensures ParseToken(Token(a)) == Some(a)
  {
    Format02dDigits(a.p.col);
  }

  /** The command of a single action, character by character. */
  lemma CommandOne(a: Action)
    requires Crossing(a)
    ensures Command([a]) == [if a.Close? then 'C' else 'N', DigitChar(a.p.col / 10), DigitChar(a.p.col % 10), ':', DigitChar(a.p.row), 'X']
  {
    TokenShape(a);
  }

  /** The command of two actions: both tokens, one space between. */
  lemma CommandTwo(a: Action, b: Action)
    requires Crossing(a) && Crossing(b)
    ensures Command([a, b]) == Token(a) + " " + Token(b) + "X"
  {
    assert [a, b][1..] == [b];
    assert Spell([b]) == Token(b);
    assert Spell([a, b]) == Token(a) + " " + Token(b);
  }

  /** Reading the text of a list of actions gives the actions back. */
  lemma {:induction false} ParseSpell(acts: seq<Action>)
    requires |acts| > 0 && forall i :: 0 <= i < |acts| ==> Crossing(acts[i])
    ensures |Spell(acts)| >= 5
    ensures ParseActions(Spell(acts)) == Some(acts)
    decreases |acts|
  {
    TokenShape(acts[0]);
    if |acts| > 1 {
      ParseSpell(acts[1..]);
      ParseCons(acts[0], Spell(acts[1..]));
      assert Spell(acts) == Token(acts[0]) + " " + Spell(acts[1..]);
      assert [acts[0]] + acts[1..] == acts;
    } else {
      assert Spell(acts) == Token(acts[0]);
      assert acts == [acts[0]];
    }
  }

  /** A token, a space and a parsable tail parse as the token's action before the tail's. */
  lemma ParseCons(a: Action, tail: string)
    requires Crossing(a) && ParseActions(tail).Some?
    ensures ParseActions(Token(a) + " " + tail) == Some([a] + ParseActions(tail).value)
  {
    TokenShape(a);
    var body := Token(a) + " " + tail;
    assert body[..5] == Token(a);
    assert body[5] == ' ';
    assert body[6..] == tail;
  }

  /** The switch does exactly what `Command(acts)` spells out. */
  lemma EffectCommand(acts: seq<Action>)
    requires |acts| > 0 && forall i :: 0 <= i < |acts| ==> Crossing(acts[i])
    ensures Effect(Command(acts)) == acts
  {
    ParseSpell(acts);
    var c := Command(acts);
    assert c[..|c| - 1] == Spell(acts);
    assert |c| != 2;
  }

  lemma EffectReset()
    ensures Effect(ResetCommand) == [Reset]
  {
  }

  // ---------------------------------------------------------------- switch state

  function Apply(closed: set<Point>, a: Action): set<Point>
  {
    match a
    case Reset => {}
    case Close(p) => closed + {p}
    case Open(p) => closed - {p}
  }

  function ApplyAll(closed: set<Point>, acts: seq<Action>): set<Point>
    decreases |acts|
  {
    if acts == [] then closed else ApplyAll(Apply(closed, acts[0]), acts[1..])
  }

  /** The device the bus last addressed, and the switch's closed cross-points. */
  datatype Switch = Switch(listener: Option<int>, closed: set<Point>)

  /** One bus operation, seen by the switch at bus address `addr`. */
  function Step(addr: int, s: Switch, op: Bench.Op): Switch
  {
    match op
    case Select(a) => s.(listener := Some(a))
    case Write(cmd) => if s.listener == Some(addr) then s.(closed := ApplyAll(s.closed, Effect(cmd))) else s
    case Query(cmd) => if s.listener == Some(addr) then s.(closed := ApplyAll(s.closed, Effect(cmd))) else s
    case _ => s
  }

  /** The switch after a sequence of bus operations. */
  function Run(addr: int, s: Switch, ops: seq<Bench.Op>): Switch
    decreases |ops|
  {
    if ops == [] then s else Run(addr, Step(addr, s, ops[0]), ops[1..])
  }

  /** The closed cross-points at the moment of each reading operation, in order. */
  function Readings(addr: int, s: Switch, ops: seq<Bench.Op>): seq<set<Point>>
    decreases |ops|
  {
    if ops == [] then []
    else (if Bench.Reads(ops[0]) then [s.closed] else []) + Readings(addr, Step(addr, s, ops[0]), ops[1..])
  }

  /** At most one cross-point is closed at every moment of the run, first and last included. */
  predicate Isolated(addr: int, s: Switch, ops: seq<Bench.Op>)
    decreases |ops|
  {
    |s.closed| <= 1 && (ops == [] || Isolated(addr, Step(addr, s, ops[0]), ops[1..]))
  }

  lemma {:induction false} RunAppend(addr: int, s: Switch, a: seq<Bench.Op>, b: seq<Bench.Op>)
    ensures Run(addr, s, a + b) == Run(addr, Run(addr, s, a), b)
    ensures Readings(addr, s, a + b) == Readings(addr, s, a) + Readings(addr, Run(addr, s, a), b)
    ensures Isolated(addr, s, a + b) <==> Isolated(addr, s, a) && Isolated(addr, Run(addr, s, a), b)
    decreases |a|
  {
    if a == [] {
      assert a + b == b;
    } else {
      assert (a + b)[0] == a[0];
      assert (a + b)[1..] == a[1..] + b;
      RunAppend(addr, Step(addr, s, a[0]), a[1..], b);
    }
  }

  /** `RX` written to the addressed switch opens every cross-point. */
  lemma ResetClears(addr: int, s: Switch)
    requires s.listener == Some(addr)
    ensures Step(addr, s, Bench.Write(ResetCommand)) == s.(closed := {})
  {
    EffectReset();
    assert ApplyAll(s.closed, [Reset]) == ApplyAll({}, []);
  }

  /** Addressing the switch and writing a command applies the command's actions. */
  lemma WriteTo(addr: int, s: Switch, acts: seq<Action>)
    requires |acts| > 0 && forall i :: 0 <= i < |acts| ==> Crossing(acts[i])
    ensures Step(addr, s.(listener := Some(addr)), Bench.Write(Command(acts))) == Switch(Some(addr), ApplyAll(s.closed, acts))
  {
    EffectCommand(acts);
  }

  /** Any other device being addressed, the switch ignores what is written. */
  lemma NotAddressed(addr: int, s: Switch, ops: seq<Bench.Op>)
    requires s.listener != Some(addr)
    requires forall i :: 0 <= i < |ops| ==> !ops[i].Select?
    ensures Run(addr, s, ops) == s
    decreases |ops|
  {
    if ops != [] {
      NotAddressed(addr, s, ops[1..]);
    }
  }

  /** Operations that neither address another device nor, while the switch is addressed, write a cross-point command. */
  predicate Inert(addr: int, s: Switch, ops: seq<Bench.Op>)
  {
    forall i :: 0 <= i < |ops| ==>
      !ops[i].Select? && (s.listener == Some(addr) && (ops[i].Write? || ops[i].Query?) ==> Effect(ops[i].cmd) == [])
  }

  /** Inert operations leave the switch as it is, and every reading among them sees its cross-points. */
  lemma {:induction false} InertRun(addr: int, s: Switch, ops: seq<Bench.Op>)
    requires Inert(addr, s, ops)
    ensures Run(addr, s, ops) == s
    ensures |Readings(addr, s, ops)| == Bench.ReadCount(ops)
    ensures forall k :: 0 <= k < |Readings(addr, s, ops)| ==> Readings(addr, s, ops)[k] == s.closed
    ensures Isolated(addr, s, ops) <==> |s.closed| <= 1
    decreases |ops|
  {
    if ops != [] {
      assert Step(addr, s, ops[0]) == s;
      assert Inert(addr, s, ops[1..]) by {
        forall i | 0 <= i < |ops[1..]|
          ensures !ops[1..][i].Select? && (s.listener == Some(addr) && (ops[1..][i].Write? || ops[1..][i].Query?) ==> Effect(ops[1..][i].cmd) == [])
        {
          assert ops[1..][i] == ops[i + 1];
        }
      }
      InertRun(addr, s, ops[1..]);
      Bench.ReadCountAppend([ops[0]], ops[1..]);
      assert [ops[0]] + ops[1..] == ops;
      assert Bench.ReadCount([ops[0]]) == if Bench.Reads(ops[0]) then 1 else 0 by {
        assert [ops[0]][..0] == [];
      }
    }
  }

  /** Operations none of which reads give no readings. */
  lemma {:induction false} Quiet(addr: int, s: Switch, ops: seq<Bench.Op>)
    requires forall i :: 0 <= i < |ops| ==> !Bench.Reads(ops[i])
    ensures Readings(addr, s, ops) == []
    decreases |ops|
  {
    if ops != [] {
      assert !Bench.Reads(ops[0]);
      Quiet(addr, Step(addr, s, ops[0]), ops[1..]);
    }
  }

  /** One step of a run that has reached position `k`. */
  lemma Unfold(addr: int, s: Switch, ops: seq<Bench.Op>, k: nat)
    requires k < |ops|
    ensures Run(addr, s, ops[k..]) == Run(addr, Step(addr, s, ops[k]), ops[k + 1..])
    ensures Readings(addr, s, ops[k..]) == (if Bench.Reads(ops[k]) then [s.closed] else []) + Readings(addr, Step(addr, s, ops[k]), ops[k + 1..])
    ensures Isolated(addr, s, ops[k..]) <==> |s.closed| <= 1 && Isolated(addr, Step(addr, s, ops[k]), ops[k + 1..])
  {
    assert ops[k..][0] == ops[k];
    assert ops[k..][1..] == ops[k + 1..];
  }

  /** Addressing the switch and writing a command: the switch applies the command's actions and reads nothing. */
  lemma SelectWriteRun(addr: int, s: Switch, acts: seq<Action>)
    requires |acts| > 0 && forall i :: 0 <= i < |acts| ==> Crossing(acts[i])
    ensures var ops := [Bench.Select(addr), Bench.Write(Command(acts))];
            Run(addr, s, ops) == Switch(Some(addr), ApplyAll(s.closed, acts)) &&
            Readings(addr, s, ops) == [] &&
            (Isolated(addr, s, ops) <==> |s.closed| <= 1 && |ApplyAll(s.closed, acts)| <= 1)
  {
    var w := Bench.Write(Command(acts));
    var s1 := s.(listener := Some(addr));
    WriteTo(addr, s, acts);
    WriteOnly(addr, s1, w);
    assert [Bench.Select(addr), w][1..] == [w];
  }

  /** A run of one write: the switch takes that one step and reads nothing. */
  lemma WriteOnly(addr: int, s: Switch, w: Bench.Op)
    requires w.Write?
    ensures Run(addr, s, [w]) == Step(addr, s, w)
    ensures Readings(addr, s, [w]) == []
    ensures Isolated(addr, s, [w]) <==> |s.closed| <= 1 && |Step(addr, s, w).closed| <= 1
  {
    assert [w][1..] == [];
  }

  /** Addressing a device changes only the listener, and reads nothing. */
  lemma SelectRun(addr: int, s: Switch, target: int)
    ensures Run(addr, s, [Bench.Select(target)]) == s.(listener := Some(target))
    ensures Readings(addr, s, [Bench.Select(target)]) == []
    ensures Isolated(addr, s, [Bench.Select(target)]) <==> |s.closed| <= 1
  {
    assert [Bench.Select(target)][1..] == [];
  }

  /** Addressing a device and then doing inert operations. */
  lemma SelectThenInert(addr: int, target: int, s: Switch, rest: seq<Bench.Op>)
    requires Inert(addr, s.(listener := Some(target)), rest)
    ensures Run(addr, s, [Bench.Select(target)] + rest) == s.(listener := Some(target))
    ensures |Readings(addr, s, [Bench.Select(target)] + rest)| == Bench.ReadCount(rest)
    ensures forall k :: 0 <= k < |Readings(addr, s, [Bench.Select(target)] + rest)| ==> Readings(addr, s, [Bench.Select(target)] + rest)[k] == s.closed
    ensures Isolated(addr, s, [Bench.Select(target)] + rest) <==> |s.closed| <= 1
  {
    var s1 := s.(listener := Some(target));
    InertRun(addr, s1, rest);
    RunAppend(addr, s, [Bench.Select(target)], rest);
    SelectRun(addr, s, target);
  }

  /** Operations that return the switch to where it started, isolated throughout, can be repeated as often as wanted. */
  lemma {:induction false} AgainRun(addr: int, s: Switch, ops: seq<Bench.Op>, n: nat)
    requires Run(addr, s, ops) == s && Isolated(addr, s, ops)
    ensures Run(addr, s, Bench.Again(ops, n)) == s && Isolated(addr, s, Bench.Again(ops, n))
  {
    if n > 0 {
      AgainRun(addr, s, ops, n - 1);
      RunAppend(addr, s, Bench.Again(ops, n - 1), ops);
    }
  }

  /** A one-to-one routing: no input column on two rows, no row shared by two columns. */
  predicate OneToOne(closed: set<Point>)
  {
    forall p, q :: p in closed && q in closed && (p.col == q.col || p.row == q.row) ==> p == q
  }
}
