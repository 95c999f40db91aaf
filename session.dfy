/**
  The session skeleton every logging script shares. `RunMeasurements` calls
  `open` before its `try`; inside it runs the setup, writes the CSV header
  (where the script has one), then loops: sample, write the row, sleep out
  the rest of the cadence. Its `finally` calls `close`. The main loop around
  it starts a new session after a `GPIBTimeout` where the script catches
  one, and lets every other exception end the program.

  The endless loops are bounded: a session by `cycles` passes, the main loop
  by `attempts` sessions.
 */
module Session {
  import opened Common
  import opened Bench
  import opened Logging
  import P = Prologix
  import DualTempLogger
  import TestLogger
  import TempAndMatrix
  import TwoInputMatrix
  import FiveInOne

  datatype Script = DualTemp | Test | TempMatrix | TwoInput | FiveInOneMatrix

  function ProtocolOf(script: Script): Protocol
  {
    match script
    case DualTemp => DualTempLogger.Plan()
    case Test => TestLogger.Plan()
    case TempMatrix => TempAndMatrix.Plan()
    case TwoInput => TwoInputMatrix.Plan()
    case FiveInOneMatrix => FiveInOne.Plan()
  }

  /** Every script's cycle reads what its row needs, its header names every column, and only the skeleton opens and closes. */
  lemma AllWellFormed(script: Script)
    ensures WellFormed(ProtocolOf(script))
  {
    match script
    case DualTemp => DualTempLogger.PlanWellFormed();
    case Test => TestLogger.PlanWellFormed();
    case TempMatrix => TempAndMatrix.PlanWellFormed();
    case TwoInput => TwoInputMatrix.PlanWellFormed();
    case FiveInOneMatrix => FiveInOne.PlanWellFormed();
  }

  /** Which scripts catch `GPIBTimeout` in their main loop: the two matrix scripts have the handler commented out. */
  lemma Retrying()
    ensures ProtocolOf(DualTemp).retries && ProtocolOf(Test).retries && ProtocolOf(TempMatrix).retries
    ensures !ProtocolOf(TwoInput).retries && !ProtocolOf(FiveInOneMatrix).retries
  {
  }

  /**
    One pass of the sample loop, up to the row: the bus operations of the
    cycle, stopping at the first that raises, and the row built from the
    replies once all of them returned. The clock advances by exactly the
    time of the operations logged. (The two matrix scripts' own `Sample`
    methods meet this same contract for their cycles.)
   */
  method SampleCycle(lab: Lab, p: Protocol, start: nat) returns (row: seq<Cell>, fault: Option<Fault>, ghost evs: seq<Event>)
    requires WellFormed(p)
    requires lab.Honest()
    modifies lab`log, lab`clock
    ensures lab.Honest()
    ensures lab.log == old(lab.log) + evs
    ensures lab.clock == old(lab.clock) + Spent(lab.cost, evs, old(|lab.log|))
    ensures Ran(p.cycle, evs, fault)
    ensures fault == None ==> Fits(p.columns, |Replies(evs)|)
    ensures fault == None ==> row == RowOf(start, p.columns, Replies(evs), lab.toFloat)
  {
    var replies;
    replies, fault, evs := Perform(lab, p.cycle);
    row := [];
    if fault == None {
      CompleteReplies(p.cycle, evs);
      row := RowOf(start, p.columns, replies, lab.toFloat);
    }
  }

  /** A pass appends its events to the flattened passes before it. */
  lemma {:induction false} FlattenStep(p: Protocol, xs: seq<Pass>, x: Pass)
    ensures Flatten(p, xs + [x]) == Flatten(p, xs) + PassEvents(p, x)
  {
    assert (xs + [x])[..|xs|] == xs;
  }

  /** The pause of a pass, as the `time.sleep` call logs it. */
  lemma PauseLogged(delay: Option<nat>, elapsed: nat)
    ensures Logged(Pause(delay, elapsed)) ==
            if delay.Some? && elapsed < delay.value then [Act(Sleep(delay.value - elapsed), Done(""))] else []
  {
  }

  /** The cadence: sleep for the rest of the delay when the cycle took less. */
  method Cadence(lab: Lab, delay: Option<nat>, elapsed: nat)
    requires lab.Honest()
    modifies lab`log, lab`clock
    ensures lab.Honest()
    ensures lab.log == old(lab.log) + Logged(Pause(delay, elapsed))
    ensures lab.clock == old(lab.clock) + (if delay.Some? && elapsed < delay.value then delay.value - elapsed else 0)
  {
    PauseLogged(delay, elapsed);
    if delay.Some? && elapsed < delay.value {
      var _ := lab.Do(Sleep(delay.value - elapsed));
    }
  }

  /** A completed pass extends the session's log by its events. */
  lemma PassLogged(head: seq<Event>, p: Protocol, xs: seq<Pass>, x: Pass, now: seq<Event>)
    requires now == head + (HeaderEvents(p) + Flatten(p, xs)) + x.acts + [Row(x.row)] + Logged(Pause(p.delay, x.elapsed))
    ensures now == head + (HeaderEvents(p) + Flatten(p, xs + [x]))
  {
    FlattenStep(p, xs, x);
    var done := HeaderEvents(p) + Flatten(p, xs);
    Associate(head, done + x.acts, [Row(x.row)]);
    Associate(head, done, x.acts);
    Associate(head, done + x.acts + [Row(x.row)], Logged(Pause(p.delay, x.elapsed)));
    Associate(done, x.acts, [Row(x.row)]);
    Associate(done, x.acts + [Row(x.row)], Logged(Pause(p.delay, x.elapsed)));
    Associate(HeaderEvents(p), Flatten(p, xs), PassEvents(p, x));
  }

  /** The completed passes so far, and one more. */
  lemma CompletesStep(p: Protocol, toFloat: string -> real, xs: seq<Pass>, x: Pass)
    requires forall i :: 0 <= i < |xs| ==> Completes(p, toFloat, xs[i])
    requires Completes(p, toFloat, x)
    ensures forall i :: 0 <= i < |xs + [x]| ==> Completes(p, toFloat, (xs + [x])[i])
  {
    forall i | 0 <= i < |xs + [x]|
      ensures Completes(p, toFloat, (xs + [x])[i])
    {
      if i < |xs| {
        assert (xs + [x])[i] == xs[i];
      }
    }
  }

  /** A session that an exception stops in a cycle conforms when its setup ran and its passes completed. */
  lemma BrokenConforms(p: Protocol, toFloat: string -> real, cycles: nat, t: Trace, f: Fault)
    requires t.opening.Done? && t.setupFault.None? && Ran(p.setup, t.setup, None)
    requires forall i :: 0 <= i < |t.passes| ==> Completes(p, toFloat, t.passes[i])
    requires Paced(p.delay, t.began, t.passes)
    requires |t.passes| < cycles && Ran(p.cycle, t.broken, Some(f))
    ensures Conforms(p, toFloat, cycles, t, Stopped(f))
  {
  }

  /** A session that ran all its cycles conforms when its setup ran and its passes completed. */
  lemma HorizonConforms(p: Protocol, toFloat: string -> real, cycles: nat, t: Trace)
    requires t.opening.Done? && t.setupFault.None? && Ran(p.setup, t.setup, None)
    requires forall i :: 0 <= i < |t.passes| ==> Completes(p, toFloat, t.passes[i])
    requires Paced(p.delay, t.began, t.passes)
    requires |t.passes| == cycles && t.broken == []
    ensures Conforms(p, toFloat, cycles, t, Horizon)
  {
  }

  /** A session whose setup raised conforms. */
  lemma SetupBrokenConforms(p: Protocol, toFloat: string -> real, cycles: nat, t: Trace)
    requires t.opening.Done? && t.setupFault.Some? && Ran(p.setup, t.setup, t.setupFault)
    requires t.passes == [] && t.broken == []
    ensures Conforms(p, toFloat, cycles, t, Stopped(t.setupFault.value))
  {
  }

  /** A session that an exception stops after the setup: its log so far, the broken cycle, then `close`. */
  lemma BrokenLogged(before: seq<Event>, p: Protocol, t: Trace, f: Fault, now: seq<Event>)
    requires t.opening.Done? && t.setupFault.None?
    requires now == before + [Act(Open, t.opening)] + t.setup + (HeaderEvents(p) + Flatten(p, t.passes)) + t.broken + [Act(Close, Done(""))]
    ensures now == before + Log(p, t, Stopped(f))
  {
    var a := [Act(Open, t.opening)];
    var m := HeaderEvents(p) + Flatten(p, t.passes);
    Associate(before, a, t.setup);
    Associate(before, a + t.setup, m);
    Associate(before, a + t.setup + m, t.broken);
    Associate(before, a + t.setup + m + t.broken, [Act(Close, Done(""))]);
  }

  /** A session that ran all its cycles: its log ends with the last pass, with no `close` logged. */
  lemma HorizonLogged(before: seq<Event>, p: Protocol, t: Trace, now: seq<Event>)
    requires t.opening.Done? && t.setupFault.None? && t.broken == []
    requires now == before + [Act(Open, t.opening)] + t.setup + (HeaderEvents(p) + Flatten(p, t.passes))
    ensures now == before + Log(p, t, Horizon)
  {
    var a := [Act(Open, t.opening)];
    var m := HeaderEvents(p) + Flatten(p, t.passes);
    Associate(before, a, t.setup);
    Associate(before, a + t.setup, m);
  }

  /** A session whose setup raised: `open`, the setup up to the exception, then `close`. */
  lemma SetupBrokenLogged(before: seq<Event>, p: Protocol, t: Trace, now: seq<Event>)
    requires t.opening.Done? && t.setupFault.Some? && t.passes == [] && t.broken == []
    requires now == before + [Act(Open, t.opening)] + t.setup + [Act(Close, Done(""))]
    ensures now == before + Log(p, t, Stopped(t.setupFault.value))
  {
    var a := [Act(Open, t.opening)];
    Associate(before, a, t.setup);
    Associate(before, a + t.setup, [Act(Close, Done(""))]);
  }

  /**
    `RunMeasurements`: a session of at most `cycles` passes. The log is the
    session's events as `Log` lays them out, and they conform to the
    script's protocol: every completed pass ran the whole cycle and wrote
    the row of its replies, and an exception ends the session with `close`
    once `open` has succeeded. The passes are `Paced` from `t.began`, the
    clock once `open` and the setup have taken their time, and
    `SessionClocked`: each pass's elapsed time is what its cycle's
    operations took.
   */
  method RunMeasurements(lab: Lab, p: Protocol, cycles: nat) returns (ending: Ending, ghost t: Trace)
    requires WellFormed(p)
    requires lab.Honest()
    modifies lab`log, lab`clock
    ensures lab.Honest()
    ensures lab.log == old(lab.log) + Log(p, t, ending)
    ensures Conforms(p, lab.toFloat, cycles, t, ending)
    ensures t.opening.Done? && t.setupFault.None? ==> t.began == old(lab.clock) + Spent(lab.cost, [Act(Open, t.opening)] + t.setup, |old(lab.log)|)
    ensures SessionClocked(p, lab.cost, |old(lab.log)|, t)
    ensures t.opening.Done? && t.setupFault.None? && ending == Horizon ==> lab.clock == NextStart(p.delay, t.began, t.passes)
    ensures t.opening.Done? && t.setupFault.None? && ending.Stopped? ==> NextStart(p.delay, t.began, t.passes) <= lab.clock
  {
    var o := lab.Do(Open);
    if o.Raised? {
      ending, t := Stopped(o.fault), Trace(o, [], None, lab.clock, [], []);
      return;
    }
    var setupReplies, setupFault;
    ghost var se;
    setupReplies, setupFault, se := Perform(lab, p.setup);
    if setupFault.Some? {
      var _ := lab.Do(Close);
      ending, t := Stopped(setupFault.value), Trace(o, se, setupFault, lab.clock, [], []);
      SetupBrokenLogged(old(lab.log), p, t, lab.log);
      SetupBrokenConforms(p, lab.toFloat, cycles, t);
      return;
    }
    OpenedSpent(lab.cost, o, se, |old(lab.log)|, old(lab.clock), lab.clock);
    ending, t := SampleSession(lab, p, cycles, old(lab.log), o, se);
  }

  /** The clock after `open` and the setup calls, logged from position `at` on. */
  lemma OpenedSpent(cost: nat -> nat, o: Outcome, se: seq<Event>, at: nat, before: nat, after: nat)
    requires after == before + Duration(cost, Open, at) + Spent(cost, se, at + 1)
    ensures after == before + Spent(cost, [Act(Open, o)] + se, at)
  {
    SpentAppend(cost, [Act(Open, o)], se, at);
    assert [Act(Open, o)][..0] == [];
  }

  /**
    The rest of a session once `open` and the setup have returned: the
    header, the measurement loop, and `close` when an exception leaves it.
    Sampling begins at the clock on entry; `log0` is the log before `open`.
   */
  method SampleSession(lab: Lab, p: Protocol, cycles: nat, ghost log0: seq<Event>, ghost o: Outcome, ghost se: seq<Event>)
    returns (ending: Ending, ghost t: Trace)
    requires WellFormed(p) && o.Done? && Ran(p.setup, se, None)
    requires lab.log == log0 + [Act(Open, o)] + se
    requires lab.Honest()
    modifies lab`log, lab`clock
    ensures lab.Honest()
    ensures t.opening == o && t.setup == se && t.setupFault == None && t.began == old(lab.clock)
    ensures lab.log == log0 + Log(p, t, ending)
    ensures Conforms(p, lab.toFloat, cycles, t, ending)
    ensures SessionClocked(p, lab.cost, |log0|, t)
    ensures ending == Horizon ==> lab.clock == NextStart(p.delay, t.began, t.passes)
    ensures ending.Stopped? ==> NextStart(p.delay, t.began, t.passes) <= lab.clock
  {
    if p.header.Some? {
      lab.Emit(Header(p.header.value));
    }
    ghost var head := log0 + [Act(Open, o)] + se;
    ghost var began := lab.clock;
    var f;
    ghost var passes, broken;
    ghost var at := |log0| + 1 + |se| + |HeaderEvents(p)|;
    f, passes, broken := MeasureCycles(lab, p, cycles, head, at);
    if f.Some? {
      var _ := lab.Do(Close);
      ending, t := Stopped(f.value), Trace(o, se, None, began, passes, broken);
      SessionClockedOf(p, lab.cost, |log0|, t, at);
      BrokenLogged(log0, p, t, f.value, lab.log);
      BrokenConforms(p, lab.toFloat, cycles, t, f.value);
      return;
    }
    ending, t := Horizon, Trace(o, se, None, began, passes, []);
    SessionClockedOf(p, lab.cost, |log0|, t, at);
    HorizonLogged(log0, p, t, lab.log);
    HorizonConforms(p, lab.toFloat, cycles, t);
  }

  /**
    One pass of the measurement loop: `start = datetime.now()`, the cycle,
    its row, then the pause. A cycle that raises ends the pass with its
    events logged and no row. A completed pass starts at the clock, takes
    the time its cycle's operations took as its elapsed time, and leaves
    the clock at its start plus the delay or that time, whichever is longer.
   */
  method RunPass(lab: Lab, p: Protocol, ghost head: seq<Event>, ghost at: nat, ghost passes: seq<Pass>)
    returns (fault: Option<Fault>, ghost x: Pass, ghost broken: seq<Event>)
    requires WellFormed(p)
    requires lab.log == head + (HeaderEvents(p) + Flatten(p, passes)) && at == |head| + |HeaderEvents(p)|
    requires lab.Honest()
    modifies lab`log, lab`clock
    ensures lab.Honest()
    ensures fault.None? ==> Completes(p, lab.toFloat, x) && lab.log == head + (HeaderEvents(p) + Flatten(p, passes + [x]))
    ensures fault.None? ==> x.start == old(lab.clock) && x.elapsed == Spent(lab.cost, x.acts, at + |Flatten(p, passes)|)
    ensures fault.None? ==> lab.clock == x.start + Spacing(p.delay, x.elapsed)
    ensures fault.Some? ==> Ran(p.cycle, broken, fault) && lab.log == old(lab.log) + broken
    ensures fault.Some? ==> lab.clock == old(lab.clock) + Spent(lab.cost, broken, old(|lab.log|))
  {
    assert |lab.log| == at + |Flatten(p, passes)|;
    var start := lab.clock;
    var row;
    ghost var e;
    row, fault, e := SampleCycle(lab, p, start);
    x, broken := Pass(start, e, row, 0), e;
    if fault.Some? {
      return;
    }
    broken := [];
    lab.Emit(Row(row));
    var elapsed := lab.clock - start;
    Cadence(lab, p.delay, elapsed);
    x := Pass(start, e, row, elapsed);
    PassLogged(head, p, passes, x, lab.log);
  }

  /**
    The measurement loop of `RunMeasurements`: up to `cycles` passes, each a
    cycle, its row and the pause that keeps the cadence. The first cycle that
    raises ends the loop with its fault and the events it logged. Each pass
    starts at the clock the one before it left, so the passes are `Paced`
    from the clock at the loop's start, and each pass's elapsed time is what
    its cycle's operations took, so they are `Clocked` from log position `at`.
   */
  method MeasureCycles(lab: Lab, p: Protocol, cycles: nat, ghost head: seq<Event>, ghost at: nat)
    returns (fault: Option<Fault>, ghost passes: seq<Pass>, ghost broken: seq<Event>)
    requires WellFormed(p)
    requires lab.log == head + (HeaderEvents(p) + Flatten(p, [])) && at == |head| + |HeaderEvents(p)|
    requires lab.Honest()
    modifies lab`log, lab`clock
    ensures lab.Honest()
    ensures forall i :: 0 <= i < |passes| ==> Completes(p, lab.toFloat, passes[i])
    ensures fault.None? ==> |passes| == cycles && broken == [] && lab.log == head + (HeaderEvents(p) + Flatten(p, passes))
    ensures fault.Some? ==> |passes| < cycles && Ran(p.cycle, broken, fault)
    ensures fault.Some? ==> lab.log == head + (HeaderEvents(p) + Flatten(p, passes)) + broken
    ensures Paced(p.delay, old(lab.clock), passes)
    ensures Clocked(p, lab.cost, at, passes)
    ensures fault.None? ==> lab.clock == NextStart(p.delay, old(lab.clock), passes)
    ensures fault.Some? ==> NextStart(p.delay, old(lab.clock), passes) <= lab.clock
  {
    passes, broken := [], [];
    var n := 0;
    while n < cycles
      invariant lab.Honest()
      invariant n == |passes| <= cycles
      invariant lab.log == head + (HeaderEvents(p) + Flatten(p, passes))
      invariant Measured(p, lab.toFloat, lab.cost, old(lab.clock), at, passes, lab.clock)
    {
      ghost var now := lab.clock;
      ghost var x, b;
      fault, x, b := RunPass(lab, p, head, at, passes);
      if fault.Some? {
        broken := b;
        MeasuredEnds(p, lab.toFloat, lab.cost, old(lab.clock), at, passes, now);
        return;
      }
      MeasuredStep(p, lab.toFloat, lab.cost, old(lab.clock), at, passes, x);
      passes := passes + [x];
      n := n + 1;
    }
    MeasuredEnds(p, lab.toFloat, lab.cost, old(lab.clock), at, passes, lab.clock);
    fault := None;
  }

  /** The loop invariant of `MeasureCycles`: the passes so far completed, are paced and clocked, and the clock is where the next one starts. */
  ghost predicate Measured(p: Protocol, toFloat: string -> real, cost: nat -> nat, began: nat, at: nat, passes: seq<Pass>, clock: nat)
  {
    && (forall i :: 0 <= i < |passes| ==> Completes(p, toFloat, passes[i]))
    && Paced(p.delay, began, passes) && clock == NextStart(p.delay, began, passes)
    && Clocked(p, cost, at, passes)
  }

  /** A completed pass that started at the clock keeps the invariant. */
  lemma MeasuredStep(p: Protocol, toFloat: string -> real, cost: nat -> nat, began: nat, at: nat, passes: seq<Pass>, x: Pass)
    requires Measured(p, toFloat, cost, began, at, passes, x.start) && Completes(p, toFloat, x)
    requires x.elapsed == Spent(cost, x.acts, at + |Flatten(p, passes)|)
    ensures Measured(p, toFloat, cost, began, at, passes + [x], x.start + Spacing(p.delay, x.elapsed))
  {
    CompletesStep(p, toFloat, passes, x);
    PacedStep(p.delay, began, passes, x);
    ClockedStep(p, cost, at, passes, x);
  }

  /** What the invariant gives `MeasureCycles`' postconditions. */
  lemma MeasuredEnds(p: Protocol, toFloat: string -> real, cost: nat -> nat, began: nat, at: nat, passes: seq<Pass>, clock: nat)
    requires Measured(p, toFloat, cost, began, at, passes, clock)
    ensures forall i :: 0 <= i < |passes| ==> Completes(p, toFloat, passes[i])
    ensures Paced(p.delay, began, passes) && Clocked(p, cost, at, passes)
    ensures clock == NextStart(p.delay, began, passes)
  {
  }

  /** The line the main loop writes to stderr when it catches a `GPIBTimeout`. */
  const TimeoutWarning: string := "GPIB Timeout Reading value, restarting\n"

  /** The main loop starts another session after this ending. */
  predicate Restarts(p: Protocol, e: Ending)
  {
    p.retries && e == Stopped(Timeout)
  }

  /** The logs of consecutive sessions. */
  function Sessions(p: Protocol, ts: seq<Trace>, es: seq<Ending>): seq<Event>
    requires |ts| == |es|
  {
    if ts == [] then [] else Sessions(p, ts[..|ts| - 1], es[..|es| - 1]) + Log(p, ts[|ts| - 1], es[|es| - 1])
  }

  /** A log that had the sessions so far, extended with one more session's log. */
  lemma SessionsStep(before: seq<Event>, p: Protocol, ts: seq<Trace>, es: seq<Ending>, t: Trace, e: Ending, after: seq<Event>)
    requires |ts| == |es|
    requires after == before + Sessions(p, ts, es) + Log(p, t, e)
    ensures after == before + Sessions(p, ts + [t], es + [e])
  {
    assert (ts + [t])[..|ts|] == ts;
    assert (es + [e])[..|es|] == es;
    Associate(before, Sessions(p, ts, es), Log(p, t, e));
  }

  /** How many of the endings the main loop caught. */
  function Caught(p: Protocol, es: seq<Ending>): nat
  {
    if es == [] then 0 else Caught(p, es[..|es| - 1]) + (if Restarts(p, es[|es| - 1]) then 1 else 0)
  }

  lemma {:induction false} CaughtAll(p: Protocol, es: seq<Ending>)
    requires forall i :: 0 <= i < |es| ==> Restarts(p, es[i])
    ensures Caught(p, es) == |es|
  {
    if es != [] {
      CaughtAll(p, es[..|es| - 1]);
    }
  }

  /**
    The main loop, over at most `attempts` sessions: every session but the
    last ended in a caught `GPIBTimeout`, each of which wrote one warning to
    stderr; fewer sessions than allowed means the last one ended in a way
    the script does not catch.
   */
  method Supervise(lab: Lab, p: Protocol, cycles: nat, attempts: nat) returns (endings: seq<Ending>, ghost traces: seq<Trace>)
    requires WellFormed(p)
    requires lab.Honest()
    modifies lab`log, lab`clock, lab`stderr
    ensures lab.Honest()
    ensures |endings| == |traces| <= attempts
    ensures lab.log == old(lab.log) + Sessions(p, traces, endings)
    ensures forall i :: 0 <= i < |traces| ==> Conforms(p, lab.toFloat, cycles, traces[i], endings[i])
    ensures forall i :: 0 <= i < |endings| - 1 ==> Restarts(p, endings[i])
    ensures |endings| < attempts ==> |endings| > 0 && !Restarts(p, endings[|endings| - 1])
    ensures lab.stderr == old(lab.stderr) + Repeat(TimeoutWarning, Caught(p, endings))
  {
    endings, traces := [], [];
    while |endings| < attempts
      invariant lab.Honest()
      invariant |endings| <= attempts
      invariant Supervised(p, lab.toFloat, cycles, old(lab.log), old(lab.stderr), lab.log, lab.stderr, traces, endings, true)
    {
      var ending;
      ghost var t;
      ending, t := Attempt(lab, p, cycles, old(lab.log), old(lab.stderr), traces, endings);
      endings, traces := endings + [ending], traces + [t];
      if !Restarts(p, ending) {
        SupervisedEnds(p, lab.toFloat, cycles, old(lab.log), old(lab.stderr), lab.log, lab.stderr, traces, endings, false, attempts);
        return;
      }
    }
    SupervisedEnds(p, lab.toFloat, cycles, old(lab.log), old(lab.stderr), lab.log, lab.stderr, traces, endings, true, attempts);
  }

  /**
    One pass of the supervisor's loop: a session, then the warning on stderr
    when its timeout restarts it.
   */
  method Attempt(lab: Lab, p: Protocol, cycles: nat, ghost log0: seq<Event>, ghost stderr0: seq<string>,
                 ghost traces: seq<Trace>, endings: seq<Ending>) returns (ending: Ending, ghost t: Trace)
    requires WellFormed(p)
    requires Supervised(p, lab.toFloat, cycles, log0, stderr0, lab.log, lab.stderr, traces, endings, true)
    requires lab.Honest()
    modifies lab`log, lab`clock, lab`stderr
    ensures lab.Honest()
    ensures Supervised(p, lab.toFloat, cycles, log0, stderr0, lab.log, lab.stderr, traces + [t], endings + [ending], Restarts(p, ending))
    ensures SessionClocked(p, lab.cost, old(|lab.log|), t)
  {
    ghost var before, err := lab.log, lab.stderr;
    ending, t := RunMeasurements(lab, p, cycles);
    if p.retries && ending == Stopped(Timeout) {
      lab.Complain(TimeoutWarning);
    }
    SuperviseStep(p, lab.toFloat, cycles, log0, stderr0, before, lab.log, err, lab.stderr, traces, endings, t, ending);
  }

  /** What `Supervise` keeps true from one attempt to the next. */
  ghost predicate Supervised(p: Protocol, toFloat: string -> real, cycles: nat, log0: seq<Event>, stderr0: seq<string>,
                             log: seq<Event>, stderr: seq<string>, ts: seq<Trace>, es: seq<Ending>, going: bool)
  {
    && |es| == |ts|
    && log == log0 + Sessions(p, ts, es)
    && AllConform(p, toFloat, cycles, ts, es)
    && Warned(p, stderr0, stderr, es, going)
  }

  /** Every session but a last one that stopped the loop restarted, and each restart was warned about. */
  ghost predicate Warned(p: Protocol, stderr0: seq<string>, stderr: seq<string>, es: seq<Ending>, going: bool)
  {
    && (forall i :: 0 <= i < |es| - 1 ==> Restarts(p, es[i]))
    && (going ==> forall i :: 0 <= i < |es| ==> Restarts(p, es[i]))
    && (!going ==> |es| > 0 && !Restarts(p, es[|es| - 1]))
    && stderr == stderr0 + Repeat(TimeoutWarning, Caught(p, es))
  }

  /** What `Supervised` says once the loop is over. */
  lemma SupervisedEnds(p: Protocol, toFloat: string -> real, cycles: nat, log0: seq<Event>, stderr0: seq<string>,
                       log: seq<Event>, stderr: seq<string>, ts: seq<Trace>, es: seq<Ending>, going: bool, attempts: nat)
    requires Supervised(p, toFloat, cycles, log0, stderr0, log, stderr, ts, es, going)
    requires |es| <= attempts && !(going && |es| < attempts)
    ensures |es| == |ts| <= attempts
    ensures log == log0 + Sessions(p, ts, es)
    ensures forall i :: 0 <= i < |ts| ==> Conforms(p, toFloat, cycles, ts[i], es[i])
    ensures forall i :: 0 <= i < |es| - 1 ==> Restarts(p, es[i])
    ensures |es| < attempts ==> |es| > 0 && !Restarts(p, es[|es| - 1])
    ensures stderr == stderr0 + Repeat(TimeoutWarning, Caught(p, es))
  {
    ConformsEach(p, toFloat, cycles, ts, es);
  }

  /**
    One more attempt, logged after the previous ones and warned about when
    it restarts, keeps `Supervised`.
   */
  lemma SuperviseStep(p: Protocol, toFloat: string -> real, cycles: nat, log0: seq<Event>, stderr0: seq<string>,
                      before: seq<Event>, log: seq<Event>, err: seq<string>, stderr: seq<string>,
                      ts: seq<Trace>, es: seq<Ending>, t: Trace, e: Ending)
    requires Supervised(p, toFloat, cycles, log0, stderr0, before, err, ts, es, true)
    requires log == before + Log(p, t, e)
    requires Conforms(p, toFloat, cycles, t, e)
    requires stderr == if Restarts(p, e) then err + [TimeoutWarning] else err
    ensures Supervised(p, toFloat, cycles, log0, stderr0, log, stderr, ts + [t], es + [e], Restarts(p, e))
  {
    SessionsStep(log0, p, ts, es, t, e, log);
    ConformsStep(p, toFloat, cycles, ts, es, t, e);
    WarnedStep(p, stderr0, err, stderr, es, e);
  }

  /** Every session conformed to the protocol. */
  ghost predicate AllConform(p: Protocol, toFloat: string -> real, cycles: nat, ts: seq<Trace>, es: seq<Ending>)
    requires |ts| == |es|
  {
    ts == [] || (AllConform(p, toFloat, cycles, ts[..|ts| - 1], es[..|es| - 1]) && Conforms(p, toFloat, cycles, ts[|ts| - 1], es[|es| - 1]))
  }

  /** The sessions so far conformed, and so did the next one. */
  lemma ConformsStep(p: Protocol, toFloat: string -> real, cycles: nat, ts: seq<Trace>, es: seq<Ending>, t: Trace, e: Ending)
    requires |ts| == |es|
    requires AllConform(p, toFloat, cycles, ts, es)
    requires Conforms(p, toFloat, cycles, t, e)
    ensures AllConform(p, toFloat, cycles, ts + [t], es + [e])
  {
    assert (ts + [t])[..|ts|] == ts;
    assert (es + [e])[..|es|] == es;
  }

  /** Each of the sessions conformed. */
  lemma {:induction false} ConformsEach(p: Protocol, toFloat: string -> real, cycles: nat, ts: seq<Trace>, es: seq<Ending>)
    requires |ts| == |es|
    requires AllConform(p, toFloat, cycles, ts, es)
    ensures forall i :: 0 <= i < |ts| ==> Conforms(p, toFloat, cycles, ts[i], es[i])
  {
    if ts != [] {
      var n := |ts| - 1;
      ConformsEach(p, toFloat, cycles, ts[..n], es[..n]);
      forall i | 0 <= i < |ts|
        ensures Conforms(p, toFloat, cycles, ts[i], es[i])
      {
        if i < n {
          assert ts[..n][i] == ts[i] && es[..n][i] == es[i];
        }
      }
    }
  }

  /** One more ending is caught exactly when it restarts the session. */
  lemma CaughtStep(p: Protocol, es: seq<Ending>, e: Ending)
    ensures Caught(p, es + [e]) == Caught(p, es) + (if Restarts(p, e) then 1 else 0)
  {
    assert (es + [e])[..|es|] == es;
  }

  /** The warnings on stderr follow the endings that restarted the session. */
  lemma WarnedStep(p: Protocol, stderr0: seq<string>, err: seq<string>, stderr: seq<string>, es: seq<Ending>, e: Ending)
    requires Warned(p, stderr0, err, es, true)
    requires stderr == if Restarts(p, e) then err + [TimeoutWarning] else err
    ensures Warned(p, stderr0, stderr, es + [e], Restarts(p, e))
  {
    var es' := es + [e];
    assert forall i :: 0 <= i < |es'| - 1 ==> es'[i] == es[i];
    CaughtStep(p, es, e);
    if Restarts(p, e) {
      WarnedOnce(stderr0, Caught(p, es));
      assert forall i :: 0 <= i < |es'| ==> Restarts(p, es'[i]);
    }
  }

  /** One more warning line on stderr. */
  lemma WarnedOnce(base: seq<string>, n: nat)
    ensures base + Repeat(TimeoutWarning, n) + [TimeoutWarning] == base + Repeat(TimeoutWarning, n + 1)
  {
    RepeatAppend(TimeoutWarning, n, 1);
    assert Repeat(TimeoutWarning, 1) == [TimeoutWarning];
    Associate(base, Repeat(TimeoutWarning, n), [TimeoutWarning]);
  }

  /**
    One of the scripts run from its main loop. The two matrix scripts,
    which catch nothing, run a single session, and write nothing to stderr.
   */
  method RunScript(lab: Lab, script: Script, cycles: nat, attempts: nat) returns (endings: seq<Ending>, ghost traces: seq<Trace>)
    requires lab.Honest()
    modifies lab`log, lab`clock, lab`stderr
    ensures lab.Honest()
    ensures |endings| == |traces| <= attempts
    ensures lab.log == old(lab.log) + Sessions(ProtocolOf(script), traces, endings)
    ensures forall i :: 0 <= i < |traces| ==> Conforms(ProtocolOf(script), lab.toFloat, cycles, traces[i], endings[i])
    ensures script in {TwoInput, FiveInOneMatrix} ==> |endings| <= 1 && lab.stderr == old(lab.stderr)
  {
    var p := ProtocolOf(script);
    AllWellFormed(script);
    endings, traces := Supervise(lab, p, cycles, attempts);
    if script in {TwoInput, FiveInOneMatrix} {
      NoHandler(script);
      UncaughtOnce(p, endings);
    }
  }

  /** The two matrix scripts do not restart. */
  lemma NoHandler(script: Script)
    requires script in {TwoInput, FiveInOneMatrix}
    ensures !ProtocolOf(script).retries
  {
    Retrying();
  }

  /** Without a handler nothing restarts: at most one session, and no warning. */
  lemma UncaughtOnce(p: Protocol, es: seq<Ending>)
    requires !p.retries
    requires |es| > 1 ==> Restarts(p, es[0])
    ensures |es| <= 1 && Caught(p, es) == 0
  {
    NoneCaught(p, es);
  }

  lemma {:induction false} NoneCaught(p: Protocol, es: seq<Ending>)
    requires !p.retries
    ensures Caught(p, es) == 0
  {
    if es != [] {
      NoneCaught(p, es[..|es| - 1]);
    }
  }

  /**
    As written, a failure of the Prologix driver reaches the scripts as a
    socket or codec exception, never as `GPIBTimeout`: the driver does not
    raise it, not even when its socket times out.
   */
  function DriverFault(failure: P.Failure): (f: Fault)
    ensures f != Timeout
  {
    OtherError
  }

  /** So no session on the Prologix driver is ever restarted, not even for the scripts whose handler catches `GPIBTimeout`. */
  lemma DriverTimeoutNotCaught(script: Script, failure: P.Failure)
    ensures script in {DualTemp, Test, TempMatrix} ==> ProtocolOf(script).retries
    ensures !Restarts(ProtocolOf(script), Stopped(DriverFault(failure)))
  {
    Retrying();
  }

  /** What the handlers evidently expect: a socket timeout while reading surfaces as `GPIBTimeout`. */
  function IntendedFault(failure: P.Failure): (f: Fault)
    ensures f == Timeout <==> failure == P.SocketTimeout
  {
    if failure == P.SocketTimeout then Timeout else OtherError
  }

  /** With it, a socket timeout restarts exactly the sessions of the scripts that catch `GPIBTimeout`. */
  lemma IntendedTimeoutCaught(script: Script, failure: P.Failure)
    ensures Restarts(ProtocolOf(script), Stopped(IntendedFault(failure))) <==>
            failure == P.SocketTimeout && script in {DualTemp, Test, TempMatrix}
  {
    Retrying();
  }
}
