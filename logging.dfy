/**
  The shape every logging script shares: open the interface, then (inside
  `try`) run a fixed setup, write a CSV header, and sample forever; each
  sample is one cycle of bus operations whose replies become one output row,
  followed by a cadence sleep; `finally` closes the interface.

  A script is described by a `Protocol` value. The endless sampling loop is
  bounded by a number of cycles: a session that reaches it ends at the
  `Horizon`, still running.
 */
module Logging {
  import opened Common
  import opened Bench

  /** One column of an output row after the timestamp. */
  datatype Column =
    | Fixed(text: string)           // a constant text
    | Value(index: nat)             // `float()` of the index-th reply of the cycle
    | Mean(lo: nat, hi: nat)        // the mean of `float()` of replies lo..hi-1

  predicate Within(c: Column, n: nat)
  {
    match c
    case Fixed(_) => true
    case Value(i) => i < n
    case Mean(lo, hi) => lo < hi <= n
  }

  /** Every column draws on replies that a cycle with `n` replies has. */
  predicate Fits(columns: seq<Column>, n: nat)
  {
    forall c :: c in columns ==> Within(c, n)
  }

  /** The sum of `float()` of the replies. */
  function Total(replies: seq<string>, toFloat: string -> real): real
  {
    if replies == [] then 0.0 else Total(replies[..|replies| - 1], toFloat) + toFloat(replies[|replies| - 1])
  }

  function Average(replies: seq<string>, toFloat: string -> real): real
    requires |replies| > 0
  {
    Total(replies, toFloat) / (|replies| as real)
  }

  function CellOf(c: Column, replies: seq<string>, toFloat: string -> real): Cell
    requires Within(c, |replies|)
  {
    match c
    case Fixed(t) => Text(t)
    case Value(i) => Number(toFloat(replies[i]))
    case Mean(lo, hi) => Number(Average(replies[lo..hi], toFloat))
  }

  /** The row a cycle that started at `start` and got `replies` writes. */
  function RowOf(start: nat, columns: seq<Column>, replies: seq<string>, toFloat: string -> real): seq<Cell>
    requires Fits(columns, |replies|)
  {
    [Stamp(start)] + seq(|columns|, k requires 0 <= k < |columns| => CellOf(columns[k], replies, toFloat))
  }

  /**
    A logging script: setup operations, the header it writes (if any), the
    operations of one cycle, the columns of its rows, its cadence in
    milliseconds (if it sleeps at all), and whether its main loop restarts
    the session on `GPIBTimeout`.
   */
  datatype Protocol = Protocol(
    setup: seq<Op>,
    header: Option<seq<string>>,
    cycle: seq<Op>,
    columns: seq<Column>,
    delay: Option<nat>,
    retries: bool)

  /** Neither opens nor closes the interface. */
  predicate NoSession(ops: seq<Op>)
  {
    Open !in ops && Close !in ops
  }

  /** The header names the timestamp and every column; the cycle supplies what the columns read; open and close are the skeleton's. */
  predicate WellFormed(p: Protocol)
  {
    && Fits(p.columns, ReadCount(p.cycle))
    && (p.header.Some? ==> |p.header.value| == |p.columns| + 1)
    && NoSession(p.setup)
    && NoSession(p.cycle)
  }

  /** The cadence sleep after a cycle that took `elapsed` ms: the rest of the delay, if any is left. */
  function Pause(delay: Option<nat>, elapsed: nat): seq<Op>
  {
    if delay.Some? && elapsed < delay.value then [Sleep(delay.value - elapsed)] else []
  }

  function Logged(ops: seq<Op>): seq<Event>
  {
    seq(|ops|, i requires 0 <= i < |ops| => Act(ops[i], Done("")))
  }

  /** One completed cycle: when it started, what it did, the row it wrote, and how long it took before the pause. */
  datatype Pass = Pass(start: nat, acts: seq<Event>, row: seq<Cell>, elapsed: nat)

  /** The cycle ran to the end and its row was built from the replies it got. */
  predicate Completes(p: Protocol, toFloat: string -> real, x: Pass)
  {
    && Ran(p.cycle, x.acts, None)
    && Fits(p.columns, |Replies(x.acts)|)
    && x.row == RowOf(x.start, p.columns, Replies(x.acts), toFloat)
  }

  /**
    How long after a cycle started the next one starts: the cadence delay
    when the cycle took less, otherwise the cycle's own time.
   */
  function Spacing(delay: Option<nat>, elapsed: nat): nat
  {
    if delay.Some? && elapsed < delay.value then delay.value else elapsed
  }

  /** When the cycle after passes `xs` starts, the first having started at `began`. */
  function NextStart(delay: Option<nat>, began: nat, xs: seq<Pass>): nat
  {
    if xs == [] then began else xs[|xs| - 1].start + Spacing(delay, xs[|xs| - 1].elapsed)
  }

  /** The first pass starts at `began`, and each later one when the pass before it and its pause are over. */
  predicate Paced(delay: Option<nat>, began: nat, xs: seq<Pass>)
    decreases |xs|
  {
    xs == [] || (Paced(delay, began, xs[..|xs| - 1]) && xs[|xs| - 1].start == NextStart(delay, began, xs[..|xs| - 1]))
  }

  lemma PacedStep(delay: Option<nat>, began: nat, xs: seq<Pass>, x: Pass)
    requires Paced(delay, began, xs) && x.start == NextStart(delay, began, xs)
    ensures Paced(delay, began, xs + [x])
    ensures NextStart(delay, began, xs + [x]) == x.start + Spacing(delay, x.elapsed)
  {
    assert (xs + [x])[..|xs|] == xs;
  }

  /** Each pass of a paced run starts where the one before it left off. */
  lemma {:induction false} PacedAt(delay: Option<nat>, began: nat, xs: seq<Pass>, i: nat)
    requires Paced(delay, began, xs) && 0 < i < |xs|
    ensures xs[i].start == xs[i - 1].start + Spacing(delay, xs[i - 1].elapsed)
    decreases |xs|
  {
    var front := xs[..|xs| - 1];
    if i < |xs| - 1 {
      PacedAt(delay, began, front, i);
      assert front[i] == xs[i] && front[i - 1] == xs[i - 1];
    } else {
      assert front[|front| - 1] == xs[i - 1];
    }
  }

  function PassEvents(p: Protocol, x: Pass): seq<Event>
  {
    x.acts + [Row(x.row)] + Logged(Pause(p.delay, x.elapsed))
  }

  function Flatten(p: Protocol, xs: seq<Pass>): seq<Event>
  {
    if xs == [] then [] else Flatten(p, xs[..|xs| - 1]) + PassEvents(p, xs[|xs| - 1])
  }

  /**
    Each pass's elapsed time is the time its cycle's bus operations took, at
    the log positions they were logged at; the passes' events are logged one
    after another from position `at` on.
   */
  predicate Clocked(p: Protocol, cost: nat -> nat, at: nat, xs: seq<Pass>)
    decreases |xs|
  {
    xs == [] || (Clocked(p, cost, at, xs[..|xs| - 1]) && xs[|xs| - 1].elapsed == Spent(cost, xs[|xs| - 1].acts, at + |Flatten(p, xs[..|xs| - 1])|))
  }

  /** The passes of a session whose setup completed are clocked from the log position after `open`, the setup and the header; `from` is where the session's log starts. */
  predicate SessionClocked(p: Protocol, cost: nat -> nat, from: nat, t: Trace)
  {
    t.opening.Done? && t.setupFault.None? ==> Clocked(p, cost, from + 1 + |t.setup| + |HeaderEvents(p)|, t.passes)
  }

  lemma SessionClockedOf(p: Protocol, cost: nat -> nat, from: nat, t: Trace, at: nat)
    requires at == from + 1 + |t.setup| + |HeaderEvents(p)| && Clocked(p, cost, at, t.passes)
    ensures SessionClocked(p, cost, from, t)
  {
  }

  lemma ClockedStep(p: Protocol, cost: nat -> nat, at: nat, xs: seq<Pass>, x: Pass)
    requires Clocked(p, cost, at, xs) && x.elapsed == Spent(cost, x.acts, at + |Flatten(p, xs)|)
    ensures Clocked(p, cost, at, xs + [x])
  {
    assert (xs + [x])[..|xs|] == xs;
  }

  /** A pass, its row and its pause take the cycle's time or the delay, whichever is longer. */
  lemma PassSpent(p: Protocol, cost: nat -> nat, x: Pass, at: nat)
    requires x.elapsed == Spent(cost, x.acts, at)
    ensures Spent(cost, PassEvents(p, x), at) == Spacing(p.delay, x.elapsed)
  {
    var pause := Logged(Pause(p.delay, x.elapsed));
    SpentAppend(cost, x.acts + [Row(x.row)], pause, at);
    SpentAppend(cost, x.acts, [Row(x.row)], at);
    assert [Row(x.row)][..0] == [];
    if p.delay.Some? && x.elapsed < p.delay.value {
      assert pause == [Act(Sleep(p.delay.value - x.elapsed), Done(""))];
      assert pause[..0] == [];
    }
  }

  /** The cycle after paced, clocked passes starts once everything they logged has taken its time. */
  lemma {:induction false} NextStartSpent(p: Protocol, cost: nat -> nat, began: nat, at: nat, xs: seq<Pass>)
    requires Paced(p.delay, began, xs) && Clocked(p, cost, at, xs)
    ensures NextStart(p.delay, began, xs) == began + Spent(cost, Flatten(p, xs), at)
    decreases |xs|
  {
    if xs != [] {
      var front, x := xs[..|xs| - 1], xs[|xs| - 1];
      NextStartSpent(p, cost, began, at, front);
      PassSpent(p, cost, x, at + |Flatten(p, front)|);
      SpentAppend(cost, Flatten(p, front), PassEvents(p, x), at);
    }
  }

  /**
    The timestamp of each pass is the clock when its cycle started: `began`
    plus the time of everything the passes before it logged; and its elapsed
    time is the time its own cycle's operations took.
   */
  lemma StampIsClock(p: Protocol, cost: nat -> nat, began: nat, at: nat, xs: seq<Pass>, i: nat)
    requires Paced(p.delay, began, xs) && Clocked(p, cost, at, xs) && i < |xs|
    ensures xs[i].start == began + Spent(cost, Flatten(p, xs[..i]), at)
    ensures xs[i].elapsed == Spent(cost, xs[i].acts, at + |Flatten(p, xs[..i])|)
  {
    StampOfPrefix(p, cost, began, at, xs, i);
    PrefixOfPrefix(xs, i);
  }

  /** `StampIsClock` for the i-th pass as the last of the first i + 1. */
  lemma StampOfPrefix(p: Protocol, cost: nat -> nat, began: nat, at: nat, xs: seq<Pass>, i: nat)
    requires Paced(p.delay, began, xs) && Clocked(p, cost, at, xs) && i < |xs|
    ensures xs[..i + 1][i].start == began + Spent(cost, Flatten(p, xs[..i + 1][..i]), at)
    ensures xs[..i + 1][i].elapsed == Spent(cost, xs[..i + 1][i].acts, at + |Flatten(p, xs[..i + 1][..i])|)
  {
    PrefixClocked(p, cost, began, at, xs, i + 1);
    StampOfLast(p, cost, began, at, xs[..i + 1], i);
  }

  /** Passes paced from `began` and clocked from log position `at`. */
  predicate Steady(p: Protocol, cost: nat -> nat, began: nat, at: nat, xs: seq<Pass>)
  {
    Paced(p.delay, began, xs) && Clocked(p, cost, at, xs)
  }

  /** The first n of paced, clocked passes are paced and clocked. */
  lemma {:induction false} PrefixClocked(p: Protocol, cost: nat -> nat, began: nat, at: nat, xs: seq<Pass>, n: nat)
    requires Steady(p, cost, began, at, xs) && n <= |xs|
    ensures Steady(p, cost, began, at, xs[..n])
    decreases |xs|
  {
    if n < |xs| {
      var front := xs[..|xs| - 1];
      PrefixClocked(p, cost, began, at, front, n);
      assert front[..n] == xs[..n];
    } else {
      assert xs[..n] == xs;
    }
  }

  /** `StampIsClock` for the last of the passes, the i-th. */
  lemma StampOfLast(p: Protocol, cost: nat -> nat, began: nat, at: nat, xs: seq<Pass>, i: nat)
    requires Steady(p, cost, began, at, xs) && |xs| == i + 1
    ensures xs[i].start == began + Spent(cost, Flatten(p, xs[..i]), at)
    ensures xs[i].elapsed == Spent(cost, xs[i].acts, at + |Flatten(p, xs[..i])|)
  {
    NextStartSpent(p, cost, began, at, xs[..i]);
  }

  function HeaderEvents(p: Protocol): seq<Event>
  {
    if p.header.Some? then [Header(p.header.value)] else []
  }

  /** How a session ended: an exception left it, or the bound on cycles was reached. */
  datatype Ending = Stopped(fault: Fault) | Horizon

  /**
    The parts of one session: the outcome of `open`, the setup's events and
    the exception that stopped it, the clock when the first cycle started,
    the completed cycles, and the events of the cycle an exception broke off.
   */
  datatype Trace = Trace(opening: Outcome, setup: seq<Event>, setupFault: Option<Fault>, began: nat, passes: seq<Pass>, broken: seq<Event>)

  predicate Conforms(p: Protocol, toFloat: string -> real, cycles: nat, t: Trace, ending: Ending)
  {
    if t.opening.Raised? then
      ending == Stopped(t.opening.fault) && t.setup == [] && t.setupFault == None && t.passes == [] && t.broken == []
    else
      && Ran(p.setup, t.setup, t.setupFault)
      && (t.setupFault.Some? ==> ending == Stopped(t.setupFault.value) && t.passes == [] && t.broken == [])
      && (t.setupFault.None? ==>
            && (forall i :: 0 <= i < |t.passes| ==> Completes(p, toFloat, t.passes[i]))
            && Paced(p.delay, t.began, t.passes)
            && (ending == Horizon ==> |t.passes| == cycles && t.broken == [])
            && (ending.Stopped? ==> |t.passes| < cycles && Ran(p.cycle, t.broken, Some(ending.fault))))
  }

  /** The events of a session, in order. */
  function Log(p: Protocol, t: Trace, ending: Ending): seq<Event>
  {
    [Act(Open, t.opening)] + t.setup + Sampled(p, t) + t.broken + Closing(t, ending)
  }

  /** The header and the completed cycles, written once the setup is through. */
  function Sampled(p: Protocol, t: Trace): seq<Event>
  {
    if t.opening.Done? && t.setupFault.None? then HeaderEvents(p) + Flatten(p, t.passes) else []
  }

  /** The `finally` clause's `close`, run when an exception leaves an opened session. */
  function Closing(t: Trace, ending: Ending): seq<Event>
  {
    if t.opening.Done? && ending.Stopped? then [Act(Close, Done(""))] else []
  }

  /** The rows in a log, in order. */
  function Rows(evs: seq<Event>): seq<seq<Cell>>
  {
    if evs == [] then [] else Rows(evs[..|evs| - 1]) + (if evs[|evs| - 1].Row? then [evs[|evs| - 1].cells] else [])
  }

  function PassRows(xs: seq<Pass>): seq<seq<Cell>>
  {
    if xs == [] then [] else PassRows(xs[..|xs| - 1]) + [xs[|xs| - 1].row]
  }

  lemma {:induction false} RowsAppend(a: seq<Event>, b: seq<Event>)
    ensures Rows(a + b) == Rows(a) + Rows(b)
    decreases |b|
  {
    if b == [] {
      assert a + b == a;
    } else {
      RowsAppend(a, b[..|b| - 1]);
      assert (a + b)[..|a + b| - 1] == a + b[..|b| - 1];
    }
  }

  lemma {:induction false} NoRows(evs: seq<Event>)
    requires forall i :: 0 <= i < |evs| ==> !evs[i].Row?
    ensures Rows(evs) == []
    decreases |evs|
  {
    if evs != [] {
      NoRows(evs[..|evs| - 1]);
    }
  }

  lemma {:induction false} FlattenRows(p: Protocol, toFloat: string -> real, xs: seq<Pass>)
    requires forall i :: 0 <= i < |xs| ==> Completes(p, toFloat, xs[i])
    ensures Rows(Flatten(p, xs)) == PassRows(xs)
    decreases |xs|
  {
    if xs != [] {
      var x := xs[|xs| - 1];
      FlattenRows(p, toFloat, xs[..|xs| - 1]);
      PassRowsOne(p, toFloat, x);
      RowsAppend(Flatten(p, xs[..|xs| - 1]), PassEvents(p, x));
    }
  }

  /** A completed cycle writes exactly its own row. */
  lemma PassRowsOne(p: Protocol, toFloat: string -> real, x: Pass)
    requires Completes(p, toFloat, x)
    ensures Rows(PassEvents(p, x)) == [x.row]
  {
    RanOnlyActs(p.cycle, x.acts, None);
    NoRows(x.acts);
    NoRows(Logged(Pause(p.delay, x.elapsed)));
    RowsAppend(x.acts, [Row(x.row)]);
    RowsAppend(x.acts + [Row(x.row)], Logged(Pause(p.delay, x.elapsed)));
    assert Rows([Row(x.row)]) == [x.row] by {
      assert [Row(x.row)][..0] == [];
    }
  }

  /**
    The rows a session writes are exactly the rows of its completed cycles, in
    order: a cycle that an exception breaks off writes no row, and neither
    does the setup.
   */
  lemma RowsOfSession(p: Protocol, toFloat: string -> real, cycles: nat, t: Trace, ending: Ending)
    requires Conforms(p, toFloat, cycles, t, ending)
    ensures Rows(Log(p, t, ending)) == PassRows(t.passes)
    ensures |PassRows(t.passes)| == |t.passes|
  {
    ActsOnly(p, toFloat, cycles, t, ending);
    SampledRows(p, toFloat, cycles, t, ending);
    PassRowsLength(t.passes);
    RowsAround([Act(Open, t.opening)], t.setup, Sampled(p, t), t.broken, Closing(t, ending));
  }

  /** Only the middle part of a log of five parts holds rows. */
  lemma RowsAround(a: seq<Event>, b: seq<Event>, c: seq<Event>, d: seq<Event>, e: seq<Event>)
    requires forall i :: 0 <= i < |a| ==> !a[i].Row?
    requires forall i :: 0 <= i < |b| ==> !b[i].Row?
    requires forall i :: 0 <= i < |d| ==> !d[i].Row?
    requires forall i :: 0 <= i < |e| ==> !e[i].Row?
    ensures Rows(a + b + c + d + e) == Rows(c)
  {
    NoRows(a);
    NoRows(b);
    NoRows(d);
    NoRows(e);
    RowsAppend(a, b);
    RowsAppend(a + b, c);
    RowsAppend(a + b + c, d);
    RowsAppend(a + b + c + d, e);
  }

  lemma ActsOnly(p: Protocol, toFloat: string -> real, cycles: nat, t: Trace, ending: Ending)
    requires Conforms(p, toFloat, cycles, t, ending)
    ensures forall i :: 0 <= i < |t.setup| ==> !t.setup[i].Row?
    ensures forall i :: 0 <= i < |t.broken| ==> !t.broken[i].Row?
  {
    if t.opening.Done? {
      RanOnlyActs(p.setup, t.setup, t.setupFault);
      if ending.Stopped? && t.setupFault.None? {
        RanOnlyActs(p.cycle, t.broken, Some(ending.fault));
      }
    }
  }

  lemma SampledRows(p: Protocol, toFloat: string -> real, cycles: nat, t: Trace, ending: Ending)
    requires Conforms(p, toFloat, cycles, t, ending)
    ensures Rows(Sampled(p, t)) == PassRows(t.passes)
  {
    if t.opening.Done? && t.setupFault.None? {
      FlattenRows(p, toFloat, t.passes);
      HeaderNoRows(p, Flatten(p, t.passes));
    }
  }

  /** The header adds no row to what follows it. */
  lemma HeaderNoRows(p: Protocol, evs: seq<Event>)
    ensures Rows(HeaderEvents(p) + evs) == Rows(evs)
  {
    NoRows(HeaderEvents(p));
    RowsAppend(HeaderEvents(p), evs);
  }

  /**
    The cadence, as the rows show it: each row's timestamp is its cycle's
    start, and the next cycle starts `delay` after it when the cycle took
    less than `delay`, right when it ended otherwise; a script without a
    delay starts each cycle as soon as the one before ended.
   */
  lemma RowsPaced(p: Protocol, toFloat: string -> real, cycles: nat, t: Trace, ending: Ending, i: nat)
    requires Conforms(p, toFloat, cycles, t, ending)
    requires 0 < i < |t.passes|
    ensures |Rows(Log(p, t, ending))| == |t.passes|
    ensures Rows(Log(p, t, ending))[i - 1] == t.passes[i - 1].row && Rows(Log(p, t, ending))[i] == t.passes[i].row
    ensures |t.passes[i - 1].row| > 0 && t.passes[i - 1].row[0] == Stamp(t.passes[i - 1].start)
    ensures |t.passes[i].row| > 0 && t.passes[i].row[0] == Stamp(t.passes[i].start)
    ensures p.delay.Some? && t.passes[i - 1].elapsed < p.delay.value ==> t.passes[i].start == t.passes[i - 1].start + p.delay.value
    ensures p.delay.Some? ==> t.passes[i].start >= t.passes[i - 1].start + p.delay.value
    ensures p.delay.None? || t.passes[i - 1].elapsed >= p.delay.value ==> t.passes[i].start == t.passes[i - 1].start + t.passes[i - 1].elapsed
  {
    RowsOfSession(p, toFloat, cycles, t, ending);
    PassesOf(p, toFloat, cycles, t, ending);
    PacedRows(p, toFloat, t.began, t.passes, i);
  }

  /**
    The completed passes of a session whose passes are clocked from log
    position `at` (right after `open`, the setup and the header) each
    completed their cycle, are paced from the clock when sampling began, and
    are clocked: with `ClockedRows`, the row of the i-th completed cycle (the
    session's i-th row, by `RowsOfSession`) is stamped with the clock when
    sampling began plus the time every bus operation and sleep of the cycles
    before it took.
   */
  lemma SessionPassesClocked(p: Protocol, toFloat: string -> real, cost: nat -> nat, cycles: nat, t: Trace, ending: Ending, from: nat, at: nat)
    requires Conforms(p, toFloat, cycles, t, ending) && SessionClocked(p, cost, from, t)
    requires at == from + 1 + |t.setup| + |HeaderEvents(p)| && |t.passes| > 0
    ensures ClockedPasses(p, toFloat, cost, t.began, at, t.passes)
  {
    PassesOf(p, toFloat, cycles, t, ending);
  }

  /** Passes that each completed their cycle, paced from `began` and clocked from log position `at`. */
  predicate ClockedPasses(p: Protocol, toFloat: string -> real, cost: nat -> nat, began: nat, at: nat, xs: seq<Pass>)
  {
    && (forall k :: 0 <= k < |xs| ==> Completes(p, toFloat, xs[k]))
    && Paced(p.delay, began, xs) && Clocked(p, cost, at, xs)
  }

  /** The i-th of clocked passes is stamped with `began` plus the time of everything logged before its cycle. */
  lemma ClockedRows(p: Protocol, toFloat: string -> real, cost: nat -> nat, began: nat, at: nat, xs: seq<Pass>, i: nat)
    requires ClockedPasses(p, toFloat, cost, began, at, xs) && i < |xs|
    ensures |xs[i].row| > 0 && xs[i].row[0] == Stamp(began + Spent(cost, Flatten(p, xs[..i]), at))
  {
    RowStamp(p, toFloat, xs[i]);
    StampIsClock(p, cost, began, at, xs, i);
  }

  /** A session that has completed passes opened and got through its setup; each pass completed its cycle, and they are paced. */
  lemma PassesOf(p: Protocol, toFloat: string -> real, cycles: nat, t: Trace, ending: Ending)
    requires Conforms(p, toFloat, cycles, t, ending) && |t.passes| > 0
    ensures t.opening.Done? && t.setupFault.None?
    ensures forall i :: 0 <= i < |t.passes| ==> Completes(p, toFloat, t.passes[i])
    ensures Paced(p.delay, t.began, t.passes)
  {
  }

  /** `RowsPaced` for the passes alone. */
  lemma PacedRows(p: Protocol, toFloat: string -> real, began: nat, xs: seq<Pass>, i: nat)
    requires forall k :: 0 <= k < |xs| ==> Completes(p, toFloat, xs[k])
    requires Paced(p.delay, began, xs) && 0 < i < |xs|
    ensures |PassRows(xs)| == |xs| && PassRows(xs)[i - 1] == xs[i - 1].row && PassRows(xs)[i] == xs[i].row
    ensures |xs[i - 1].row| > 0 && xs[i - 1].row[0] == Stamp(xs[i - 1].start)
    ensures |xs[i].row| > 0 && xs[i].row[0] == Stamp(xs[i].start)
    ensures xs[i].start == xs[i - 1].start + Spacing(p.delay, xs[i - 1].elapsed)
  {
    PassRowsAt(xs, i - 1);
    PassRowsAt(xs, i);
    PacedAt(p.delay, began, xs, i);
    RowStamp(p, toFloat, xs[i - 1]);
    RowStamp(p, toFloat, xs[i]);
  }

  /** A completed cycle's row starts with the time the cycle started. */
  lemma RowStamp(p: Protocol, toFloat: string -> real, x: Pass)
    requires Completes(p, toFloat, x)
    ensures |x.row| > 0 && x.row[0] == Stamp(x.start)
  {
  }

  /** The i-th row of the passes is the i-th pass's row. */
  lemma {:induction false} PassRowsAt(xs: seq<Pass>, i: nat)
    requires i < |xs|
    ensures |PassRows(xs)| == |xs| && PassRows(xs)[i] == xs[i].row
    decreases |xs|
  {
    PassRowsLength(xs);
    if i < |xs| - 1 {
      PassRowsAt(xs[..|xs| - 1], i);
    }
  }

  lemma {:induction false} PassRowsLength(xs: seq<Pass>)
    ensures |PassRows(xs)| == |xs|
    decreases |xs|
  {
    if xs != [] {
      PassRowsLength(xs[..|xs| - 1]);
    }
  }

  /**
    `close` ends every session whose `open` succeeded and that an exception
    left; a session whose `open` failed logs nothing after it.
   */
  lemma ClosedOnEveryExit(p: Protocol, toFloat: string -> real, cycles: nat, t: Trace, ending: Ending)
    requires Conforms(p, toFloat, cycles, t, ending)
    ensures t.opening.Raised? ==> Log(p, t, ending) == [Act(Open, t.opening)] && ending.Stopped?
    ensures t.opening.Done? && ending.Stopped? ==> Log(p, t, ending)[|Log(p, t, ending)| - 1] == Act(Close, Done(""))
    ensures ending == Horizon ==> t.opening.Done? && t.setupFault.None? && |t.passes| == cycles
  {
  }
}
