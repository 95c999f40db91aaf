/**
  The measurement scripts' view of the bench: every call a script makes on the
  GPIB driver, every `time.sleep`, and every line it writes, in one ordered log.

  Bus operations are abstract: their outcome (a reply, `GPIBTimeout`, or any
  other exception) comes from `world`, indexed by the operation's position in
  the log, and the time each one takes comes from `cost`. Time is whole
  milliseconds. `close` and `sleep` never fail.
 */
module Bench {
  import opened Common

  /** `GPIBTimeout`, or any other exception. */
  datatype Fault = Timeout | OtherError

  /** What one operation did: returned (with its reply, empty for non-reads) or raised. */
  datatype Outcome = Done(reply: string) | Raised(fault: Fault)

  /** A call on the driver (`GPIBBase`'s operations), or a `time.sleep` of `ms` milliseconds. */
  datatype Op =
    | Open
    | Close
    | Select(addr: int)
    | InterfaceClear
    | DeviceClear
    | Write(cmd: string)
    | Read
    | ReadEol
    | Query(cmd: string)
    | Sleep(ms: nat)

  /** The operations that return a reply: `read`, `readeol` and `query`. */
  predicate Reads(op: Op)
  {
    op.Read? || op.ReadEol? || op.Query?
  }

  /** A value in an output row: a timestamp, a text, or a number read with `float()`. */
  datatype Cell = Stamp(ms: nat) | Text(s: string) | Number(x: real)

  /** One entry of the log: an operation and its outcome, a CSV header or row on stdout, or a printed line. */
  datatype Event =
    | Act(op: Op, outcome: Outcome)
    | Header(names: seq<string>)
    | Row(cells: seq<Cell>)
    | Say(line: string)

  /** The time `op` takes when it is performed at log position `at`: a sleep its own length, a driver call what `cost` says. */
  function Duration(cost: nat -> nat, op: Op, at: nat): nat
  {
    if op.Sleep? then op.ms else cost(at)
  }

  /**
    The time the bus operations among `evs` take when `evs` is logged from
    position `at` on; headers, rows and printed lines take none.
   */
  function Spent(cost: nat -> nat, evs: seq<Event>, at: nat): nat
    decreases |evs|
  {
    if evs == [] then 0
    else Spent(cost, evs[..|evs| - 1], at) + (if evs[|evs| - 1].Act? then Duration(cost, evs[|evs| - 1].op, at + |evs| - 1) else 0)
  }

  /** The time of two stretches of the log, one after the other, adds up. */
  lemma {:induction false} SpentAppend(cost: nat -> nat, a: seq<Event>, b: seq<Event>, at: nat)
    ensures Spent(cost, a + b, at) == Spent(cost, a, at) + Spent(cost, b, at + |a|)
    decreases |b|
  {
    if b == [] {
      assert a + b == a;
    } else {
      SpentAppend(cost, a, b[..|b| - 1], at);
      assert (a + b)[..|a + b| - 1] == a + b[..|b| - 1];
    }
  }

  /** `SpentAppend` with the second stretch's starting position named. */
  lemma SpentThen(cost: nat -> nat, a: seq<Event>, b: seq<Event>, at: nat, mid: nat)
    requires mid == at + |a|
    ensures Spent(cost, a + b, at) == Spent(cost, a, at) + Spent(cost, b, mid)
  {
    SpentAppend(cost, a, b, at);
  }

  /** One more operation, performed at the next log position, adds its duration. */
  lemma SpentStep(cost: nat -> nat, evs: seq<Event>, op: Op, o: Outcome, at: nat, next: nat)
    requires next == at + |evs|
    ensures Spent(cost, evs + [Act(op, o)], at) == Spent(cost, evs, at) + Duration(cost, op, next)
  {
    assert (evs + [Act(op, o)])[..|evs|] == evs;
  }

  class Lab {
    /** The outcome of the bus operation recorded at each log position. */
    const world: nat -> Outcome
    /** The milliseconds the bus operation at each log position takes. */
    const cost: nat -> nat
    /** What `float()` makes of a reply. */
    const toFloat: string -> real

    var log: seq<Event>
    var clock: nat
    /** Lines written to stderr. */
    var stderr: seq<string>

    constructor (world: nat -> Outcome, cost: nat -> nat, toFloat: string -> real)
      ensures this.world == world && this.cost == cost && this.toFloat == toFloat
      ensures log == [] && clock == 0 && stderr == []
      ensures Honest()
    {
      this.world := world;
      this.cost := cost;
      this.toFloat := toFloat;
      log := [];
      clock := 0;
      stderr := [];
    }

    /** The outcome of `op` performed at log position `at`. */
    function OutcomeOf(op: Op, at: nat): Outcome
    {
      if op.Sleep? || op.Close? then Done("") else world(at)
    }

    /**
      Every operation in the log has the outcome the environment gave it at
      its position. Every method that changes the log keeps this.
     */
    ghost predicate Honest()
      reads this`log
    {
      forall i :: 0 <= i < |log| && log[i].Act? ==> log[i].outcome == OutcomeOf(log[i].op, i)
    }

    /** Perform one operation: it is logged with its outcome and advances the clock. */
    method Do(op: Op) returns (o: Outcome)
      requires Honest()
      modifies this`log, this`clock
      ensures Honest()
      ensures o == OutcomeOf(op, old(|log|))
      ensures log == old(log) + [Act(op, o)]
      ensures clock == old(clock) + Duration(cost, op, old(|log|))
    {
      o := OutcomeOf(op, |log|);
      clock := clock + Duration(cost, op, |log|);
      log := log + [Act(op, o)];
    }

    /** Write a header, a row or a line to stdout. */
    method Emit(e: Event)
      requires !e.Act? && Honest()
      modifies this`log
      ensures Honest()
      ensures log == old(log) + [e]
    {
      log := log + [e];
    }

    /** Write one line to stderr. */
    method Complain(line: string)
      modifies this`stderr
      ensures stderr == old(stderr) + [line]
    {
      stderr := stderr + [line];
    }
  }

  /**
    `evs` is what running the straight-line `plan` logged, with `fault` the
    exception that ended it early: the operations are the plan's, in order;
    all but the last returned; with no fault the whole plan ran and the last
    returned too, with a fault the last raised it and nothing after it ran.
   */
  predicate Ran(plan: seq<Op>, evs: seq<Event>, fault: Option<Fault>)
  {
    && |evs| <= |plan|
    && (forall i :: 0 <= i < |evs| ==> evs[i].Act? && evs[i].op == plan[i])
    && (forall i :: 0 <= i < |evs| - 1 ==> evs[i].outcome.Done?)
    && match fault
       case None => |evs| == |plan| && (|evs| > 0 ==> evs[|evs| - 1].outcome.Done?)
       case Some(f) => |evs| > 0 && evs[|evs| - 1].outcome == Raised(f)
  }

  /** The reply an event contributes, if it is a read that returned. */
  function ReplyOf(e: Event): seq<string>
  {
    if e.Act? && Reads(e.op) && e.outcome.Done? then [e.outcome.reply] else []
  }

  /** The replies of the reads in `evs`, in order. */
  function Replies(evs: seq<Event>): seq<string>
  {
    if evs == [] then [] else Replies(evs[..|evs| - 1]) + ReplyOf(evs[|evs| - 1])
  }

  /** How many operations of `plan` return a reply. */
  function ReadCount(plan: seq<Op>): nat
  {
    if plan == [] then 0 else ReadCount(plan[..|plan| - 1]) + (if Reads(plan[|plan| - 1]) then 1 else 0)
  }

  /** `n` copies of `x`. */
  function Repeat<T>(x: T, n: nat): seq<T>
  {
    seq(n, _ => x)
  }

  lemma {:induction false} RepliesAppend(a: seq<Event>, b: seq<Event>)
    ensures Replies(a + b) == Replies(a) + Replies(b)
    decreases |b|
  {
    if b == [] {
      assert a + b == a;
    } else {
      RepliesAppend(a, b[..|b| - 1]);
      assert (a + b)[..|a + b| - 1] == a + b[..|b| - 1];
    }
  }

  lemma {:induction false} ReadCountAppend(a: seq<Op>, b: seq<Op>)
    ensures ReadCount(a + b) == ReadCount(a) + ReadCount(b)
    decreases |b|
  {
    if b == [] {
      assert a + b == a;
    } else {
      ReadCountAppend(a, b[..|b| - 1]);
      assert (a + b)[..|a + b| - 1] == a + b[..|b| - 1];
    }
  }

  lemma RepeatShape<T>(x: T, n: nat)
    ensures |Repeat(x, n)| == n && forall i :: 0 <= i < n ==> Repeat(x, n)[i] == x
  {
  }

  lemma {:induction false} RepeatReads(op: Op, n: nat)
    ensures ReadCount(Repeat(op, n)) == if Reads(op) then n else 0
  {
    if n > 0 {
      RepeatReads(op, n - 1);
      RepeatShape(op, n - 1);
      assert Repeat(op, n)[..n - 1] == Repeat(op, n - 1);
    }
  }

  /** `n` runs of `ops`, back to back. */
  function Again(ops: seq<Op>, n: nat): seq<Op>
  {
    if n == 0 then [] else Again(ops, n - 1) + ops
  }

  lemma RepeatAppend<T>(x: T, a: nat, b: nat)
    ensures Repeat(x, a) + Repeat(x, b) == Repeat(x, a + b)
  {
  }

  /** A sequence whose every element is `x` is `x` repeated. */
  lemma RepeatAll<T>(xs: seq<T>, x: T)
    requires forall k :: 0 <= k < |xs| ==> xs[k] == x
    ensures xs == Repeat(x, |xs|)
  {
  }

  /** Two sequences whose every element is `x`, joined. */
  lemma Uniform<T>(a: seq<T>, b: seq<T>, x: T)
    requires forall k :: 0 <= k < |a| ==> a[k] == x
    requires forall k :: 0 <= k < |b| ==> b[k] == x
    ensures forall k :: 0 <= k < |a + b| ==> (a + b)[k] == x
  {
    forall k | 0 <= k < |a + b|
      ensures (a + b)[k] == x
    {
      if k >= |a| {
        assert (a + b)[k] == b[k - |a|];
      }
    }
  }

  lemma {:induction false} NoReads(ops: seq<Op>)
    requires forall i :: 0 <= i < |ops| ==> !Reads(ops[i])
    ensures ReadCount(ops) == 0
    decreases |ops|
  {
    if ops != [] {
      NoReads(ops[..|ops| - 1]);
    }
  }

  /** Two elements appended one at a time. */
  lemma AppendTwo<T>(a: seq<T>, x: T, y: T)
    ensures a + [x] + [y] == a + [x, y]
  {
  }

  /** The first i + 1 elements end with the i-th, after the first i. */
  lemma PrefixOfPrefix<T>(xs: seq<T>, i: nat)
    requires i < |xs|
    ensures xs[..i + 1][..i] == xs[..i] && xs[..i + 1][i] == xs[i]
  {
  }

  /** Logs and plans grow by concatenation; proved apart so that callers need no sequence extensionality. */
  lemma Associate<T>(a: seq<T>, b: seq<T>, c: seq<T>)
    ensures a + b + c == a + (b + c)
  {
  }

  /** Running a plan to completion, then running another: the replies of both, in order. */
  lemma Extend(p1: seq<Op>, e1: seq<Event>, p2: seq<Op>, e2: seq<Event>, fault: Option<Fault>)
    requires Ran(p1, e1, None) && Ran(p2, e2, fault)
    ensures Ran(p1 + p2, e1 + e2, fault)
    ensures Replies(e1 + e2) == Replies(e1) + Replies(e2)
  {
    RanThen(p1, e1, p2, e2, fault);
    RepliesAppend(e1, e2);
  }

  /** A completed plan yields one reply per reading operation. */
  lemma {:induction false} CompleteReplies(plan: seq<Op>, evs: seq<Event>)
    requires Ran(plan, evs, None)
    ensures |Replies(evs)| == ReadCount(plan)
    decreases |plan|
  {
    if plan != [] {
      var n := |plan| - 1;
      assert Ran(plan[..n], evs[..n], None);
      CompleteReplies(plan[..n], evs[..n]);
    }
  }

  /** Running one plan to completion and then another is running their concatenation. */
  lemma RanThen(p1: seq<Op>, e1: seq<Event>, p2: seq<Op>, e2: seq<Event>, fault: Option<Fault>)
    requires Ran(p1, e1, None) && Ran(p2, e2, fault)
    ensures Ran(p1 + p2, e1 + e2, fault)
  {
    var p, e := p1 + p2, e1 + e2;
    forall i | 0 <= i < |e| ensures e[i].Act? && e[i].op == p[i] {
      if i >= |e1| { assert e[i] == e2[i - |e1|] && p[i] == p2[i - |p1|]; }
    }
    forall i | 0 <= i < |e| - 1 ensures e[i].outcome.Done? {
      if i >= |e1| { assert e[i] == e2[i - |e1|]; }
      else if i == |e1| - 1 { assert e[i] == e1[|e1| - 1]; }
    }
    if |e2| == 0 && |e1| > 0 {
      assert e[|e| - 1] == e1[|e1| - 1];
    } else if |e2| > 0 {
      assert e[|e| - 1] == e2[|e2| - 1];
    }
  }

  /** A plan that raised part-way is also an early stop of any longer plan it begins. */
  lemma RanStops(p1: seq<Op>, e1: seq<Event>, f: Fault, p2: seq<Op>)
    requires Ran(p1, e1, Some(f))
    ensures Ran(p1 + p2, e1, Some(f))
  {
  }

  /** The events of a plan's run are bus operations only: no header, row or printed line. */
  lemma RanOnlyActs(plan: seq<Op>, evs: seq<Event>, fault: Option<Fault>)
    requires Ran(plan, evs, fault)
    ensures forall i :: 0 <= i < |evs| ==> evs[i].Act?
  {
  }

  /** What an honest log says of the operations logged after `before`: each has the environment's outcome at its position. */
  lemma HonestTail(lab: Lab, before: seq<Event>, evs: seq<Event>)
    requires lab.Honest() && lab.log == before + evs
    ensures forall k :: 0 <= k < |evs| && evs[k].Act? ==> evs[k].outcome == lab.OutcomeOf(evs[k].op, |before| + k)
  {
    forall k | 0 <= k < |evs| && evs[k].Act?
      ensures evs[k].outcome == lab.OutcomeOf(evs[k].op, |before| + k)
    {
      assert lab.log[|before| + k] == evs[k];
    }
  }

  /** A log that is `head` then `evs`, and a clock at `began` plus their durations. */
  ghost predicate Tracked(log: seq<Event>, clock: int, cost: nat -> nat, head: seq<Event>, evs: seq<Event>, began: int)
  {
    log == head + evs && clock == began + Spent(cost, evs, |head|)
  }

  /** Nothing logged yet. */
  lemma TrackedStart(log: seq<Event>, clock: int, cost: nat -> nat)
    ensures Tracked(log, clock, cost, log, [], clock)
  {
    assert log + [] == log;
  }

  /** A stretch logged after `done`, with the clock advanced by its time, extends what is tracked. */
  lemma TrackedStep(log: seq<Event>, clock: int, cost: nat -> nat, head: seq<Event>, done: seq<Event>, began: int, evs: seq<Event>, log': seq<Event>, clock': int)
    requires Tracked(log, clock, cost, head, done, began)
    requires log' == log + evs && clock' == clock + Spent(cost, evs, |log|)
    ensures Tracked(log', clock', cost, head, done + evs, began)
  {
    SpentThen(cost, done, evs, |head|, |log|);
    Associate(head, done, evs);
  }

  /** One bus operation performed after `done`. */
  lemma TrackedDo(log: seq<Event>, clock: int, cost: nat -> nat, head: seq<Event>, done: seq<Event>, began: int, op: Op, o: Outcome, log': seq<Event>, clock': int)
    requires Tracked(log, clock, cost, head, done, began)
    requires log' == log + [Act(op, o)] && clock' == clock + Duration(cost, op, |log|)
    ensures Tracked(log', clock', cost, head, done + [Act(op, o)], began)
  {
    SpentStep(cost, done, op, o, |head|, |log|);
    Associate(head, done, [Act(op, o)]);
  }

  /** A header, row or printed line logged after `done` takes no time. */
  lemma TrackedEmit(log: seq<Event>, clock: int, cost: nat -> nat, head: seq<Event>, done: seq<Event>, began: int, e: Event)
    requires Tracked(log, clock, cost, head, done, began) && !e.Act?
    ensures Tracked(log + [e], clock, cost, head, done + [e], began)
  {
    assert (done + [e])[..|done|] == done;
    Associate(head, done, [e]);
  }

  /** The first `i` operations of `plan` ran, all returned, logged `evs` and replied `replies`. */
  ghost predicate Partway(plan: seq<Op>, i: nat, evs: seq<Event>, replies: seq<string>)
  {
    i <= |plan| && Ran(plan[..i], evs, None) && replies == Replies(evs)
  }

  /** Operation i of `plan`, after the first i ran, extends the run by one event and adds its reply. */
  lemma RanStep(plan: seq<Op>, i: nat, evs: seq<Event>, o: Outcome)
    requires i < |plan| && Ran(plan[..i], evs, None)
    ensures Ran(plan[..i + 1], evs + [Act(plan[i], o)], if o.Raised? then Some(o.fault) else None)
    ensures o.Raised? ==> Ran(plan, evs + [Act(plan[i], o)], Some(o.fault))
    ensures Replies(evs + [Act(plan[i], o)]) == Replies(evs) + ReplyOf(Act(plan[i], o))
  {
    var e := Act(plan[i], o);
    assert (evs + [e])[..|evs|] == evs;
    assert plan[..i + 1] == plan[..i] + [plan[i]];
    if o.Raised? {
      RanStops(plan[..i + 1], evs + [e], o.fault, plan[i + 1..]);
      assert plan[..i + 1] + plan[i + 1..] == plan;
    }
  }

  /** An honest log gives each operation of a plan's run the environment's outcome at its position. */
  lemma HonestRun(lab: Lab, before: seq<Event>, plan: seq<Op>, evs: seq<Event>, fault: Option<Fault>)
    requires lab.Honest() && lab.log == before + evs && Ran(plan, evs, fault)
    ensures forall k :: 0 <= k < |evs| ==> evs[k].Act? && evs[k].outcome == lab.OutcomeOf(plan[k], |before| + k)
  {
    HonestTail(lab, before, evs);
  }

  /** One driver call of `Perform`: operation i of `plan`, after the first i ran. */
  method PerformOne(lab: Lab, plan: seq<Op>, i: nat, replies: seq<string>, ghost evs: seq<Event>, ghost head: seq<Event>, ghost began: int)
    returns (o: Outcome, more: seq<string>, ghost after: seq<Event>)
    requires i < |plan| && Partway(plan, i, evs, replies)
    requires lab.Honest() && Tracked(lab.log, lab.clock, lab.cost, head, evs, began)
    modifies lab`log, lab`clock
    ensures lab.Honest() && Tracked(lab.log, lab.clock, lab.cost, head, after, began)
    ensures o.Raised? ==> Ran(plan, after, Some(o.fault)) && more == Replies(after)
    ensures o.Done? ==> Partway(plan, i + 1, after, more)
  {
    ghost var next := |lab.log|;
    o := lab.Do(plan[i]);
    after := evs + [Act(plan[i], o)];
    SpentStep(lab.cost, evs, plan[i], o, |head|, next);
    RanStep(plan, i, evs, o);
    more := replies;
    if Reads(plan[i]) && o.Done? {
      more := replies + [o.reply];
    }
  }

  /**
    Run a straight-line sequence of driver calls, stopping at the first one
    that raises, as Python does. Returns the replies of the reads; the
    clock advances by exactly the time of the operations performed.
   */
  method Perform(lab: Lab, plan: seq<Op>) returns (replies: seq<string>, fault: Option<Fault>, ghost evs: seq<Event>)
    requires lab.Honest()
    modifies lab`log, lab`clock
    ensures lab.Honest()
    ensures lab.log == old(lab.log) + evs
    ensures Ran(plan, evs, fault)
    ensures replies == Replies(evs)
    ensures lab.clock == old(lab.clock) + Spent(lab.cost, evs, old(|lab.log|))
    ensures forall k :: 0 <= k < |evs| ==> evs[k].Act? && evs[k].outcome == lab.OutcomeOf(plan[k], old(|lab.log|) + k)
  {
    var i := 0;
    replies, fault, evs := [], None, [];
    ghost var head, began := lab.log, lab.clock;
    while i < |plan|
      invariant lab.Honest() && Tracked(lab.log, lab.clock, lab.cost, head, evs, began)
      invariant Partway(plan, i, evs, replies)
    {
      var o;
      o, replies, evs := PerformOne(lab, plan, i, replies, evs, head, began);
      if o.Raised? {
        fault := Some(o.fault);
        HonestRun(lab, head, plan, evs, fault);
        return;
      }
      i := i + 1;
    }
    assert plan[..i] == plan;
    HonestRun(lab, head, plan, evs, None);
  }

  /** The chunks of a log, one after another. */
  function Concat<T>(chunks: seq<seq<T>>): seq<T>
  {
    if chunks == [] then [] else Concat(chunks[..|chunks| - 1]) + chunks[|chunks| - 1]
  }

  /** One more chunk extends the log by exactly that chunk. */
  lemma ConcatStep<T>(chunks: seq<seq<T>>, c: seq<T>)
    ensures Concat(chunks + [c]) == Concat(chunks) + c
  {
    assert (chunks + [c])[..|chunks|] == chunks;
  }
}
