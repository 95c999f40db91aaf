/**
  dump_K3322_cal.py: reading the calibration constants of a Keithley
  3322/3333 LCR meter. After an interface clear, the selection of the meter
  and an `?ID` query, the script steps through the even addresses
  0x1000..0x100E, queries each one as seven lower-case hex digits, queries
  two more fields at the addresses divisible by 8, and prints one line per
  address.
 */
module K3322 {
  import opened Common
  import opened Text
  import opened Numerals
  import opened Bench

  /** `INSTRUMENT_A_ADDR`. */
  const Meter: int := 2
  /** The stepped loop `range(0x1000, 0x1010, 2)`. */
  const First: int := 0x1000
  const Stop: int := 0x1010
  const Step: nat := 2
  /** The width `PadHex` pads each address to. */
  const Width: nat := 7

  /** Python's `range(lo, hi, step)` for a positive step. */
  function Range(lo: int, hi: int, step: nat): seq<int>
    requires step > 0
    decreases hi - lo
  {
    if lo >= hi then [] else [lo] + Range(lo + step, hi, step)
  }

  /** `range(lo, hi, step)` is lo, lo + step, ... ascending, its last value below `hi` and the next one not. */
  lemma {:induction false} RangeShape(lo: int, hi: int, step: nat)
    requires step > 0
    ensures var r := Range(lo, hi, step);
            && (forall k :: 0 <= k < |r| ==> r[k] == lo + step * k)
            && (lo < hi ==> |r| > 0 && r[|r| - 1] < hi <= r[|r| - 1] + step)
            && (lo >= hi ==> r == [])
    decreases hi - lo
  {
    if lo < hi {
      RangeShape(lo + step, hi, step);
      var r, t := Range(lo, hi, step), Range(lo + step, hi, step);
      assert r == [lo] + t;
      forall k | 0 <= k < |r|
        ensures r[k] == lo + step * k
      {
        if k > 0 {
          assert r[k] == t[k - 1] == lo + step + step * (k - 1);
        }
      }
    }
  }

  /** The addresses the loop visits. */
  function Addresses(): seq<int>
  {
    Range(First, Stop, Step)
  }

  /**
    The loop visits the eight even addresses 0x1000, 0x1002, ..., 0x100E in
    ascending order, and exactly two of them, 0x1000 and 0x1008, are
    divisible by 8.
   */
  lemma AddressesVisited()
    ensures |Addresses()| == 8
    ensures forall k :: 0 <= k < 8 ==> Addresses()[k] == 0x1000 + 2 * k
    ensures forall k :: 0 <= k < 8 ==> (Addresses()[k] % 8 == 0 <==> k == 0 || k == 4)
  {
    RangeShape(First, Stop, Step);
    var r := Addresses();
    assert |r| == 8 by {
      assert r[|r| - 1] == 0x1000 + 2 * (|r| - 1);
    }
  }

  /** An address of the loop printed by `PadHex(addr, 7)`: "000" then its four lower-case hex digits, which read back as the address. */
  lemma PaddedAddress(addr: int)
    requires 0x1000 <= addr <= 0xFFFF
    ensures |PadHex(addr, Width)| == Width
    ensures PadHex(addr, Width) == "000" + Hex(addr, false)
    ensures NoUpper(PadHex(addr, Width))
    ensures ParseHexInt(PadHex(addr, Width)) == Some(addr)
  {
    PadHexShape(addr, Width);
    FourDigits(addr);
    PadThree(Hex(addr, false));
  }

  /** Four digits padded to the width get three zeros in front. */
  lemma PadThree(h: string)
    requires |h| == 4
    ensures ZeroPad(h, Width) == "000" + h
  {
    assert Zeros(3) == "000";
  }

  /** The loop's addresses have four hex digits. */
  lemma FourDigits(addr: int)
    requires 0x1000 <= addr <= 0xFFFF
    ensures |Hex(addr, false)| == 4
  {
    assert Pow16(4) == 0x10000 && Pow16(3) == 0x1000;
    HexLength(addr, false, 4);
    HexLengthAbove(addr, false, 3);
  }

  /** The queries for one address: field 1, and fields 2 and 3 when the address is divisible by 8. */
  function Commands(addr: int): seq<Op>
  {
    var paddr := PadHex(addr, Width);
    [Query("`~1," + paddr)] + if addr % 8 == 0 then [Query("`~2," + paddr), Query("`~3," + paddr)] else []
  }

  /** Replies joined with single spaces, as `v + ' ' + ... + ' ' + ...` builds them. */
  function JoinSpaces(rs: seq<string>): string
  {
    if |rs| <= 1 then (if rs == [] then "" else rs[0])
    else JoinSpaces(rs[..|rs| - 1]) + " " + rs[|rs| - 1]
  }

  /** The printed line for an address: "<paddr>: <value>". */
  function Line(addr: int, replies: seq<string>): string
  {
    PadHex(addr, Width) + ": " + JoinSpaces(replies)
  }

  /**
    `evs` is what the loop body logged for `addr`: its queries, stopped by
    the first that raises, and after a complete run the line printed from
    the replies.
   */
  predicate AddressLogged(addr: int, evs: seq<Event>, fault: Option<Fault>)
  {
    if fault.Some? then Ran(Commands(addr), evs, fault)
    else
      && |evs| > 0
      && Ran(Commands(addr), evs[..|evs| - 1], None)
      && evs[|evs| - 1] == Say(Line(addr, Replies(evs[..|evs| - 1])))
  }

  /** One or three replies: the printed value is the first, or the three separated by single spaces. */
  lemma LineShape(addr: int, acts: seq<Event>)
    requires Ran(Commands(addr), acts, None)
    ensures var rs := Replies(acts);
            && |rs| == (if addr % 8 == 0 then 3 else 1)
            && Line(addr, rs) == PadHex(addr, Width) + ": " + if addr % 8 == 0 then rs[0] + " " + rs[1] + " " + rs[2] else rs[0]
  {
    CompleteReplies(Commands(addr), acts);
    var rs := Replies(acts);
    if addr % 8 == 0 {
      assert ReadCount(Commands(addr)) == 3 by {
        ReadCountAppend([Commands(addr)[0]], Commands(addr)[1..]);
        ReadCountAppend([Commands(addr)[1]], Commands(addr)[2..]);
      }
      assert rs[..2][..1] == [rs[0]] && rs[..2][1] == rs[1];
      assert JoinSpaces(rs[..2]) == rs[0] + " " + rs[1];
      assert JoinSpaces(rs) == JoinSpaces(rs[..2]) + " " + rs[2];
    } else {
      assert ReadCount(Commands(addr)) == 1;
    }
  }

  /** One pass of the loop: the queries for `addr`, then the printed line. */
  method DumpAddress(lab: Lab, addr: int) returns (fault: Option<Fault>, ghost evs: seq<Event>)
    requires lab.Honest()
    modifies lab`log, lab`clock
    ensures lab.Honest()
    ensures lab.log == old(lab.log) + evs
    ensures lab.clock == old(lab.clock) + Spent(lab.cost, evs, old(|lab.log|))
    ensures AddressLogged(addr, evs, fault)
  {
    var replies;
    ghost var acts;
    replies, fault, acts := Perform(lab, Commands(addr));
    evs := acts;
    if fault == None {
      var line := PadHex(addr, Width) + ": " + JoinSpaces(replies);
      lab.Emit(Say(line));
      evs := acts + [Say(line)];
      assert evs[..|evs| - 1] == acts;
    }
  }

  /** Each of the first |chunks| addresses of `addrs` had its pass logged in full in the matching chunk. */
  predicate Completed(addrs: seq<int>, chunks: seq<seq<Event>>)
    requires |chunks| <= |addrs|
  {
    forall k :: 0 <= k < |chunks| ==> AddressLogged(addrs[k], chunks[k], None)
  }

  /** A completed pass extends the completed prefix. */
  lemma CompletedStep(addrs: seq<int>, chunks: seq<seq<Event>>, evs: seq<Event>)
    requires |chunks| < |addrs| && Completed(addrs, chunks)
    requires AddressLogged(addrs[|chunks|], evs, None)
    ensures Completed(addrs, chunks + [evs])
  {
    var cs := chunks + [evs];
    assert forall k :: 0 <= k < |chunks| ==> cs[k] == chunks[k];
    assert cs[|chunks|] == evs;
  }

  /**
    The loop logged `chunks`, one per address visited, in the order of
    `addrs`: every pass before the last completed, and a fault is that of
    the pass it stopped.
   */
  predicate Dumped(addrs: seq<int>, chunks: seq<seq<Event>>, fault: Option<Fault>)
  {
    && |chunks| <= |addrs|
    && match fault
       case None => |chunks| == |addrs| && Completed(addrs, chunks)
       case Some(_) =>
         && |chunks| > 0
         && Completed(addrs, chunks[..|chunks| - 1])
         && AddressLogged(addrs[|chunks| - 1], chunks[|chunks| - 1], fault)
  }

  /** The stepped loop over 0x1000..0x100E. */
  method DumpRange(lab: Lab) returns (fault: Option<Fault>, ghost chunks: seq<seq<Event>>)
    requires lab.Honest()
    modifies lab`log, lab`clock
    ensures lab.Honest()
    ensures lab.log == old(lab.log) + Concat(chunks)
    ensures lab.clock == old(lab.clock) + Spent(lab.cost, Concat(chunks), old(|lab.log|))
    ensures Dumped(Addresses(), chunks, fault)
  {
    AddressesVisited();
    ghost var addrs := Addresses();
    fault, chunks := None, [];
    ghost var head, began := lab.log, lab.clock;
    TrackedStart(head, began, lab.cost);
    var addr := First;
    while addr < Stop
      invariant lab.Honest()
      invariant First <= addr <= Stop
      invariant addr == First + Step * |chunks| && |chunks| <= |addrs|
      invariant Tracked(lab.log, lab.clock, lab.cost, head, Concat(chunks), began)
      invariant Completed(addrs, chunks)
      decreases Stop - addr
    {
      assert addrs[|chunks|] == addr;
      ghost var log0, clock0 := lab.log, lab.clock;
      var f, evs := DumpAddress(lab, addr);
      TrackedStep(log0, clock0, lab.cost, head, Concat(chunks), began, evs, lab.log, lab.clock);
      ConcatStep(chunks, evs);
      if f.Some? {
        assert (chunks + [evs])[..|chunks|] == chunks;
        chunks := chunks + [evs];
        fault := f;
        return;
      }
      CompletedStep(addrs, chunks, evs);
      chunks := chunks + [evs];
      addr := addr + Step;
    }
  }

  /** What the script does before the loop: clear the bus, select the meter, ask its identity. */
  function Prelude(): seq<Op>
  {
    [InterfaceClear, Select(Meter), Query("?ID")]
  }

  /** A completed prelude has one reply, the identity. */
  lemma PreludeReply(acts: seq<Event>)
    requires Ran(Prelude(), acts, None)
    ensures |Replies(acts)| == 1
  {
    CompleteReplies(Prelude(), acts);
    var p := Prelude();
    assert p[..2][..1][..0] == [];
    assert ReadCount(p[..2]) == 0 by {
      assert ReadCount(p[..2][..1]) == 0;
    }
  }

  /**
    The time the body of the `try` takes when it starts at log position
    `at`: the prelude, then the loop's passes, logged after the printed
    identity.
   */
  ghost function CalibrationTime(cost: nat -> nat, at: nat, prelude: seq<Event>, dump: seq<Event>): nat
  {
    Spent(cost, prelude, at) + Spent(cost, dump, at + |prelude| + 1)
  }

  /** `CalibrationTime` is the time of every event the body logs, each at its position. */
  lemma CalibrationTimeIsSpent(cost: nat -> nat, at: nat, prelude: seq<Event>, id: string, dump: seq<Event>)
    ensures Spent(cost, prelude + [Say(id)] + dump, at) == CalibrationTime(cost, at, prelude, dump)
  {
    SpentThen(cost, prelude + [Say(id)], dump, at, at + |prelude| + 1);
    assert (prelude + [Say(id)])[..|prelude|] == prelude;
  }

  /** The body of the `try`: the prelude, the printed identity, then the loop. */
  method Calibration(lab: Lab) returns (fault: Option<Fault>, ghost prelude: seq<Event>, ghost preludeFault: Option<Fault>, ghost chunks: seq<seq<Event>>)
    requires lab.Honest()
    modifies lab`log, lab`clock
    ensures lab.Honest()
    ensures Ran(Prelude(), prelude, preludeFault)
    ensures preludeFault.Some? ==> lab.log == old(lab.log) + prelude && chunks == [] && fault == preludeFault
    ensures preludeFault.None? ==> lab.log == old(lab.log) + prelude + [Say("ID: " + Replies(prelude)[0])] + Concat(chunks)
    ensures preludeFault.None? ==> Dumped(Addresses(), chunks, fault)
    ensures lab.clock == old(lab.clock) + CalibrationTime(lab.cost, old(|lab.log|), prelude, Concat(chunks))
  {
    chunks := [];
    var replies, f, acts := Perform(lab, Prelude());
    prelude, preludeFault := acts, f;
    if f.Some? {
      fault := f;
      assert CalibrationTime(lab.cost, old(|lab.log|), prelude, Concat(chunks)) == Spent(lab.cost, prelude, old(|lab.log|));
      return;
    }
    PreludeReply(acts);
    lab.Emit(Say("ID: " + replies[0]));
    ghost var head := lab.log;
    assert |head| == old(|lab.log|) + |prelude| + 1;
    fault, chunks := DumpRange(lab);
    Associate(head, [], Concat(chunks));
    assert CalibrationTime(lab.cost, old(|lab.log|), prelude, Concat(chunks)) == Spent(lab.cost, prelude, old(|lab.log|)) + Spent(lab.cost, Concat(chunks), |head|);
  }

  /**
    The time `DumpCalConstants` takes when `open`, logged at position `at`,
    returned: `open`, the body and `close`, logged at position `closeAt`.
   */
  ghost function CalConstantsTime(cost: nat -> nat, at: nat, prelude: seq<Event>, dump: seq<Event>, closeAt: nat): nat
  {
    Duration(cost, Open, at) + CalibrationTime(cost, at + 1, prelude, dump) + Duration(cost, Close, closeAt)
  }

  /**
    What `DumpCalConstants` does once `open` returned `opening`, with `before`
    the log and `began` the clock as they were before `open`: the body, then
    `close`.
   */
  method CalibrateOpened(lab: Lab, ghost before: seq<Event>, ghost began: int, ghost opening: Outcome)
    returns (fault: Option<Fault>, ghost prelude: seq<Event>, ghost preludeFault: Option<Fault>, ghost chunks: seq<seq<Event>>)
    requires lab.Honest()
    requires lab.log == before + [Act(Open, opening)] && lab.clock == began + Duration(lab.cost, Open, |before|)
    modifies lab`log, lab`clock
    ensures lab.Honest()
    ensures Ran(Prelude(), prelude, preludeFault)
    ensures preludeFault.Some? ==> lab.log == before + [Act(Open, opening)] + prelude + [Act(Close, Done(""))] && fault == preludeFault
    ensures preludeFault.None? ==>
              && lab.log == before + [Act(Open, opening)] + prelude + [Say("ID: " + Replies(prelude)[0])] + Concat(chunks) + [Act(Close, Done(""))]
              && Dumped(Addresses(), chunks, fault)
    ensures lab.clock == began + CalConstantsTime(lab.cost, |before|, prelude, Concat(chunks), |lab.log| - 1)
  {
    assert |lab.log| == |before| + 1;
    fault, prelude, preludeFault, chunks := Calibration(lab);
    ghost var closeAt := |lab.log|;
    var _ := lab.Do(Close);
    assert closeAt == |lab.log| - 1;
  }

  /**
    `DumpCalConstants`: `open` before the `try`, the body, and `close` in the
    `finally`, which follows every exit once `open` returned. The clock
    advances by the time of each operation logged, at its position.
   */
  method DumpCalConstants(lab: Lab) returns (fault: Option<Fault>, ghost opening: Outcome, ghost prelude: seq<Event>, ghost preludeFault: Option<Fault>, ghost chunks: seq<seq<Event>>)
    requires lab.Honest()
    modifies lab`log, lab`clock
    ensures lab.Honest()
    ensures opening.Raised? ==> lab.log == old(lab.log) + [Act(Open, opening)] && fault == Some(opening.fault)
    ensures opening.Raised? ==> lab.clock == old(lab.clock) + Duration(lab.cost, Open, old(|lab.log|))
    ensures opening.Done? ==> Ran(Prelude(), prelude, preludeFault)
    ensures opening.Done? && preludeFault.Some? ==> lab.log == old(lab.log) + [Act(Open, opening)] + prelude + [Act(Close, Done(""))] && fault == preludeFault
    ensures opening.Done? && preludeFault.None? ==>
              && lab.log == old(lab.log) + [Act(Open, opening)] + prelude + [Say("ID: " + Replies(prelude)[0])] + Concat(chunks) + [Act(Close, Done(""))]
              && Dumped(Addresses(), chunks, fault)
    ensures opening.Done? ==> lab.clock == old(lab.clock) + CalConstantsTime(lab.cost, old(|lab.log|), prelude, Concat(chunks), |lab.log| - 1)
  {
    prelude, preludeFault, chunks := [], None, [];
    var o := lab.Do(Open);
    opening := o;
    if o.Raised? {
      fault := Some(o.fault);
      return;
    }
    fault, prelude, preludeFault, chunks := CalibrateOpened(lab, old(lab.log), old(lab.clock), o);
  }
}
