/**
  eip575_memory_reader.py: dumping the EIP 575's memory over GPIB with its
  test command. Each byte is fetched by sending `TA10` and the address as
  four hex digits, waiting, reading a line whose last two characters are the
  byte in hex, and sending `TP`. The bytes of one EPROM are gathered into an
  image (an `IntelHex` in the script, a map from offset to byte here).
 */
module Eprom {
  import opened Common
  import opened Text
  import opened Numerals
  import opened Bench

  /** The EIP 575's GPIB address. */
  const EipAddress: int := 2
  /** `READ_DELAY`, 0.15 s, in milliseconds. */
  const ReadDelay: nat := 150
  /** The settling pause after the device clear, 0.5 s, in milliseconds. */
  const ResetDelay: nat := 500
  /** The region `DumpEproms` reads: 0x0800 bytes from address 0. */
  const DumpStart: int := 0x0000
  const DumpLength: nat := 0x0800

  /** The bus operations of one `ReadAddress`, up to the read of the reply. */
  function Probe(address: int): seq<Op>
  {
    [Write("TA10"), Write(Format04X(address)), Sleep(ReadDelay), ReadEol]
  }

  /** The byte a reply holds: its last two characters read with `int(_, 16)`. */
  function ByteOf(data: string): Option<int>
  {
    ParseHexInt(Tail(data, 2))
  }

  /**
    `evs` is what one `ReadAddress(address)` logged, ending in `fault` or
    returning `value`: the probe, stopped by the first operation that raises;
    or the whole probe, the last seven characters of the reply printed, and
    `TP`; after which the byte field of the reply is parsed, a field that is
    not a hex number raising `ValueError`.
   */
  predicate ReadLogged(address: int, evs: seq<Event>, value: int, fault: Option<Fault>)
  {
    if |evs| <= 4 then
      fault.Some? && Ran(Probe(address), evs, fault)
    else
      && |evs| == 6
      && Ran(Probe(address), evs[..4], None)
      && var data := evs[3].outcome.reply;
      && evs[4] == Say(Tail(data, 7))
      && evs[5].Act? && evs[5].op == Write("TP")
      && if evs[5].outcome.Raised? then fault == Some(evs[5].outcome.fault)
         else if ByteOf(data).None? then fault == Some(OtherError)
         else fault == None && value == ByteOf(data).value
  }

  /** A completed probe has one reply: that of its `readeol`. */
  lemma ProbeReply(address: int, acts: seq<Event>)
    requires Ran(Probe(address), acts, None)
    ensures Replies(acts) == [acts[3].outcome.reply]
  {
    assert acts[..3][..2][..1][..0] == [];
    assert Replies(acts[..3]) == [] by {
      assert Replies(acts[..3][..2]) == [] by {
        assert Replies(acts[..3][..2][..1]) == [];
      }
    }
  }

  /**
    `ReadAddress`: `TA10`, the address as `'%04X'`, the read delay, `readeol`,
    the tail of the reply printed, `TP`, then the reply's last two characters
    parsed in base 16.
   */
  method ReadAddress(lab: Lab, address: int) returns (value: int, fault: Option<Fault>, ghost evs: seq<Event>)
    requires lab.Honest()
    modifies lab`log, lab`clock
    ensures lab.Honest()
    ensures lab.log == old(lab.log) + evs
    ensures lab.clock == old(lab.clock) + Spent(lab.cost, evs, old(|lab.log|))
    ensures ReadLogged(address, evs, value, fault)
  {
    ghost var head, began := lab.log, lab.clock;
    var replies, f, acts := Perform(lab, Probe(address));
    value := 0;
    if f.Some? {
      fault, evs := f, acts;
      return;
    }
    ProbeReply(address, acts);
    var data := replies[0];
    var say := Say(Tail(data, 7));
    lab.Emit(say);
    TrackedEmit(head + acts, lab.clock, lab.cost, head, acts, began, say);
    ghost var log1, clock1 := lab.log, lab.clock;
    var o := lab.Do(Write("TP"));
    TrackedDo(log1, clock1, lab.cost, head, acts + [say], began, Write("TP"), o, lab.log, lab.clock);
    evs := acts + [say, Act(Write("TP"), o)];
    assert acts + [say] + [Act(Write("TP"), o)] == evs;
    assert evs[..4] == acts;
    if o.Raised? {
      fault := Some(o.fault);
    } else {
      match ByteOf(data)
      case None =>
        fault := Some(OtherError);
      case Some(v) =>
        value, fault := v, None;
    }
  }

  /** At most two characters read with `int(_, 16)` give a value in -15..255 ("-F" to "FF"). */
  lemma ShortHexBounds(s: string)
    requires |s| <= 2
    ensures ParseHexInt(s).Some? ==> -15 <= ParseHexInt(s).value <= 255
  {
    var t := Strip(s, PythonSpace);
    assert |t| <= 2;
    if |t| > 0 && (t[0] == '-' || t[0] == '+') {
      ShortBodyBelow(t[1..], 1);
    } else {
      ShortBodyBelow(t, 2);
    }
  }

  /** The unsigned part of at most k <= 2 characters reads as a value below 16^k. */
  lemma ShortBodyBelow(u: string, k: nat)
    requires |u| <= k <= 2
    ensures HexBody(u).Some? ==> 0 <= HexBody(u).value < if k == 1 then 16 else 256
  {
    if |u| > 0 && AllHex(u) {
      HexValueBelow(u);
      assert Pow16(1) == 16;
      assert Pow16(2) == 256;
      PowGrows(|u|, k);
    }
  }

  /**
    What `ReadAddress` can return: a byte in 0..255 when the reply ends in
    two hex digits, and in any case no more than 255 and no less than -15,
    since `int` also accepts a sign or a blank in that two-character field.
   */
  lemma ByteBounds(data: string)
    ensures ByteOf(data).Some? ==> -15 <= ByteOf(data).value <= 255
    ensures |data| >= 2 && AllHex(data[|data| - 2..]) ==> ByteOf(data).Some? && 0 <= ByteOf(data).value <= 255
  {
    TailShape(data, 2);
    ShortHexBounds(Tail(data, 2));
    if |data| >= 2 && AllHex(data[|data| - 2..]) {
      ByteFieldInRange(Tail(data, 2));
    }
  }

  /** The image holds, at each offset i below |chunks|, the byte that the read logged in chunks[i] returned, and nothing else. */
  ghost predicate Filled(start: int, chunks: seq<seq<Event>>, image: map<int, int>)
  {
    && (forall i :: i in image <==> 0 <= i < |chunks|)
    && Fetched(start, chunks, image)
  }

  /** Each of the first |chunks| offsets holds what the read logged in chunks[i] returned. */
  ghost predicate Fetched(start: int, chunks: seq<seq<Event>>, image: map<int, int>)
  {
    forall i :: 0 <= i < |chunks| && i in image ==> ReadAt(start, chunks, image, i)
  }

  /** The read behind offset i logged chunks[i] and returned image[i]. */
  ghost predicate ReadAt(start: int, chunks: seq<seq<Event>>, image: map<int, int>, i: int)
  {
    0 <= i < |chunks| && i in image && ReadLogged(start + i, chunks[i], image[i], None)
  }

  /** A byte `ReadAddress` returned lies in -15..255, and in 0..255 when its reply ended in two hex digits. */
  lemma ReadValueBounds(address: int, evs: seq<Event>, value: int)
    requires ReadLogged(address, evs, value, None)
    ensures -15 <= value <= 255
    ensures |evs| == 6 && evs[3].Act? && evs[3].outcome.Done?
    ensures var data := evs[3].outcome.reply;
            |data| >= 2 && AllHex(data[|data| - 2..]) ==> 0 <= value <= 255
  {
    ReadShape(address, evs, value);
    ByteBounds(evs[3].outcome.reply);
  }

  /** A read that returned logged six events, the fourth the `readeol` whose reply holds the byte returned. */
  lemma ReadShape(address: int, evs: seq<Event>, value: int)
    requires ReadLogged(address, evs, value, None)
    ensures |evs| == 6 && evs[3].Act? && evs[3].outcome.Done?
    ensures evs[0].op == Write("TA10") && evs[1].op == Write(Format04X(address)) && evs[3].op == ReadEol
    ensures ByteOf(evs[3].outcome.reply) == Some(value)
  {
    assert evs[..4][0] == evs[0] && evs[..4][1] == evs[1] && evs[..4][3] == evs[3];
  }

  /**
    `ReadEprom(start, length)` logged `chunks`, one per address read, and
    collected `image`: addresses start, start + 1, ... are read in turn, the
    byte of start + i stored at offset i. Without a fault all `length`
    offsets are filled, each with what its read returned; a fault stops the
    loop at the read that raised it.
   */
  ghost predicate Scanned(start: int, length: nat, chunks: seq<seq<Event>>, image: map<int, int>, fault: Option<Fault>)
  {
    && |chunks| <= length
    && match fault
       case None => |chunks| == length && Filled(start, chunks, image)
       case Some(_) =>
         var done := |chunks| - 1;
         && |chunks| > 0
         && Filled(start, chunks[..done], image)
         && ReadLogged(start + done, chunks[done], 0, fault)
  }

  /** A read that returned adds its byte at the next offset. */
  lemma FilledStep(start: int, chunks: seq<seq<Event>>, image: map<int, int>, evs: seq<Event>, v: int)
    requires Filled(start, chunks, image)
    requires ReadLogged(start + |chunks|, evs, v, None)
    ensures Filled(start, chunks + [evs], image[|chunks| := v])
  {
    FetchedStep(start, chunks, image, evs, v);
    OffsetsStep(image, |chunks|, v, image[|chunks| := v]);
  }

  /** Storing at the next offset keeps the offsets contiguous from 0. */
  lemma OffsetsStep(image: map<int, int>, n: nat, v: int, after: map<int, int>)
    requires forall i :: i in image <==> 0 <= i < n
    requires after == image[n := v]
    ensures forall i :: i in after <==> 0 <= i < n + 1
  {
  }

  lemma FetchedStep(start: int, chunks: seq<seq<Event>>, image: map<int, int>, evs: seq<Event>, v: int)
    requires Fetched(start, chunks, image)
    requires ReadLogged(start + |chunks|, evs, v, None)
    ensures Fetched(start, chunks + [evs], image[|chunks| := v])
  {
    var cs, im := chunks + [evs], image[|chunks| := v];
    forall i | 0 <= i < |cs| && i in im
      ensures ReadAt(start, cs, im, i)
    {
      if i < |chunks| {
        assert cs[i] == chunks[i] && im[i] == image[i];
        assert i in image;
      }
    }
  }

  /** `ReadEprom`: read `length` consecutive addresses into an image indexed by offset. */
  method ReadEprom(lab: Lab, start: int, length: nat) returns (image: map<int, int>, fault: Option<Fault>, ghost chunks: seq<seq<Event>>)
    requires lab.Honest()
    modifies lab`log, lab`clock
    ensures lab.Honest()
    ensures lab.log == old(lab.log) + Concat(chunks)
    ensures lab.clock == old(lab.clock) + Spent(lab.cost, Concat(chunks), old(|lab.log|))
    ensures Scanned(start, length, chunks, image, fault)
  {
    image, fault, chunks := map[], None, [];
    ghost var head, began := lab.log, lab.clock;
    TrackedStart(head, began, lab.cost);
    for i := 0 to length
      invariant lab.Honest()
      invariant |chunks| == i
      invariant Tracked(lab.log, lab.clock, lab.cost, head, Concat(chunks), began)
      invariant Filled(start, chunks, image)
    {
      ghost var log0, clock0 := lab.log, lab.clock;
      var v, f, evs := ReadAddress(lab, start + i);
      TrackedStep(log0, clock0, lab.cost, head, Concat(chunks), began, evs, lab.log, lab.clock);
      ConcatStep(chunks, evs);
      if f.Some? {
        assert (chunks + [evs])[..i] == chunks;
        chunks := chunks + [evs];
        fault := f;
        return;
      }
      FilledStep(start, chunks, image, evs, v);
      chunks := chunks + [evs];
      image := image[i := v];
    }
  }

  /**
    Without a fault, `ReadEprom` fills exactly offsets 0..length-1, and the
    read behind offset i sent the address start + i.
   */
  lemma ImageComplete(start: int, length: nat, chunks: seq<seq<Event>>, image: map<int, int>)
    requires Scanned(start, length, chunks, image, None)
    ensures forall i :: i in image <==> 0 <= i < length
    ensures forall i :: 0 <= i < length ==> |chunks[i]| == 6 && chunks[i][1].Act? && chunks[i][1].op == Write(Format04X(start + i))
  {
    forall i | 0 <= i < length
      ensures |chunks[i]| == 6 && chunks[i][1].Act? && chunks[i][1].op == Write(Format04X(start + i))
    {
      assert ReadAt(start, chunks, image, i);
      assert chunks[i][..4][1] == chunks[i][1];
    }
  }

  /** The reset `DumpEproms` performs before reading: select the EIP, interface clear, device clear, wait. */
  function Reset(): seq<Op>
  {
    [Select(EipAddress), InterfaceClear, DeviceClear, Sleep(ResetDelay)]
  }

  const Announce: string := "Resetting EIP 575"

  /** The body of `DumpEproms`' `try`, after the announcement: the reset, then the read of the region. */
  method ResetAndRead(lab: Lab) returns (image: map<int, int>, fault: Option<Fault>, ghost reset: seq<Event>, ghost resetFault: Option<Fault>, ghost chunks: seq<seq<Event>>)
    requires lab.Honest()
    modifies lab`log, lab`clock
    ensures lab.Honest()
    ensures lab.log == old(lab.log) + reset + Concat(chunks)
    ensures lab.clock == old(lab.clock) + ResetReadTime(lab.cost, old(|lab.log|), reset, Concat(chunks))
    ensures Ran(Reset(), reset, resetFault)
    ensures resetFault.Some? ==> chunks == [] && fault == resetFault
    ensures resetFault.None? ==> Scanned(DumpStart, DumpLength, chunks, image, fault)
  {
    image, chunks := map[], [];
    var _, rf, evs := Perform(lab, Reset());
    reset, resetFault := evs, rf;
    if rf.Some? {
      fault := rf;
      assert reset + Concat(chunks) == reset;
    } else {
      image, fault, chunks := ReadEprom(lab, DumpStart, DumpLength);
    }
  }

  /**
    The time a dump that began at log position `at` takes when `open`
    succeeds: `open`, the announcement (no time), the reset, the read and
    `close`, each at its position in the log.
   */
  ghost function DumpTime(cost: nat -> nat, at: nat, reset: seq<Event>, read: seq<Event>): nat
  {
    Duration(cost, Open, at) + ResetReadTime(cost, at + 2, reset, read) + Duration(cost, Close, at + 2 + |reset| + |read|)
  }

  /** `DumpTime` is the time of every event such a dump logs, each at its position. */
  lemma DumpTimeIsSpent(cost: nat -> nat, at: nat, opening: Outcome, reset: seq<Event>, read: seq<Event>, closing: Outcome)
    ensures Spent(cost, [Act(Open, opening), Say(Announce)] + reset + read + [Act(Close, closing)], at) == DumpTime(cost, at, reset, read)
  {
    var front := [Act(Open, opening), Say(Announce)];
    SpentStep(cost, front + reset + read, Close, closing, at, at + 2 + |reset| + |read|);
    SpentThen(cost, front + reset, read, at, at + 2 + |reset|);
    SpentThen(cost, front, reset, at, at + 2);
    SpentStep(cost, [], Open, opening, at, at);
    assert front == [] + [Act(Open, opening)] + [Say(Announce)];
    assert front[..1] == [] + [Act(Open, opening)];
  }

  /** The time the reset and then the read take, logged from position `at` on. */
  ghost function ResetReadTime(cost: nat -> nat, at: nat, reset: seq<Event>, read: seq<Event>): nat
  {
    Spent(cost, reset, at) + Spent(cost, read, at + |reset|)
  }

  /**
    What `DumpEproms` does once `open` returned `opening`, with `before` the
    log and `began` the clock as they were before `open`: the announcement,
    the reset and the read, then `close`.
   */
  method DumpOpened(lab: Lab, ghost before: seq<Event>, ghost began: int, ghost opening: Outcome) returns (image: map<int, int>, fault: Option<Fault>, ghost reset: seq<Event>, ghost resetFault: Option<Fault>, ghost chunks: seq<seq<Event>>)
    requires lab.Honest()
    requires lab.log == before + [Act(Open, opening)] && lab.clock == began + Duration(lab.cost, Open, |before|)
    modifies lab`log, lab`clock
    ensures lab.Honest()
    ensures lab.log == before + [Act(Open, opening), Say(Announce)] + reset + Concat(chunks) + [Act(Close, Done(""))]
    ensures lab.clock == began + DumpTime(lab.cost, |before|, reset, Concat(chunks))
    ensures Ran(Reset(), reset, resetFault)
    ensures resetFault.Some? ==> chunks == [] && fault == resetFault
    ensures resetFault.None? ==> Scanned(DumpStart, DumpLength, chunks, image, fault)
  {
    AppendTwo(before, Act(Open, opening), Say(Announce));
    lab.Emit(Say(Announce));
    ghost var head := lab.log;
    assert |head| == |before| + 2;
    image, fault, reset, resetFault, chunks := ResetAndRead(lab);
    Associate(head, reset, Concat(chunks));
    var _ := lab.Do(Close);
  }

  /**
    `DumpEproms`: `open` before the `try`; inside it the announcement, the
    reset and the read of the region; `close` in the `finally`. Nothing
    after a failed `open` runs, and `close` follows every other exit. The
    clock advances by the time of each operation logged, at its position.
   */
  method DumpEproms(lab: Lab) returns (image: map<int, int>, fault: Option<Fault>, ghost opening: Outcome, ghost reset: seq<Event>, ghost resetFault: Option<Fault>, ghost chunks: seq<seq<Event>>)
    requires lab.Honest()
    modifies lab`log, lab`clock
    ensures lab.Honest()
    ensures opening.Raised? ==> lab.log == old(lab.log) + [Act(Open, opening)] && fault == Some(opening.fault)
    ensures opening.Raised? ==> lab.clock == old(lab.clock) + Duration(lab.cost, Open, old(|lab.log|))
    ensures opening.Done? ==> lab.log == old(lab.log) + [Act(Open, opening), Say(Announce)] + reset + Concat(chunks) + [Act(Close, Done(""))]
    ensures opening.Done? ==> lab.clock == old(lab.clock) + DumpTime(lab.cost, old(|lab.log|), reset, Concat(chunks))
    ensures opening.Done? ==> Ran(Reset(), reset, resetFault)
    ensures opening.Done? && resetFault.Some? ==> chunks == [] && fault == resetFault
    ensures opening.Done? && resetFault.None? ==> Scanned(DumpStart, DumpLength, chunks, image, fault)
  {
    image, chunks, resetFault := map[], [], None;
    var o := lab.Do(Open);
    opening, reset := o, [];
    if o.Raised? {
      fault := Some(o.fault);
      return;
    }
    image, fault, reset, resetFault, chunks := DumpOpened(lab, old(lab.log), old(lab.clock), o);
  }
}
