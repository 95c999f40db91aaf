/**
  The Prologix Ethernet GPIB driver (`PrologixEthernetGPIB` in
  gpib/prologix/ethernet.py).

  The TCP socket is replaced by two pieces of state: `sent`, the lines written
  to the socket in order (each with its terminating LF), and `inbox`, the
  replies the bridge will hand to successive `recv` calls. An empty inbox
  stands for a `recv` that times out. Every failure the driver can raise is a
  socket or codec exception; none of them is `GPIBTimeout`.
 */
module Prologix {
  import opened Common
  import opened Text
  import opened Numerals
  import opened Escaping

  /** The TCP port the Ethernet bridge always listens on. */
  const Port: nat := 1234

  /** The directive `read` sends: read until the device asserts EOI. */
  const ReadEoi: string := "++read eoi"

  datatype SocketState = Unconnected | Connected | Closed

  /**
    The exceptions the driver lets escape: an OS-level socket error (refused
    connection, use of a socket that is not connected), `socket.timeout` from
    `recv`, and the ASCII codec errors of `encode` / `decode`.
   */
  datatype Failure = SocketError | SocketTimeout | EncodeError | DecodeError

  datatype Result<T> = Ok(value: T) | Err(failure: Failure)

  /** The bytes `_send(value)` writes: the value and one LF. */
  function Line(value: string): string
  {
    value + "\n"
  }

  /** A directive made of a fixed prefix and `'%i' % n`; the bridge can read `n` back after the prefix. */
  function NumberDirective(prefix: string, n: int): (d: string)
    ensures |d| > |prefix| && d[..|prefix|] == prefix
    ensures ParseInt(d[|prefix|..]) == Some(n)
    ensures IsAscii(prefix) ==> IsAscii(d)
  {
    IntDecimalRoundTrip(n);
    IntDecimalAscii(n);
    AsciiAppend(prefix, IntDecimal(n));
    var d := prefix + IntDecimal(n);
    assert d[|prefix|..] == IntDecimal(n);
    d
  }

  /** `'++addr %i' % addr`. */
  function AddrDirective(addr: int): (d: string)
    ensures IsAscii(d)
  {
    NumberDirective("++addr ", addr)
  }

  /** `'++read_tmo_ms %i' % int(timeout * 1e3)` for a timeout of whole seconds. */
  function TimeoutDirective(timeout: nat): (d: string)
    ensures IsAscii(d)
  {
    NumberDirective("++read_tmo_ms ", timeout * 1000)
  }

  /** The five directives `_setup` sends, in order. */
  function SetupDirectives(timeout: nat): (ds: seq<string>)
    ensures |ds| == 5 && forall i :: 0 <= i < 5 ==> IsAscii(ds[i])
  {
    ["++savecfg 0", "++mode 1", "++auto 0", TimeoutDirective(timeout), "++eos 3"]
  }

  /** What a `recv` followed by `.strip(' \t\n\r')` yields for the next reply in the inbox. */
  function Reply(inbox: seq<string>): Result<string>
  {
    if inbox == [] then Err(SocketTimeout)
    else if IsAscii(inbox[0]) then Ok(Strip(inbox[0], ReplyBlanks))
    else Err(DecodeError)
  }

  /** The inbox after one `recv`: the first reply is consumed when there is one. */
  function Consumed(inbox: seq<string>): seq<string>
  {
    if inbox == [] then [] else inbox[1..]
  }

  /** A successful read never starts or ends with a blank, and stripping it again changes nothing. */
  lemma ReplyIsStripped(inbox: seq<string>)
    requires Reply(inbox).Ok?
    ensures var v := Reply(inbox).value;
            && (v != [] ==> v[0] !in ReplyBlanks && v[|v| - 1] !in ReplyBlanks)
            && Strip(v, ReplyBlanks) == v
  {
    StripIsMaximalTrim(inbox[0], ReplyBlanks);
    StripIdempotent(inbox[0], ReplyBlanks);
  }

  /**
    `PrologixEthernetGPIB`: the connection state, the lines written so far and
    the replies still to come. The selected device's address is not kept.
   */
  class Driver {
    const host: string
    /** The command timeout in seconds (whole seconds only). */
    const timeout: nat
    var state: SocketState
    /** Every line written to the socket, in order, LF included. */
    var sent: seq<string>
    /** Replies the bridge will deliver, one per `recv`; empty means the next `recv` times out. */
    var inbox: seq<string>

    constructor (hostname: string, timeout: nat, replies: seq<string>)
      ensures host == hostname && this.timeout == timeout
      ensures state == Unconnected && sent == [] && inbox == replies
    {
      host := hostname;
      this.timeout := timeout;
      state := Unconnected;
      sent := [];
      inbox := replies;
    }

    /** `_send`: encode `value` + LF as ASCII and write it. */
    method Send(value: string) returns (r: Result<()>)
      modifies this`sent
      ensures r == if !IsAscii(value) then Err(EncodeError)
                   else if state != Connected then Err(SocketError)
                   else Ok(())
      ensures sent == if r.Ok? then old(sent) + [Line(value)] else old(sent)
    {
      AsciiAppend(value, "\n");
      if !IsAscii(Line(value)) {
        return Err(EncodeError);
      }
      if state != Connected {
        return Err(SocketError);
      }
      sent := sent + [Line(value)];
      r := Ok(());
    }

    /** `_recv`: take the next reply and decode it as ASCII. */
    method Recv() returns (r: Result<string>)
      modifies this`inbox
      ensures state != Connected ==> r == Err(SocketError) && inbox == old(inbox)
      ensures state == Connected ==> inbox == Consumed(old(inbox))
      ensures state == Connected && old(inbox) == [] ==> r == Err(SocketTimeout)
      ensures state == Connected && old(inbox) != [] ==>
                r == if IsAscii(old(inbox)[0]) then Ok(old(inbox)[0]) else Err(DecodeError)
    {
      if state != Connected {
        return Err(SocketError);
      }
      if inbox == [] {
        return Err(SocketTimeout);
      }
      var value := inbox[0];
      inbox := inbox[1..];
      r := if IsAscii(value) then Ok(value) else Err(DecodeError);
    }

    /** `_setup`: the five configuration directives, in order, stopping at the first failure. */
    method Setup() returns (r: Result<()>)
      modifies this`sent
      ensures state == Connected ==> r == Ok(()) && sent == old(sent) + SetupLines(timeout)
      ensures state != Connected ==> r == Err(SocketError) && sent == old(sent)
    {
      var d := SetupDirectives(timeout);
      var i := 0;
      r := Ok(());
      while i < |d|
        invariant 0 <= i <= |d|
        invariant state == Connected ==> r == Ok(()) && sent == old(sent) + SetupLines(timeout)[..i]
        invariant state != Connected ==> sent == old(sent) && (i == 0 || r == Err(SocketError))
      {
        r := Send(d[i]);
        if r.Err? {
          i := |d|;
        } else {
          assert SetupLines(timeout)[..i + 1] == SetupLines(timeout)[..i] + [Line(d[i])];
          i := i + 1;
        }
      }
      assert SetupLines(timeout)[..|d|] == SetupLines(timeout);
    }

    /** `open`: connect, then configure the bridge. */
    method Open(reachable: bool) returns (r: Result<()>)
      modifies this`state, this`sent
      ensures old(state) == Unconnected && reachable ==>
                r == Ok(()) && state == Connected && sent == old(sent) + SetupLines(timeout)
      ensures !(old(state) == Unconnected && reachable) ==>
                r == Err(SocketError) && state == old(state) && sent == old(sent)
    {
      if state != Unconnected || !reachable {
        return Err(SocketError);
      }
      state := Connected;
      r := Setup();
    }

    /** `close`: closing is always allowed, also twice. */
    method Close()
      modifies this`state
      ensures state == Closed
    {
      state := Closed;
    }

    /** `select`: one "++addr" directive; the driver keeps no record of the selection. */
    method Select(addr: int) returns (r: Result<()>)
      modifies this`sent
      ensures r == if state == Connected then Ok(()) else Err(SocketError)
      ensures sent == if r.Ok? then old(sent) + [Line(AddrDirective(addr))] else old(sent)
    {
      r := Send(AddrDirective(addr));
    }

    /** `write`: one line holding the escaped command. */
    method Write(cmd: string) returns (r: Result<()>)
      modifies this`sent
      ensures r == if !IsAscii(cmd) then Err(EncodeError)
                   else if state != Connected then Err(SocketError)
                   else Ok(())
      ensures sent == if r.Ok? then old(sent) + [Line(Escape(cmd))] else old(sent)
    {
      EscapeAscii(cmd);
      r := Send(Escape(cmd));
    }

    /** `read`: send "++read eoi", then receive one reply and strip blanks from both ends. */
    method Read() returns (r: Result<string>)
      modifies this`sent, this`inbox
      ensures state != Connected ==> r == Err(SocketError) && sent == old(sent) && inbox == old(inbox)
      ensures state == Connected ==>
                && sent == old(sent) + [Line(ReadEoi)]
                && inbox == Consumed(old(inbox))
                && r == Reply(old(inbox))
    {
      var s := Send(ReadEoi);
      if s.Err? {
        return Err(s.failure);
      }
      var v := Recv();
      r := if v.Ok? then Ok(Strip(v.value, ReplyBlanks)) else Err(v.failure);
    }

    /**
      `query` as written: it hands `_escape(cmd)` to `write`, which escapes
      again, so the line on the wire is the command escaped twice.
     */
    method Query(cmd: string) returns (r: Result<string>)
      modifies this`sent, this`inbox
      ensures !IsAscii(cmd) ==> r == Err(EncodeError) && sent == old(sent) && inbox == old(inbox)
      ensures IsAscii(cmd) && state != Connected ==>
                r == Err(SocketError) && sent == old(sent) && inbox == old(inbox)
      ensures IsAscii(cmd) && state == Connected ==>
                && sent == old(sent) + [Line(Escape(Escape(cmd))), Line(ReadEoi)]
                && inbox == Consumed(old(inbox))
                && r == Reply(old(inbox))
    {
      EscapeAscii(cmd);
      var w := Write(Escape(cmd));
      if w.Err? {
        return Err(w.failure);
      }
      r := Read();
    }

    /** `query` as evidently intended: write the command once, then read. */
    method QueryEscapedOnce(cmd: string) returns (r: Result<string>)
      modifies this`sent, this`inbox
      ensures !IsAscii(cmd) ==> r == Err(EncodeError) && sent == old(sent) && inbox == old(inbox)
      ensures IsAscii(cmd) && state != Connected ==>
                r == Err(SocketError) && sent == old(sent) && inbox == old(inbox)
      ensures IsAscii(cmd) && state == Connected ==>
                && sent == old(sent) + [Line(Escape(cmd)), Line(ReadEoi)]
                && inbox == Consumed(old(inbox))
                && r == Reply(old(inbox))
    {
      var w := Write(cmd);
      if w.Err? {
        return Err(w.failure);
      }
      r := Read();
    }
  }

  /** The lines `_setup` writes, LF included. */
  function SetupLines(timeout: nat): seq<string>
  {
    seq(5, i requires 0 <= i < 5 => Line(SetupDirectives(timeout)[i]))
  }

  /**
    What the bridge forwards to the instrument for a `query`: reading the line
    `query` wrote gives back `_escape(cmd)`, not `cmd`; the two agree only for
    commands without ESC, '+', LF or CR.
   */
  lemma QueryForwardsEscapedCommand(cmd: string, rest: string)
    ensures ReadLine(Line(Escape(Escape(cmd))) + rest) == Some((Escape(cmd), rest))
    ensures Escape(cmd) == cmd <==> forall i :: 0 <= i < |cmd| ==> !IsSpecial(cmd[i])
  {
    assert Line(Escape(Escape(cmd))) + rest == Escape(Escape(cmd)) + [LF] + rest;
    FramingRoundTrip(Escape(cmd), rest);
    EscapeIdentity(cmd);
  }

  /** A concrete instance: `query("1E+3")` makes the instrument receive "1E", ESC, "+3". */
  lemma QueryPlusExample()
    ensures ReadLine(Line(Escape(Escape("1E+3")))) == Some(("1E" + [ESC] + "+3", ""))
  {
    assert "1E+3" == ['1'] + "E+3" && "E+3" == ['E'] + "+3" && "+3" == ['+'] + "3" && "3" == ['3'] + "";
    EscapeCons('1', "E+3");
    EscapeCons('E', "+3");
    EscapeCons('+', "3");
    EscapeCons('3', "");
    EscapeEmpty();
    assert Escape("1E+3") == ['1'] + ['E'] + [ESC, '+'] + ['3'];
    assert Escape("1E+3") == "1E" + [ESC] + "+3";
    QueryForwardsEscapedCommand("1E+3", "");
    assert Line(Escape(Escape("1E+3"))) + "" == Line(Escape(Escape("1E+3")));
  }

  /** The corrected query's line carries the command itself: the bridge reads back exactly `cmd`. */
  lemma QueryOnceForwardsCommand(cmd: string, rest: string)
    ensures ReadLine(Line(Escape(cmd)) + rest) == Some((cmd, rest))
  {
    assert Line(Escape(cmd)) + rest == Escape(cmd) + [LF] + rest;
    FramingRoundTrip(cmd, rest);
  }
}
