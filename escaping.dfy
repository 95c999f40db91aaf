/**
  Payload escaping of the Prologix line protocol (`_escape` in
  gpib/prologix/ethernet.py) and how the bridge reads a line back.

  The bridge reads one command per line. An unescaped LF or CR ends the line,
  a line starting with "++" is one of the bridge's own directives, and ESC
  makes the next character literal. `_escape` is a chain of four
  `str.replace` calls; it is modelled as written and then shown equal to a
  character-by-character reference definition.
 */
module Escaping {
  import opened Common
  import opened Text

  /** The bridge's escape character (ASCII 27). */
  const ESC: char := '\U{1B}'
  const LF: char := '\n'
  const CR: char := '\r'

  /** The characters `_escape` protects: ESC, '+', LF and CR. */
  predicate IsSpecial(c: char)
  {
    c == ESC || c == '+' || c == LF || c == CR
  }

  /** Python's `s.replace(target, replacement)` for a one-character `target`. */
  function Replace(s: string, target: char, replacement: string): string
  {
    if s == [] then [] else (if s[0] == target then replacement else [s[0]]) + Replace(s[1..], target, replacement)
  }

  /** `_escape` as written: double ESC first, then prefix '+', LF and CR with ESC. */
  function Escape(command: string): string
  {
    var c1 := Replace(command, ESC, [ESC, ESC]);
    var c2 := Replace(c1, '+', [ESC, '+']);
    var c3 := Replace(c2, LF, [ESC, LF]);
    Replace(c3, CR, [ESC, CR])
  }

  /** Reference definition: each special character becomes ESC followed by itself, every other character stays. */
  function EscapeChar(c: char): string
  {
    if IsSpecial(c) then [ESC, c] else [c]
  }

  /** How many characters of `s` are special. */
  function SpecialCount(s: string): nat
  {
    if s == [] then 0 else (if IsSpecial(s[0]) then 1 else 0) + SpecialCount(s[1..])
  }

  lemma {:induction false} ReplaceAppend(a: string, b: string, target: char, replacement: string)
    ensures Replace(a + b, target, replacement) == Replace(a, target, replacement) + Replace(b, target, replacement)
  {
    if a == [] {
      assert a + b == b;
    } else {
      assert (a + b)[1..] == a[1..] + b;
      ReplaceAppend(a[1..], b, target, replacement);
    }
  }

  /** Escaping works character by character: the escape of [x] + rest is EscapeChar(x) + the escape of rest. */
  lemma EscapeCons(x: char, rest: string)
    ensures Escape([x] + rest) == EscapeChar(x) + Escape(rest)
  {
    var one := [x];
    ReplaceAppend(one, rest, ESC, [ESC, ESC]);
    var a1, b1 := Replace(one, ESC, [ESC, ESC]), Replace(rest, ESC, [ESC, ESC]);
    ReplaceAppend(a1, b1, '+', [ESC, '+']);
    var a2, b2 := Replace(a1, '+', [ESC, '+']), Replace(b1, '+', [ESC, '+']);
    ReplaceAppend(a2, b2, LF, [ESC, LF]);
    var a3, b3 := Replace(a2, LF, [ESC, LF]), Replace(b2, LF, [ESC, LF]);
    ReplaceAppend(a3, b3, CR, [ESC, CR]);
    EscapeOne(x);
  }

  /** A single character escapes to its own escape. */
  lemma EscapeOne(x: char)
    ensures Escape([x]) == EscapeChar(x)
  {
    ReplaceOne(x, ESC, [ESC, ESC]);
    if x == ESC {
      ReplacePair(ESC, '+', [ESC, '+']);
      ReplacePair(ESC, LF, [ESC, LF]);
      ReplacePair(ESC, CR, [ESC, CR]);
    } else {
      ReplaceOne(x, '+', [ESC, '+']);
      if x == '+' {
        ReplacePair('+', LF, [ESC, LF]);
        ReplacePair('+', CR, [ESC, CR]);
      } else {
        ReplaceOne(x, LF, [ESC, LF]);
        if x == LF {
          ReplacePair(LF, CR, [ESC, CR]);
        } else {
          ReplaceOne(x, CR, [ESC, CR]);
        }
      }
    }
  }

  lemma ReplaceOne(c: char, target: char, replacement: string)
    ensures Replace([c], target, replacement) == if c == target then replacement else [c]
  {
    assert [c][1..] == [];
  }

  /** A pair of ESC and another character, neither of them `target`, is left alone. */
  lemma ReplacePair(c: char, target: char, replacement: string)
    requires c != target && ESC != target
    ensures Replace([ESC, c], target, replacement) == [ESC, c]
  {
    ReplaceAppend([ESC], [c], target, replacement);
    assert [ESC] + [c] == [ESC, c];
    ReplaceOne(ESC, target, replacement);
    ReplaceOne(c, target, replacement);
  }

  lemma EscapeEmpty()
    ensures Escape([]) == []
  {
  }

  /** Escaping lengthens a payload by exactly one ESC per special character. */
  lemma {:induction false} EscapeLength(s: string)
    ensures |Escape(s)| == |s| + SpecialCount(s)
  {
    if s == [] {
      EscapeEmpty();
    } else {
      assert s == [s[0]] + s[1..];
      EscapeCons(s[0], s[1..]);
      EscapeLength(s[1..]);
    }
  }

  lemma {:induction false} SpecialCountZero(s: string)
    ensures SpecialCount(s) == 0 <==> forall i :: 0 <= i < |s| ==> !IsSpecial(s[i])
  {
    if s != [] {
      SpecialCountZero(s[1..]);
      assert forall i :: 1 <= i < |s| ==> s[i] == s[1..][i - 1];
    }
  }

  /** Escaping leaves a payload unchanged exactly when it holds none of ESC, '+', LF and CR. */
  lemma EscapeIdentity(s: string)
    ensures Escape(s) == s <==> forall i :: 0 <= i < |s| ==> !IsSpecial(s[i])
  {
    EscapeLength(s);
    SpecialCountZero(s);
    if forall i :: 0 <= i < |s| ==> !IsSpecial(s[i]) {
      EscapePlain(s);
    }
  }

  lemma {:induction false} EscapePlain(s: string)
    requires forall i :: 0 <= i < |s| ==> !IsSpecial(s[i])
    ensures Escape(s) == s
  {
    if s == [] {
      EscapeEmpty();
    } else {
      assert s == [s[0]] + s[1..];
      EscapeCons(s[0], s[1..]);
      EscapePlain(s[1..]);
    }
  }

  /**
    Escaping twice, as `query` does, reproduces the command only when the
    command holds no special character; otherwise the wire text is longer.
   */
  lemma EscapeTwiceIdentity(s: string)
    ensures Escape(Escape(s)) == s <==> forall i :: 0 <= i < |s| ==> !IsSpecial(s[i])
  {
    EscapeLength(s);
    EscapeLength(Escape(s));
    SpecialCountZero(s);
    if forall i :: 0 <= i < |s| ==> !IsSpecial(s[i]) {
      EscapePlain(s);
    }
  }

  /** Escaping keeps a payload inside ASCII exactly when it was ASCII, ESC being ASCII. */
  lemma {:induction false} EscapeAscii(s: string)
    ensures IsAscii(Escape(s)) <==> IsAscii(s)
  {
    if s == [] {
      EscapeEmpty();
    } else {
      assert s == [s[0]] + s[1..];
      EscapeCons(s[0], s[1..]);
      EscapeAscii(s[1..]);
      AsciiAppend(EscapeChar(s[0]), Escape(s[1..]));
      AsciiAppend([s[0]], s[1..]);
    }
  }

  /**
    The bridge reading one line from the stream `w`: ESC makes the next
    character literal, an unescaped LF or CR ends the line. The result is the
    unescaped line and the stream after its terminator, or None when the stream
    ends (or ends on a lone ESC) before a terminator.
   */
  function ReadLine(w: string): Option<(string, string)>
    decreases |w|
  {
    if w == [] then None
    else if w[0] == ESC then
      if |w| < 2 then None
      else match ReadLine(w[2..])
        case None => None
        case Some(r) => Some(([w[1]] + r.0, r.1))
    else if w[0] == LF || w[0] == CR then Some(([], w[1..]))
    else match ReadLine(w[1..])
      case None => None
      case Some(r) => Some(([w[0]] + r.0, r.1))
  }

  /**
    Framing round trip: a written line `_escape(s) + "\n"` is read by the bridge
    as exactly `s`, ending at the appended LF, whatever follows in the stream.
    So no LF or CR inside `s` can end the line early and un-escaping gives `s` back.
   */
  lemma {:induction false} FramingRoundTrip(s: string, rest: string)
    ensures ReadLine(Escape(s) + [LF] + rest) == Some((s, rest))
  {
    if s == [] {
      EscapeEmpty();
      assert Escape(s) + [LF] + rest == [LF] + rest;
    } else {
      assert s == [s[0]] + s[1..];
      EscapeCons(s[0], s[1..]);
      FramingRoundTrip(s[1..], rest);
      var tail := Escape(s[1..]) + [LF] + rest;
      var w := Escape(s) + [LF] + rest;
      assert w == EscapeChar(s[0]) + tail;
      if IsSpecial(s[0]) {
        assert w[0] == ESC && w[1] == s[0] && w[2..] == tail;
      } else {
        assert w[0] == s[0] && w[1..] == tail;
      }
    }
  }

  /**
    An escaped payload never starts with '+', so a `write` can never be taken
    by the bridge for one of its own "++" directives.
   */
  lemma EscapedNeverDirective(s: string)
    ensures Escape(s) == [] || Escape(s)[0] != '+'
  {
    if s == [] {
      EscapeEmpty();
    } else {
      assert s == [s[0]] + s[1..];
      EscapeCons(s[0], s[1..]);
    }
  }
}
