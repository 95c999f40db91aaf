/**
  Number formatting and parsing as Python does it in the scripts and the driver:
  `'%i' % n`, `'%04X' % n`, `hex(n)[2:].zfill(w)`, `'{:02d}'.format(n)` and
  `int(s, 16)`, each with the parser or printer that undoes it.
 */
module Numerals {
  import opened Common
  import opened Text

  predicate IsDigit(c: char) { '0' <= c <= '9' }

  predicate AllDigits(s: string) { forall i :: 0 <= i < |s| ==> IsDigit(s[i]) }

  function DigitChar(d: nat): char
    requires d < 10
  {
    ('0' as int + d) as char
  }

  function DigitValue(c: char): nat
    requires IsDigit(c)
  {
    c as int - '0' as int
  }

  /** The decimal numeral of `n`, most significant digit first, no leading zeros. */
  function Decimal(n: nat): string
  {
    if n < 10 then [DigitChar(n)] else Decimal(n / 10) + [DigitChar(n % 10)]
  }

  /** The value of a string of decimal digits. */
  function DecimalValue(s: string): nat
    requires AllDigits(s)
  {
    if s == [] then 0 else DecimalValue(s[..|s| - 1]) * 10 + DigitValue(s[|s| - 1])
  }

  /** `Decimal` prints digits only, without a leading zero, and reading them back gives `n`. */
  lemma {:induction false} DecimalRoundTrip(n: nat)
    ensures |Decimal(n)| > 0 && AllDigits(Decimal(n))
    ensures Decimal(n)[0] == '0' ==> n == 0
    ensures DecimalValue(Decimal(n)) == n
  {
    if n >= 10 {
      DecimalRoundTrip(n / 10);
      var s := Decimal(n);
      assert s[..|s| - 1] == Decimal(n / 10);
      assert s[0] == Decimal(n / 10)[0];
    }
  }

  /** Python's `'%i' % i`: an optional minus sign, then the decimal numeral. */
  function IntDecimal(i: int): string
  {
    if i < 0 then "-" + Decimal(-i) else Decimal(i)
  }

  /** Reads an optionally signed decimal numeral; None for anything else. */
  function ParseInt(s: string): Option<int>
  {
    if |s| > 0 && s[0] == '-' then
      (if |s| > 1 && AllDigits(s[1..]) then Some(-(DecimalValue(s[1..]) as int)) else None)
    else if |s| > 0 && AllDigits(s) then Some(DecimalValue(s) as int)
    else None
  }

  lemma IntDecimalRoundTrip(i: int)
    ensures ParseInt(IntDecimal(i)) == Some(i)
  {
    var n := if i < 0 then -i else i;
    DecimalRoundTrip(n);
    ParseDigits(Decimal(n));
  }

  /** Digits read as their value, and after a minus sign as its negation. */
  lemma ParseDigits(d: string)
    requires |d| > 0 && AllDigits(d)
    ensures ParseInt(d) == Some(DecimalValue(d) as int)
    ensures ParseInt("-" + d) == Some(-(DecimalValue(d) as int))
  {
    assert IsDigit(d[0]);
    assert ("-" + d)[1..] == d;
  }

  lemma IntDecimalAscii(i: int)
    ensures IsAscii(IntDecimal(i))
  {
    var d := Decimal(if i < 0 then -i else i);
    DecimalRoundTrip(if i < 0 then -i else i);
    assert IsAscii(d) by {
      forall k | 0 <= k < |d| ensures d[k] as int < 128 { assert IsDigit(d[k]); }
    }
    AsciiAppend("-", d);
  }

  /** Python's `'{:02d}'.format(n)` for n >= 0. */
  function Format02d(n: nat): string
  {
    ZeroPad(Decimal(n), 2)
  }

  /** Below 100, `'{:02d}'` gives exactly the tens digit and the units digit. */
  lemma Format02dDigits(n: nat)
    requires n < 100
    ensures Format02d(n) == [DigitChar(n / 10), DigitChar(n % 10)]
  {
    if n >= 10 {
      assert Decimal(n / 10) == [DigitChar(n / 10)];
    } else {
      assert Zeros(1) == ['0'];
    }
  }

  // ---------------------------------------------------------------- hexadecimal

  predicate IsHexDigit(c: char)
  {
    ('0' <= c <= '9') || ('a' <= c <= 'f') || ('A' <= c <= 'F')
  }

  predicate AllHex(s: string) { forall i :: 0 <= i < |s| ==> IsHexDigit(s[i]) }

  /** True when no character of `s` is a lower-case letter. */
  predicate NoLower(s: string) { forall i :: 0 <= i < |s| ==> !('a' <= s[i] <= 'z') }

  /** True when no character of `s` is an upper-case letter. */
  predicate NoUpper(s: string) { forall i :: 0 <= i < |s| ==> !('A' <= s[i] <= 'Z') }

  function HexChar(d: nat, upper: bool): char
    requires d < 16
  {
    if d < 10 then DigitChar(d)
    else ((if upper then 'A' else 'a') as int + d - 10) as char
  }

  function HexDigitValue(c: char): (v: nat)
    requires IsHexDigit(c)
    ensures v < 16
  {
    if '0' <= c <= '9' then c as int - '0' as int
    else if 'a' <= c <= 'f' then c as int - 'a' as int + 10
    else c as int - 'A' as int + 10
  }

  /** The hexadecimal numeral of `n` without prefix or leading zeros, in the chosen letter case. */
  function Hex(n: nat, upper: bool): string
  {
    if n < 16 then [HexChar(n, upper)] else Hex(n / 16, upper) + [HexChar(n % 16, upper)]
  }

  /** The value of a string of hexadecimal digits of either case. */
  function HexValue(s: string): nat
    requires AllHex(s)
  {
    if s == [] then 0 else HexValue(s[..|s| - 1]) * 16 + HexDigitValue(s[|s| - 1])
  }

  /** `Hex` prints hex digits of one case only, without a leading zero, and reading them back gives `n`. */
  lemma {:induction false} HexRoundTrip(n: nat, upper: bool)
    ensures |Hex(n, upper)| > 0 && AllHex(Hex(n, upper))
    ensures if upper then NoLower(Hex(n, upper)) else NoUpper(Hex(n, upper))
    ensures Hex(n, upper)[0] == '0' ==> n == 0
    ensures HexValue(Hex(n, upper)) == n
  {
    if n >= 16 {
      HexRoundTrip(n / 16, upper);
      var s := Hex(n, upper);
      assert s[..|s| - 1] == Hex(n / 16, upper);
      assert s[0] == Hex(n / 16, upper)[0];
    }
  }

  /** Leading zeros do not change the value of a hexadecimal numeral. */
  lemma {:induction false} HexValueZeros(k: nat, s: string)
    requires AllHex(s)
    ensures AllHex(Zeros(k) + s) && HexValue(Zeros(k) + s) == HexValue(s)
    decreases |s|
  {
    ZerosShape(k);
    var z := Zeros(k) + s;
    assert AllHex(z) by {
      forall i | 0 <= i < |z| ensures IsHexDigit(z[i]) {
        if i >= k { assert z[i] == s[i - k]; }
      }
    }
    if s == [] {
      assert z == Zeros(k);
      HexValueOfZeros(k);
    } else {
      HexValueZeros(k, s[..|s| - 1]);
      assert z[..|z| - 1] == Zeros(k) + s[..|s| - 1];
    }
  }

  lemma {:induction false} HexValueOfZeros(k: nat)
    ensures AllHex(Zeros(k)) && HexValue(Zeros(k)) == 0
  {
    ZerosShape(k);
    if k > 0 {
      HexValueOfZeros(k - 1);
      assert Zeros(k)[..k - 1] == Zeros(k - 1);
    }
  }

  /** Python's `'%04X' % i`: upper-case hex zero-padded to four characters, the sign counting toward the width. */
  function Format04X(i: int): string
  {
    if i >= 0 then ZeroPad(Hex(i, true), 4) else "-" + ZeroPad(Hex(-i, true), 3)
  }

  /** Python's `hex(i)`: "0x" then lower-case digits, with a leading minus for negative `i`. */
  function PythonHex(i: int): string
  {
    if i >= 0 then "0x" + Hex(i, false) else "-0x" + Hex(-i, false)
  }

  /** Python's `s.zfill(w)`: pad with '0' to width `w`, after a leading sign if there is one. */
  function ZFill(s: string, w: nat): string
  {
    if |s| >= w then s
    else if |s| > 0 && (s[0] == '+' || s[0] == '-') then [s[0]] + Zeros(w - |s|) + s[1..]
    else Zeros(w - |s|) + s
  }

  /** `PadHex(i, w)` of dump_K3322_cal.py: `hex(i)[2:].zfill(w)`. */
  function PadHex(i: int, w: nat): string
  {
    ZFill(PythonHex(i)[2..], w)
  }

  /**
    Python's `int(s, 16)` on ASCII text without `_` separators: surrounding
    blanks, a sign and a "0x" prefix are accepted; None where Python raises
    ValueError.
   */
  function ParseHexInt(s: string): Option<int>
  {
    var t := Strip(s, PythonSpace);
    if |t| > 0 && t[0] == '-' then
      (match HexBody(t[1..]) case Some(v) => Some(-v) case None => None)
    else if |t| > 0 && t[0] == '+' then HexBody(t[1..])
    else HexBody(t)
  }

  /** The unsigned part of a base-16 literal: an optional "0x" or "0X" prefix, then at least one hex digit. */
  function HexBody(u: string): Option<int>
  {
    var d := if |u| >= 2 && u[0] == '0' && (u[1] == 'x' || u[1] == 'X') then u[2..] else u;
    if |d| > 0 && AllHex(d) then Some(HexValue(d) as int) else None
  }

  /** A string with no blanks, no sign and no "0x" prefix is parsed as its digits alone. */
  lemma ParseHexDigits(s: string)
    requires |s| > 0 && AllHex(s)
    ensures ParseHexInt(s) == Some(HexValue(s) as int)
  {
    assert s[0] !in PythonSpace && s[|s| - 1] !in PythonSpace by {
      assert IsHexDigit(s[0]) && IsHexDigit(s[|s| - 1]);
    }
    StripUntouched(s, PythonSpace);
    assert s[0] != '-' && s[0] != '+' by { assert IsHexDigit(s[0]); }
    assert !(|s| >= 2 && s[0] == '0' && (s[1] == 'x' || s[1] == 'X')) by {
      if |s| >= 2 { assert IsHexDigit(s[1]); }
    }
    assert HexBody(s) == Some(HexValue(s) as int);
  }

  /** Zero padding keeps a hex numeral's digits, letter case and value; it only lengthens it to the width. */
  lemma ZeroPadHex(h: string, w: nat)
    requires AllHex(h)
    ensures |ZeroPad(h, w)| == if |h| >= w then |h| else w
    ensures AllHex(ZeroPad(h, w)) && HexValue(ZeroPad(h, w)) == HexValue(h)
    ensures NoLower(h) ==> NoLower(ZeroPad(h, w))
    ensures NoUpper(h) ==> NoUpper(ZeroPad(h, w))
  {
    var z := if |h| >= w then 0 else w - |h|;
    ZerosShape(z);
    var p := ZeroPad(h, w);
    assert p == Zeros(z) + h;
    HexValueZeros(z, h);
    forall k | 0 <= k < |p|
      ensures k >= z ==> p[k] == h[k - z]
      ensures k < z ==> p[k] == '0'
    {
      if k >= z { assert p[k] == h[k - z]; }
    }
  }

  /**
    For 0 <= a <= 0xFFFF, `'%04X' % a` is exactly four upper-case hex digits,
    and `int(_, 16)` reads them back as `a`.
   */
  lemma Format04XRoundTrip(a: int)
    requires 0 <= a <= 0xFFFF
    ensures |Format04X(a)| == 4 && AllHex(Format04X(a)) && NoLower(Format04X(a))
    ensures ParseHexInt(Format04X(a)) == Some(a)
  {
    HexRoundTrip(a, true);
    HexLength(a, true, 4);
    ZeroPadHex(Hex(a, true), 4);
    ParseHexDigits(Format04X(a));
  }

  /** A number below 16^k has at most k hex digits. */
  lemma {:induction false} HexLength(n: nat, upper: bool, k: nat)
    requires n < Pow16(k)
    ensures |Hex(n, upper)| <= if k == 0 then 1 else k
  {
    if n >= 16 {
      assert k >= 2;
      HexLength(n / 16, upper, k - 1);
    }
  }

  function Pow16(k: nat): nat
  {
    if k == 0 then 1 else 16 * Pow16(k - 1)
  }

  /** A hex numeral's value is below 16 to the power of its length. */
  lemma {:induction false} HexValueBelow(s: string)
    requires AllHex(s)
    ensures HexValue(s) < Pow16(|s|)
  {
    if s != [] {
      HexValueBelow(s[..|s| - 1]);
    }
  }

  /** A number of at least 16^k has more than k hex digits. */
  lemma {:induction false} HexLengthAbove(n: nat, upper: bool, k: nat)
    requires n >= Pow16(k)
    ensures |Hex(n, upper)| > k
  {
    if k > 0 {
      HexLengthAbove(n / 16, upper, k - 1);
    }
  }

  /** Powers of 16 grow with the exponent. */
  lemma {:induction false} PowGrows(j: nat, k: nat)
    requires j <= k
    ensures Pow16(j) <= Pow16(k)
    decreases k
  {
    if j < k {
      PowGrows(j, k - 1);
    }
  }

  /**
    For i >= 0, `PadHex(i, w)` is the lower-case hex of `i` with no "0x",
    left-padded with '0' to `w` characters (never truncated), and reading it
    back with `int(_, 16)` gives `i`.
   */
  lemma PadHexShape(i: int, w: nat)
    requires i >= 0
    ensures PadHex(i, w) == ZeroPad(Hex(i, false), w)
    ensures |PadHex(i, w)| == if |Hex(i, false)| >= w then |Hex(i, false)| else w
    ensures NoUpper(PadHex(i, w))
    ensures ParseHexInt(PadHex(i, w)) == Some(i)
  {
    PadHexZeros(i, w);
    HexRoundTrip(i, false);
    ZeroPadHex(Hex(i, false), w);
    ParseHexDigits(ZeroPad(Hex(i, false), w));
  }

  /** For i >= 0 the digits after "0x" carry no sign, so `zfill` only pads them with zeros. */
  lemma PadHexZeros(i: int, w: nat)
    requires i >= 0
    ensures PadHex(i, w) == ZeroPad(Hex(i, false), w)
  {
    var h := Hex(i, false);
    HexRoundTrip(i, false);
    assert PythonHex(i)[2..] == h;
    assert IsHexDigit(h[0]);
  }

  /** Two hex digits read with `int(_, 16)` give a value in 0..255. */
  lemma ByteFieldInRange(s: string)
    requires |s| == 2 && AllHex(s)
    ensures ParseHexInt(s).Some? && 0 <= ParseHexInt(s).value <= 255
  {
    ParseHexDigits(s);
    assert s[..1][..0] == [];
    assert HexValue(s[..1]) == HexDigitValue(s[0]);
    assert HexValue(s) == HexDigitValue(s[0]) * 16 + HexDigitValue(s[1]);
  }
}
