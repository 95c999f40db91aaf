/**
  Character-level string operations that the Python code gets from `str`:
  `strip` with an explicit character set, negative slicing (`s[-k:]`),
  ASCII checks done by `encode('ascii')` / `decode('ascii')`, and zero padding.
 */
module Text {

  /** True when every character is 7-bit ASCII, so `encode('ascii')` succeeds. */
  predicate IsAscii(s: string)
  {
    forall i :: 0 <= i < |s| ==> s[i] as int < 128
  }

  lemma AsciiAppend(a: string, b: string)
    ensures IsAscii(a + b) <==> IsAscii(a) && IsAscii(b)
  {
    if IsAscii(a) && IsAscii(b) {
      forall i | 0 <= i < |a + b| ensures (a + b)[i] as int < 128 {
        if i >= |a| { assert (a + b)[i] == b[i - |a|]; }
      }
    }
    if IsAscii(a + b) {
      forall i | 0 <= i < |a| ensures a[i] as int < 128 {
        assert (a + b)[i] == a[i];
      }
      forall i | 0 <= i < |b| ensures b[i] as int < 128 {
        assert (a + b)[|a| + i] == b[i];
      }
    }
  }

  /** The characters `read` strips from a reply: space, tab, LF and CR. */
  const ReplyBlanks: set<char> := {' ', '\t', '\n', '\r'}

  /** The ASCII characters Python's `str.isspace` accepts, which `int(s, 16)` ignores around a number. */
  const PythonSpace: set<char> := {' ', '\t', '\n', '\U{0B}', '\U{0C}', '\r', '\U{1C}', '\U{1D}', '\U{1E}', '\U{1F}'}

  /** Number of leading characters of `s` that belong to `cs`. */
  function LeadCount(s: string, cs: set<char>): (n: nat)
    ensures n <= |s|
    ensures forall k :: 0 <= k < n ==> s[k] in cs
    ensures n < |s| ==> s[n] !in cs
  {
    LeadEnd(s, cs, 0)
  }

  /** The first position at or after `j` whose character is not in `cs`, or |s|. */
  function LeadEnd(s: string, cs: set<char>, j: nat): (n: nat)
    requires j <= |s|
    ensures j <= n <= |s|
    ensures forall k :: j <= k < n ==> s[k] in cs
    ensures n < |s| ==> s[n] !in cs
    decreases |s| - j
  {
    if j < |s| && s[j] in cs then LeadEnd(s, cs, j + 1) else j
  }

  /** Number of trailing characters of `s` that belong to `cs`. */
  function TrailCount(s: string, cs: set<char>): (n: nat)
    ensures n <= |s|
    ensures forall k :: |s| - n <= k < |s| ==> s[k] in cs
    ensures n < |s| ==> s[|s| - 1 - n] !in cs
  {
    |s| - TrailStart(s, cs, |s|)
  }

  /** The start of the run of `cs` characters that ends at position `j`. */
  function TrailStart(s: string, cs: set<char>, j: nat): (n: nat)
    requires j <= |s|
    ensures n <= j
    ensures forall k :: n <= k < j ==> s[k] in cs
    ensures 0 < n ==> s[n - 1] !in cs
  {
    if 0 < j && s[j - 1] in cs then TrailStart(s, cs, j - 1) else j
  }

  /** Python's `s.strip(chars)`: drop every leading and trailing character that is in `cs`. */
  function Strip(s: string, cs: set<char>): (r: string)
  {
    var lead := LeadCount(s, cs);
    var rest := s[lead..];
    rest[..|rest| - TrailCount(rest, cs)]
  }

  /**
    `Strip` removes exactly a run of `cs` characters from each end: the result is
    a slice of `s`, everything cut off belongs to `cs`, and what is left neither
    starts nor ends with a character of `cs`.
   */
  lemma StripIsMaximalTrim(s: string, cs: set<char>)
    ensures var r := Strip(s, cs);
            var i := LeadCount(s, cs);
            && i + |r| <= |s|
            && r == s[i..i + |r|]
            && (forall k :: 0 <= k < i ==> s[k] in cs)
            && (forall k :: i + |r| <= k < |s| ==> s[k] in cs)
            && (r != [] ==> r[0] !in cs && r[|r| - 1] !in cs)
  {
    var i := LeadCount(s, cs);
    var rest := s[i..];
    var t := TrailCount(rest, cs);
    var r := rest[..|rest| - t];
    assert r == s[i..i + |r|];
    forall k | i + |r| <= k < |s| ensures s[k] in cs {
      assert s[k] == rest[k - i];
    }
    if r != [] {
      assert r[0] == rest[0];
      assert r[|r| - 1] == rest[|rest| - 1 - t];
    }
  }

  /** Stripping twice is stripping once. */
  lemma StripIdempotent(s: string, cs: set<char>)
    ensures Strip(Strip(s, cs), cs) == Strip(s, cs)
  {
    StripIsMaximalTrim(s, cs);
    StripUntouched(Strip(s, cs), cs);
  }

  /** A string that neither starts nor ends with a character of `cs` is left as it is. */
  lemma StripUntouched(s: string, cs: set<char>)
    requires s != [] ==> s[0] !in cs && s[|s| - 1] !in cs
    ensures Strip(s, cs) == s
  {
    if s != [] {
      assert LeadCount(s, cs) == 0;
      assert s[0..] == s;
      assert TrailCount(s, cs) == 0;
      assert s[..|s|] == s;
    }
  }

  /**
    Python's `s[-k:]`: the last k characters, or all of `s` when it is
    shorter; since `-0` is `0`, `s[-0:]` is all of `s` too.
   */
  function Tail(s: string, k: nat): (r: string)
  {
    if k == 0 || |s| <= k then s else s[|s| - k..]
  }

  lemma TailShape(s: string, k: nat)
    ensures |Tail(s, k)| == if k == 0 || |s| < k then |s| else k
    ensures Tail(s, k) == s[|s| - |Tail(s, k)|..]
  {
  }

  /** `n` copies of the character '0'. */
  function Zeros(n: nat): (r: string)
  {
    if n == 0 then [] else Zeros(n - 1) + ['0']
  }

  lemma ZerosShape(n: nat)
    ensures |Zeros(n)| == n && forall k :: 0 <= k < n ==> Zeros(n)[k] == '0'
  {
    if n > 0 { ZerosShape(n - 1); }
  }

  /** Left-pad `s` with '0' up to width `w` (Python's `zfill` on a string with no sign). */
  function ZeroPad(s: string, w: nat): (r: string)
  {
    if |s| >= w then s else Zeros(w - |s|) + s
  }
}
