/** The few string operations of Python's `str` that the quiz relies on:
    `isspace`/`strip`, `splitlines`, and decimal rendering of a round number. */
module Text {

  /** The characters for which Python's `str.isspace()` holds, which `str.strip()` removes. */
  predicate IsSpace(c: char)
  {
    c == ' ' || ('\t' <= c <= '\r') || ('\U{1c}' <= c <= '\U{1f}') ||
    c == '\U{85}' || c == '\U{a0}' || c == '\U{1680}' || ('\U{2000}' <= c <= '\U{200a}') ||
    c == '\U{2028}' || c == '\U{2029}' || c == '\U{202f}' || c == '\U{205f}' || c == '\U{3000}'
  }

  /** The line boundaries of Python's `str.splitlines()` (`\r\n` is one boundary, see SplitLinesFrom). */
  predicate IsLineBreak(c: char)
  {
    c == '\n' || c == '\r' || c == '\U{0b}' || c == '\U{0c}' || ('\U{1c}' <= c <= '\U{1e}') ||
    c == '\U{85}' || c == '\U{2028}' || c == '\U{2029}'
  }

  predicate NoLineBreak(s: string)
  {
    forall i :: 0 <= i < |s| ==> !IsLineBreak(s[i])
  }

  predicate AllSpace(s: string)
  {
    forall i :: 0 <= i < |s| ==> IsSpace(s[i])
  }

  function TrimLeft(s: string): (r: string)
    ensures |r| <= |s| && r == s[|s| - |r|..]
    ensures forall i :: 0 <= i < |s| - |r| ==> IsSpace(s[i])
    ensures r == [] || !IsSpace(r[0])
  {
    if s != [] && IsSpace(s[0]) then TrimLeft(s[1..]) else s
  }

  function TrimRight(s: string): (r: string)
    ensures |r| <= |s| && r == s[..|r|]
    ensures forall i :: |r| <= i < |s| ==> IsSpace(s[i])
    ensures r == [] || !IsSpace(r[|r| - 1])
  {
    if s != [] && IsSpace(s[|s| - 1]) then TrimRight(s[..|s| - 1]) else s
  }

  /** Python's `s.strip()`: the result is `s` with whitespace cut off at both ends and nothing
      else changed; it neither starts nor ends with whitespace, and it is empty exactly when `s`
      consists of whitespace only. */
  function Strip(s: string): (r: string)
    ensures |r| <= |s|
    ensures exists i, j :: 0 <= i <= j <= |s| && r == s[i..j] && AllSpace(s[..i]) && AllSpace(s[j..])
    ensures r == [] || (!IsSpace(r[0]) && !IsSpace(r[|r| - 1]))
    ensures r == [] <==> AllSpace(s)
  {
    TrimmedEnds(s, TrimLeft(s), TrimRight(TrimLeft(s)));
    TrimRight(TrimLeft(s))
  }

  /** Cutting whitespace off the front of `s` (giving `t`) and then off the back of `t` (giving
      `r`) leaves one piece of `s`, with only whitespace before and after it. */
  lemma TrimmedEnds(s: string, t: string, r: string)
    requires |t| <= |s| && t == s[|s| - |t|..] && forall k :: 0 <= k < |s| - |t| ==> IsSpace(s[k])
    requires |r| <= |t| && r == t[..|r|] && forall k :: |r| <= k < |t| ==> IsSpace(t[k])
    ensures var i := |s| - |t|;
      i + |r| <= |s| && r == s[i..i + |r|] && AllSpace(s[..i]) && AllSpace(s[i + |r|..])
  {
    var i := |s| - |t|;
    assert AllSpace(s[..i]);
    var tail := s[i + |r|..];
    assert AllSpace(tail) by {
      forall k | 0 <= k < |tail| ensures IsSpace(tail[k]) {
        assert tail[k] == t[|r| + k];
      }
    }
  }

  /** `not s.strip()` in Python: the text is whitespace only (see Strip). */
  predicate IsBlank(s: string)
  {
    AllSpace(s)
  }

  /** Stripping a string that has no whitespace at either end leaves it as it is. */
  lemma StripClean(s: string)
    requires s == [] || (!IsSpace(s[0]) && !IsSpace(s[|s| - 1]))
    ensures Strip(s) == s
  {
    assert TrimLeft(s) == s;
  }

  /** `s.strip().strip() == s.strip()`. */
  lemma StripIdempotent(s: string)
    ensures Strip(Strip(s)) == Strip(s)
  {
    StripClean(Strip(s));
  }

  /** Python's `str.splitlines()`, continuing a line `line` that has been read so far.
      No piece contains a line boundary; a final boundary does not open an empty last line. */
  function SplitLinesFrom(s: string, line: string): (r: seq<string>)
    requires NoLineBreak(line)
    ensures forall j :: 0 <= j < |r| ==> NoLineBreak(r[j])
    decreases |s|
  {
    if s == [] then
      (if line == [] then [] else [line])
    else if IsLineBreak(s[0]) then
      var rest := if s[0] == '\r' && |s| > 1 && s[1] == '\n' then s[2..] else s[1..];
      [line] + SplitLinesFrom(rest, [])
    else
      SplitLinesFrom(s[1..], line + [s[0]])
  }

  function SplitLines(s: string): (r: seq<string>)
    ensures forall j :: 0 <= j < |r| ==> NoLineBreak(r[j])
  {
    SplitLinesFrom(s, [])
  }

  /** Text without a line boundary is a single line, or no line at all when it is empty. */
  lemma {:induction false} SplitLinesFromSingle(s: string, line: string)
    requires NoLineBreak(line) && NoLineBreak(s)
    ensures SplitLinesFrom(s, line) == if line + s == [] then [] else [line + s]
    decreases |s|
  {
    if s == [] {
      assert line + s == line;
    } else {
      assert !IsLineBreak(s[0]);
      assert NoLineBreak(line + [s[0]]) by {
        forall i | 0 <= i < |line + [s[0]]| ensures !IsLineBreak((line + [s[0]])[i]) {
          if i < |line| { assert (line + [s[0]])[i] == line[i]; }
        }
      }
      SplitLinesFromSingle(s[1..], line + [s[0]]);
      assert (line + [s[0]]) + s[1..] == line + s;
    }
  }

  lemma SplitLinesSingle(s: string)
    requires NoLineBreak(s)
    ensures SplitLines(s) == if s == [] then [] else [s]
  {
    SplitLinesFromSingle(s, []);
    assert [] + s == s;
  }

  /** `sep` is one line boundary ending a line in front of `b`: `\r\n`, or a single boundary
      character, where a lone `\r` must not be followed by `\n` (with it, it would be `\r\n`). */
  predicate LineEnd(sep: string, b: string)
  {
    sep == "\r\n" || (|sep| == 1 && IsLineBreak(sep[0]) && (sep[0] == '\r' ==> b == [] || b[0] != '\n'))
  }

  /** A line boundary `sep` after a break-free text `a` ends the line `line + a`; the text
      after the boundary is split afresh. */
  lemma {:induction false} SplitLinesFromBreak(a: string, sep: string, b: string, line: string)
    requires NoLineBreak(a) && NoLineBreak(line) && LineEnd(sep, b)
    ensures SplitLinesFrom(a + sep + b, line) == [line + a] + SplitLinesFrom(b, [])
    decreases |a|
  {
    var s := a + sep + b;
    if a == [] {
      assert s == sep + b && s[0] == sep[0];
      assert s[|sep|..] == b;
      assert line + a == line;
    } else {
      assert s[0] == a[0] && s[1..] == a[1..] + sep + b;
      assert !IsLineBreak(a[0]);
      assert NoLineBreak(line + [a[0]]) by {
        forall i | 0 <= i < |line + [a[0]]| ensures !IsLineBreak((line + [a[0]])[i]) {
          if i < |line| { assert (line + [a[0]])[i] == line[i]; }
        }
      }
      SplitLinesFromBreak(a[1..], sep, b, line + [a[0]]);
      assert (line + [a[0]]) + a[1..] == line + a;
    }
  }

  /** The first line of a text is the text up to its first line boundary; the lines after
      it are the lines of the rest. */
  lemma SplitLinesBreak(a: string, sep: string, b: string)
    requires NoLineBreak(a) && LineEnd(sep, b)
    ensures SplitLines(a + sep + b) == [a] + SplitLines(b)
  {
    SplitLinesFromBreak(a, sep, b, []);
    assert [] + a == a;
  }

  function Digit(d: nat): (c: char)
    requires d < 10
    ensures '0' <= c <= '9'
  {
    "0123456789"[d]
  }

  /** Python's `f"{n}"` for a non-negative integer: its decimal digits, most significant first. */
  function NatToString(n: nat): (r: string)
    ensures |r| >= 1
    ensures forall i :: 0 <= i < |r| ==> '0' <= r[i] <= '9'
    decreases n
  {
    if n < 10 then [Digit(n)] else NatToString(n / 10) + [Digit(n % 10)]
  }

  lemma DigitInjective(a: nat, b: nat)
    requires a < 10 && b < 10 && Digit(a) == Digit(b)
    ensures a == b
  {
  }

  /** Distinct numbers are rendered as distinct strings. */
  lemma {:induction false} NatToStringInjective(n: nat, m: nat)
    requires NatToString(n) == NatToString(m)
    ensures n == m
    decreases n
  {
    var s := NatToString(n);
    if n < 10 && m < 10 {
      DigitInjective(n, m);
    } else if n >= 10 && m >= 10 {
      assert s[|s| - 1] == Digit(n % 10) == Digit(m % 10);
      DigitInjective(n % 10, m % 10);
      assert NatToString(n / 10) == s[..|s| - 1] == NatToString(m / 10);
      NatToStringInjective(n / 10, m / 10);
    }
  }

  /** The default round title `f"Runde {n}"`. */
  function RoundLabel(n: nat): string
  {
    "Runde " + NatToString(n)
  }

  /** A default round title is never blank. */
  lemma RoundLabelNotBlank(n: nat)
    ensures !IsBlank(RoundLabel(n))
  {
    assert !IsSpace(RoundLabel(n)[0]);
  }
}
