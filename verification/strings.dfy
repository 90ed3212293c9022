/** The handful of java.lang.String and stream-collector behaviours the
    server relies on, written out over `string` (a `seq<char>`). */
module Strings {

  /* ---------------------------------------------------------------
     Decimal text of an integer (Integer.toString / String.valueOf)
     --------------------------------------------------------------- */

  predicate IsDigit(c: char) {
    '0' <= c <= '9'
  }

  predicate AllDigits(s: string) {
    forall i :: 0 <= i < |s| ==> IsDigit(s[i])
  }

  function DigitChar(d: nat): (c: char)
    requires d < 10
    ensures IsDigit(c)
    ensures c as int - '0' as int == d
  {
    ('0' as int + d) as char
  }

  /** Shortest decimal spelling of `n`: digits only, no leading zero. */
  function NatToString(n: nat): (r: string)
    ensures |r| > 0
    ensures AllDigits(r)
    ensures r[0] == '0' <==> n == 0
    decreases n
  {
    if n < 10 then [DigitChar(n)] else NatToString(n / 10) + [DigitChar(n % 10)]
  }

  /** Java's decimal text of a (possibly negative) integer: a leading '-'
      for negative values, then the digits of the magnitude. */
  function IntToString(n: int): (r: string)
    ensures |r| > 0
    ensures r[0] == '-' <==> n < 0
    ensures n >= 0 ==> AllDigits(r)
  {
    if n < 0 then "-" + NatToString(-n) else NatToString(n)
  }

  /** Reading a digit string back as a number; the inverse used to show
      that no two exit codes are spelled alike. */
  function ParseNat(s: string): nat
    requires AllDigits(s)
  {
    if |s| == 0 then 0 else ParseNat(s[..|s| - 1]) * 10 + (s[|s| - 1] as int - '0' as int)
  }

  function ParseInt(s: string): int
    requires |s| > 0
    requires s[0] == '-' ==> AllDigits(s[1..])
    requires s[0] != '-' ==> AllDigits(s)
  {
    if s[0] == '-' then 0 - ParseNat(s[1..]) else ParseNat(s)
  }

  lemma {:induction false} NatToStringRoundTrip(n: nat)
    ensures ParseNat(NatToString(n)) == n
    decreases n
  {
    if n >= 10 {
      var s := NatToString(n);
      NatToStringRoundTrip(n / 10);
      assert s[..|s| - 1] == NatToString(n / 10);
    }
  }

  /** Decimal text round-trips, so the text determines the integer. */
  lemma IntToStringRoundTrip(n: int)
    ensures ParseInt(IntToString(n)) == n
  {
    if n < 0 {
      NatToStringRoundTrip(-n);
      assert IntToString(n)[1..] == NatToString(-n);
    } else {
      NatToStringRoundTrip(n);
    }
  }

  lemma IntToStringInjective(a: int, b: int)
    requires IntToString(a) == IntToString(b)
    ensures a == b
  {
    IntToStringRoundTrip(a);
    IntToStringRoundTrip(b);
  }

  /* ---------------------------------------------------------------
     Prefix test, occurrence and String.replace
     --------------------------------------------------------------- */

  predicate StartsWith(s: string, prefix: string) {
    |prefix| <= |s| && s[..|prefix|] == prefix
  }

  predicate OccursAt(s: string, target: string, i: nat) {
    i + |target| <= |s| && s[i..i + |target|] == target
  }

  /** `target` appears somewhere inside `s`. */
  predicate Occurs(target: string, s: string) {
    exists i: nat | i <= |s| :: OccursAt(s, target, i)
  }

  /** String.replace(CharSequence, CharSequence) for a non-empty target:
      scanning left to right, every occurrence that does not overlap an
      occurrence already replaced becomes `replacement`; the scan resumes
      after the replaced text, so a replacement never takes part in a
      later match. */
  function ReplaceAll(s: string, target: string, replacement: string): (r: string)
    requires |target| > 0
    decreases |s|
  {
    if |s| < |target| then s
    else if s[..|target|] == target then replacement + ReplaceAll(s[|target|..], target, replacement)
    else [s[0]] + ReplaceAll(s[1..], target, replacement)
  }

  lemma {:induction false} ReplaceAllWithoutOccurrence(s: string, target: string, replacement: string)
    requires |target| > 0
    requires !Occurs(target, s)
    ensures ReplaceAll(s, target, replacement) == s
    decreases |s|
  {
    if |s| >= |target| {
      assert !OccursAt(s, target, 0);
      if Occurs(target, s[1..]) {
        var i: nat :| i <= |s| - 1 && OccursAt(s[1..], target, i);
        assert i + |target| <= |s| - 1;
        assert s[i + 1..i + 1 + |target|] == s[1..][i..i + |target|];
        assert OccursAt(s, target, i + 1);
      }
      ReplaceAllWithoutOccurrence(s[1..], target, replacement);
    }
  }

  lemma {:induction false} RemoveAllNeverGrows(s: string, target: string)
    requires |target| > 0
    ensures |ReplaceAll(s, target, "")| <= |s|
    decreases |s|
  {
    if |s| >= |target| {
      if s[..|target|] == target {
        RemoveAllNeverGrows(s[|target|..], target);
      } else {
        RemoveAllNeverGrows(s[1..], target);
      }
    }
  }

  lemma {:induction false} RemoveAllShrinksOnOccurrence(s: string, target: string)
    requires |target| > 0
    requires Occurs(target, s)
    ensures |ReplaceAll(s, target, "")| < |s|
    decreases |s|
  {
    var i: nat :| i <= |s| && OccursAt(s, target, i);
    assert i + |target| <= |s|;
    if s[..|target|] == target {
      RemoveAllNeverGrows(s[|target|..], target);
    } else {
      assert i != 0;
      assert s[1..][i - 1..i - 1 + |target|] == s[i..i + |target|];
      assert OccursAt(s[1..], target, i - 1);
      RemoveAllShrinksOnOccurrence(s[1..], target);
    }
  }

  /** Deleting every occurrence leaves the text unchanged exactly when
      there was nothing to delete. */
  lemma RemoveAllUnchangedIff(s: string, target: string)
    requires |target| > 0
    ensures ReplaceAll(s, target, "") == s <==> !Occurs(target, s)
  {
    if Occurs(target, s) {
      RemoveAllShrinksOnOccurrence(s, target);
    } else {
      ReplaceAllWithoutOccurrence(s, target, "");
    }
  }

  /** A leading occurrence is replaced and the scan goes on after it. */
  lemma ReplaceAllLeading(target: string, rest: string, replacement: string)
    requires |target| > 0
    ensures ReplaceAll(target + rest, target, replacement) == replacement + ReplaceAll(rest, target, replacement)
  {
    assert (target + rest)[..|target|] == target;
    assert (target + rest)[|target|..] == rest;
  }

  /** Text in front in which no occurrence starts is copied unchanged. */
  lemma {:induction false} ReplaceAllSkipsPrefix(pre: string, rest: string, target: string, replacement: string)
    requires |target| > 0
    requires forall i: nat :: i < |pre| ==> !OccursAt(pre + rest, target, i)
    ensures ReplaceAll(pre + rest, target, replacement) == pre + ReplaceAll(rest, target, replacement)
    decreases |pre|
  {
    if |pre| == 0 {
      assert pre + rest == rest;
      assert pre + ReplaceAll(rest, target, replacement) == ReplaceAll(rest, target, replacement);
    } else {
      var s := pre + rest;
      assert !OccursAt(s, target, 0);
      assert s[1..] == pre[1..] + rest;
      forall i: nat | i < |pre| - 1
        ensures !OccursAt(pre[1..] + rest, target, i)
      {
        assert !OccursAt(s, target, i + 1);
        if i + |target| <= |s| - 1 {
          assert s[1..][i..i + |target|] == s[i + 1..i + 1 + |target|];
        }
      }
      ReplaceAllSkipsPrefix(pre[1..], rest, target, replacement);
      if |s| >= |target| {
        assert s[..|target|] != target;
        calc {
          ReplaceAll(s, target, replacement);
          [s[0]] + ReplaceAll(s[1..], target, replacement);
          [pre[0]] + ReplaceAll(pre[1..] + rest, target, replacement);
          [pre[0]] + (pre[1..] + ReplaceAll(rest, target, replacement));
          pre + ReplaceAll(rest, target, replacement);
        }
      } else {
        assert ReplaceAll(rest, target, replacement) == rest;
      }
    }
  }

  /* ---------------------------------------------------------------
     String.trim and equalsIgnoreCase
     --------------------------------------------------------------- */

  /** String.trim drops the characters at or below U+0020 at each end. */
  function TrimStart(s: string): (r: string)
    ensures |r| <= |s| && r == s[|s| - |r|..]
    ensures forall i :: 0 <= i < |s| - |r| ==> s[i] <= ' '
    ensures |r| > 0 ==> r[0] > ' '
    decreases |s|
  {
    if |s| > 0 && s[0] <= ' ' then TrimStart(s[1..]) else s
  }

  function TrimEnd(s: string): (r: string)
    ensures |r| <= |s| && r == s[..|r|]
    ensures forall i :: |r| <= i < |s| ==> s[i] <= ' '
    ensures |r| > 0 ==> r[|r| - 1] > ' '
    decreases |s|
  {
    if |s| > 0 && s[|s| - 1] <= ' ' then TrimEnd(s[..|s| - 1]) else s
  }

  function Trim(s: string): string {
    TrimEnd(TrimStart(s))
  }

  predicate AllBlank(s: string) {
    forall i :: 0 <= i < |s| ==> s[i] <= ' '
  }

  /** Leading blanks are exactly what TrimStart removes. */
  lemma {:induction false} TrimStartPadded(pad: string, t: string)
    requires AllBlank(pad)
    requires |t| > 0 && t[0] > ' '
    ensures TrimStart(pad + t) == t
    decreases |pad|
  {
    if |pad| == 0 {
      assert pad + t == t;
    } else {
      assert (pad + t)[0] == pad[0];
      assert (pad + t)[1..] == pad[1..] + t;
      TrimStartPadded(pad[1..], t);
    }
  }

  /** Trailing blanks are exactly what TrimEnd removes. */
  lemma {:induction false} TrimEndPadded(t: string, pad: string)
    requires AllBlank(pad)
    requires |t| > 0 && t[|t| - 1] > ' '
    ensures TrimEnd(t + pad) == t
    decreases |pad|
  {
    if |pad| == 0 {
      assert t + pad == t;
    } else {
      var s := t + pad;
      assert s[|s| - 1] == pad[|pad| - 1];
      assert s[..|s| - 1] == t + pad[..|pad| - 1];
      TrimEndPadded(t, pad[..|pad| - 1]);
    }
  }

  function UpperAscii(c: char): char {
    if 'a' <= c <= 'z' then (c as int - 32) as char else c
  }

  /** equalsIgnoreCase restricted to the ASCII letters that HTTP method
      tokens are made of. */
  predicate EqualsIgnoreCase(a: string, b: string) {
    |a| == |b| && forall i :: 0 <= i < |a| ==> UpperAscii(a[i]) == UpperAscii(b[i])
  }

  /* ---------------------------------------------------------------
     Gathering a process's output lines
     --------------------------------------------------------------- */

  /** Collectors.joining(sep): the lines with `sep` between neighbours
      and nothing after the last one. */
  function Join(lines: seq<string>, sep: string): string
    decreases |lines|
  {
    if |lines| == 0 then ""
    else if |lines| == 1 then lines[0]
    else Join(lines[..|lines| - 1], sep) + sep + lines[|lines| - 1]
  }

  /** A StringBuilder that receives `line` then `term` for every line. */
  function Terminated(lines: seq<string>, term: string): string
    decreases |lines|
  {
    if |lines| == 0 then "" else Terminated(lines[..|lines| - 1], term) + lines[|lines| - 1] + term
  }

  /** The two ways of gathering output agree up to the final terminator:
      terminating every line is joining them and terminating the last. */
  lemma {:induction false} TerminatedIsJoinPlusTerminator(lines: seq<string>, term: string)
    requires |lines| > 0
    ensures Terminated(lines, term) == Join(lines, term) + term
    decreases |lines|
  {
    if |lines| > 1 {
      TerminatedIsJoinPlusTerminator(lines[..|lines| - 1], term);
    }
  }

  /** Joined output ends with the last line: no separator is left behind. */
  lemma {:induction false} JoinEndsWithLastLine(lines: seq<string>, sep: string)
    requires |lines| > 0
    ensures var j := Join(lines, sep); var last := lines[|lines| - 1];
      |last| <= |j| && j[|j| - |last|..] == last
  {
  }

  /** Lengths add up: the lines plus one separator per gap. */
  lemma {:induction false} JoinLength(lines: seq<string>, sep: string)
    requires |lines| > 0
    ensures |Join(lines, sep)| == TotalLength(lines) + (|lines| - 1) * |sep|
    decreases |lines|
  {
    if |lines| > 1 {
      var init, last := lines[..|lines| - 1], lines[|lines| - 1];
      JoinLength(init, sep);
      assert init + [last] == lines;
      TotalLengthSnoc(init, last);
      var gaps := |init| - 1;
      assert (gaps + 1) * |sep| == gaps * |sep| + |sep|;
      assert |Join(lines, sep)| == |Join(init, sep)| + |sep| + |last|;
    }
  }

  function TotalLength(lines: seq<string>): nat
    decreases |lines|
  {
    if |lines| == 0 then 0 else |lines[0]| + TotalLength(lines[1..])
  }

  lemma {:induction false} TotalLengthSnoc(lines: seq<string>, last: string)
    ensures TotalLength(lines + [last]) == TotalLength(lines) + |last|
    decreases |lines|
  {
    if |lines| > 0 {
      assert (lines + [last])[1..] == lines[1..] + [last];
      TotalLengthSnoc(lines[1..], last);
    }
  }
}
