/**
 Character and string helpers shared by the date formatting and the calendar
 serialisation: decimal digits, zero-padded numbers, `\n`-terminated lines and
 the two-character separator the event description is joined with.
 */
module Text {

  // ---------------------------------------------------------------------------
  // Decimal digits
  // ---------------------------------------------------------------------------

  predicate IsDigit(c: char) {
    '0' <= c <= '9'
  }

  function DigitValue(c: char): (n: nat)
    requires IsDigit(c)
    ensures n < 10
  {
    c as int - '0' as int
  }

  function DigitChar(n: nat): (c: char)
    requires n < 10
    ensures IsDigit(c) && DigitValue(c) == n
  {
    (n + '0' as int) as char
  }

  predicate AllDigits(s: string) {
    forall i :: 0 <= i < |s| ==> IsDigit(s[i])
  }

  lemma DigitsAppend(a: string, b: string)
    requires AllDigits(a) && AllDigits(b)
    ensures AllDigits(a + b)
  {
    forall i | 0 <= i < |a + b| ensures IsDigit((a + b)[i]) {
      if i < |a| {
        assert (a + b)[i] == a[i];
      } else {
        assert (a + b)[i] == b[i - |a|];
      }
    }
  }

  lemma NotInDigits(s: string, c: char)
    requires AllDigits(s) && !IsDigit(c)
    ensures c !in s
  {
    forall i | 0 <= i < |s| ensures s[i] != c {
    }
  }

  /** The number a string of decimal digits denotes, most significant digit first. */
  function Value(s: string): nat
    requires AllDigits(s)
  {
    if |s| == 0 then 0 else 10 * Value(s[..|s| - 1]) + DigitValue(s[|s| - 1])
  }

  function Pow10(k: nat): (p: nat)
    ensures p >= 1
  {
    if k == 0 then 1 else 10 * Pow10(k - 1)
  }

  /**
   The last `width` decimal digits of `n`, padded with zeros on the left
   (what `strftime`'s `%Y`, `%m`, `%d`, `%H`, `%M` and `%S` print).
   */
  function PadDigits(n: nat, width: nat): (r: string)
    ensures |r| == width && AllDigits(r)
    ensures n < Pow10(width) ==> Value(r) == n
  {
    if width == 0 then ""
    else
      var r := PadDigits(n / 10, width - 1) + [DigitChar(n % 10)];
      assert r[..|r| - 1] == PadDigits(n / 10, width - 1);
      assert n < Pow10(width) ==> n / 10 < Pow10(width - 1);
      r
  }

  lemma {:induction false} ValueBound(s: string)
    requires AllDigits(s)
    ensures Value(s) < Pow10(|s|)
  {
    if |s| > 0 {
      ValueBound(s[..|s| - 1]);
    }
  }

  // ---------------------------------------------------------------------------
  // Lines terminated by "\n"
  // ---------------------------------------------------------------------------

  /** The index of the first `c` in `s`, or `|s|` when there is none. */
  function IndexOf(s: string, c: char): (i: nat)
    ensures i <= |s|
    ensures i < |s| ==> s[i] == c
    ensures forall j :: 0 <= j < i ==> s[j] != c
  {
    if |s| == 0 then 0
    else if s[0] == c then 0
    else 1 + IndexOf(s[1..], c)
  }

  lemma IndexOfSplit(a: string, c: char, b: string)
    requires c !in a
    ensures IndexOf(a + [c] + b, c) == |a|
    ensures (a + [c] + b)[..|a|] == a && (a + [c] + b)[|a| + 1..] == b
  {
    var s := a + [c] + b;
    assert s[|a|] == c;
    assert s[..|a|] == a;
    assert s[|a| + 1..] == b;
  }

  /** Every line followed by a newline character, the way the scripts write them. */
  function JoinLines(ls: seq<string>): string {
    if |ls| == 0 then "" else ls[0] + "\n" + JoinLines(ls[1..])
  }

  /** Cuts a text after every newline character; a last unterminated piece is a line too. */
  function SplitLines(s: string): (ls: seq<string>)
    ensures forall i :: 0 <= i < |ls| ==> '\n' !in ls[i]
    decreases |s|
  {
    if |s| == 0 then []
    else
      var i := IndexOf(s, '\n');
      if i == |s| then [s] else [s[..i]] + SplitLines(s[i + 1..])
  }

  predicate NoNewlines(ls: seq<string>) {
    forall i :: 0 <= i < |ls| ==> '\n' !in ls[i]
  }

  lemma NoNewlinesAppend(a: seq<string>, b: seq<string>)
    requires NoNewlines(a) && NoNewlines(b)
    ensures NoNewlines(a + b)
  {
    forall k | 0 <= k < |a + b| ensures '\n' !in (a + b)[k] {
      if k < |a| {
        assert (a + b)[k] == a[k];
      } else {
        assert (a + b)[k] == b[k - |a|];
      }
    }
  }

  lemma {:induction false} JoinLinesAppend(a: seq<string>, b: seq<string>)
    ensures JoinLines(a + b) == JoinLines(a) + JoinLines(b)
  {
    if |a| > 0 {
      assert (a + b)[1..] == a[1..] + b;
      JoinLinesAppend(a[1..], b);
    } else {
      assert a + b == b;
    }
  }

  /** Splitting newline-free lines joined with terminators gives the lines back. */
  lemma {:induction false} SplitJoinLines(ls: seq<string>)
    requires NoNewlines(ls)
    ensures SplitLines(JoinLines(ls)) == ls
  {
    if |ls| > 0 {
      var line, rest := ls[0], JoinLines(ls[1..]);
      assert ls == [line] + ls[1..];
      var s := JoinLines(ls);
      assert s == line + ['\n'] + rest;
      IndexOfSplit(line, '\n', rest);
      SplitJoinLines(ls[1..]);
      assert SplitLines(s) == [line] + ls[1..];
    }
  }

  /** A text is what comes before index `i`, the character there, and what follows. */
  lemma CutAt(s: string, i: nat)
    requires i < |s|
    ensures s == s[..i] + [s[i]] + s[i + 1..]
  {
    assert s[..i + 1] == s[..i] + [s[i]];
    assert s == s[..i + 1] + s[i + 1..];
  }

  /** Conversely, a text that ends in a newline is its own lines joined back together. */
  lemma {:induction false} JoinSplitLines(s: string)
    requires |s| == 0 || s[|s| - 1] == '\n'
    ensures JoinLines(SplitLines(s)) == s
    decreases |s|
  {
    if |s| > 0 {
      var i := IndexOf(s, '\n');
      assert i < |s|;
      var line, rest := s[..i], s[i + 1..];
      assert |rest| == 0 || rest[|rest| - 1] == '\n';
      JoinSplitLines(rest);
      var tail := SplitLines(rest);
      var ls := [line] + tail;
      assert SplitLines(s) == ls;
      assert ls[0] == line && ls[1..] == tail;
      assert JoinLines(ls) == line + "\n" + JoinLines(tail);
      CutAt(s, i);
    }
  }

  // ---------------------------------------------------------------------------
  // Text joined by the two-character sequence backslash, n
  // ---------------------------------------------------------------------------

  /** The separator `"\\n".join(...)` puts between description fields: a backslash and an `n`. */
  const EscapedNewline: string := "\\n"

  /** Python's `sep.join(parts)`. */
  function JoinWith(parts: seq<string>, sep: string): string {
    if |parts| == 0 then ""
    else if |parts| == 1 then parts[0]
    else parts[0] + sep + JoinWith(parts[1..], sep)
  }

  predicate HasEscapedNewline(s: string) {
    exists i :: 0 <= i < |s| - 1 && s[i] == '\\' && s[i + 1] == 'n'
  }

  /** The index of the first backslash-n pair in `s`, or `|s|` when there is none. */
  function FindEscapedNewline(s: string): (i: nat)
    ensures i <= |s|
    ensures i < |s| ==> i + 1 < |s| && s[i] == '\\' && s[i + 1] == 'n'
  {
    if |s| < 2 then |s|
    else if s[0] == '\\' && s[1] == 'n' then 0
    else 1 + FindEscapedNewline(s[1..])
  }

  /** Cuts a text at every backslash-n pair. */
  function SplitEscapedNewlines(s: string): (parts: seq<string>)
    ensures |parts| >= 1
    decreases |s|
  {
    var i := FindEscapedNewline(s);
    if i == |s| then [s] else [s[..i]] + SplitEscapedNewlines(s[i + 2..])
  }

  lemma {:induction false} FindEscapedNewlineSplit(p: string, rest: string)
    requires !HasEscapedNewline(p)
    ensures FindEscapedNewline(p + EscapedNewline + rest) == |p|
  {
    var s := p + EscapedNewline + rest;
    if |p| > 0 {
      assert s[0] == p[0];
      if |p| >= 2 {
        assert s[1] == p[1];
        assert !(p[0] == '\\' && p[1] == 'n');
      } else {
        assert s[1] == '\\';
      }
      assert !HasEscapedNewline(p[1..]) by {
        forall i | 0 <= i < |p[1..]| - 1
          ensures !(p[1..][i] == '\\' && p[1..][i + 1] == 'n')
        {
          assert p[1..][i] == p[i + 1] && p[1..][i + 1] == p[i + 2];
        }
      }
      FindEscapedNewlineSplit(p[1..], rest);
      assert s[1..] == p[1..] + EscapedNewline + rest;
    }
  }

  lemma FindEscapedNewlineAbsent(p: string)
    requires !HasEscapedNewline(p)
    ensures FindEscapedNewline(p) == |p|
  {
  }

  /** Splitting fields joined by backslash-n gives the fields back when none holds the pair itself. */
  lemma {:induction false} SplitJoinEscaped(parts: seq<string>)
    requires |parts| >= 1
    requires forall i :: 0 <= i < |parts| ==> !HasEscapedNewline(parts[i])
    ensures SplitEscapedNewlines(JoinWith(parts, EscapedNewline)) == parts
  {
    if |parts| == 1 {
      FindEscapedNewlineAbsent(parts[0]);
    } else {
      var first, tail := parts[0], parts[1..];
      var rest := JoinWith(tail, EscapedNewline);
      var s := first + EscapedNewline + rest;
      assert JoinWith(parts, EscapedNewline) == s;
      assert |EscapedNewline| == 2;
      FindEscapedNewlineSplit(first, rest);
      assert s[..|first|] == first;
      assert s[|first| + 2..] == rest;
      assert SplitEscapedNewlines(s) == [first] + SplitEscapedNewlines(rest);
      assert forall i :: 0 <= i < |tail| ==> tail[i] == parts[i + 1];
      SplitJoinEscaped(tail);
      assert parts == [first] + tail;
    }
  }
}
