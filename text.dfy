/** The parts of Python's `str` that the pipeline relies on: `in`, `startswith`,
    `strip`, `split(sep)[-1]`, line iteration, and decimal conversion both ways. */
module Text {
  import opened Wrappers

  /** `p` occurs in `s` starting at index `i`. */
  predicate OccursAt(s: string, p: string, i: int)
  {
    0 <= i && i + |p| <= |s| && s[i..i + |p|] == p
  }

  /** Python's `p in s`. */
  predicate Contains(s: string, p: string)
  {
    exists i | 0 <= i <= |s| - |p| :: OccursAt(s, p, i)
  }

  /** Python's `s.startswith(p)`. */
  predicate StartsWith(s: string, p: string)
  {
    |p| <= |s| && s[..|p|] == p
  }

  /** Python's `s.endswith(p)`. */
  predicate EndsWith(s: string, p: string)
  {
    |p| <= |s| && s[|s| - |p|..] == p
  }

  /** Concatenation regroups. Stated once: left to the solver inside a longer
      proof, the regrouping of strings built from literals is expensive. */
  lemma {:induction false} AppendAssoc<T>(a: seq<T>, b: seq<T>, c: seq<T>)
    ensures a + (b + c) == (a + b) + c
  {
  }

  lemma {:induction false} SliceLeft<T>(a: seq<T>, b: seq<T>, lo: nat, hi: nat)
    requires lo <= hi <= |a|
    ensures (a + b)[lo..hi] == a[lo..hi]
  {
  }

  lemma {:induction false} SliceRight<T>(a: seq<T>, b: seq<T>, lo: nat, hi: nat)
    requires |a| <= lo <= hi <= |a| + |b|
    ensures (a + b)[lo..hi] == b[lo - |a|..hi - |a|]
  {
  }

  lemma {:induction false} ContainsInfix(a: string, p: string, b: string)
    ensures Contains(a + p + b, p)
  {
    assert (a + p + b)[|a|..|a| + |p|] == p;
    assert OccursAt(a + p + b, p, |a|);
  }

  /** A string ending in `p` contains `p`. */
  lemma {:induction false} ContainsEnd(a: string, p: string)
    ensures Contains(a + p, p)
  {
    assert (a + p)[|a|..|a| + |p|] == p;
    assert OccursAt(a + p, p, |a|);
  }

  /** Appending text keeps every occurrence. */
  lemma {:induction false} ContainsGrow(s: string, t: string, p: string)
    requires Contains(s, p)
    ensures Contains(s + t, p)
  {
    var i :| 0 <= i <= |s| - |p| && OccursAt(s, p, i);
    assert (s + t)[i..i + |p|] == s[i..i + |p|];
    assert OccursAt(s + t, p, i);
  }

  /** A pattern holding a character that `s` lacks does not occur in `s`. */
  lemma {:induction false} MissingChar(s: string, p: string, c: char)
    requires c in p && c !in s
    ensures !Contains(s, p)
  {
    var k :| 0 <= k < |p| && p[k] == c;
    forall i | 0 <= i <= |s| - |p|
      ensures !OccursAt(s, p, i)
    {
      assert s[i..i + |p|][k] == s[i + k];
      assert s[i + k] in s;
    }
  }

  /** When the first character of `p` is absent from `a`, every occurrence of `p`
      in `a + b` starts inside `b`. */
  lemma {:induction false} StartsInTail(a: string, b: string, p: string)
    requires p != [] && p[0] !in a
    ensures Contains(a + b, p) ==> Contains(b, p)
  {
    forall j | 0 <= j < |a|
      ensures (a + b)[j] != p[0]
    {
      assert (a + b)[j] == a[j] && a[j] in a;
    }
    if Contains(a + b, p) {
      var i :| 0 <= i <= |a + b| - |p| && OccursAt(a + b, p, i);
      assert (a + b)[i..i + |p|][0] == (a + b)[i];
      assert (a + b)[i..i + |p|] == b[i - |a|..i - |a| + |p|];
      assert OccursAt(b, p, i - |a|);
    }
  }

  /** When the last character of `a` occurs in `p` only as its final character,
      no occurrence of `p` in `a + b` straddles the seam. */
  lemma {:induction false} NoStraddle(a: string, b: string, p: string)
    requires a != [] && p != [] && a[|a| - 1] !in p[..|p| - 1]
    ensures Contains(a + b, p) ==> Contains(a, p) || Contains(b, p)
  {
    forall i | 0 <= i < |a| < i + |p| <= |a + b|
      ensures !OccursAt(a + b, p, i)
    {
      var m := |a| - 1 - i;
      assert (a + b)[i..i + |p|][m] == a[|a| - 1];
      assert p[..|p| - 1][m] == p[m];
    }
    if Contains(a + b, p) {
      var i :| 0 <= i <= |a + b| - |p| && OccursAt(a + b, p, i);
      if i + |p| <= |a| {
        assert (a + b)[i..i + |p|] == a[i..i + |p|];
        assert OccursAt(a, p, i);
      } else {
        assert (a + b)[i..i + |p|] == b[i - |a|..i - |a| + |p|];
        assert OccursAt(b, p, i - |a|);
      }
    }
  }

  /** Absence of a pattern is inherited by every slice. */
  lemma {:induction false} AbsentInSlice(s: string, p: string, lo: int, hi: int)
    requires 0 <= lo <= hi <= |s| && !Contains(s, p)
    ensures !Contains(s[lo..hi], p)
  {
    forall i | 0 <= i <= hi - lo - |p|
      ensures !OccursAt(s[lo..hi], p, i)
    {
      var t := s[lo..hi][i..i + |p|];
      assert forall k :: 0 <= k < |t| ==> t[k] == s[lo + i + k];
      assert t == s[lo + i..lo + i + |p|];
      assert !OccursAt(s, p, lo + i);
    }
  }

  /** Absence of a pattern in both halves, with no occurrence across the seam. */
  lemma {:induction false} AbsentInConcat(a: string, b: string, p: string)
    requires a != [] && p != [] && a[|a| - 1] !in p[..|p| - 1]
    requires !Contains(a, p) && !Contains(b, p)
    ensures !Contains(a + b, p)
  {
    NoStraddle(a, b, p);
  }

  // ---------------------------------------------------------------- strip

  /** Python's `str.isspace` for one character. */
  predicate IsSpace(c: char)
  {
    c == ' ' || '\t' <= c <= '\r' || '\U{1c}' <= c <= '\U{1f}' || c == '\U{85}' || c == '\U{a0}'
    || c == '\U{1680}' || '\U{2000}' <= c <= '\U{200a}' || c == '\U{2028}' || c == '\U{2029}'
    || c == '\U{202f}' || c == '\U{205f}' || c == '\U{3000}'
  }

  /** Python's `s.lstrip()`: the suffix left after dropping leading whitespace. */
  function LStrip(s: string): (r: string)
    ensures |r| <= |s|
    decreases |s|
  {
    if s != [] && IsSpace(s[0]) then LStrip(s[1..]) else s
  }

  /** What `lstrip` removes is a run of whitespace, and what it keeps does not
      start with whitespace. */
  lemma {:induction false} LStripSpec(s: string)
    ensures var r := LStrip(s);
            && r == s[|s| - |r|..]
            && (forall k :: 0 <= k < |s| - |r| ==> IsSpace(s[k]))
            && (r == [] || !IsSpace(r[0]))
    decreases |s|
  {
    if s != [] && IsSpace(s[0]) {
      LStripSpec(s[1..]);
    }
  }

  /** Python's `s.rstrip()`: the prefix left after dropping trailing whitespace. */
  function RStrip(s: string): (r: string)
    ensures |r| <= |s|
    decreases |s|
  {
    if s != [] && IsSpace(s[|s| - 1]) then RStrip(s[..|s| - 1]) else s
  }

  /** What `rstrip` removes is a run of whitespace, and what it keeps does not
      end with whitespace. */
  lemma {:induction false} RStripSpec(s: string)
    ensures var r := RStrip(s);
            && r == s[..|r|]
            && (forall k :: |r| <= k < |s| ==> IsSpace(s[k]))
            && (r == [] || !IsSpace(r[|r| - 1]))
    decreases |s|
  {
    if s != [] && IsSpace(s[|s| - 1]) {
      RStripSpec(s[..|s| - 1]);
    }
  }

  /** Python's `s.strip()`. */
  function Strip(s: string): (r: string)
  {
    RStrip(LStrip(s))
  }

  /** Stripping a string that has no whitespace at either end changes nothing, and
      leading blanks in front of such a string are all removed. */
  lemma {:induction false} StripAfterBlanks(pad: string, s: string)
    requires forall k :: 0 <= k < |pad| ==> IsSpace(pad[k])
    requires s != [] && !IsSpace(s[0]) && !IsSpace(s[|s| - 1])
    ensures Strip(pad + s) == s
    decreases |pad|
  {
    if pad == [] {
      assert pad + s == s;
    } else {
      assert (pad + s)[1..] == pad[1..] + s;
      StripAfterBlanks(pad[1..], s);
    }
  }

  // ------------------------------------------------------------ split

  /** The largest index `k <= hi` at which `p` occurs in `s`, or -1. */
  function LastOccurrence(s: string, p: string, hi: int): (k: int)
    requires -1 <= hi
    ensures -1 <= k <= hi
    ensures k >= 0 ==> OccursAt(s, p, k)
    ensures forall j :: k < j <= hi ==> !OccursAt(s, p, j)
    decreases hi + 1
  {
    if hi < 0 then -1 else if OccursAt(s, p, hi) then hi else LastOccurrence(s, p, hi - 1)
  }

  /** Python's `s.split(p)[-1]` for a separator that cannot overlap itself (such as
      "bytes:"): the text after the rightmost occurrence of `p`, or all of `s`. */
  function AfterLast(s: string, p: string): (r: string)
    requires p != []
    ensures |r| <= |s|
  {
    var k := if |p| > |s| then -1 else LastOccurrence(s, p, |s| - |p|);
    if k < 0 then s else s[k + |p|..]
  }

  /** The text after the last occurrence is a suffix that follows an occurrence
      of `p` and holds none; without an occurrence it is the whole string. */
  lemma {:induction false} AfterLastSpec(s: string, p: string)
    requires p != []
    ensures var r := AfterLast(s, p);
            && r == s[|s| - |r|..]
            && (!Contains(s, p) ==> r == s)
            && (Contains(s, p) ==> |s| - |r| >= |p| && OccursAt(s, p, |s| - |r| - |p|) && !Contains(r, p))
  {
    var k := if |p| > |s| then -1 else LastOccurrence(s, p, |s| - |p|);
    if k >= 0 {
      AfterOccurrence(s, p, k);
    } else {
      assert !Contains(s, p);
    }
  }

  lemma {:induction false} AfterOccurrence(s: string, p: string, k: nat)
    requires p != [] && k + |p| <= |s| && OccursAt(s, p, k)
    requires forall j :: k < j <= |s| - |p| ==> !OccursAt(s, p, j)
    ensures !Contains(s[k + |p|..], p)
  {
    var r := s[k + |p|..];
    forall j | 0 <= j <= |r| - |p|
      ensures !OccursAt(r, p, j)
    {
      assert r[j..j + |p|] == s[k + |p| + j..k + |p| + j + |p|];
      assert !OccursAt(s, p, k + |p| + j);
    }
  }

  /** The text after the last occurrence of `p` in `a + p + b` is `b`, provided `p`
      does not occur in `b` and no occurrence starts inside `p + b` after its head. */
  lemma {:induction false} AfterLastInfix(a: string, p: string, b: string)
    requires p != [] && !Contains(b, p)
    requires forall j :: 0 < j < |p| ==> !OccursAt(p + b, p, j)
    ensures AfterLast(a + p + b, p) == b
  {
    var s := a + p + b;
    assert s[|a|..|a| + |p|] == p;
    assert OccursAt(s, p, |a|);
    forall j | |a| < j <= |s| - |p|
      ensures !OccursAt(s, p, j)
    {
      if j < |a| + |p| {
        assert s[j..j + |p|] == (p + b)[j - |a|..j - |a| + |p|];
        assert !OccursAt(p + b, p, j - |a|);
      } else {
        assert s[j..j + |p|] == b[j - |a| - |p|..j - |a|];
        assert !OccursAt(b, p, j - |a| - |p|);
      }
    }
    assert LastOccurrence(s, p, |s| - |p|) == |a|;
    assert s[|a| + |p|..] == b;
  }

  // ------------------------------------------------------- line iteration

  /** Index of the first line terminator ('\n' or '\r') at or after `i`, or `|t|`. */
  function LineEnd(t: string, i: nat): (k: nat)
    requires i <= |t|
    ensures i <= k <= |t|
    ensures forall j :: i <= j < k ==> t[j] != '\n' && t[j] != '\r'
    ensures k < |t| ==> t[k] == '\n' || t[k] == '\r'
    decreases |t| - i
  {
    if i == |t| || t[i] == '\n' || t[i] == '\r' then i else LineEnd(t, i + 1)
  }

  /** The lines Python yields when iterating over a file opened in text mode
      (universal newlines: "\n", "\r" and "\r\n" all end a line), with the
      terminators removed. */
  function SplitLines(t: string): (ls: seq<string>)
    ensures forall l :: l in ls ==> '\n' !in l && '\r' !in l
    decreases |t|
  {
    if t == [] then []
    else
      var k := LineEnd(t, 0);
      var line := t[..k];
      assert forall j :: 0 <= j < |line| ==> line[j] == t[j];
      if k == |t| then [line]
      else
        var next := if t[k] == '\r' && k + 1 < |t| && t[k + 1] == '\n' then k + 2 else k + 1;
        [line] + SplitLines(t[next..])
  }

  /** A line free of terminators followed by "\r\n" is read back as one line. */
  lemma {:induction false} SplitLinesCrLf(l: string, rest: string)
    requires '\n' !in l && '\r' !in l
    ensures SplitLines(l + "\r\n" + rest) == [l] + SplitLines(rest)
  {
    var t := l + "\r\n" + rest;
    assert forall j :: 0 <= j < |l| ==> t[j] == l[j];
    assert t[|l|] == '\r' && t[|l| + 1] == '\n';
    var k := LineEnd(t, 0);
    assert k == |l|;
    assert t[..k] == l;
    assert t[k + 2..] == rest;
  }

  /** A line that holds no character universal newlines end a line at. */
  predicate NoBreak(l: string)
  {
    '\n' !in l && '\r' !in l
  }

  /** The text of a file written line by line, each line followed by "\n". */
  function Unlines(ls: seq<string>): (t: string)
    ensures |t| >= |ls|
  {
    if ls == [] then [] else ls[0] + "\n" + Unlines(ls[1..])
  }

  /** A line free of terminators followed by "\n" is read back as one line. */
  lemma {:induction false} SplitLinesLf(l: string, rest: string)
    requires '\n' !in l && '\r' !in l
    ensures SplitLines(l + "\n" + rest) == [l] + SplitLines(rest)
  {
    var t := l + "\n" + rest;
    assert forall j :: 0 <= j < |l| ==> t[j] == l[j];
    assert t[|l|] == '\n';
    var k := LineEnd(t, 0);
    assert k == |l|;
    assert t[..k] == l;
    assert t[k + 1..] == rest;
  }

  /** A bare carriage return, not followed by "\n", also ends a line. */
  lemma {:induction false} SplitLinesCr(l: string, rest: string)
    requires NoBreak(l) && (rest == [] || rest[0] != '\n')
    ensures SplitLines(l + "\r" + rest) == [l] + SplitLines(rest)
  {
    var t := l + "\r" + rest;
    assert forall j :: 0 <= j < |l| ==> t[j] == l[j];
    assert t[|l|] == '\r';
    var k := LineEnd(t, 0);
    assert k == |l|;
    assert t[..k] == l;
    assert t[k + 1..] == rest;
  }

  /** Lines without terminators, written out and read back, are the same lines. */
  lemma {:induction false} SplitUnlines(ls: seq<string>)
    requires forall k :: 0 <= k < |ls| ==> NoBreak(ls[k])
    ensures SplitLines(Unlines(ls)) == ls
  {
    if ls != [] {
      SplitUnlines(ls[1..]);
      SplitLinesLf(ls[0], Unlines(ls[1..]));
    }
  }

  /** A pattern absent from a file's text is absent from each of its lines. */
  lemma {:induction false} AbsentInLines(t: string, p: string)
    requires !Contains(t, p)
    ensures forall l :: l in SplitLines(t) ==> !Contains(l, p)
    decreases |t|
  {
    if t != [] {
      var k := LineEnd(t, 0);
      AbsentInSlice(t, p, 0, k);
      if k < |t| {
        var next := if t[k] == '\r' && k + 1 < |t| && t[k + 1] == '\n' then k + 2 else k + 1;
        AbsentInSlice(t, p, next, |t|);
        assert t[next..][..] == t[next..|t|];
        AbsentInLines(t[next..], p);
      }
    }
  }

  // ------------------------------------------------- regular expressions

  /** How far `.*` or `.+` can reach from `i`: up to the first newline. */
  function DotEnd(t: string, i: nat): (k: nat)
    requires i <= |t|
    ensures i <= k <= |t|
    ensures forall j :: i <= j < k ==> t[j] != '\n'
    ensures k < |t| ==> t[k] == '\n'
    decreases |t| - i
  {
    if i < |t| && t[i] != '\n' then DotEnd(t, i + 1) else i
  }

  /** Whether the text character `c` matches the pattern character `p`, written in
      lower case, under `re.IGNORECASE`: `p` itself, its ASCII capital, and the
      characters whose lower-case form Python's matcher also takes as `p` (U+0130 and
      U+0131 for 'i', U+017F for 's', the Kelvin sign U+212A for 'k'). */
  predicate FoldMatch(c: char, p: char)
  {
    c == p
    || ('a' <= p <= 'z' && c as int == p as int - 32)
    || (p == 'i' && (c == '\U{130}' || c == '\U{131}'))
    || (p == 's' && c == '\U{17f}')
    || (p == 'k' && c == '\U{212a}')
  }

  /** `a` matches the lower-case pattern `p` character by character, ignoring case. */
  predicate FoldEq(a: string, p: string)
  {
    |a| == |p| && forall k :: 0 <= k < |p| ==> FoldMatch(a[k], p[k])
  }

  /** `p` occurs in `s` at `i`, ignoring case. */
  predicate FoldedAt(s: string, p: string, i: int)
  {
    0 <= i && i + |p| <= |s| && FoldEq(s[i..i + |p|], p)
  }

  /** What `strip` keeps is a piece of the original string. */
  lemma {:induction false} StripContained(s: string)
    ensures Contains(s, Strip(s))
  {
    var l := LStrip(s);
    var r := Strip(s);
    LStripSpec(s);
    RStripSpec(l);
    var a := |s| - |l|;
    assert s[a..a + |r|] == r;
    assert OccursAt(s, r, a);
  }

  /** A piece of a piece of `s` is a piece of `s`. */
  lemma {:induction false} ContainsWithin(s: string, lo: nat, hi: nat, p: string)
    requires lo <= hi <= |s|
    requires Contains(s[lo..hi], p)
    ensures Contains(s, p)
  {
    var i :| 0 <= i <= |s[lo..hi]| - |p| && OccursAt(s[lo..hi], p, i);
    forall k | 0 <= k < |p|
      ensures s[lo + i..lo + i + |p|][k] == p[k]
    {
      assert s[lo..hi][i..i + |p|][k] == p[k];
    }
    assert OccursAt(s, p, lo + i);
  }

  // ------------------------------------------------------------- decimals

  predicate IsDigit(c: char)
  {
    '0' <= c <= '9'
  }

  function DigitChar(d: int): (c: char)
    requires 0 <= d < 10
    ensures IsDigit(c) && c as int - '0' as int == d
  {
    ('0' as int + d) as char
  }

  /** Python's `str(n)` for a non-negative integer. */
  function NatToString(n: nat): (r: string)
    ensures r != []
    decreases n
  {
    if n < 10 then [DigitChar(n)] else NatToString(n / 10) + [DigitChar(n % 10)]
  }

  /** `str(n)` of a natural number is made of decimal digits only. */
  lemma {:induction false} NatToStringDigits(n: nat)
    ensures forall k :: 0 <= k < |NatToString(n)| ==> IsDigit(NatToString(n)[k])
    decreases n
  {
    if n >= 10 {
      NatToStringDigits(n / 10);
    }
  }

  /** Python's `str(n)` for any integer. */
  function IntToString(n: int): (r: string)
    ensures r != []
  {
    if n < 0 then "-" + NatToString(-n) else NatToString(n)
  }

  /** `str(n)` is made of decimal digits and a leading minus sign at most. */
  lemma {:induction false} IntToStringDigits(n: int)
    ensures forall k :: 0 <= k < |IntToString(n)| ==> IsDigit(IntToString(n)[k]) || IntToString(n)[k] == '-'
  {
    NatToStringDigits(if n < 0 then -n else n);
  }

  /** The value of a string of decimal digits, most significant first. */
  function DigitsValue(s: string): nat
    requires forall k :: 0 <= k < |s| ==> IsDigit(s[k])
  {
    if s == [] then 0
    else
      assert IsDigit(s[|s| - 1]);
      10 * DigitsValue(s[..|s| - 1]) + (s[|s| - 1] as int - '0' as int)
  }

  /** The body of Python's `int(s)` after the sign: digits, with single underscores
      allowed between digits. */
  predicate WellFormedDigits(s: string)
  {
    s != [] && IsDigit(s[0]) && IsDigit(s[|s| - 1])
    && (forall k :: 0 <= k < |s| ==> IsDigit(s[k]) || s[k] == '_')
    && (forall k :: 0 <= k < |s| - 1 ==> !(s[k] == '_' && s[k + 1] == '_'))
  }

  /** The digits of `s` with the underscores removed. */
  function DropUnderscores(s: string): (r: string)
    requires forall k :: 0 <= k < |s| ==> IsDigit(s[k]) || s[k] == '_'
    ensures forall k :: 0 <= k < |r| ==> IsDigit(r[k])
    ensures (forall k :: 0 <= k < |s| ==> IsDigit(s[k])) ==> r == s
  {
    if s == [] then []
    else if s[0] == '_' then DropUnderscores(s[1..])
    else [s[0]] + DropUnderscores(s[1..])
  }

  /** The value of an `int()` body without its sign, or `None` when it is not
      well formed. */
  function ParseDigits(body: string): Option<nat>
  {
    if WellFormedDigits(body) then Some(DigitsValue(DropUnderscores(body))) else None
  }

  /** Python's `int(s)` on an already stripped string: an optional sign, then
      decimal digits with single underscores between them; anything else raises,
      modelled as `None`. */
  function ParseInt(s: string): (r: Option<int>)
  {
    var signed := s != [] && (s[0] == '-' || s[0] == '+');
    match ParseDigits(if signed then s[1..] else s)
    case Some(v) => var n: int := v; Some(if signed && s[0] == '-' then -n else n)
    case None => None
  }

  lemma {:induction false} DigitsValueOfNat(n: nat)
    ensures (forall k :: 0 <= k < |NatToString(n)| ==> IsDigit(NatToString(n)[k]))
            && DigitsValue(NatToString(n)) == n
    decreases n
  {
    NatToStringDigits(n);
    if n >= 10 {
      var r := NatToString(n);
      assert r[..|r| - 1] == NatToString(n / 10);
      DigitsValueOfNat(n / 10);
    }
  }

  /** `str(n)` is a well-formed `int()` body whose value is `n`. */
  lemma {:induction false} NatToStringParses(n: nat)
    ensures ParseDigits(NatToString(n)) == Some(n)
  {
    var r := NatToString(n);
    DigitsValueOfNat(n);
    assert IsDigit(r[0]);
    assert WellFormedDigits(r);
  }

  /** `int(str(n)) == n` for every non-negative integer. */
  lemma {:induction false} ParseNatToString(n: nat)
    ensures ParseInt(NatToString(n)) == Some(n)
  {
    var r := NatToString(n);
    NatToStringParses(n);
    DigitsValueOfNat(n);
    assert IsDigit(r[0]);
  }

  /** A minus sign before a body of value `v` parses as `-v`. */
  lemma {:induction false} ParseNegative(body: string, v: nat)
    requires ParseDigits(body) == Some(v)
    ensures ParseInt("-" + body) == Some(-(v as int))
  {
    var s := "-" + body;
    assert s[0] == '-' && s[1..] == body;
  }

  /** `int(str(n)) == n` for every integer. */
  lemma {:induction false} ParseIntToString(n: int)
    ensures ParseInt(IntToString(n)) == Some(n)
  {
    if n < 0 {
      NatToStringParses(-n);
      ParseNegative(NatToString(-n), -n);
    } else {
      ParseNatToString(n);
    }
  }
}
