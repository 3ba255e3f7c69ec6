/** Python `bytes` values, their `repr` as CPython prints it, and the evaluation
    of a bytes literal that the transcript readers perform with `eval`. */
module PyBytes {
  import opened Wrappers

  /** One byte of a Python `bytes` value. */
  type byte = x: int | 0 <= x < 256

  const Backslash: byte := 0x5c
  const SingleQuote: byte := 0x27
  const DoubleQuote: byte := 0x22

  function HexDigit(d: int): (c: char)
    requires 0 <= d < 16
  {
    if d < 10 then ('0' as int + d) as char else ('a' as int + d - 10) as char
  }

  /** The value of a hexadecimal digit of either case, or -1. */
  function HexValue(c: char): (v: int)
    ensures -1 <= v < 16
  {
    if '0' <= c <= '9' then c as int - '0' as int
    else if 'a' <= c <= 'f' then c as int - 'a' as int + 10
    else if 'A' <= c <= 'F' then c as int - 'A' as int + 10
    else -1
  }

  predicate IsOctalDigit(c: char)
  {
    '0' <= c <= '7'
  }

  // ------------------------------------------------------------------ repr

  /** The quote CPython's `bytes.__repr__` chooses: a double quote exactly when the
      value holds a single quote and no double quote. */
  function QuoteFor(b: seq<byte>): (q: char)
    ensures q == '\'' || q == '"'
    ensures q == '"' <==> SingleQuote in b && DoubleQuote !in b
  {
    if SingleQuote in b && DoubleQuote !in b then '"' else '\''
  }

  /** How one byte is written inside a repr delimited by `q`. */
  function EscapeByte(x: byte, q: char): (r: string)
    requires q == '\'' || q == '"'
    ensures 1 <= |r| <= 4
    ensures r[0] == '\\' || (0x20 <= x < 0x7f && r == [x as char])
    ensures forall k :: 0 <= k < |r| ==> 0x20 <= r[k] as int < 0x7f
  {
    if x == q as int || x == Backslash then ['\\', x as char]
    else if x == 0x09 then "\\t"
    else if x == 0x0a then "\\n"
    else if x == 0x0d then "\\r"
    else if x < 0x20 || x >= 0x7f then ['\\', 'x', HexDigit(x / 16), HexDigit(x % 16)]
    else [x as char]
  }

  function EscapeAll(b: seq<byte>, q: char): (r: string)
    requires q == '\'' || q == '"'
    ensures |b| <= |r| <= 4 * |b|
  {
    if b == [] then "" else EscapeByte(b[0], q) + EscapeAll(b[1..], q)
  }

  lemma {:induction false} EscapeAllPrintable(b: seq<byte>, q: char)
    requires q == '\'' || q == '"'
    ensures forall k :: 0 <= k < |EscapeAll(b, q)| ==> 0x20 <= EscapeAll(b, q)[k] as int < 0x7f
  {
    if b != [] {
      EscapeAllPrintable(b[1..], q);
    }
  }

  /** CPython's `repr(b)` for a `bytes` value. */
  function Repr(b: seq<byte>): (r: string)
    ensures |r| >= 3 && r[0] == 'b' && r[1] == QuoteFor(b) && r[|r| - 1] == QuoteFor(b)
  {
    var q := QuoteFor(b);
    ['b', q] + EscapeAll(b, q) + [q]
  }

  /** A repr is printable ASCII, so it holds no line break. */
  lemma {:induction false} ReprPrintable(b: seq<byte>)
    ensures forall k :: 0 <= k < |Repr(b)| ==> 0x20 <= Repr(b)[k] as int < 0x7f
  {
    EscapeAllPrintable(b, QuoteFor(b));
  }

  // ------------------------------------------------------------------ eval

  function Prepend(x: byte, rest: Option<seq<byte>>): (r: Option<seq<byte>>)
    ensures r.Some? <==> rest.Some?
    ensures r.Some? ==> r.value == [x] + rest.value
  {
    if rest.Some? then Some([x] + rest.value) else None
  }

  /** The byte a one-character escape stands for, or -1 when the escape is not one
      of Python's (`\\`, `\'`, `\"`, `\a`, `\b`, `\f`, `\n`, `\r`, `\t`, `\v`). */
  function SimpleEscape(e: char): (v: int)
    ensures -1 <= v < 256
  {
    match e
    case '\\' => 0x5c
    case '\'' => 0x27
    case '"' => 0x22
    case 'a' => 0x07
    case 'b' => 0x08
    case 'f' => 0x0c
    case 'n' => 0x0a
    case 'r' => 0x0d
    case 't' => 0x09
    case 'v' => 0x0b
    case _ => -1
  }

  /** The number of octal digits (one to three) that start `s`. */
  function OctalRun(s: string): (n: nat)
    requires s != [] && IsOctalDigit(s[0])
    ensures 1 <= n <= 3 && n <= |s|
    ensures forall k :: 0 <= k < n ==> IsOctalDigit(s[k])
  {
    if |s| >= 2 && IsOctalDigit(s[1]) then
      if |s| >= 3 && IsOctalDigit(s[2]) then 3 else 2
    else 1
  }

  function OctalValue(s: string): nat
    requires forall k :: 0 <= k < |s| ==> IsOctalDigit(s[k])
  {
    if s == [] then 0
    else
      assert IsOctalDigit(s[|s| - 1]);
      8 * OctalValue(s[..|s| - 1]) + (s[|s| - 1] as int - '0' as int)
  }

  /** The bytes that the body of a literal delimited by `q` denotes, or `None` when
      evaluating it raises: an unescaped `q` before the end, a trailing lone
      backslash, a malformed `\x` escape, or a character outside ASCII.  Octal
      escapes keep the low eight bits; an unknown escape keeps its backslash. */
  function DecodeBody(s: string, q: char): (r: Option<seq<byte>>)
    ensures r.Some? ==> |r.value| <= |s|
    decreases |s|
  {
    if s == [] then Some([])
    else if s[0] == q then None
    else if s[0] == '\\' then
      if |s| == 1 then None
      else if s[1] == 'x' then
        if |s| >= 4 && HexValue(s[2]) >= 0 && HexValue(s[3]) >= 0 then
          Prepend(16 * HexValue(s[2]) + HexValue(s[3]), DecodeBody(s[4..], q))
        else None
      else if IsOctalDigit(s[1]) then
        var n := OctalRun(s[1..]);
        Prepend(OctalValue(s[1..1 + n]) % 256, DecodeBody(s[1 + n..], q))
      else if SimpleEscape(s[1]) >= 0 then
        Prepend(SimpleEscape(s[1]), DecodeBody(s[2..], q))
      else
        Prepend(Backslash, DecodeBody(s[1..], q))
    else if s[0] as int < 0x80 then
      Prepend(s[0] as int, DecodeBody(s[1..], q))
    else None
  }

  /** Python's `eval(s)` when `s` is a single bytes literal `b'...'` or `b"..."`;
      anything else is reported as a failed evaluation. */
  function EvalLiteral(s: string): (r: Option<seq<byte>>)
    ensures r.Some? ==> |s| >= 3 && s[0] == 'b' && s[1] == s[|s| - 1] && |r.value| <= |s| - 3
  {
    if |s| >= 3 && s[0] == 'b' && (s[1] == '\'' || s[1] == '"') && s[|s| - 1] == s[1] then
      DecodeBody(s[2..|s| - 1], s[1])
    else None
  }

  // ------------------------------------------------------------ round trip

  lemma {:induction false} HexRoundTrip(x: byte)
    ensures HexValue(HexDigit(x / 16)) == x / 16 && HexValue(HexDigit(x % 16)) == x % 16
  {
  }

  /** A `\xhh` escape decodes to its byte. */
  lemma {:induction false} DecodeHexEscape(x: byte, q: char, t: string)
    requires q == '\'' || q == '"'
    ensures DecodeBody(['\\', 'x', HexDigit(x / 16), HexDigit(x % 16)] + t, q) == Prepend(x, DecodeBody(t, q))
  {
    var s := ['\\', 'x', HexDigit(x / 16), HexDigit(x % 16)] + t;
    HexRoundTrip(x);
    assert s[0] == '\\' && s[1] == 'x' && s[4..] == t;
    assert 16 * (x / 16) + x % 16 == x;
  }

  /** Decoding the escape of one byte consumes exactly that escape. */
  lemma {:induction false} DecodeEscapeByte(x: byte, q: char, t: string)
    requires q == '\'' || q == '"'
    ensures DecodeBody(EscapeByte(x, q) + t, q) == Prepend(x, DecodeBody(t, q))
  {
    var e := EscapeByte(x, q);
    var s := e + t;
    if x == q as int || x == Backslash {
      assert s[0] == '\\' && s[1] == x as char && s[2..] == t;
    } else if x == 0x09 || x == 0x0a || x == 0x0d {
      assert s[0] == '\\' && s[2..] == t;
    } else if x < 0x20 || x >= 0x7f {
      DecodeHexEscape(x, q, t);
    } else {
      assert s[0] == x as char && s[1..] == t;
    }
  }

  lemma {:induction false} DecodeEscapeAll(b: seq<byte>, q: char)
    requires q == '\'' || q == '"'
    ensures DecodeBody(EscapeAll(b, q), q) == Some(b)
  {
    if b != [] {
      DecodeEscapeAll(b[1..], q);
      DecodeEscapeByte(b[0], q, EscapeAll(b[1..], q));
      assert [b[0]] + b[1..] == b;
    }
  }

  /** `eval(repr(b)) == b` for every bytes value `b`. */
  lemma {:induction false} EvalRepr(b: seq<byte>)
    ensures EvalLiteral(Repr(b)) == Some(b)
  {
    var q := QuoteFor(b);
    var r := Repr(b);
    assert r[2..|r| - 1] == EscapeAll(b, q);
    DecodeEscapeAll(b, q);
  }

  /** The length the readers recover from a repr is the length of the value. */
  lemma {:induction false} EvalReprLength(b: seq<byte>)
    ensures EvalLiteral(Repr(b)).Some? && |EvalLiteral(Repr(b)).value| == |b|
  {
    EvalRepr(b);
  }
}
