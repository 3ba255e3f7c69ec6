/** UTF-8 as Python applies it: `str.encode("utf-8", errors="ignore")` and
    `bytes.decode("utf-8", errors="ignore")`. */
module Utf8 {
  import opened PyBytes

  predicate IsContinuation(x: byte)
  {
    0x80 <= x < 0xc0
  }

  /** The UTF-8 encoding of one Unicode scalar value. */
  function EncodeChar(c: char): (r: seq<byte>)
    ensures 1 <= |r| <= 4
    ensures (c as int < 0x80) <==> r == [c as int]
  {
    var n := c as int;
    if n < 0x80 then [n]
    else if n < 0x800 then [0xc0 + n / 64, 0x80 + n % 64]
    else if n < 0x10000 then [0xe0 + n / 4096, 0x80 + (n / 64) % 64, 0x80 + n % 64]
    else [0xf0 + n / 262144, 0x80 + (n / 4096) % 64, 0x80 + (n / 64) % 64, 0x80 + n % 64]
  }

  /** `s.encode("utf-8", errors="ignore")`; a Dafny string holds no lone surrogates,
      so nothing is dropped. */
  function Encode(s: string): (r: seq<byte>)
    ensures |s| <= |r| <= 4 * |s|
  {
    if s == [] then [] else EncodeChar(s[0]) + Encode(s[1..])
  }

  predicate IsAscii(s: string)
  {
    forall k :: 0 <= k < |s| ==> s[k] as int < 0x80
  }

  /** `b.decode("utf-8", errors="ignore")`: well-formed sequences become characters,
      and every byte that cannot start one (a stray continuation byte, an overlong
      or surrogate form, a truncated sequence) is dropped. */
  function DecodeIgnore(b: seq<byte>): (r: string)
    ensures |r| <= |b|
    decreases |b|
  {
    if b == [] then ""
    else
      var b0: int := b[0];
      if b0 < 0x80 then [b0 as char] + DecodeIgnore(b[1..])
      else if 0xc2 <= b0 < 0xe0 && |b| >= 2 && IsContinuation(b[1]) then
        [((b0 - 0xc0) * 64 + (b[1] as int - 0x80)) as char] + DecodeIgnore(b[2..])
      else if 0xe0 <= b0 < 0xf0 && |b| >= 3 && IsContinuation(b[1]) && IsContinuation(b[2])
        && (b0 != 0xe0 || b[1] >= 0xa0) && (b0 != 0xed || b[1] < 0xa0) then
        var v := (b0 - 0xe0) * 4096 + (b[1] as int - 0x80) * 64 + (b[2] as int - 0x80);
        assert 0x800 <= v < 0xd800 || 0xe000 <= v < 0x10000;
        [v as char] + DecodeIgnore(b[3..])
      else if 0xf0 <= b0 < 0xf5 && |b| >= 4 && IsContinuation(b[1]) && IsContinuation(b[2])
        && IsContinuation(b[3]) && (b0 != 0xf0 || b[1] >= 0x90) && (b0 != 0xf4 || b[1] < 0x90) then
        var v := (b0 - 0xf0) * 262144 + (b[1] as int - 0x80) * 4096 + (b[2] as int - 0x80) * 64 + (b[3] as int - 0x80);
        assert 0x10000 <= v < 0x110000;
        [v as char] + DecodeIgnore(b[4..])
      else DecodeIgnore(b[1..])
  }

  lemma {:induction false} DecodeTwo(c: char, t: seq<byte>)
    requires 0x80 <= c as int < 0x800
    ensures DecodeIgnore(EncodeChar(c) + t) == [c] + DecodeIgnore(t)
  {
    var n := c as int;
    var s := EncodeChar(c) + t;
    assert s[2..] == t;
    assert (n / 64) * 64 + n % 64 == n;
  }

  lemma {:induction false} DecodeThree(c: char, t: seq<byte>)
    requires 0x800 <= c as int < 0x10000
    ensures DecodeIgnore(EncodeChar(c) + t) == [c] + DecodeIgnore(t)
  {
    var n := c as int;
    var s := EncodeChar(c) + t;
    assert s[3..] == t;
    assert (n / 4096) * 4096 + ((n / 64) % 64) * 64 + n % 64 == n;
  }

  lemma {:induction false} DecodeFour(c: char, t: seq<byte>)
    requires 0x10000 <= c as int
    ensures DecodeIgnore(EncodeChar(c) + t) == [c] + DecodeIgnore(t)
  {
    var n := c as int;
    var s := EncodeChar(c) + t;
    assert s[4..] == t;
    var hi, b1, b2, b3 := n / 262144, (n / 4096) % 64, (n / 64) % 64, n % 64;
    assert n / 64 == (n / 4096) * 64 + b2;
    assert n / 4096 == hi * 64 + b1;
    assert n == hi * 262144 + b1 * 4096 + b2 * 64 + b3;
    assert s[0] == 0xf0 + hi && s[1] == 0x80 + b1 && s[2] == 0x80 + b2 && s[3] == 0x80 + b3;
  }

  /** Decoding the encoding of one character yields that character and leaves the
      rest untouched. */
  lemma {:induction false} DecodeEncodeChar(c: char, t: seq<byte>)
    ensures DecodeIgnore(EncodeChar(c) + t) == [c] + DecodeIgnore(t)
  {
    var n := c as int;
    if n < 0x80 {
      assert (EncodeChar(c) + t)[1..] == t;
    } else if n < 0x800 {
      DecodeTwo(c, t);
    } else if n < 0x10000 {
      DecodeThree(c, t);
    } else {
      DecodeFour(c, t);
    }
  }

  /** `s.encode().decode() == s` for every string. */
  lemma {:induction false} DecodeEncode(s: string)
    ensures DecodeIgnore(Encode(s)) == s
  {
    if s != [] {
      DecodeEncodeChar(s[0], Encode(s[1..]));
      DecodeEncode(s[1..]);
      assert [s[0]] + s[1..] == s;
    }
  }

  lemma {:induction false} AsciiConcat(a: string, b: string)
    requires IsAscii(a) && IsAscii(b)
    ensures IsAscii(a + b)
  {
  }

  /** An ASCII string encodes to one byte per character. */
  lemma {:induction false} EncodeAscii(s: string)
    requires IsAscii(s)
    ensures |Encode(s)| == |s|
    ensures forall k :: 0 <= k < |s| ==> Encode(s)[k] == s[k] as int
  {
    if s != [] {
      EncodeAscii(s[1..]);
    }
  }

  lemma {:induction false} EncodeAppend(a: string, b: string)
    ensures Encode(a + b) == Encode(a) + Encode(b)
  {
    if a != [] {
      assert (a + b)[0] == a[0] && (a + b)[1..] == a[1..] + b;
      EncodeAppend(a[1..], b);
    } else {
      assert a + b == b;
    }
  }
}
