/**
 * UTF-8, the encoding `Buffer.from(string)` and the URI functions use for a string's
 * characters (section 3 of RFC 3629). A character is a Unicode scalar value; a lone
 * surrogate, which a JavaScript string can hold, is not representable here.
 */
module Utf8 {
  import opened Wrappers

  type byte = x: int | 0 <= x < 256

  /** A continuation byte: `10xxxxxx`. */
  predicate Continuation(b: int) {
    0x80 <= b < 0xC0
  }

  /** The one to four bytes of a code point, shortest form. */
  function EncodeChar(c: char): (r: seq<byte>)
    ensures 1 <= |r| <= 4
    ensures (|r| == 1) <==> (c as int < 0x80)
    ensures |r| == 1 ==> r[0] == c as int
    ensures forall i :: 1 <= i < |r| ==> Continuation(r[i])
    ensures r[0] < 0x80 || 0xC2 <= r[0] <= 0xF4
  {
    var cp := c as int;
    if cp < 0x80 then [cp]
    else if cp < 0x800 then [0xC0 + cp / 64, 0x80 + cp % 64]
    else if cp < 0x10000 then [0xE0 + cp / 4096, 0x80 + (cp / 64) % 64, 0x80 + cp % 64]
    else [0xF0 + cp / 262144, 0x80 + (cp / 4096) % 64, 0x80 + (cp / 64) % 64, 0x80 + cp % 64]
  }

  /** The encoding of a whole string: its characters' encodings, in order. */
  function Encode(s: string): (r: seq<byte>)
    ensures |r| >= |s|
  {
    if |s| == 0 then [] else EncodeChar(s[0]) + Encode(s[1..])
  }

  /** How many bytes a sequence starting with lead byte `b` occupies, or 0 when `b` cannot start one. */
  function SequenceLength(b: byte): (n: nat)
    ensures n <= 4
  {
    if b < 0x80 then 1
    else if 0xC2 <= b < 0xE0 then 2
    else if 0xE0 <= b < 0xF0 then 3
    else if 0xF0 <= b <= 0xF4 then 4
    else 0
  }

  /** The code point the `n` bytes `bs` spell, before range checks. */
  function CodePoint(bs: seq<byte>): int
    requires 1 <= |bs| <= 4
  {
    var b := seq(|bs|, i requires 0 <= i < |bs| => bs[i] as int);
    match |bs|
    case 1 => b[0]
    case 2 => (b[0] - 0xC0) * 64 + (b[1] - 0x80)
    case 3 => (b[0] - 0xE0) * 4096 + (b[1] - 0x80) * 64 + (b[2] - 0x80)
    case 4 => (b[0] - 0xF0) * 262144 + (b[1] - 0x80) * 4096 + (b[2] - 0x80) * 64 + (b[3] - 0x80)
  }

  /** The smallest code point that needs `n` bytes: anything smaller is an overlong form. */
  function MinCodePoint(n: int): int {
    if n <= 1 then 0 else if n == 2 then 0x80 else if n == 3 then 0x800 else 0x10000
  }

  /**
   * Decodes the one character at the front of `bs`, with its length, rejecting truncated
   * sequences, stray continuation bytes, overlong forms, surrogates and values past U+10FFFF.
   */
  function DecodeFirst(bs: seq<byte>): (r: Option<(char, nat)>)
    ensures r.Some? ==> 1 <= r.value.1 <= |bs| && r.value.1 <= 4
  {
    if |bs| == 0 then None
    else
      var n := SequenceLength(bs[0]);
      if n == 0 || n > |bs| then None
      else if exists i :: 1 <= i < n && !Continuation(bs[i]) then None
      else
        var cp := CodePoint(bs[..n]);
        if cp < MinCodePoint(n) || 0xD800 <= cp < 0xE000 || cp >= 0x110000 || cp < 0 then None
        else Some((cp as char, n))
  }

  /** Decodes a whole byte sequence, or `None` when it is not valid UTF-8. */
  function Decode(bs: seq<byte>): Option<string>
    decreases |bs|
  {
    if |bs| == 0 then Some("")
    else
      match DecodeFirst(bs)
      case None => None
      case Some((c, n)) =>
        match Decode(bs[n..])
        case None => None
        case Some(rest) => Some([c] + rest)
  }

  /** Decoding reads back the character an encoding was made from, and nothing more. */
  lemma DecodeFirstOfEncoding(c: char, rest: seq<byte>)
    ensures DecodeFirst(EncodeChar(c) + rest) == Some((c, |EncodeChar(c)|))
  {
    var e := EncodeChar(c);
    var bs := e + rest;
    var n := |e|;
    assert bs[..n] == e;
    assert forall i :: 0 <= i < n ==> bs[i] == e[i];
    var cp := c as int;
    if n == 2 {
      TwoBytes(cp);
    } else if n == 3 {
      ThreeBytes(cp);
    } else if n == 4 {
      FourBytes(cp);
    }
    assert CodePoint(e) == cp;
  }

  lemma TwoBytes(cp: int)
    requires 0x80 <= cp < 0x800
    ensures 0xC2 <= 0xC0 + cp / 64 < 0xE0
    ensures CodePoint([0xC0 + cp / 64, 0x80 + cp % 64]) == cp
  {
    var b := [0xC0 + cp / 64, 0x80 + cp % 64];
    assert seq(|b|, i requires 0 <= i < |b| => b[i] as int) == [0xC0 + cp / 64, 0x80 + cp % 64];
  }

  lemma ThreeBytes(cp: int)
    requires 0x800 <= cp < 0x10000
    ensures 0xE0 <= 0xE0 + cp / 4096 < 0xF0
    ensures CodePoint([0xE0 + cp / 4096, 0x80 + (cp / 64) % 64, 0x80 + cp % 64]) == cp
  {
    var b := [0xE0 + cp / 4096, 0x80 + (cp / 64) % 64, 0x80 + cp % 64];
    assert seq(|b|, i requires 0 <= i < |b| => b[i] as int) == b;
    assert cp / 64 == (cp / 4096) * 64 + (cp / 64) % 64;
  }

  lemma FourBytes(cp: int)
    requires 0x10000 <= cp < 0x110000
    ensures 0xF0 <= 0xF0 + cp / 262144 <= 0xF4
    ensures CodePoint([0xF0 + cp / 262144, 0x80 + (cp / 4096) % 64, 0x80 + (cp / 64) % 64, 0x80 + cp % 64]) == cp
  {
    var b := [0xF0 + cp / 262144, 0x80 + (cp / 4096) % 64, 0x80 + (cp / 64) % 64, 0x80 + cp % 64];
    assert seq(|b|, i requires 0 <= i < |b| => b[i] as int) == b;
    assert cp / 4096 == (cp / 262144) * 64 + (cp / 4096) % 64;
    assert cp / 64 == (cp / 4096) * 64 + (cp / 64) % 64;
  }

  /** UTF-8 round trip: decoding an encoding gives back the string. */
  lemma {:induction false} DecodeEncode(s: string)
    ensures Decode(Encode(s)) == Some(s)
  {
    if |s| > 0 {
      var e := EncodeChar(s[0]);
      DecodeFirstOfEncoding(s[0], Encode(s[1..]));
      assert (e + Encode(s[1..]))[|e|..] == Encode(s[1..]);
      DecodeEncode(s[1..]);
      assert [s[0]] + s[1..] == s;
    }
  }

  /** A string of ASCII characters encodes to its character codes, one byte each. */
  lemma {:induction false} AsciiEncoding(s: string)
    requires forall i :: 0 <= i < |s| ==> s[i] as int < 0x80
    ensures |Encode(s)| == |s|
    ensures forall i :: 0 <= i < |s| ==> Encode(s)[i] == s[i] as int
  {
    if |s| > 0 {
      AsciiEncoding(s[1..]);
      var r := Encode(s);
      assert r == [s[0] as int] + Encode(s[1..]);
      forall i | 0 <= i < |s| ensures r[i] == s[i] as int {
        if i > 0 { assert r[i] == Encode(s[1..])[i - 1] && s[1..][i - 1] == s[i]; }
      }
    }
  }

  /** Encoding distributes over concatenation. */
  lemma {:induction false} EncodeAppend(a: string, b: string)
    ensures Encode(a + b) == Encode(a) + Encode(b)
  {
    if |a| > 0 {
      assert (a + b)[1..] == a[1..] + b;
      EncodeAppend(a[1..], b);
      assert (a + b)[0] == a[0];
    } else {
      assert a + b == b;
    }
  }
}
