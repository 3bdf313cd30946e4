/**
 * `encodeURIComponent` and `decodeURIComponent` (sections 19.2.6.4 and 19.2.6.5 of
 * ECMA-262, the Encode and Decode operations): every character outside the unreserved
 * set becomes the `%XY` escapes of its UTF-8 bytes, and decoding reverses this,
 * rejecting malformed escapes and invalid UTF-8 with a `URIError`.
 */
module Uri {
  import opened Wrappers
  import opened Utf8

  /** The message of the `URIError` a malformed escape raises. */
  const Malformed := "URI malformed"

  /** The characters `encodeURIComponent` leaves alone: letters, digits and `-_.!~*'()`. */
  predicate Unreserved(c: char) {
    ('A' <= c <= 'Z') || ('a' <= c <= 'z') || ('0' <= c <= '9')
    || c == '-' || c == '_' || c == '.' || c == '!' || c == '~' || c == '*' || c == '\'' || c == '(' || c == ')'
  }

  /** Upper-case hexadecimal digit. */
  function HexDigit(d: int): (c: char)
    requires 0 <= d < 16
  {
    if d < 10 then ('0' as int + d) as char else ('A' as int + d - 10) as char
  }

  /** The value of a hexadecimal digit of either case. */
  function HexValue(c: char): (r: Option<nat>)
    ensures r.Some? ==> r.value < 16
  {
    if '0' <= c <= '9' then Some(c as int - '0' as int)
    else if 'A' <= c <= 'F' then Some(c as int - 'A' as int + 10)
    else if 'a' <= c <= 'f' then Some(c as int - 'a' as int + 10)
    else None
  }

  /** `%XY` for one byte. */
  function Escape(b: byte): (r: string)
    ensures |r| == 3 && r[0] == '%'
  {
    ['%', HexDigit(b / 16), HexDigit(b % 16)]
  }

  function EscapeAll(bs: seq<byte>): (r: string)
    ensures |r| == 3 * |bs|
  {
    if |bs| == 0 then "" else Escape(bs[0]) + EscapeAll(bs[1..])
  }

  function EncodeChar(c: char): string {
    if Unreserved(c) then [c] else EscapeAll(Utf8.EncodeChar(c))
  }

  /** `encodeURIComponent(s)`. */
  function Encode(s: string): string {
    if |s| == 0 then "" else EncodeChar(s[0]) + Encode(s[1..])
  }

  /** The byte of a `%XY` escape at the front of `s`, if there is one. */
  function LeadingByte(s: string): (r: Option<byte>)
  {
    if |s| < 3 || s[0] != '%' then None
    else
      match (HexValue(s[1]), HexValue(s[2]))
      case (Some(h), Some(l)) => Some(h * 16 + l)
      case _ => None
  }

  /** The bytes of `n` consecutive escapes at the front of `s`. */
  function LeadingBytes(s: string, n: nat): (r: Option<seq<byte>>)
    ensures r.Some? ==> |r.value| == n && 3 * n <= |s|
  {
    if n == 0 then Some([])
    else
      match LeadingByte(s)
      case None => None
      case Some(b) =>
        match LeadingBytes(s[3..], n - 1)
        case None => None
        case Some(rest) => Some([b] + rest)
  }

  /** `decodeURIComponent(s)`: `Failure(Malformed)` for a bad escape or invalid UTF-8. */
  function Decode(s: string): Result<string, string>
    decreases |s|
  {
    if |s| == 0 then Success("")
    else if s[0] != '%' then
      match Decode(s[1..])
      case Success(rest) => Success([s[0]] + rest)
      case Failure(e) => Failure(e)
    else
      match LeadingByte(s)
      case None => Failure(Malformed)
      case Some(b) =>
        var n := if b < 0x80 then 1 else SequenceLength(b);
        if n == 0 then Failure(Malformed)
        else
          match LeadingBytes(s, n)
          case None => Failure(Malformed)
          case Some(bs) =>
            match DecodeFirst(bs)
            case None => Failure(Malformed)
            case Some((c, _)) =>
              match Decode(s[3 * n..])
              case Success(rest) => Success([c] + rest)
              case Failure(e) => Failure(e)
  }

  lemma HexRoundTrip(d: int)
    requires 0 <= d < 16
    ensures HexValue(HexDigit(d)) == Some(d)
  {
  }

  lemma {:induction false} LeadingByteOfEscape(b: byte, t: string)
    ensures LeadingByte(Escape(b) + t) == Some(b)
  {
    var s := Escape(b) + t;
    HexRoundTrip(b / 16);
    HexRoundTrip(b % 16);
    assert s[1] == HexDigit(b / 16) && s[2] == HexDigit(b % 16);
  }

  lemma {:induction false} LeadingBytesOfEscapes(bs: seq<byte>, t: string)
    ensures LeadingBytes(EscapeAll(bs) + t, |bs|) == Some(bs)
    decreases |bs|
  {
    if |bs| > 0 {
      var s := EscapeAll(bs) + t;
      assert s == Escape(bs[0]) + (EscapeAll(bs[1..]) + t);
      LeadingByteOfEscape(bs[0], EscapeAll(bs[1..]) + t);
      assert s[3..] == EscapeAll(bs[1..]) + t;
      LeadingBytesOfEscapes(bs[1..], t);
      assert [bs[0]] + bs[1..] == bs;
    }
  }

  /** Decoding reads one encoded character off the front and goes on with the rest. */
  lemma {:induction false} DecodeEncodedChar(c: char, t: string)
    ensures Decode(EncodeChar(c) + t) == match Decode(t)
                                          case Success(rest) => Success([c] + rest)
                                          case Failure(e) => Failure(e)
  {
    var s := EncodeChar(c) + t;
    if Unreserved(c) {
      assert s[1..] == t;
    } else {
      var bs := Utf8.EncodeChar(c);
      var n := |bs|;
      assert EscapeAll(bs) == Escape(bs[0]) + EscapeAll(bs[1..]);
      assert s == Escape(bs[0]) + (EscapeAll(bs[1..]) + t);
      LeadingByteOfEscape(bs[0], EscapeAll(bs[1..]) + t);
      LeadingBytesOfEscapes(bs, t);
      DecodeFirstOfEncoding(c, []);
      assert bs + [] == bs;
      assert s[3 * n..] == t;
      if bs[0] < 0x80 {
        assert n == 1 && bs[0] == c as int;
        assert DecodeFirst(bs) == Some((c, 1));
      } else {
        assert SequenceLength(bs[0]) == n;
      }
    }
  }

  /** URI round trip: `decodeURIComponent(encodeURIComponent(s)) == s`. */
  lemma {:induction false} DecodeEncode(s: string)
    ensures Decode(Encode(s)) == Success(s)
  {
    if |s| > 0 {
      DecodeEncodedChar(s[0], Encode(s[1..]));
      DecodeEncode(s[1..]);
      assert [s[0]] + s[1..] == s;
    }
  }

  /** A string of unreserved characters is left exactly as it is. */
  lemma {:induction false} EncodeUnreserved(s: string)
    requires forall i :: 0 <= i < |s| ==> Unreserved(s[i])
    ensures Encode(s) == s
  {
    if |s| > 0 {
      EncodeUnreserved(s[1..]);
      assert [s[0]] + s[1..] == s;
    }
  }

  /** The output holds only unreserved characters, `%` and hexadecimal digits. */
  lemma {:induction false} EncodeAlphabet(s: string)
    ensures forall i :: 0 <= i < |Encode(s)| ==> Unreserved(Encode(s)[i]) || Encode(s)[i] == '%'
  {
    if |s| > 0 {
      EncodeAlphabet(s[1..]);
      var e := EncodeChar(s[0]);
      if !Unreserved(s[0]) {
        EscapesAlphabet(Utf8.EncodeChar(s[0]));
      }
      var r := Encode(s);
      assert r == e + Encode(s[1..]);
      forall i | 0 <= i < |r| ensures Unreserved(r[i]) || r[i] == '%' {
        if i >= |e| { assert r[i] == Encode(s[1..])[i - |e|]; }
      }
    }
  }

  lemma {:induction false} EscapesAlphabet(bs: seq<byte>)
    ensures forall i :: 0 <= i < |EscapeAll(bs)| ==> Unreserved(EscapeAll(bs)[i]) || EscapeAll(bs)[i] == '%'
  {
    if |bs| > 0 {
      EscapesAlphabet(bs[1..]);
      var r := EscapeAll(bs);
      forall i | 0 <= i < |r| ensures Unreserved(r[i]) || r[i] == '%' {
        if i >= 3 { assert r[i] == EscapeAll(bs[1..])[i - 3]; }
      }
    }
  }
}
