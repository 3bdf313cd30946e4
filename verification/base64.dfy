/**
 * The base 64 encoding of section 4 of RFC 4648, as `Buffer.toString("base64")`
 * produces it: every three bytes become four characters of the standard alphabet, and
 * a final group of one or two bytes is padded with `=` to four characters.
 */
module Base64 {
  import opened Wrappers
  import opened Utf8

  /** The 64-character alphabet: `A`-`Z`, `a`-`z`, `0`-`9`, `+`, `/`. */
  function Alphabet(i: int): (c: char)
    requires 0 <= i < 64
  {
    if i < 26 then ('A' as int + i) as char
    else if i < 52 then ('a' as int + i - 26) as char
    else if i < 62 then ('0' as int + i - 52) as char
    else if i == 62 then '+'
    else '/'
  }

  /** The value of an alphabet character; padding and anything else have none. */
  function IndexOf(c: char): (r: Option<nat>)
    ensures r.Some? ==> r.value < 64 && Alphabet(r.value) == c
  {
    if 'A' <= c <= 'Z' then Some(c as int - 'A' as int)
    else if 'a' <= c <= 'z' then Some(c as int - 'a' as int + 26)
    else if '0' <= c <= '9' then Some(c as int - '0' as int + 52)
    else if c == '+' then Some(62)
    else if c == '/' then Some(63)
    else None
  }

  lemma IndexOfAlphabet(i: int)
    requires 0 <= i < 64
    ensures IndexOf(Alphabet(i)) == Some(i)
  {
  }

  /** The four 6-bit values of three bytes. */
  function Sextets(a: byte, b: byte, c: byte): seq<int> {
    [a / 4, (a % 4) * 16 + b / 16, (b % 16) * 4 + c / 64, c % 64]
  }

  function Chars(xs: seq<int>): (r: string)
    requires forall i :: 0 <= i < |xs| ==> 0 <= xs[i] < 64
    ensures |r| == |xs|
  {
    seq(|xs|, i requires 0 <= i < |xs| => Alphabet(xs[i]))
  }

  /** Encodes a byte sequence. */
  function Encode(bs: seq<byte>): (r: string)
    ensures |r| == 4 * ((|bs| + 2) / 3)
  {
    if |bs| == 0 then ""
    else if |bs| == 1 then
      var x := Sextets(bs[0], 0, 0);
      Chars(x[..2]) + "=="
    else if |bs| == 2 then
      var x := Sextets(bs[0], bs[1], 0);
      Chars(x[..3]) + "="
    else
      Chars(Sextets(bs[0], bs[1], bs[2])) + Encode(bs[3..])
  }

  /** The three bytes four 6-bit values spell. */
  function Octets(x: seq<int>): seq<int>
    requires |x| == 4
  {
    [x[0] * 4 + x[1] / 16, (x[1] % 16) * 16 + x[2] / 4, (x[2] % 4) * 64 + x[3]]
  }

  /** The values of four characters, or `None` when one is not in the alphabet. */
  function Values(s: string): (r: Option<seq<int>>)
    ensures r.Some? ==> |r.value| == |s| && forall i :: 0 <= i < |s| ==> 0 <= r.value[i] < 64 && Alphabet(r.value[i]) == s[i]
  {
    if |s| == 0 then Some([])
    else
      match (IndexOf(s[0]), Values(s[1..]))
      case (Some(v), Some(vs)) =>
        assert forall i :: 1 <= i < |s| ==> s[i] == s[1..][i - 1];
        Some([v] + vs)
      case _ => None
  }

  /**
   * Decodes canonical base 64: the length is a multiple of four, padding appears only at
   * the end, and the bits a padded group does not use are zero.
   */
  function Decode(s: string): Option<seq<byte>>
    decreases |s|
  {
    if |s| == 0 then Some([])
    else if |s| < 4 then None
    else if |s| == 4 && s[2] == '=' && s[3] == '=' then
      match Values(s[..2])
      case Some(v) =>
        var o := Octets(v + [0, 0]);
        if v[1] % 16 == 0 then Some([o[0]]) else None
      case None => None
    else if |s| == 4 && s[3] == '=' then
      match Values(s[..3])
      case Some(v) =>
        var o := Octets(v + [0]);
        if v[2] % 4 == 0 then Some(o[..2]) else None
      case None => None
    else
      match (Values(s[..4]), Decode(s[4..]))
      case (Some(v), Some(rest)) =>
        var o := Octets(v);
        Some(o + rest)
      case _ => None
  }

  /** Three bytes survive the split into sextets and back. */
  lemma OctetsOfSextets(a: byte, b: byte, c: byte)
    ensures Octets(Sextets(a, b, c)) == [a, b, c]
  {
    assert a == (a / 4) * 4 + a % 4;
    assert b == (b / 16) * 16 + b % 16;
    assert c == (c / 64) * 64 + c % 64;
  }

  /** Four sextets survive the join into bytes and back. */
  lemma {:induction false} SextetsOfOctets(x: seq<int>)
    requires |x| == 4 && forall i :: 0 <= i < 4 ==> 0 <= x[i] < 64
    ensures var o := Octets(x); (forall i :: 0 <= i < 3 ==> 0 <= o[i] < 256) && Sextets(o[0], o[1], o[2]) == x
  {
    var h1, l1 := x[1] / 16, x[1] % 16;
    var h2, l2 := x[2] / 4, x[2] % 4;
    var o := Octets(x);
    assert o == [x[0] * 4 + h1, l1 * 16 + h2, l2 * 64 + x[3]];
    SplitUnique(o[0], 4, x[0], h1);
    SplitUnique(o[1], 16, l1, h2);
    SplitUnique(o[2], 64, l2, x[3]);
  }

  /** Division by `d` recovers the quotient and remainder a number was built from. */
  lemma SplitUnique(n: int, d: int, q: int, r: int)
    requires 0 < d && 0 <= r < d && n == q * d + r
    ensures n / d == q && n % d == r
  {
    var q', r' := n / d, n % d;
    assert (q - q') * d == r' - r;
    if q > q' {
      MulAtLeast(q - q', d);
    } else if q < q' {
      MulAtLeast(q' - q, d);
    }
  }

  lemma MulAtLeast(k: int, d: int)
    requires k >= 1 && d > 0
    ensures k * d >= d
  {
    assert k * d == (k - 1) * d + d;
  }

  lemma {:induction false} ValuesOfChars(xs: seq<int>)
    requires forall i :: 0 <= i < |xs| ==> 0 <= xs[i] < 64
    ensures Values(Chars(xs)) == Some(xs)
    decreases |xs|
  {
    if |xs| > 0 {
      IndexOfAlphabet(xs[0]);
      assert Chars(xs)[1..] == Chars(xs[1..]);
      ValuesOfChars(xs[1..]);
      assert [xs[0]] + xs[1..] == xs;
    }
  }

  /** Base 64 round trip: decoding an encoding gives back the bytes. */
  lemma {:induction false} DecodeEncode(bs: seq<byte>)
    ensures Decode(Encode(bs)) == Some(bs)
    decreases |bs|
  {
    if |bs| == 1 {
      DecodeEncodeOne(bs);
    } else if |bs| == 2 {
      DecodeEncodeTwo(bs);
    } else if |bs| >= 3 {
      var rest := bs[3..];
      assert [bs[0], bs[1], bs[2]] + rest == bs;
      DecodeEncode(rest);
      DecodeEncodeGroup(bs[0], bs[1], bs[2], rest);
    }
  }

  /** One full group in front: the round trip of the rest extends to the whole. */
  lemma DecodeEncodeGroup(a: byte, b: byte, c: byte, rest: seq<byte>)
    requires Decode(Encode(rest)) == Some(rest)
    ensures Decode(Encode([a, b, c] + rest)) == Some([a, b, c] + rest)
  {
    var bs := [a, b, c] + rest;
    var x := Sextets(a, b, c);
    var t := Encode(rest);
    assert bs[0] == a && bs[1] == b && bs[2] == c && bs[3..] == rest;
    var whole := Chars(x) + t;
    assert Encode(bs) == whole;
    DecodeGroup(x, t);
    OctetsOfSextets(a, b, c);
  }

  /** A full group in front decodes to its three bytes, followed by whatever the rest decodes to. */
  lemma {:induction false} DecodeGroup(x: seq<int>, t: string)
    requires |x| == 4 && forall i :: 0 <= i < 4 ==> 0 <= x[i] < 64
    ensures Decode(Chars(x) + t) == if Decode(t).Some? then Some(Octets(x) + Decode(t).value) else None
  {
    var s := Chars(x) + t;
    assert s[..4] == Chars(x);
    assert s[3] != '=' by { IndexOfAlphabet(x[3]); }
    assert s[4..] == t;
    ValuesOfChars(x);
    SextetsOfOctets(x);
  }

  lemma {:induction false} DecodeEncodeOne(bs: seq<byte>)
    requires |bs| == 1
    ensures Decode(Encode(bs)) == Some(bs)
  {
    var s := Encode(bs);
    var x := Sextets(bs[0], 0, 0);
    assert x == [bs[0] / 4, (bs[0] % 4) * 16, 0, 0];
    assert s[..2] == Chars(x[..2]);
    ValuesOfChars(x[..2]);
    OctetsOfSextets(bs[0], 0, 0);
    assert x[..2] + [0, 0] == x;
    assert x[1] % 16 == 0;
    assert [Octets(x)[0]] == bs;
  }

  lemma {:induction false} DecodeEncodeTwo(bs: seq<byte>)
    requires |bs| == 2
    ensures Decode(Encode(bs)) == Some(bs)
  {
    var s := Encode(bs);
    var x := Sextets(bs[0], bs[1], 0);
    assert x == [bs[0] / 4, (bs[0] % 4) * 16 + bs[1] / 16, (bs[1] % 16) * 4, 0];
    assert s[..3] == Chars(x[..3]);
    assert s[2] != '=' by { IndexOfAlphabet(x[2]); }
    ValuesOfChars(x[..3]);
    OctetsOfSextets(bs[0], bs[1], 0);
    assert x[..3] + [0] == x;
    assert x[2] % 4 == 0;
    assert Octets(x)[..2] == bs;
  }

  /** Only canonical text decodes: whatever decodes is exactly the encoding of its result. */
  lemma {:induction false} EncodeDecode(s: string)
    requires Decode(s).Some?
    ensures Encode(Decode(s).value) == s
    decreases |s|
  {
    if |s| == 4 && s[2] == '=' && s[3] == '=' {
      EncodeDecodeOne(s);
    } else if |s| == 4 && s[3] == '=' {
      EncodeDecodeTwo(s);
    } else if |s| >= 4 {
      var v := Values(s[..4]).value;
      var rest := Decode(s[4..]).value;
      assert Decode(s).value == Octets(v) + rest;
      EncodeDecode(s[4..]);
      EncodeGroup(v, rest);
      assert s == s[..4] + s[4..];
    }
  }

  lemma {:induction false} EncodeDecodeOne(s: string)
    requires |s| == 4 && s[2] == '=' && s[3] == '=' && Decode(s).Some?
    ensures Encode(Decode(s).value) == s
  {
    var v := Values(s[..2]).value;
    var x := v + [0, 0];
    SextetsOfOctets(x);
    var o := Octets(x);
    assert Decode(s).value == [o[0]];
    assert Sextets(o[0], 0, 0)[..2] == v;
    assert Chars(v) == s[..2];
    assert s == s[..2] + "==";
  }

  lemma {:induction false} EncodeDecodeTwo(s: string)
    requires |s| == 4 && s[3] == '=' && !(s[2] == '=') && Decode(s).Some?
    ensures Encode(Decode(s).value) == s
  {
    var v := Values(s[..3]).value;
    var x := v + [0];
    SextetsOfOctets(x);
    var o := Octets(x);
    assert Decode(s).value == o[..2];
    assert Sextets(o[0], o[1], 0)[..3] == v;
    assert Chars(v) == s[..3];
    assert s == s[..3] + "=";
  }

  lemma {:induction false} EncodeGroup(v: seq<int>, rest: seq<byte>)
    requires |v| == 4 && forall i :: 0 <= i < 4 ==> 0 <= v[i] < 64
    ensures var o := Octets(v);
            (forall i :: 0 <= i < 3 ==> 0 <= o[i] < 256)
            && Encode(o + rest) == Chars(v) + Encode(rest)
  {
    SextetsOfOctets(v);
    var o := Octets(v);
    var bs: seq<byte> := o + rest;
    assert bs[3..] == rest;
  }

  /** Every character of an encoding is in the alphabet or is padding. */
  lemma {:induction false} EncodingAlphabet(bs: seq<byte>)
    ensures forall i :: 0 <= i < |Encode(bs)| ==> Encode(bs)[i] == '=' || IndexOf(Encode(bs)[i]).Some?
    decreases |bs|
  {
    var s := Encode(bs);
    forall i | 0 <= i < |s| ensures s[i] == '=' || IndexOf(s[i]).Some? {
      if |bs| >= 3 {
        EncodingAlphabet(bs[3..]);
        if i < 4 {
          IndexOfAlphabet(Sextets(bs[0], bs[1], bs[2])[i]);
        } else {
          assert s[i] == Encode(bs[3..])[i - 4];
        }
      } else if |bs| == 2 {
        if i < 3 { IndexOfAlphabet(Sextets(bs[0], bs[1], 0)[i]); }
      } else if |bs| == 1 {
        if i < 2 { IndexOfAlphabet(Sextets(bs[0], 0, 0)[i]); }
      }
    }
  }
}
