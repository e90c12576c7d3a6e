/** Padded base64 as in section 4 of RFC 4648: the encoding Node's
    `digest('base64')` produces. `Decode` is the partner that shows `Encode`
    loses nothing. */
module Base64 {
  import opened Wrappers

  type Byte = b: int | 0 <= b < 256

  /** A 6-bit group, the value carried by one alphabet character. */
  type Sextet = v: int | 0 <= v < 64

  const Pad: char := '='

  /** The base64 alphabet: A-Z, a-z, 0-9, '+', '/'. */
  predicate IsAlphabetChar(c: char) {
    'A' <= c <= 'Z' || 'a' <= c <= 'z' || '0' <= c <= '9' || c == '+' || c == '/'
  }

  function CharOf(v: Sextet): (c: char)
    ensures IsAlphabetChar(c)
  {
    if v < 26 then (65 + v) as char
    else if v < 52 then (97 + (v - 26)) as char
    else if v < 62 then (48 + (v - 52)) as char
    else if v == 62 then '+'
    else '/'
  }

  function ValueOf(c: char): (r: Option<Sextet>)
    ensures r.Some? <==> IsAlphabetChar(c)
  {
    if 'A' <= c <= 'Z' then Some(c as int - 65)
    else if 'a' <= c <= 'z' then Some(c as int - 97 + 26)
    else if '0' <= c <= '9' then Some(c as int - 48 + 52)
    else if c == '+' then Some(62)
    else if c == '/' then Some(63)
    else None
  }

  lemma ValueOfCharOf(v: Sextet)
    ensures ValueOf(CharOf(v)) == Some(v)
  {
  }

  /** Number of '=' characters that pad the encoding of `n` bytes. */
  function PadCount(n: nat): (p: nat)
    ensures p <= 2 && (n + p) % 3 == 0
  {
    (3 - n % 3) % 3
  }

  /** Three bytes become four characters. */
  function EncodeTriple(b0: Byte, b1: Byte, b2: Byte): string {
    [CharOf(b0 / 4), CharOf(b0 % 4 * 16 + b1 / 16), CharOf(b1 % 16 * 4 + b2 / 64), CharOf(b2 % 64)]
  }

  function EncodePair(b0: Byte, b1: Byte): string {
    [CharOf(b0 / 4), CharOf(b0 % 4 * 16 + b1 / 16), CharOf(b1 % 16 * 4), Pad]
  }

  function EncodeSingle(b0: Byte): string {
    [CharOf(b0 / 4), CharOf(b0 % 4 * 16), Pad, Pad]
  }

  /** Padded base64 of `b`: every character is in the alphabet or is '=', and
      the output is four characters for every started group of three bytes. */
  function Encode(b: seq<Byte>): (s: string)
    ensures |s| == 4 * ((|b| + 2) / 3)
    ensures forall i :: 0 <= i < |s| ==> IsAlphabetChar(s[i]) || s[i] == Pad
    decreases |b|
  {
    if |b| == 0 then ""
    else if |b| == 1 then EncodeSingle(b[0])
    else if |b| == 2 then EncodePair(b[0], b[1])
    else EncodeTriple(b[0], b[1], b[2]) + Encode(b[3..])
  }

  /** The byte whose high bits are `hi` and whose low bits, `scale` of them
      in number of values, are `lo`. */
  function Join(hi: int, scale: int, lo: int): (b: Byte)
    requires 0 <= hi && 0 <= lo < scale && hi * scale + lo < 256
  {
    hi * scale + lo
  }

  function DecodeQuad(c0: char, c1: char, c2: char, c3: char): Option<seq<Byte>> {
    match (ValueOf(c0), ValueOf(c1), ValueOf(c2), ValueOf(c3))
    case (Some(v0), Some(v1), Some(v2), Some(v3)) =>
      Some([Join(v0, 4, v1 / 16), Join(v1 % 16, 16, v2 / 4), Join(v2 % 4, 64, v3)])
    case _ => None
  }

  /** The last group of four, which may carry one or two '='. The bits of
      the last character that no byte uses must be zero, as the encoder
      leaves them, so that every byte string has exactly one text. */
  function DecodeFinal(c0: char, c1: char, c2: char, c3: char): Option<seq<Byte>> {
    if c2 == Pad && c3 == Pad then
      match (ValueOf(c0), ValueOf(c1))
      case (Some(v0), Some(v1)) =>
        if v1 % 16 == 0 then Some([Join(v0, 4, v1 / 16)]) else None
      case _ => None
    else if c3 == Pad then
      match (ValueOf(c0), ValueOf(c1), ValueOf(c2))
      case (Some(v0), Some(v1), Some(v2)) =>
        if v2 % 4 == 0 then Some([Join(v0, 4, v1 / 16), Join(v1 % 16, 16, v2 / 4)]) else None
      case _ => None
    else DecodeQuad(c0, c1, c2, c3)
  }

  /** Inverse of `Encode`: `None` for a length that is not a multiple of four,
      a character outside the alphabet, padding before the last group, or
      unused bits of a padded last group that are not zero. */
  function Decode(s: string): (r: Option<seq<Byte>>)
    decreases |s|
  {
    if |s| == 0 then Some([])
    else if |s| < 4 then None
    else if |s| == 4 then DecodeFinal(s[0], s[1], s[2], s[3])
    else
      match (DecodeQuad(s[0], s[1], s[2], s[3]), Decode(s[4..]))
      case (Some(head), Some(tail)) => Some(head + tail)
      case _ => None
  }

  /** Splitting a byte at a bit boundary and joining the parts gives it back. */
  lemma SplitJoin4(b: Byte)
    ensures Join(b / 4, 4, b % 4) == b
  {
  }

  lemma SplitJoin64(b: Byte)
    ensures Join(b / 64, 64, b % 64) == b
  {
  }

  lemma MidSextet(b0: Byte, b1: Byte)
    ensures (b0 % 4 * 16 + b1 / 16) / 16 == b0 % 4 && (b0 % 4 * 16 + b1 / 16) % 16 == b1 / 16
  {
  }

  lemma LastSextet(b1: Byte, b2: Byte)
    ensures (b1 % 16 * 4 + b2 / 64) / 4 == b1 % 16 && (b1 % 16 * 4 + b2 / 64) % 4 == b2 / 64
  {
  }

  lemma DecodeQuadChars(v0: Sextet, v1: Sextet, v2: Sextet, v3: Sextet)
    ensures DecodeQuad(CharOf(v0), CharOf(v1), CharOf(v2), CharOf(v3))
            == Some([Join(v0, 4, v1 / 16), Join(v1 % 16, 16, v2 / 4), Join(v2 % 4, 64, v3)])
  {
    ValueOfCharOf(v0); ValueOfCharOf(v1); ValueOfCharOf(v2); ValueOfCharOf(v3);
  }

  lemma DecodeEncodeTriple(b0: Byte, b1: Byte, b2: Byte)
    ensures var s := EncodeTriple(b0, b1, b2); DecodeQuad(s[0], s[1], s[2], s[3]) == Some([b0, b1, b2])
  {
    var v0, v1, v2, v3 := b0 / 4, b0 % 4 * 16 + b1 / 16, b1 % 16 * 4 + b2 / 64, b2 % 64;
    var s := EncodeTriple(b0, b1, b2);
    assert s[0] == CharOf(v0) && s[1] == CharOf(v1) && s[2] == CharOf(v2) && s[3] == CharOf(v3);
    DecodeQuadChars(v0, v1, v2, v3);
    assert Join(v0, 4, v1 / 16) == b0 by { MidSextet(b0, b1); SplitJoin4(b0); }
    assert Join(v1 % 16, 16, v2 / 4) == b1 by { MidSextet(b0, b1); LastSextet(b1, b2); }
    assert Join(v2 % 4, 64, v3) == b2 by { LastSextet(b1, b2); SplitJoin64(b2); }
  }

  lemma DecodeFinalChars1(v0: Sextet, v1: Sextet)
    requires v1 % 16 == 0
    ensures DecodeFinal(CharOf(v0), CharOf(v1), Pad, Pad) == Some([Join(v0, 4, v1 / 16)])
  {
    ValueOfCharOf(v0); ValueOfCharOf(v1);
  }

  lemma DecodeFinalChars2(v0: Sextet, v1: Sextet, v2: Sextet)
    requires v2 % 4 == 0
    ensures DecodeFinal(CharOf(v0), CharOf(v1), CharOf(v2), Pad)
            == Some([Join(v0, 4, v1 / 16), Join(v1 % 16, 16, v2 / 4)])
  {
    ValueOfCharOf(v0); ValueOfCharOf(v1); ValueOfCharOf(v2);
    assert CharOf(v2) != Pad;
  }

  lemma DecodeFour(s: string)
    requires |s| == 4
    ensures Decode(s) == DecodeFinal(s[0], s[1], s[2], s[3])
  {
  }

  lemma DecodeEncodeSingle(b0: Byte)
    ensures Decode(EncodeSingle(b0)) == Some([b0])
  {
    var s := EncodeSingle(b0);
    var v0, v1 := b0 / 4, b0 % 4 * 16;
    assert s[0] == CharOf(v0) && s[1] == CharOf(v1) && s[2] == Pad && s[3] == Pad;
    DecodeFour(s);
    DecodeFinalChars1(v0, v1);
    assert v1 / 16 == b0 % 4;
    SplitJoin4(b0);
  }

  lemma DecodeEncodePair(b0: Byte, b1: Byte)
    ensures Decode(EncodePair(b0, b1)) == Some([b0, b1])
  {
    var s := EncodePair(b0, b1);
    var v0, v1, v2 := b0 / 4, b0 % 4 * 16 + b1 / 16, b1 % 16 * 4;
    assert s[0] == CharOf(v0) && s[1] == CharOf(v1) && s[2] == CharOf(v2) && s[3] == Pad;
    DecodeFour(s);
    DecodeFinalChars2(v0, v1, v2);
    assert Join(v0, 4, v1 / 16) == b0 by { MidSextet(b0, b1); SplitJoin4(b0); }
    assert Join(v1 % 16, 16, v2 / 4) == b1 by { MidSextet(b0, b1); LastSextet(b1, 0); }
  }

  /** Round trip: decoding an encoding gives back the bytes. */
  lemma {:induction false} DecodeEncode(b: seq<Byte>)
    ensures Decode(Encode(b)) == Some(b)
    decreases |b|, 1
  {
    if |b| == 1 {
      assert Encode(b) == EncodeSingle(b[0]);
      DecodeEncodeSingle(b[0]);
      assert b == [b[0]];
    } else if |b| == 2 {
      assert Encode(b) == EncodePair(b[0], b[1]);
      DecodeEncodePair(b[0], b[1]);
      assert b == [b[0], b[1]];
    } else if |b| > 2 {
      DecodeEncodeGroup(b);
    }
  }

  lemma {:induction false} DecodeEncodeGroup(b: seq<Byte>)
    requires |b| > 2
    ensures Decode(Encode(b)) == Some(b)
    decreases |b|, 0
  {
    var head, rest := EncodeTriple(b[0], b[1], b[2]), Encode(b[3..]);
    EncodeLong(b);
    assert IsAlphabetChar(head[0]) && IsAlphabetChar(head[1]) && IsAlphabetChar(head[2]) && IsAlphabetChar(head[3]);
    assert DecodeQuad(head[0], head[1], head[2], head[3]) == Some([b[0], b[1], b[2]])
      by { DecodeEncodeTriple(b[0], b[1], b[2]); }
    assert Decode(rest) == Some(b[3..]) by { DecodeEncode(b[3..]); }
    DecodeAppend(head, rest, [b[0], b[1], b[2]], b[3..]);
    assert [b[0], b[1], b[2]] + b[3..] == b;
  }

  /** A full group of four alphabet characters decodes on its own, in front of
      whatever follows it. */
  lemma DecodeAppend(head: string, rest: string, h: seq<Byte>, t: seq<Byte>)
    requires |head| == 4 && forall i :: 0 <= i < 4 ==> IsAlphabetChar(head[i])
    requires DecodeQuad(head[0], head[1], head[2], head[3]) == Some(h)
    requires Decode(rest) == Some(t)
    ensures Decode(head + rest) == Some(h + t)
  {
    var s := head + rest;
    assert s[0] == head[0] && s[1] == head[1] && s[2] == head[2] && s[3] == head[3];
    if rest == [] {
      assert s == head && t == [] && h + t == h;
      assert !IsAlphabetChar(Pad);
    } else {
      assert s[4..] == rest;
    }
  }

  lemma CharOfValueOf(c: char)
    requires ValueOf(c).Some?
    ensures CharOf(ValueOf(c).value) == c
  {
  }

  /** The parts a byte was joined from come back out of it. */
  lemma JoinParts(hi: int, scale: int, lo: int)
    requires scale == 4 || scale == 16 || scale == 64
    requires 0 <= hi && 0 <= lo < scale && hi * scale + lo < 256
    ensures Join(hi, scale, lo) / scale == hi && Join(hi, scale, lo) % scale == lo
  {
  }

  /** A sextet cut at a bit boundary and put back together. */
  lemma SextetParts(v: Sextet)
    ensures v / 16 * 16 + v % 16 == v && v / 4 * 4 + v % 4 == v
  {
  }

  /** A group of four alphabet characters is the encoding of what it decodes to. */
  lemma EncodeDecodeQuad(c0: char, c1: char, c2: char, c3: char)
    requires DecodeQuad(c0, c1, c2, c3).Some?
    ensures var d := DecodeQuad(c0, c1, c2, c3).value;
      |d| == 3 && EncodeTriple(d[0], d[1], d[2]) == [c0, c1, c2, c3]
  {
    var v0, v1, v2, v3 := ValueOf(c0).value, ValueOf(c1).value, ValueOf(c2).value, ValueOf(c3).value;
    var b0, b1, b2 := Join(v0, 4, v1 / 16), Join(v1 % 16, 16, v2 / 4), Join(v2 % 4, 64, v3);
    assert DecodeQuad(c0, c1, c2, c3).value == [b0, b1, b2];
    JoinParts(v0, 4, v1 / 16); JoinParts(v1 % 16, 16, v2 / 4); JoinParts(v2 % 4, 64, v3);
    SextetParts(v1); SextetParts(v2);
    assert b0 % 4 * 16 + b1 / 16 == v1;
    assert b1 % 16 * 4 + b2 / 64 == v2;
    CharOfValueOf(c0); CharOfValueOf(c1); CharOfValueOf(c2); CharOfValueOf(c3);
  }

  /** A last group with one or two '=' is the encoding of what it decodes to. */
  lemma EncodeDecodeFinal(c0: char, c1: char, c2: char, c3: char)
    requires DecodeFinal(c0, c1, c2, c3).Some?
    ensures Encode(DecodeFinal(c0, c1, c2, c3).value) == [c0, c1, c2, c3]
  {
    var d := DecodeFinal(c0, c1, c2, c3).value;
    if c2 == Pad && c3 == Pad {
      var v0, v1 := ValueOf(c0).value, ValueOf(c1).value;
      var b0 := Join(v0, 4, v1 / 16);
      assert d == [b0];
      JoinParts(v0, 4, v1 / 16);
      SextetParts(v1);
      assert b0 % 4 * 16 == v1;
      CharOfValueOf(c0); CharOfValueOf(c1);
      assert Encode(d) == EncodeSingle(b0);
    } else if c3 == Pad {
      var v0, v1, v2 := ValueOf(c0).value, ValueOf(c1).value, ValueOf(c2).value;
      var b0, b1 := Join(v0, 4, v1 / 16), Join(v1 % 16, 16, v2 / 4);
      assert d == [b0, b1];
      JoinParts(v0, 4, v1 / 16); JoinParts(v1 % 16, 16, v2 / 4);
      SextetParts(v1); SextetParts(v2);
      assert b0 % 4 * 16 + b1 / 16 == v1;
      assert b1 % 16 * 4 == v2;
      CharOfValueOf(c0); CharOfValueOf(c1); CharOfValueOf(c2);
      assert Encode(d) == EncodePair(b0, b1);
    } else {
      EncodeDecodeQuad(c0, c1, c2, c3);
      assert Encode(d) == EncodeTriple(d[0], d[1], d[2]) + Encode(d[3..]);
      assert d[3..] == [];
    }
  }

  /** A text longer than one group decodes as its first group followed by the rest. */
  lemma DecodeLong(s: string)
    requires |s| > 4 && Decode(s).Some?
    ensures DecodeQuad(s[0], s[1], s[2], s[3]).Some? && Decode(s[4..]).Some?
    ensures Decode(s).value == DecodeQuad(s[0], s[1], s[2], s[3]).value + Decode(s[4..]).value
  {
  }

  /** Three bytes and more encode as the first three followed by the rest. */
  lemma EncodeLong(d: seq<Byte>)
    requires |d| > 2
    ensures Encode(d) == EncodeTriple(d[0], d[1], d[2]) + Encode(d[3..])
  {
  }

  /** The other round trip: a text that decodes at all is the encoding of
      what it decodes to, so each byte string has exactly one base64 text. */
  lemma {:induction false} EncodeDecode(s: string)
    requires Decode(s).Some?
    ensures Encode(Decode(s).value) == s
    decreases |s|, 1
  {
    if |s| == 4 {
      DecodeFour(s);
      EncodeDecodeFinal(s[0], s[1], s[2], s[3]);
      assert s == [s[0], s[1], s[2], s[3]];
    } else if |s| > 4 {
      EncodeDecodeGroup(s);
    }
  }

  lemma {:induction false} EncodeDecodeGroup(s: string)
    requires |s| > 4 && Decode(s).Some?
    ensures Encode(Decode(s).value) == s
    decreases |s|, 0
  {
    DecodeLong(s);
    var head, rest := DecodeQuad(s[0], s[1], s[2], s[3]).value, s[4..];
    var d := Decode(s).value;
    EncodeDecodeQuad(s[0], s[1], s[2], s[3]);
    EncodeDecode(rest);
    assert d[0] == head[0] && d[1] == head[1] && d[2] == head[2] && d[3..] == Decode(rest).value;
    EncodeLong(d);
    assert s == s[..4] + rest;
  }

  /** Only the encoding of `b` decodes to `b`. */
  lemma DecodeUnique(s: string, b: seq<Byte>)
    requires Decode(s) == Some(b)
    ensures s == Encode(b)
  {
    EncodeDecode(s);
  }

  /** Distinct byte strings have distinct encodings. */
  lemma EncodeInjective(a: seq<Byte>, b: seq<Byte>)
    requires a != b
    ensures Encode(a) != Encode(b)
  {
    DecodeEncode(a);
    DecodeEncode(b);
  }

  /** The '=' characters are exactly the last `PadCount(|b|)` ones. */
  lemma {:induction false} EncodePadding(b: seq<Byte>)
    ensures forall i :: 0 <= i < |Encode(b)| ==> (Encode(b)[i] == Pad <==> i >= |Encode(b)| - PadCount(|b|))
    decreases |b|
  {
    if |b| > 2 {
      var head, rest := EncodeTriple(b[0], b[1], b[2]), Encode(b[3..]);
      EncodePadding(b[3..]);
      var s := Encode(b);
      assert s == head + rest;
      var n := PadCount(|b|);
      assert n == PadCount(|b[3..]|);
      forall i | 0 <= i < |s| ensures s[i] == Pad <==> i >= |s| - n {
        if i < 4 {
          assert s[i] == head[i] && IsAlphabetChar(head[i]);
        } else {
          assert s[i] == rest[i - 4];
        }
      }
    }
  }
}
