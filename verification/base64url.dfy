/** The URL-safe Base64 alphabet of section 5 of RFC 4648, as
    `base64.urlsafe_b64encode` writes it (with `=` padding) and as a strict
    reading of `base64.urlsafe_b64decode` accepts it: the length is a
    multiple of four, every character is in the alphabet, and `=` appears
    only as the one or two last characters. Like Python, the decoder
    ignores the unused low bits of the last character. */
module Base64Url {
  import opened Common

  predicate IsAlphabetChar(c: char) {
    ('A' <= c <= 'Z') || ('a' <= c <= 'z') || ('0' <= c <= '9') || c == '-' || c == '_'
  }

  /** The character that stands for the 6-bit value `v`. */
  function CharOf(v: int): (c: char)
    requires 0 <= v < 64
    ensures IsAlphabetChar(c)
  {
    if v < 26 then ('A' as int + v) as char
    else if v < 52 then ('a' as int + (v - 26)) as char
    else if v < 62 then ('0' as int + (v - 52)) as char
    else if v == 62 then '-'
    else '_'
  }

  /** The 6-bit value a character stands for, if it is in the alphabet. */
  function ValueOf(c: char): (r: Option<int>)
    ensures r.Some? <==> IsAlphabetChar(c)
    ensures r.Some? ==> 0 <= r.value < 64 && CharOf(r.value) == c
  {
    if 'A' <= c <= 'Z' then Some(c as int - 'A' as int)
    else if 'a' <= c <= 'z' then Some(c as int - 'a' as int + 26)
    else if '0' <= c <= '9' then Some(c as int - '0' as int + 52)
    else if c == '-' then Some(62)
    else if c == '_' then Some(63)
    else None
  }

  lemma ValueOfCharOf(v: int)
    requires 0 <= v < 64
    ensures ValueOf(CharOf(v)) == Some(v)
  {
  }

  predicate IsEncodedChar(c: char) {
    IsAlphabetChar(c) || c == '='
  }

  /** Every character is in the alphabet or is padding. */
  predicate IsEncodedText(s: string) {
    forall i | 0 <= i < |s| :: IsEncodedChar(s[i])
  }

  /** Three bytes as four characters. */
  function EncodeGroup(b0: Byte, b1: Byte, b2: Byte): (q: string)
    ensures |q| == 4 && IsEncodedText(q) && q[2] != '=' && q[3] != '='
  {
    [CharOf(b0 / 4), CharOf((b0 % 4) * 16 + b1 / 16), CharOf((b1 % 16) * 4 + b2 / 64), CharOf(b2 % 64)]
  }

  /** The last one or two bytes, padded to four characters. */
  function EncodeTail(b: seq<Byte>): (q: string)
    requires 1 <= |b| <= 2
    ensures |q| == 4 && IsEncodedText(q)
  {
    if |b| == 1 then [CharOf(b[0] / 4), CharOf((b[0] % 4) * 16), '=', '=']
    else [CharOf(b[0] / 4), CharOf((b[0] % 4) * 16 + b[1] / 16), CharOf((b[1] % 16) * 4), '=']
  }

  /** `base64.urlsafe_b64encode(b).decode()`. */
  function Encode(b: seq<Byte>): (s: string)
    ensures b != [] ==> |s| >= 4
    ensures IsEncodedText(s)
    decreases |b|
  {
    if |b| == 0 then ""
    else if |b| <= 2 then EncodeTail(b)
    else EncodeGroup(b[0], b[1], b[2]) + Encode(b[3..])
  }

  /** Four alphabet characters without padding: three bytes. */
  function DecodeQuad(q: string): (r: Option<seq<Byte>>)
    requires |q| == 4
    ensures r.Some? ==> |r.value| == 3
  {
    match (ValueOf(q[0]), ValueOf(q[1]), ValueOf(q[2]), ValueOf(q[3]))
    case (Some(c0), Some(c1), Some(c2), Some(c3)) =>
      Some([c0 * 4 + c1 / 16, (c1 % 16) * 16 + c2 / 4, (c2 % 4) * 64 + c3])
    case _ => None
  }

  /** The last quad, which may end in one or two `=`. */
  function DecodeLastQuad(q: string): (r: Option<seq<Byte>>)
    requires |q| == 4
    ensures r.Some? ==> 1 <= |r.value| <= 3
  {
    if q[2] == '=' && q[3] == '=' then
      match (ValueOf(q[0]), ValueOf(q[1]))
      case (Some(c0), Some(c1)) => Some([c0 * 4 + c1 / 16])
      case _ => None
    else if q[3] == '=' then
      match (ValueOf(q[0]), ValueOf(q[1]), ValueOf(q[2]))
      case (Some(c0), Some(c1), Some(c2)) => Some([c0 * 4 + c1 / 16, (c1 % 16) * 16 + c2 / 4])
      case _ => None
    else
      DecodeQuad(q)
  }

  /** `base64.urlsafe_b64decode(s)`: `None` is the `binascii.Error`. */
  function Decode(s: string): (r: Option<seq<Byte>>)
    ensures r.Some? ==> IsEncodedText(s)
    decreases |s|
  {
    if s == [] then Some([])
    else if |s| < 4 then None
    else if |s| == 4 then DecodeLastQuad(s)
    else
      match DecodeQuad(s[..4])
      case None => None
      case Some(g) =>
        match Decode(s[4..])
        case None => None
        case Some(rest) => Some(g + rest)
  }

  // ---------------------------------------------------------------------
  // Lengths

  /** Every three bytes, and a last one or two, take four characters. */
  lemma {:induction false} EncodeLength(b: seq<Byte>)
    ensures |Encode(b)| == 4 * ((|b| + 2) / 3)
    decreases |b|
  {
    if |b| >= 3 {
      EncodeLength(b[3..]);
      assert |Encode(b)| == 4 + |Encode(b[3..])|;
      assert (|b| + 2) / 3 == (|b[3..]| + 2) / 3 + 1;
    }
  }

  /** Only whole quads decode, and each gives at most three bytes. */
  lemma {:induction false} DecodeLength(s: string)
    requires Decode(s).Some?
    ensures |s| % 4 == 0
    ensures |Decode(s).value| <= 3 * (|s| / 4)
    decreases |s|
  {
    if |s| > 4 {
      DecodeLength(s[4..]);
    }
  }

  // ---------------------------------------------------------------------
  // Round trip

  lemma SplitByte(x: int, d: int)
    requires 0 <= x < 256 && (d == 4 || d == 16 || d == 64)
    ensures x == (x / d) * d + x % d && 0 <= x % d < d && 0 <= x / d < 256 / d
  {
  }

  /** Three bytes survive the trip through four characters. */
  lemma DecodeEncodeGroup(b0: Byte, b1: Byte, b2: Byte)
    ensures DecodeQuad(EncodeGroup(b0, b1, b2)) == Some([b0, b1, b2])
  {
    SplitByte(b0, 4); SplitByte(b1, 16); SplitByte(b2, 64);
    var c1 := (b0 % 4) * 16 + b1 / 16;
    var c2 := (b1 % 16) * 4 + b2 / 64;
    ValueOfCharOf(b0 / 4); ValueOfCharOf(c1); ValueOfCharOf(c2); ValueOfCharOf(b2 % 64);
    assert c1 / 16 == b0 % 4 && c1 % 16 == b1 / 16;
    assert c2 / 4 == b1 % 16 && c2 % 4 == b2 / 64;
  }

  /** The last one or two bytes survive the trip through the padded quad. */
  lemma DecodeEncodeTail(b: seq<Byte>)
    requires 1 <= |b| <= 2
    ensures DecodeLastQuad(EncodeTail(b)) == Some(b)
  {
    SplitByte(b[0], 4);
    ValueOfCharOf(b[0] / 4);
    if |b| == 1 {
      ValueOfCharOf((b[0] % 4) * 16);
      assert b == [b[0]];
    } else {
      SplitByte(b[1], 16);
      var c1 := (b[0] % 4) * 16 + b[1] / 16;
      var c2 := (b[1] % 16) * 4;
      ValueOfCharOf(c1); ValueOfCharOf(c2);
      assert c1 / 16 == b[0] % 4 && c1 % 16 == b[1] / 16;
      assert c2 / 4 == b[1] % 16;
      assert b == [b[0], b[1]];
    }
  }

  /** A full quad in front of a non-empty valid tail decodes quad by quad. */
  lemma DecodeCons(q: string, rest: string)
    requires |q| == 4 && rest != []
    requires DecodeQuad(q).Some? && Decode(rest).Some?
    ensures Decode(q + rest) == Some(DecodeQuad(q).value + Decode(rest).value)
  {
    assert (q + rest)[..4] == q && (q + rest)[4..] == rest;
  }

  /** The encoding of three bytes or more starts with a full quad. */
  lemma EncodeCons(b: seq<Byte>)
    requires |b| >= 3
    ensures Encode(b) == EncodeGroup(b[0], b[1], b[2]) + Encode(b[3..])
  {
  }

  /** The inductive step: three bytes in front of a non-empty tail that
      already round-trips. */
  lemma DecodeEncodeStep(b0: Byte, b1: Byte, b2: Byte, t: seq<Byte>)
    requires t != [] && Decode(Encode(t)) == Some(t)
    ensures Decode(EncodeGroup(b0, b1, b2) + Encode(t)) == Some([b0, b1, b2] + t)
  {
    DecodeEncodeGroup(b0, b1, b2);
    DecodeCons(EncodeGroup(b0, b1, b2), Encode(t));
  }

  /** Three bytes exactly: one full quad. */
  lemma DecodeEncodeThree(b0: Byte, b1: Byte, b2: Byte)
    ensures Decode(Encode([b0, b1, b2])) == Some([b0, b1, b2])
  {
    var q := EncodeGroup(b0, b1, b2);
    assert Encode([b0, b1, b2]) == q + Encode([]);
    assert q + [] == q;
    DecodeEncodeGroup(b0, b1, b2);
    assert Decode(q) == DecodeLastQuad(q);
  }

  lemma SplitThree(b: seq<Byte>)
    requires |b| >= 3
    ensures b == [b[0], b[1], b[2]] + b[3..]
  {
  }

  /** More than three bytes, given that the rest after the first three
      round-trips. */
  lemma DecodeEncodeLong(b: seq<Byte>)
    requires |b| > 3 && Decode(Encode(b[3..])) == Some(b[3..])
    ensures Decode(Encode(b)) == Some(b)
  {
    SplitThree(b);
    DecodeEncodeStep(b[0], b[1], b[2], b[3..]);
    EncodeCons(b);
  }

  /** `urlsafe_b64decode(urlsafe_b64encode(b)) == b` for every byte string. */
  lemma {:induction false} DecodeEncode(b: seq<Byte>)
    ensures Decode(Encode(b)) == Some(b)
    decreases |b|
  {
    if 1 <= |b| <= 2 {
      DecodeEncodeTail(b);
    } else if |b| == 3 {
      DecodeEncodeThree(b[0], b[1], b[2]);
      assert b == [b[0], b[1], b[2]];
    } else if |b| > 3 {
      DecodeEncode(b[3..]);
      DecodeEncodeLong(b);
    }
  }
}
