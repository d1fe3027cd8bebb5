/** UTF-8 as Python's `str.encode("utf-8")` and `bytes.decode("utf-8")`
    (strict error handling) perform it: the encoder maps every Unicode
    scalar value to its shortest form, and the decoder accepts exactly the
    well-formed byte sequences (no overlong forms, no surrogates, nothing
    above U+10FFFF) and fails on anything else. */
module Utf8 {
  import opened Common

  predicate IsScalar(cp: int) {
    0 <= cp < 0xD800 || 0xE000 <= cp <= 0x10FFFF
  }

  predicate IsContinuation(b: Byte) {
    0x80 <= b < 0xC0
  }

  /** The UTF-8 form of one character. */
  function EncodeChar(c: char): (r: seq<Byte>)
    ensures 1 <= |r| <= 4
    ensures |r| == 1 <==> c as int < 0x80
  {
    var cp := c as int;
    if cp < 0x80 then [cp]
    else if cp < 0x800 then [0xC0 + cp / 64, 0x80 + cp % 64]
    else if cp < 0x10000 then [0xE0 + cp / 4096, 0x80 + (cp / 64) % 64, 0x80 + cp % 64]
    else [0xF0 + cp / 262144, 0x80 + (cp / 4096) % 64, 0x80 + (cp / 64) % 64, 0x80 + cp % 64]
  }

  function Encode(s: string): (r: seq<Byte>)
    ensures |r| >= |s|
  {
    if s == [] then [] else EncodeChar(s[0]) + Encode(s[1..])
  }

  /** Decodes the character at the head of `b` and says how many bytes it
      took, or fails when the head is not a well-formed UTF-8 sequence. */
  function DecodeChar(b: seq<Byte>): (r: Option<(char, nat)>)
    requires |b| > 0
    ensures r.Some? ==> 1 <= r.value.1 <= |b| && r.value.1 <= 4
  {
    var b0: int := b[0];
    if b0 < 0x80 then
      Some((b0 as char, 1))
    else if 0xC0 <= b0 < 0xE0 then
      if |b| < 2 || !IsContinuation(b[1]) then None
      else
        var cp := (b0 - 0xC0) * 64 + (b[1] as int - 0x80);
        if cp < 0x80 then None else Some((cp as char, 2))
    else if 0xE0 <= b0 < 0xF0 then
      if |b| < 3 || !IsContinuation(b[1]) || !IsContinuation(b[2]) then None
      else
        var cp := (b0 - 0xE0) * 4096 + (b[1] as int - 0x80) * 64 + (b[2] as int - 0x80);
        if cp < 0x800 || 0xD800 <= cp < 0xE000 then None else Some((cp as char, 3))
    else if 0xF0 <= b0 < 0xF8 then
      if |b| < 4 || !IsContinuation(b[1]) || !IsContinuation(b[2]) || !IsContinuation(b[3]) then None
      else
        var cp := (b0 - 0xF0) * 262144 + (b[1] as int - 0x80) * 4096 + (b[2] as int - 0x80) * 64 + (b[3] as int - 0x80);
        if cp < 0x10000 || 0x10FFFF < cp then None else Some((cp as char, 4))
    else
      None
  }

  /** `bytes.decode("utf-8")`: `None` is the `UnicodeDecodeError`. */
  function Decode(b: seq<Byte>): (r: Option<string>)
    ensures r.Some? ==> |r.value| <= |b|
    decreases |b|
  {
    if b == [] then Some("")
    else match DecodeChar(b)
      case None => None
      case Some((c, n)) =>
        match Decode(b[n..])
        case None => None
        case Some(rest) => Some([c] + rest)
  }

  // ---------------------------------------------------------------------
  // Round trips

  lemma Recompose(cp: int)
    requires 0 <= cp < 0x200000
    ensures cp == (cp / 262144) * 262144 + ((cp / 4096) % 64) * 4096 + ((cp / 64) % 64) * 64 + cp % 64
    ensures cp < 0x10000 ==> cp == (cp / 4096) * 4096 + ((cp / 64) % 64) * 64 + cp % 64
    ensures cp < 0x800 ==> cp == (cp / 64) * 64 + cp % 64
  {
  }

  /** Decoding the encoding of a character gives it back and consumes
      exactly its bytes, whatever follows. */
  lemma DecodeEncodeChar(c: char, rest: seq<Byte>)
    ensures DecodeChar(EncodeChar(c) + rest) == Some((c, |EncodeChar(c)|))
  {
    var cp := c as int;
    Recompose(cp);
    var e := EncodeChar(c);
    if cp < 0x80 {
    } else if cp < 0x800 {
      assert e == [0xC0 + cp / 64, 0x80 + cp % 64];
    } else if cp < 0x10000 {
      assert e == [0xE0 + cp / 4096, 0x80 + (cp / 64) % 64, 0x80 + cp % 64];
    } else {
      assert e == [0xF0 + cp / 262144, 0x80 + (cp / 4096) % 64, 0x80 + (cp / 64) % 64, 0x80 + cp % 64];
    }
  }

  /** `s.encode("utf-8").decode("utf-8") == s` for every string. */
  lemma {:induction false} DecodeEncode(s: string)
    ensures Decode(Encode(s)) == Some(s)
  {
    if s != [] {
      var e := EncodeChar(s[0]);
      DecodeEncodeChar(s[0], Encode(s[1..]));
      assert (e + Encode(s[1..]))[|e|..] == Encode(s[1..]);
      DecodeEncode(s[1..]);
      assert [s[0]] + s[1..] == s;
    }
  }

  lemma EncodeTwo(b0: int, b1: int)
    requires 0xC0 <= b0 < 0xE0 && 0x80 <= b1 < 0xC0
    requires (b0 - 0xC0) * 64 + (b1 - 0x80) >= 0x80
    ensures EncodeChar(((b0 - 0xC0) * 64 + (b1 - 0x80)) as char) == [b0, b1]
  {
    var cp := (b0 - 0xC0) * 64 + (b1 - 0x80);
    assert cp / 64 == b0 - 0xC0 && cp % 64 == b1 - 0x80;
  }

  lemma EncodeThree(b0: int, b1: int, b2: int)
    requires 0xE0 <= b0 < 0xF0 && 0x80 <= b1 < 0xC0 && 0x80 <= b2 < 0xC0
    requires IsScalar((b0 - 0xE0) * 4096 + (b1 - 0x80) * 64 + (b2 - 0x80))
    requires (b0 - 0xE0) * 4096 + (b1 - 0x80) * 64 + (b2 - 0x80) >= 0x800
    ensures EncodeChar(((b0 - 0xE0) * 4096 + (b1 - 0x80) * 64 + (b2 - 0x80)) as char) == [b0, b1, b2]
  {
    var cp := (b0 - 0xE0) * 4096 + (b1 - 0x80) * 64 + (b2 - 0x80);
    assert cp / 4096 == b0 - 0xE0;
    assert cp / 64 == (b0 - 0xE0) * 64 + (b1 - 0x80);
    assert cp % 64 == b2 - 0x80;
  }

  /** Quotient and remainder by one of the UTF-8 radices are determined
      by any exact split. */
  lemma DivMod(x: int, q: int, r: int, d: int)
    requires d == 64 || d == 4096 || d == 262144
    requires x == q * d + r && 0 <= r < d
    ensures x / d == q && x % d == r
  {
    if d == 64 {
      assert x == q * 64 + r;
    } else if d == 4096 {
      assert x == q * 4096 + r;
    } else {
      assert x == q * 262144 + r;
    }
  }

  lemma EncodeFour(b0: int, b1: int, b2: int, b3: int)
    requires 0xF0 <= b0 < 0xF8 && 0x80 <= b1 < 0xC0 && 0x80 <= b2 < 0xC0 && 0x80 <= b3 < 0xC0
    requires 0x10000 <= (b0 - 0xF0) * 262144 + (b1 - 0x80) * 4096 + (b2 - 0x80) * 64 + (b3 - 0x80) <= 0x10FFFF
    ensures EncodeChar(((b0 - 0xF0) * 262144 + (b1 - 0x80) * 4096 + (b2 - 0x80) * 64 + (b3 - 0x80)) as char)
            == [b0, b1, b2, b3]
  {
    var x0, x1, x2, x3 := b0 - 0xF0, b1 - 0x80, b2 - 0x80, b3 - 0x80;
    var cp := x0 * 262144 + x1 * 4096 + x2 * 64 + x3;
    DivMod(cp, x0, x1 * 4096 + x2 * 64 + x3, 262144);
    DivMod(cp, x0 * 64 + x1, x2 * 64 + x3, 4096);
    DivMod(cp, x0 * 4096 + x1 * 64 + x2, x3, 64);
    DivMod(x0 * 64 + x1, x0, x1, 64);
    DivMod(x0 * 4096 + x1 * 64 + x2, x0 * 64 + x1, x2, 64);
  }

  /** A well-formed head sequence is the encoding of the character it
      decodes to: the decoder accepts only shortest forms. */
  lemma EncodeDecodeChar(b: seq<Byte>)
    requires |b| > 0 && DecodeChar(b).Some?
    ensures EncodeChar(DecodeChar(b).value.0) == b[..DecodeChar(b).value.1]
  {
    var b0: int := b[0];
    if 0xC0 <= b0 < 0xE0 {
      EncodeTwo(b0, b[1]);
    } else if 0xE0 <= b0 < 0xF0 {
      EncodeThree(b0, b[1], b[2]);
    } else if 0xF0 <= b0 {
      EncodeFour(b0, b[1], b[2], b[3]);
    }
  }

  lemma SplitAt(b: seq<Byte>, n: nat)
    requires n <= |b|
    ensures b == b[..n] + b[n..]
  {
  }

  /** Whatever decodes re-encodes to the same bytes, so the decoder is
      injective: two byte strings never decode to the same text. */
  lemma {:induction false} EncodeDecode(b: seq<Byte>)
    requires Decode(b).Some?
    ensures Encode(Decode(b).value) == b
    decreases |b|
  {
    if b != [] {
      var (c, n) := DecodeChar(b).value;
      EncodeDecodeChar(b);
      EncodeDecode(b[n..]);
      var s := Decode(b).value;
      assert s[0] == c && s[1..] == Decode(b[n..]).value;
      assert Encode(s) == EncodeChar(c) + Encode(s[1..]);
      SplitAt(b, n);
    }
  }
}
