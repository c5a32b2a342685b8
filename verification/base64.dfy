/**
 * The browser's `btoa`: Base64 encoding (section 4 of RFC 4648, standard alphabet with `=`
 * padding) of a string whose characters are all Latin-1, each character taken as one byte.
 * `Decode` is an independent reference decoder; the round-trip lemmas tie the two together.
 */
module Base64 {
  import opened Wrappers

  type Byte = x: int | 0 <= x < 256
  type Sextet = x: int | 0 <= x < 64

  const PadChar: char := '='

  /** The alphabet of section 4 of RFC 4648: 0..25 are 'A'..'Z', 26..51 'a'..'z',
      52..61 '0'..'9', 62 is '+' and 63 is '/'. */
  function SextetChar(v: Sextet): (c: char)
    ensures SextetOf(c) == Some(v)
    ensures c != PadChar
  {
    if v < 26 then ('A' as int + v) as char
    else if v < 52 then ('a' as int + (v - 26)) as char
    else if v < 62 then ('0' as int + (v - 52)) as char
    else if v == 62 then '+'
    else '/'
  }

  /** The inverse table: the value of an alphabet character, `None` for any other character. */
  function SextetOf(c: char): (r: Option<Sextet>)
    ensures c == PadChar ==> r.None?
  {
    if 'A' <= c <= 'Z' then Some(c as int - 'A' as int)
    else if 'a' <= c <= 'z' then Some(c as int - 'a' as int + 26)
    else if '0' <= c <= '9' then Some(c as int - '0' as int + 52)
    else if c == '+' then Some(62)
    else if c == '/' then Some(63)
    else None
  }

  /** A character `Encode` may emit: an alphabet character or the pad. */
  predicate IsEncodingChar(c: char) {
    SextetOf(c).Some? || c == PadChar
  }

  /** Three bytes, 24 bits, become four sextets, most significant first. */
  function EncodeGroup(b0: Byte, b1: Byte, b2: Byte): (q: string)
    ensures |q| == 4 && PadChar !in q
  {
    [SextetChar(b0 / 4), SextetChar((b0 % 4) * 16 + b1 / 16),
     SextetChar((b1 % 16) * 4 + b2 / 64), SextetChar(b2 % 64)]
  }

  /** A final single byte: two sextets, the second zero-filled, then "==". */
  function EncodeFinalOne(b0: Byte): (q: string)
    ensures |q| == 4 && q[2] == PadChar && q[3] == PadChar
  {
    [SextetChar(b0 / 4), SextetChar((b0 % 4) * 16), PadChar, PadChar]
  }

  /** A final pair of bytes: three sextets, the third zero-filled, then "=". */
  function EncodeFinalTwo(b0: Byte, b1: Byte): (q: string)
    ensures |q| == 4 && q[2] != PadChar && q[3] == PadChar
  {
    [SextetChar(b0 / 4), SextetChar((b0 % 4) * 16 + b1 / 16), SextetChar((b1 % 16) * 4), PadChar]
  }

  /** Base64 of a byte string: one quadruple per started group of three bytes. */
  function Encode(b: seq<Byte>): (r: string)
    ensures |r| == (|b| + 2) / 3 * 4
    decreases |b|
  {
    if |b| == 0 then ""
    else if |b| == 1 then EncodeFinalOne(b[0])
    else if |b| == 2 then EncodeFinalTwo(b[0], b[1])
    else EncodeGroup(b[0], b[1], b[2]) + Encode(b[3..])
  }

  /** `Encode` emits only alphabet characters and padding, and padding only at the end. */
  lemma {:induction false} EncodeAlphabet(b: seq<Byte>)
    ensures forall i :: 0 <= i < |Encode(b)| ==> IsEncodingChar(Encode(b)[i])
    ensures forall i :: 0 <= i < |Encode(b)| && Encode(b)[i] == PadChar ==> i >= |Encode(b)| - 2
    decreases |b|
  {
    if |b| >= 3 {
      EncodeAlphabet(b[3..]);
      var g := EncodeGroup(b[0], b[1], b[2]);
      var e := Encode(b);
      assert e == g + Encode(b[3..]);
      forall i | 0 <= i < |e|
        ensures IsEncodingChar(e[i])
        ensures e[i] == PadChar ==> i >= |e| - 2
      {
        if i >= 4 { assert e[i] == Encode(b[3..])[i - 4]; }
      }
    }
  }

  /** The three bytes packed in four sextets: 6+2, 4+4 and 2+6 bits. */
  function HighByte(v0: Sextet, v1: Sextet): Byte { (v0 as int) * 4 + (v1 as int) / 16 }
  function MiddleByte(v1: Sextet, v2: Sextet): Byte { ((v1 as int) % 16) * 16 + (v2 as int) / 4 }
  function LowByte(v2: Sextet, v3: Sextet): Byte { ((v2 as int) % 4) * 64 + (v3 as int) }

  /** Decodes one quadruple; padding yields one or two bytes. As section 3.5 of RFC 4648
      allows, a padded quadruple whose unused low bits are not zero is rejected, so every
      accepted quadruple is the canonical encoding of its bytes. */
  function DecodeQuad(q: string): (r: Option<seq<Byte>>)
    requires |q| == 4
    ensures r.Some? ==> 1 <= |r.value| <= 3
    ensures r.Some? && |r.value| == 3 ==> PadChar !in q
  {
    var o0, o1, o2, o3 := SextetOf(q[0]), SextetOf(q[1]), SextetOf(q[2]), SextetOf(q[3]);
    if o0.None? || o1.None? then None
    else if o2.Some? && o3.Some? then
      assert q == [q[0], q[1], q[2], q[3]];
      Some([HighByte(o0.value, o1.value), MiddleByte(o1.value, o2.value), LowByte(o2.value, o3.value)])
    else if o2.Some? && q[3] == PadChar && o2.value % 4 == 0 then
      Some([HighByte(o0.value, o1.value), MiddleByte(o1.value, o2.value)])
    else if o2.None? && q[2] == PadChar && q[3] == PadChar && o1.value % 16 == 0 then
      Some([HighByte(o0.value, o1.value)])
    else None
  }

  /** Reference decoder: a padded quadruple may only come last. */
  function Decode(s: string): (r: Option<seq<Byte>>)
    decreases |s|
  {
    if |s| == 0 then Some([])
    else if |s| < 4 then None
    else if |s| == 4 then DecodeQuad(s)
    else match (DecodeQuad(s[..4]), Decode(s[4..]))
      case (Some(g), Some(rest)) => if |g| == 3 then Some(g + rest) else None
      case _ => None
  }

  /** Packing a high part above a low part of 4 bits, then splitting them again, gives both back. */
  lemma SplitPacked16(hi: int, lo: int)
    requires 0 <= lo < 16 && 0 <= hi
    ensures (hi * 16 + lo) / 16 == hi && (hi * 16 + lo) % 16 == lo
  {
  }

  /** Packing a high part above a low part of 2 bits, then splitting them again, gives both back. */
  lemma SplitPacked4(hi: int, lo: int)
    requires 0 <= lo < 4 && 0 <= hi
    ensures (hi * 4 + lo) / 4 == hi && (hi * 4 + lo) % 4 == lo
  {
  }

  lemma GroupRoundTrip(b0: Byte, b1: Byte, b2: Byte)
    ensures DecodeQuad(EncodeGroup(b0, b1, b2)) == Some([b0, b1, b2])
  {
    var s0: Sextet, s1: Sextet := b0 / 4, (b0 % 4) * 16 + b1 / 16;
    var s2: Sextet, s3: Sextet := (b1 % 16) * 4 + b2 / 64, b2 % 64;
    SplitPacked16(b0 % 4, b1 / 16);
    SplitPacked4(b1 % 16, b2 / 64);
    assert HighByte(s0, s1) == b0;
    assert MiddleByte(s1, s2) == b1;
    assert LowByte(s2, s3) == b2;
    var q := EncodeGroup(b0, b1, b2);
    assert SextetOf(q[0]) == Some(s0) && SextetOf(q[1]) == Some(s1);
    assert SextetOf(q[2]) == Some(s2) && SextetOf(q[3]) == Some(s3);
  }

  lemma FinalOneRoundTrip(b0: Byte)
    ensures DecodeQuad(EncodeFinalOne(b0)) == Some([b0])
  {
    var s0: Sextet, s1: Sextet := b0 / 4, (b0 % 4) * 16;
    SplitPacked16(b0 % 4, 0);
    assert HighByte(s0, s1) == b0;
    var q := EncodeFinalOne(b0);
    assert SextetOf(q[0]) == Some(s0) && SextetOf(q[1]) == Some(s1);
    assert SextetOf(q[2]) == None && SextetOf(q[3]) == None;
  }

  lemma FinalTwoRoundTrip(b0: Byte, b1: Byte)
    ensures DecodeQuad(EncodeFinalTwo(b0, b1)) == Some([b0, b1])
  {
    var s0: Sextet, s1: Sextet := b0 / 4, (b0 % 4) * 16 + b1 / 16;
    var s2: Sextet := (b1 % 16) * 4;
    SplitPacked16(b0 % 4, b1 / 16);
    SplitPacked4(b1 % 16, 0);
    assert HighByte(s0, s1) == b0;
    assert MiddleByte(s1, s2) == b1;
    var q := EncodeFinalTwo(b0, b1);
    assert SextetOf(q[0]) == Some(s0) && SextetOf(q[1]) == Some(s1);
    assert SextetOf(q[2]) == Some(s2) && SextetOf(q[3]) == None;
  }

  /** Decoding what `Encode` produced gives back the original bytes. */
  lemma {:induction false} DecodeEncode(b: seq<Byte>)
    ensures Decode(Encode(b)) == Some(b)
    decreases |b|
  {
    if |b| == 0 {
    } else if |b| == 1 {
      FinalOneRoundTrip(b[0]);
      assert b == [b[0]];
    } else if |b| == 2 {
      FinalTwoRoundTrip(b[0], b[1]);
      assert b == [b[0], b[1]];
    } else {
      DecodeEncode(b[3..]);
      DecodeLeadingGroup(b, Encode(b[3..]));
    }
  }

  /** The leading group of three bytes decodes in front of whatever the rest decodes to. */
  lemma DecodeLeadingGroup(b: seq<Byte>, rest: string)
    requires |b| >= 3
    requires Decode(rest) == Some(b[3..])
    ensures Decode(EncodeGroup(b[0], b[1], b[2]) + rest) == Some(b)
  {
    var g := EncodeGroup(b[0], b[1], b[2]);
    GroupRoundTrip(b[0], b[1], b[2]);
    assert b[..3] == [b[0], b[1], b[2]];
    assert b[..3] + b[3..] == b;
    if |rest| == 0 {
      assert rest == "";
      DecodeLoneGroup(g, b[..3], b[3..]);
    } else {
      DecodeAppend(g, rest, b[..3], b[3..]);
    }
  }

  /** An unpadded quadruple on its own decodes to its three bytes. */
  lemma DecodeLoneGroup(g: string, x: seq<Byte>, y: seq<Byte>)
    requires |g| == 4 && DecodeQuad(g) == Some(x)
    requires Decode("") == Some(y)
    ensures Decode(g + "") == Some(x + y)
  {
    assert g + "" == g;
    assert y == [] && x + y == x;
  }

  /** An unpadded quadruple followed by a non-empty decodable string decodes to the concatenation. */
  lemma DecodeAppend(g: string, rest: string, x: seq<Byte>, y: seq<Byte>)
    requires |g| == 4 && |rest| > 0
    requires DecodeQuad(g) == Some(x) && |x| == 3
    requires Decode(rest) == Some(y)
    ensures Decode(g + rest) == Some(x + y)
  {
    var e := g + rest;
    assert e[..4] == g;
    assert e[4..] == rest;
  }

  /** An alphabet character is the one `SextetChar` gives for its value. */
  lemma CharOfSextet(c: char)
    requires SextetOf(c).Some?
    ensures SextetChar(SextetOf(c).value) == c
  {
  }

  /** Packing a high part above a low part of 6 bits, then splitting them again, gives both back. */
  lemma SplitPacked64(hi: int, lo: int)
    requires 0 <= lo < 64 && 0 <= hi
    ensures (hi * 64 + lo) / 64 == hi && (hi * 64 + lo) % 64 == lo
  {
  }

  /** Re-packing the three bytes of four sextets into sextets gives the same four back. */
  lemma RepackGroup(v0: Sextet, v1: Sextet, v2: Sextet, v3: Sextet)
    ensures HighByte(v0, v1) / 4 == v0
    ensures (HighByte(v0, v1) % 4) * 16 + MiddleByte(v1, v2) / 16 == v1
    ensures (MiddleByte(v1, v2) % 16) * 4 + LowByte(v2, v3) / 64 == v2
    ensures LowByte(v2, v3) % 64 == v3
  {
    SplitPacked4(v0, v1 / 16);
    SplitPacked16(v1 % 16, v2 / 4);
    SplitPacked64(v2 % 4, v3);
  }

  /** A quadruple that decodes to three bytes is exactly their encoding. */
  lemma GroupOfQuad(q: string)
    requires |q| == 4 && DecodeQuad(q).Some? && |DecodeQuad(q).value| == 3
    ensures EncodeGroup(DecodeQuad(q).value[0], DecodeQuad(q).value[1], DecodeQuad(q).value[2]) == q
  {
    var v0, v1 := SextetOf(q[0]).value, SextetOf(q[1]).value;
    var v2, v3 := SextetOf(q[2]).value, SextetOf(q[3]).value;
    CharOfSextet(q[0]); CharOfSextet(q[1]); CharOfSextet(q[2]); CharOfSextet(q[3]);
    var b0, b1, b2 := HighByte(v0, v1), MiddleByte(v1, v2), LowByte(v2, v3);
    assert DecodeQuad(q).value == [b0, b1, b2];
    RepackGroup(v0, v1, v2, v3);
    assert EncodeGroup(b0, b1, b2) == [q[0], q[1], q[2], q[3]];
  }

  /** A quadruple that decodes to two bytes is exactly their final encoding. */
  lemma FinalTwoOfQuad(q: string)
    requires |q| == 4 && DecodeQuad(q).Some? && |DecodeQuad(q).value| == 2
    ensures EncodeFinalTwo(DecodeQuad(q).value[0], DecodeQuad(q).value[1]) == q
  {
    var v0, v1, v2 := SextetOf(q[0]).value, SextetOf(q[1]).value, SextetOf(q[2]).value;
    CharOfSextet(q[0]); CharOfSextet(q[1]); CharOfSextet(q[2]);
    assert q[3] == PadChar && v2 % 4 == 0;
    var b0, b1 := HighByte(v0, v1), MiddleByte(v1, v2);
    assert DecodeQuad(q).value == [b0, b1];
    SplitPacked4(v0, v1 / 16);
    SplitPacked16(v1 % 16, v2 / 4);
    assert (b0 % 4) * 16 + b1 / 16 == v1;
    assert (b1 % 16) * 4 == v2;
    assert EncodeFinalTwo(b0, b1) == [q[0], q[1], q[2], q[3]];
  }

  /** A quadruple that decodes to one byte is exactly its final encoding. */
  lemma FinalOneOfQuad(q: string)
    requires |q| == 4 && DecodeQuad(q).Some? && |DecodeQuad(q).value| == 1
    ensures EncodeFinalOne(DecodeQuad(q).value[0]) == q
  {
    var v0, v1 := SextetOf(q[0]).value, SextetOf(q[1]).value;
    CharOfSextet(q[0]); CharOfSextet(q[1]);
    assert q[2] == PadChar && q[3] == PadChar && v1 % 16 == 0;
    var b0 := HighByte(v0, v1);
    assert DecodeQuad(q).value == [b0];
    SplitPacked4(v0, v1 / 16);
    assert (b0 % 4) * 16 == v1;
    assert EncodeFinalOne(b0) == [q[0], q[1], q[2], q[3]];
  }

  /** Every string the reference decoder accepts is the encoding of what it decodes to, so
      `Encode` is the only encoder that `Decode` inverts. */
  lemma {:induction false} EncodeDecode(e: string)
    requires Decode(e).Some?
    ensures Encode(Decode(e).value) == e
    decreases |e|
  {
    if |e| == 0 {
    } else if |e| == 4 {
      var b := DecodeQuad(e).value;
      if |b| == 3 {
        GroupOfQuad(e);
        assert b[3..] == [];
      } else if |b| == 2 {
        FinalTwoOfQuad(e);
      } else {
        FinalOneOfQuad(e);
      }
    } else {
      EncodeDecode(e[4..]);
      var g, rest := DecodeQuad(e[..4]).value, Decode(e[4..]).value;
      GroupOfQuad(e[..4]);
      var b := g + rest;
      assert b[3..] == rest;
      assert b[0] == g[0] && b[1] == g[1] && b[2] == g[2];
      assert e == e[..4] + e[4..];
    }
  }

  /** A string `btoa` accepts: every character is a single Latin-1 byte. */
  predicate IsLatin1(s: string) {
    forall i :: 0 <= i < |s| ==> s[i] as int < 256
  }

  function ToBytes(s: string): (b: seq<Byte>)
    requires IsLatin1(s)
    ensures |b| == |s| && forall i :: 0 <= i < |s| ==> b[i] == s[i] as int
  {
    seq(|s|, i requires 0 <= i < |s| => s[i] as int)
  }

  function FromBytes(b: seq<Byte>): (s: string)
    ensures IsLatin1(s) && ToBytes(s) == b
  {
    seq(|b|, i requires 0 <= i < |b| => b[i] as char)
  }

  /** `btoa(s)`: `None` stands for the InvalidCharacterError thrown on a non-Latin-1 character. */
  function Btoa(s: string): (r: Option<string>)
    ensures r.Some? <==> IsLatin1(s)
    ensures r.Some? ==> |r.value| == (|s| + 2) / 3 * 4
    ensures r.Some? ==> Atob(r.value) == Some(s)
  {
    if IsLatin1(s) then
      var b := ToBytes(s);
      DecodeEncode(b);
      assert FromBytes(b) == s;
      Some(Encode(b))
    else None
  }

  /** A strict `atob`, built on the reference decoder: unlike the browser's function it rejects
      unpadded input, whitespace and non-zero pad bits. The two agree on everything `Btoa` produces. */
  function Atob(e: string): (r: Option<string>)
    ensures r.Some? ==> IsLatin1(r.value)
  {
    match Decode(e)
    case Some(b) => Some(FromBytes(b))
    case None => None
  }

  /** Quadruples with non-zero pad bits are rejected: "Zh==" and "Zm9=" differ from the
      encodings "Zg==" of "f" and "Zm8=" of "fo" only in bits that padding discards. */
  lemma PadBitsRejected()
    ensures Decode("Zh==").None? && Decode("Zm9=").None?
    ensures Decode("Zg==") == Some([102]) && Decode("Zm8=") == Some([102, 111])
  {
  }

  /** `Btoa(s)` is the only string that `Atob` turns into `s`. */
  lemma AtobOnlyFromBtoa(s: string, e: string)
    requires Atob(e) == Some(s)
    ensures Btoa(s) == Some(e)
  {
    var b := Decode(e).value;
    assert s == FromBytes(b);
    assert ToBytes(s) == b;
    EncodeDecode(e);
  }

  /** The test vectors of section 10 of RFC 4648 ("", "f", "fo", "foo", "foob", "fooba",
      "foobar"), as byte strings. */
  lemma EncodeTestVectors()
    ensures Encode([]) == ""
    ensures Encode([102]) == "Zg=="
    ensures Encode([102, 111]) == "Zm8="
    ensures Encode([102, 111, 111]) == "Zm9v"
    ensures Encode([102, 111, 111, 98]) == "Zm9vYg=="
    ensures Encode([102, 111, 111, 98, 97]) == "Zm9vYmE="
    ensures Encode([102, 111, 111, 98, 97, 114]) == "Zm9vYmFy"
  {
    assert [102, 111, 111, 98, 97, 114][3..] == [98, 97, 114];
    assert [102, 111, 111, 98, 97][3..] == [98, 97];
    assert [102, 111, 111, 98][3..] == [98];
  }
}
