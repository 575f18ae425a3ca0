/**
 * Base 64 encoding with the standard alphabet and `=` padding, as defined in
 * section 4 of RFC 4648 (the behaviour of .NET's `Convert.ToBase64String`).
 *
 * `Encode` is the operation the token request uses; `Decode` is the strict
 * decoder a token endpoint applies to the header, and serves as the
 * encoder's inverse.
 */
module Base64 {
  import opened Wrappers
  import opened Bytes

  /** A 6-bit group: the value one output character stands for. */
  type sextet = s: int | 0 <= s < 64

  const Pad: char := '='

  /** The character that encodes the value `v`: Table 1 of RFC 4648 (A-Z, a-z, 0-9, `+`, `/`). */
  function Digit(v: sextet): (c: char)
    ensures c != Pad
  {
    if v < 26 then ('A' as int + v) as char
    else if v < 52 then ('a' as int + (v - 26)) as char
    else if v < 62 then ('0' as int + (v - 52)) as char
    else if v == 62 then '+'
    else '/'
  }

  /** The value a character encodes, or None for a character outside the alphabet. */
  function ValueOf(c: char): (r: Option<sextet>)
    ensures r.Some? ==> Digit(r.value) == c
  {
    if 'A' <= c <= 'Z' then Some(c as int - 'A' as int)
    else if 'a' <= c <= 'z' then Some(c as int - 'a' as int + 26)
    else if '0' <= c <= '9' then Some(c as int - '0' as int + 52)
    else if c == '+' then Some(62)
    else if c == '/' then Some(63)
    else None
  }

  lemma ValueOfDigit(v: sextet)
    ensures ValueOf(Digit(v)) == Some(v)
  {
  }

  /** Three input bytes become four characters (section 4 of RFC 4648). */
  function EncodeBlock(a: byte, b: byte, c: byte): string {
    [Digit(a / 4), Digit(a % 4 * 16 + b / 16), Digit(b % 16 * 4 + c / 64), Digit(c % 64)]
  }

  /** The final quantum of fewer than three bytes, padded to four characters. */
  function EncodeTail(rest: seq<byte>): string
    requires |rest| < 3
  {
    if |rest| == 0 then ""
    else if |rest| == 1 then [Digit(rest[0] / 4), Digit(rest[0] % 4 * 16), Pad, Pad]
    else [Digit(rest[0] / 4), Digit(rest[0] % 4 * 16 + rest[1] / 16), Digit(rest[1] % 16 * 4), Pad]
  }

  function Encode(data: seq<byte>): (r: string)
    ensures |r| == 4 * ((|data| + 2) / 3)
    decreases |data|
  {
    if |data| < 3 then EncodeTail(data)
    else EncodeBlock(data[0], data[1], data[2]) + Encode(data[3..])
  }

  /**
   * Every character of an encoding is in the alphabet or is `=`, and `=`
   * appears only in the last two positions.
   */
  lemma {:induction false} EncodeAlphabet(data: seq<byte>)
    ensures forall i :: 0 <= i < |Encode(data)| ==> ValueOf(Encode(data)[i]).Some? || Encode(data)[i] == Pad
    ensures forall i :: 0 <= i < |Encode(data)| - 2 ==> Encode(data)[i] != Pad
    decreases |data|
  {
    if |data| < 3 {
      if |data| > 0 {
        ValueOfDigit(data[0] / 4);
        if |data| == 1 {
          ValueOfDigit(data[0] % 4 * 16);
        } else {
          ValueOfDigit(data[0] % 4 * 16 + data[1] / 16);
          ValueOfDigit(data[1] % 16 * 4);
        }
      }
    } else {
      var block := EncodeBlock(data[0], data[1], data[2]);
      var rest := Encode(data[3..]);
      ValueOfDigit(data[0] / 4);
      ValueOfDigit(data[0] % 4 * 16 + data[1] / 16);
      ValueOfDigit(data[1] % 16 * 4 + data[2] / 64);
      ValueOfDigit(data[2] % 64);
      EncodeAlphabet(data[3..]);
      assert Encode(data) == block + rest;
      forall i | 0 <= i < |block + rest|
        ensures ValueOf((block + rest)[i]).Some? || (block + rest)[i] == Pad
        ensures i < |block + rest| - 2 ==> (block + rest)[i] != Pad
      {
        if i >= 4 {
          assert (block + rest)[i] == rest[i - 4];
        }
      }
    }
  }

  /** Decodes a quantum of four characters without padding. */
  function DecodeBlock(q: string): Option<seq<byte>>
    requires |q| == 4
  {
    match (ValueOf(q[0]), ValueOf(q[1]), ValueOf(q[2]), ValueOf(q[3]))
    case (Some(v0), Some(v1), Some(v2), Some(v3)) => Some(Bytes3(v0, v1, v2, v3))
    case _ => None
  }

  /** The three bytes whose bits four sextets carry. */
  function Bytes3(v0: sextet, v1: sextet, v2: sextet, v3: sextet): seq<byte> {
    [v0 * 4 + v1 / 16, v1 % 16 * 16 + v2 / 4, v2 % 4 * 64 + v3]
  }

  /**
   * Decodes the last quantum, which may end in one or two `=`. The bits that
   * padding leaves unused must be zero, so that every byte sequence has
   * exactly one encoding.
   */
  function DecodeFinal(q: string): Option<seq<byte>>
    requires |q| == 4
  {
    if q[2] == Pad && q[3] == Pad then
      match (ValueOf(q[0]), ValueOf(q[1]))
      case (Some(v0), Some(v1)) =>
        if v1 % 16 == 0 then Some(Bytes3(v0, v1, 0, 0)[..1]) else None
      case _ => None
    else if q[3] == Pad then
      match (ValueOf(q[0]), ValueOf(q[1]), ValueOf(q[2]))
      case (Some(v0), Some(v1), Some(v2)) =>
        if v2 % 4 == 0 then Some(Bytes3(v0, v1, v2, 0)[..2]) else None
      case _ => None
    else DecodeBlock(q)
  }

  function Decode(s: string): Option<seq<byte>>
    decreases |s|
  {
    if |s| == 0 then Some([])
    else if |s| < 4 then None
    else if |s| == 4 then DecodeFinal(s)
    else
      match DecodeBlock(s[..4])
      case None => None
      case Some(block) =>
        match Decode(s[4..])
        case None => None
        case Some(rest) => Some(block + rest)
  }

  lemma DecodeEncodeBlock(a: byte, b: byte, c: byte)
    ensures DecodeBlock(EncodeBlock(a, b, c)) == Some([a, b, c])
    ensures DecodeFinal(EncodeBlock(a, b, c)) == Some([a, b, c])
  {
    var v1, v2 := a % 4 * 16 + b / 16, b % 16 * 4 + c / 64;
    ValueOfDigit(a / 4);
    ValueOfDigit(v1);
    ValueOfDigit(v2);
    ValueOfDigit(c % 64);
    Bytes3OfBlock(a, b, c);
  }

  /** The sextets `EncodeBlock` takes from three bytes carry exactly those bytes. */
  lemma Bytes3OfBlock(a: byte, b: byte, c: byte)
    ensures Bytes3(a / 4, a % 4 * 16 + b / 16, b % 16 * 4 + c / 64, c % 64) == [a, b, c]
  {
    var v1, v2 := a % 4 * 16 + b / 16, b % 16 * 4 + c / 64;
    assert v1 / 16 == a % 4 && v1 % 16 == b / 16;
    assert v2 / 4 == b % 16 && v2 % 4 == c / 64;
  }

  lemma DecodeEncodeTail(rest: seq<byte>)
    requires 0 < |rest| < 3
    ensures DecodeFinal(EncodeTail(rest)) == Some(rest)
  {
    if |rest| == 1 {
      DecodeEncodeOne(rest[0]);
      assert rest == [rest[0]];
    } else {
      DecodeEncodeTwo(rest[0], rest[1]);
      assert rest == [rest[0], rest[1]];
    }
  }

  lemma DecodeEncodeOne(a: byte)
    ensures DecodeFinal(EncodeTail([a])) == Some([a])
  {
    var v1 := a % 4 * 16;
    assert EncodeTail([a]) == [Digit(a / 4), Digit(v1), Pad, Pad];
    ValueOfDigit(a / 4);
    ValueOfDigit(v1);
    assert v1 % 16 == 0;
    Bytes3OfBlock(a, 0, 0);
    assert Bytes3(a / 4, v1, 0, 0)[..1] == [a];
  }

  lemma DecodeEncodeTwo(a: byte, b: byte)
    ensures DecodeFinal(EncodeTail([a, b])) == Some([a, b])
  {
    var v1, v2 := a % 4 * 16 + b / 16, b % 16 * 4;
    assert EncodeTail([a, b]) == [Digit(a / 4), Digit(v1), Digit(v2), Pad];
    ValueOfDigit(a / 4);
    ValueOfDigit(v1);
    ValueOfDigit(v2);
    assert v2 % 4 == 0;
    Bytes3OfBlock(a, b, 0);
    assert Bytes3(a / 4, v1, v2, 0)[..2] == [a, b];
  }

  /** Decoding undoes encoding: the header's payload determines the bytes it was made from. */
  lemma {:induction false} DecodeEncode(data: seq<byte>)
    ensures Decode(Encode(data)) == Some(data)
    decreases |data|
  {
    if |data| == 0 {
    } else if |data| < 3 {
      DecodeEncodeTail(data);
    } else {
      var block := EncodeBlock(data[0], data[1], data[2]);
      var rest := Encode(data[3..]);
      DecodeEncodeBlock(data[0], data[1], data[2]);
      assert data == [data[0], data[1], data[2]] + data[3..];
      assert Encode(data) == block + rest;
      if |data| == 3 {
        assert rest == "";
        assert block + rest == block;
        assert data == [data[0], data[1], data[2]];
      } else {
        DecodeEncode(data[3..]);
        assert (block + rest)[..4] == block;
        assert (block + rest)[4..] == rest;
      }
    }
  }

  /** Two byte sequences with the same encoding are equal. */
  lemma EncodeInjective(x: seq<byte>, y: seq<byte>)
    requires Encode(x) == Encode(y)
    ensures x == y
  {
    DecodeEncode(x);
    DecodeEncode(y);
  }

  /** The test vectors of section 10 of RFC 4648 ("f", "fo", ... "foobar"). */
  lemma TestVectors()
    ensures Encode([]) == ""
    ensures Encode([0x66]) == "Zg=="
    ensures Encode([0x66, 0x6F]) == "Zm8="
    ensures Encode([0x66, 0x6F, 0x6F]) == "Zm9v"
    ensures Encode([0x66, 0x6F, 0x6F, 0x62]) == "Zm9vYg=="
    ensures Encode([0x66, 0x6F, 0x6F, 0x62, 0x61]) == "Zm9vYmE="
    ensures Encode([0x66, 0x6F, 0x6F, 0x62, 0x61, 0x72]) == "Zm9vYmFy"
  {
    assert [0x66, 0x6F, 0x6F, 0x62][3..] == [0x62];
    assert [0x66, 0x6F, 0x6F, 0x62, 0x61][3..] == [0x62, 0x61];
    assert [0x66, 0x6F, 0x6F, 0x62, 0x61, 0x72][3..] == [0x62, 0x61, 0x72];
  }
}
