/**
 * The UTF-8 encoding that `Buffer.from(string)` applies before the PIN
 * comparison, written out over byte values, and the proof that it is
 * injective (so comparing encodings is the same as comparing strings).
 */
module Utf8 {

  newtype byte = x: int | 0 <= x < 256

  /** The length of the UTF-8 sequence that a lead byte introduces. */
  function SequenceLength(lead: byte): nat
  {
    if lead < 0x80 then 1 else if lead < 0xE0 then 2 else if lead < 0xF0 then 3 else 4
  }

  /** The scalar value carried by one 1- to 4-byte UTF-8 sequence. */
  function ScalarValue(bs: seq<byte>): int
    requires 1 <= |bs| <= 4
  {
    if |bs| == 1 then bs[0] as int
    else if |bs| == 2 then (bs[0] as int - 0xC0) * 64 + (bs[1] as int - 0x80)
    else if |bs| == 3 then (bs[0] as int - 0xE0) * 4096 + (bs[1] as int - 0x80) * 64 + (bs[2] as int - 0x80)
    else
      (bs[0] as int - 0xF0) * 262144 + (bs[1] as int - 0x80) * 4096
      + (bs[2] as int - 0x80) * 64 + (bs[3] as int - 0x80)
  }

  /**
   * The UTF-8 form of one character. Its lead byte announces its length, and
   * the bytes carry exactly the character's scalar value.
   */
  function EncodeChar(c: char): (bs: seq<byte>)
    ensures 1 <= |bs| <= 4 && |bs| == SequenceLength(bs[0])
    ensures ScalarValue(bs) == c as int
  {
    var n := c as int;
    if n < 0x80 then [n as byte]
    else if n < 0x800 then EncodeTwo(n)
    else if n < 0x10000 then EncodeThree(n)
    else EncodeFour(n)
  }

  function EncodeTwo(n: int): (bs: seq<byte>)
    requires 0x80 <= n < 0x800
    ensures |bs| == 2 == SequenceLength(bs[0]) && ScalarValue(bs) == n
  {
    var hi, lo := n / 64, n % 64;
    assert n == hi * 64 + lo && 2 <= hi < 32;
    [(0xC0 + hi) as byte, (0x80 + lo) as byte]
  }

  function EncodeThree(n: int): (bs: seq<byte>)
    requires 0x800 <= n < 0x10000
    ensures |bs| == 3 == SequenceLength(bs[0]) && ScalarValue(bs) == n
  {
    var hi, mid, lo := n / 4096, n / 64 % 64, n % 64;
    assert n == n / 64 * 64 + lo;
    assert n / 64 == hi * 64 + mid;
    assert hi < 16;
    [(0xE0 + hi) as byte, (0x80 + mid) as byte, (0x80 + lo) as byte]
  }

  function EncodeFour(n: int): (bs: seq<byte>)
    requires 0x10000 <= n < 0x110000
    ensures |bs| == 4 == SequenceLength(bs[0]) && ScalarValue(bs) == n
  {
    var hi, up, mid, lo := n / 262144, n / 4096 % 64, n / 64 % 64, n % 64;
    assert n == n / 64 * 64 + lo;
    assert n / 64 == n / 4096 * 64 + mid;
    assert n / 4096 == hi * 64 + up;
    assert hi < 5;
    [(0xF0 + hi) as byte, (0x80 + up) as byte, (0x80 + mid) as byte, (0x80 + lo) as byte]
  }


  /** `Buffer.from(s)`: the concatenated UTF-8 forms of the characters of `s`. */
  function Encode(s: string): (bs: seq<byte>)
    ensures |bs| >= |s|
  {
    if s == [] then [] else EncodeChar(s[0]) + Encode(s[1..])
  }

  /** Two characters with the same UTF-8 form are the same character. */
  lemma EncodeCharInjective(c: char, d: char)
    requires EncodeChar(c) == EncodeChar(d)
    ensures c == d
  {
    assert c as int == d as int;
  }

  /**
   * UTF-8 is a prefix code: equal encodings come from equal strings. The
   * first byte fixes the length of the first character's form, so both
   * strings begin with the same character and the rest follows by induction.
   */
  lemma {:induction false} EncodeInjective(a: string, b: string)
    requires Encode(a) == Encode(b)
    ensures a == b
  {
    if a == [] || b == [] {
      assert |Encode(a)| == 0 || |Encode(b)| == 0;
    } else {
      var ea, eb := EncodeChar(a[0]), EncodeChar(b[0]);
      assert Encode(a) == ea + Encode(a[1..]);
      assert Encode(b) == eb + Encode(b[1..]);
      assert ea[0] == Encode(a)[0] == Encode(b)[0] == eb[0];
      assert |ea| == |eb|;
      assert ea == Encode(a)[..|ea|] == Encode(b)[..|eb|] == eb;
      EncodeCharInjective(a[0], b[0]);
      assert Encode(a[1..]) == Encode(a)[|ea|..] == Encode(b)[|eb|..] == Encode(b[1..]);
      EncodeInjective(a[1..], b[1..]);
      assert a == [a[0]] + a[1..];
      assert b == [b[0]] + b[1..];
    }
  }
}
