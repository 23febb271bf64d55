/** Bytes, big-endian integers, and text as bytes. */
module Bytes {

  datatype Result<+T, +E> = Ok(value: T) | Err(error: E)

  type Byte = b: int | 0 <= b < 256

  type U16 = n: int | 0 <= n < 0x1_0000

  type U32 = n: int | 0 <= n < 0x1_0000_0000

  function Pow256(width: nat): nat {
    if width == 0 then 1 else 256 * Pow256(width - 1)
  }

  /** The last `width` bytes of the big-endian form of a number. */
  function BigEndian(n: nat, width: nat): (bytes: seq<Byte>)
    ensures |bytes| == width
    decreases width
  {
    if width == 0 then [] else BigEndian(n / 256, width - 1) + [n % 256]
  }

  function FromBigEndian(bytes: seq<Byte>): (n: nat)
    ensures n < Pow256(|bytes|)
  {
    if bytes == [] then 0 else FromBigEndian(bytes[..|bytes| - 1]) * 256 + bytes[|bytes| - 1]
  }

  lemma {:induction false} FromToBigEndian(n: nat, width: nat)
    requires n < Pow256(width)
    ensures FromBigEndian(BigEndian(n, width)) == n
    decreases width
  {
    if width > 0 {
      FromToBigEndian(n / 256, width - 1);
      var front := BigEndian(n / 256, width - 1);
      assert BigEndian(n, width)[..width - 1] == front;
    }
  }

  lemma {:induction false} ToFromBigEndian(bytes: seq<Byte>)
    ensures BigEndian(FromBigEndian(bytes), |bytes|) == bytes
    decreases |bytes|
  {
    if bytes != [] {
      var front := bytes[..|bytes| - 1];
      ToFromBigEndian(front);
      assert bytes == front + [bytes[|bytes| - 1]];
    }
  }

  const SHORT: nat := 2
  const WORD: nat := 4

  lemma {:induction false} Widths()
    ensures Pow256(SHORT) == 0x1_0000 && Pow256(WORD) == 0x1_0000_0000
  {
    assert Pow256(1) == 256 && Pow256(3) == 0x100_0000;
  }

  function Be16(n: U16): (bytes: seq<Byte>)
    ensures |bytes| == SHORT
  {
    BigEndian(n, SHORT)
  }

  function FromBe16(bytes: seq<Byte>): U16
    requires |bytes| == SHORT
  {
    Widths();
    FromBigEndian(bytes)
  }

  function Be32(n: U32): (bytes: seq<Byte>)
    ensures |bytes| == WORD
  {
    BigEndian(n, WORD)
  }

  function FromBe32(bytes: seq<Byte>): U32
    requires |bytes| == WORD
  {
    Widths();
    FromBigEndian(bytes)
  }

  lemma {:induction false} Be16Inverse(n: U16, bytes: seq<Byte>)
    requires |bytes| == SHORT
    ensures FromBe16(bytes) == n <==> Be16(n) == bytes
  {
    Widths();
    FromToBigEndian(n, SHORT);
    ToFromBigEndian(bytes);
  }

  lemma {:induction false} Be32Inverse(n: U32, bytes: seq<Byte>)
    requires |bytes| == WORD
    ensures FromBe32(bytes) == n <==> Be32(n) == bytes
  {
    Widths();
    FromToBigEndian(n, WORD);
    ToFromBigEndian(bytes);
  }

  lemma {:induction false} FromSnoc(front: seq<Byte>, b: Byte)
    ensures FromBigEndian(front + [b]) == FromBigEndian(front) * 0x100 + b
  {
    assert (front + [b])[..|front|] == front;
  }

  /** Big-endian means the most significant byte first. */
  lemma {:induction false} Be16Is(n: U16, b0: Byte, b1: Byte)
    requires n == b0 * 0x100 + b1
    ensures Be16(n) == [b0, b1]
  {
    FromSnoc([], b0);
    FromSnoc([b0], b1);
    assert [] + [b0] == [b0] && [b0] + [b1] == [b0, b1];
    Be16Inverse(n, [b0, b1]);
  }

  lemma {:induction false} Be32Is(n: U32, b0: Byte, b1: Byte, b2: Byte, b3: Byte)
    requires n == ((b0 * 0x100 + b1) * 0x100 + b2) * 0x100 + b3
    ensures Be32(n) == [b0, b1, b2, b3]
  {
    FromSnoc([], b0);
    FromSnoc([b0], b1);
    FromSnoc([b0, b1], b2);
    FromSnoc([b0, b1, b2], b3);
    assert [] + [b0] == [b0] && [b0] + [b1] == [b0, b1];
    assert [b0, b1] + [b2] == [b0, b1, b2] && [b0, b1, b2] + [b3] == [b0, b1, b2, b3];
    Be32Inverse(n, [b0, b1, b2, b3]);
  }

  // ---------------------------------------------------------------------------
  // UTF-8
  // ---------------------------------------------------------------------------

  predicate Continuation(b: Byte) {
    0x80 <= b <= 0xBF
  }

  /** The bounds on the second byte of a sequence with this first byte (table in section 4 of RFC 3629). */
  predicate SecondByteOk(first: Byte, second: Byte) {
    if first == 0xE0 then 0xA0 <= second <= 0xBF
    else if first == 0xED then 0x80 <= second <= 0x9F
    else if first == 0xF0 then 0x90 <= second <= 0xBF
    else if first == 0xF4 then 0x80 <= second <= 0x8F
    else Continuation(second)
  }

  /** The number of bytes a character with this first byte takes, 0 if no character starts so. */
  function Width(first: Byte): nat {
    if first < 0x80 then 1
    else if 0xC2 <= first <= 0xDF then 2
    else if 0xE0 <= first <= 0xEF then 3
    else if 0xF0 <= first <= 0xF4 then 4
    else 0
  }

  predicate ValidUtf8(s: seq<Byte>)
    decreases |s|
  {
    s != [] ==>
      var n := Width(s[0]);
      && 1 <= n <= |s|
      && (n >= 2 ==> SecondByteOk(s[0], s[1]))
      && (forall i :: 2 <= i < n ==> Continuation(s[i]))
      && ValidUtf8(s[n..])
  }

  predicate IsAscii(s: string) {
    forall i :: 0 <= i < |s| ==> s[i] as int < 128
  }

  function Ascii(s: string): (bytes: seq<Byte>)
    requires IsAscii(s)
    ensures |bytes| == |s| && forall i :: 0 <= i < |s| ==> bytes[i] == s[i] as int
  {
    seq(|s|, i requires 0 <= i < |s| => s[i] as int)
  }

  lemma {:induction false} AsciiInjective(s: string, t: string)
    requires IsAscii(s) && IsAscii(t) && Ascii(s) == Ascii(t)
    ensures s == t
  {
    forall i | 0 <= i < |s| ensures s[i] == t[i] {
      assert Ascii(s)[i] == Ascii(t)[i];
    }
  }
}
