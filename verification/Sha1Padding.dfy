/** How the server pads a message, which is how FIPS 180-4 pads it except for one length in sixty-four. */
module Sha1Padding {
  import opened ByteOrder
  import opened Sha1Spec

  /** How many zero bytes the server's padding puts before the last four bytes: a message of 56 bytes modulo 64
      still gets its length into the same block. */
  function ZerosBeforeLength(n: nat): (z: nat)
    ensures (n + 1 + z) % 64 == 60 && z < 67
  {
    if n % 64 <= 56 then 59 - n % 64 else 123 - n % 64
  }

  /** Only the low 32 bits of the length are written. */
  function ServerPad(message: seq<Byte>): seq<Byte> {
    message + [0x80] + Zeros(ZerosBeforeLength(|message|)) + BigEndian(8 * |message|, 4)
  }

  /** Bytes that are all zero come from a number that has nothing in them. */
  lemma {:induction false} ZeroBytes(x: nat, n: nat)
    requires DropBytes(x, n) == 0
    ensures BigEndian(x, n) == Zeros(n) <==> x == 0
  {
    if n > 0 {
      var b := BigEndian(x, n);
      ZeroBytes(x / 0x100, n - 1);
      assert b[..n - 1] == BigEndian(x / 0x100, n - 1) && Zeros(n)[..n - 1] == Zeros(n - 1);
      ByteOfNumber(x % 0x100);
      assert x == 0 <==> x / 0x100 == 0 && x % 0x100 == 0;
      assert b == b[..n - 1] + [b[n - 1]] && Zeros(n) == Zeros(n - 1) + [0];
    }
  }

  lemma ByteOfNumber(x: nat)
    requires x < 0x100
    ensures ToByte(x) == 0 <==> x == 0
  {
    ByteBack(x);
  }

  /** The server pads a message as section 5.1.1 of FIPS 180-4 says exactly if its length is not 56 modulo 64 and
      is less than 2^29 bytes. */
  lemma PaddingIsRightIff(message: seq<Byte>)
    requires |message| < 0x2000_0000_0000_0000
    ensures ServerPad(message) == Pad(message) <==> |message| % 64 != 56 && |message| < 0x2000_0000
  {
    var n := |message|;
    BigEndianSplit(8 * n, 4, 4);
    DropFour(8 * n);
    DropFour(8 * n / 0x1_0000_0000);
    var high, low := BigEndian(DropBytes(8 * n, 4), 4), BigEndian(8 * n, 4);
    ZeroBytes(DropBytes(8 * n, 4), 4);
    if n % 64 != 56 {
      var k := ZeroCount(n);
      assert ZerosBeforeLength(n) == k + 4;
      assert Zeros(k + 4) == Zeros(k) + Zeros(4);
      assert Pad(message) == message + [0x80] + Zeros(k) + (high + low);
      assert ServerPad(message) == message + [0x80] + Zeros(k) + (Zeros(4) + low);
      SameMiddle(message + [0x80] + Zeros(k), high, Zeros(4), low);
    } else {
      assert |ServerPad(message)| != |Pad(message)|;
    }
  }

  lemma SameMiddle(front: seq<Byte>, x: seq<Byte>, y: seq<Byte>, back: seq<Byte>)
    requires |x| == |y|
    ensures front + (x + back) == front + (y + back) <==> x == y
  {
    if front + (x + back) == front + (y + back) {
      assert x == (front + (x + back))[|front|..|front| + |x|];
      assert y == (front + (y + back))[|front|..|front| + |x|];
    }
  }
}
