/** The words, constants and rotations of SHA-1 in arithmetic. */
module Sha1Numbers {
  import opened ByteOrder
  import opened Sha1Spec
  import opened WordNumbers

  // ---------- shifts ----------

  function SkipTwo(x: Word): Word { x >> 2 }

  lemma HalvesTwo(x: Word)
    ensures Halves(x, 1) == Half(x) && Halves(x, 2) == SkipTwo(x)
  {
    TwoBits(x);
    hide Half, Halves, SkipTwo;
    HalvesNone(x);
    HalvesNext(x, 0, x);
    HalvesNext(x, 1, Half(x));
  }

  lemma TwoBits(x: Word)
    ensures Half(Half(x)) == SkipTwo(x)
  {
  }

  lemma HalvesFive(x: Word)
    ensures Halves(x, 5) == Half(SkipFour(x))
  {
    hide Half, Halves, SkipFour;
    HalvesFour(x);
    DropBits(x);
    HalvesNext(x, 4, SkipFour(x));
  }

  lemma HalvesMany(x: Word)
    ensures var y := SkipEight(SkipEight(SkipEight(x)));
      && Halves(x, 27) == Half(SkipTwo(y)) && Halves(x, 30) == SkipTwo(SkipFour(y)) && Halves(x, 31) == Half(SkipTwo(SkipFour(y)))
  {
    hide Half, Halves, SkipTwo, SkipFour, SkipEight;
    var y := SkipEight(SkipEight(SkipEight(x)));
    HalvesEight(x);
    HalvesEight(SkipEight(x));
    HalvesOn(x, 8, 8);
    HalvesEight(SkipEight(SkipEight(x)));
    HalvesOn(x, 16, 8);
    HalvesTwo(y);
    HalvesOn(x, 24, 2);
    HalvesNext(x, 26, SkipTwo(y));
    HalvesFour(y);
    DropBits(y);
    HalvesOn(x, 24, 4);
    HalvesTwo(SkipFour(y));
    HalvesOn(x, 28, 2);
    HalvesNext(x, 30, SkipTwo(SkipFour(y)));
  }

  // ---------- rotations (section 3.2) ----------

  lemma {:induction false} OnesInTwo(x: Word, m: nat, n: nat)
    requires LowOnes(x, m + n)
    ensures LowOnes(x, m) && LowOnes(Halves(x, m), n)
    decreases m
  {
    hide Half, Odd;
    if m > 0 {
      OnesInTwo(Half(x), m - 1, n);
    }
  }

  /** The two masks of a rotation. */
  lemma Masks(k: nat)
    requires k <= 32
    ensures LowOnes(Halves(MAX, 32 - k), k) && LowOnes(Halves(MAX, k), 32 - k)
  {
    hide LowOnes, Halves;
    MaxOnes();
    OnesInTwo(MAX, 32 - k, k);
    OnesInTwo(MAX, k, 32 - k);
  }

  lemma Rotated(x: Word, r: Word, k: nat)
    requires k <= 32 && And(r, Halves(MAX, 32 - k)) == Halves(x, 32 - k) && Halves(r, k) == And(x, Halves(MAX, k))
    ensures Number(r) == Number(x) % Pow2(32 - k) * Pow2(k) + Number(x) / Pow2(32 - k)
  {
    hide And, Halves, LowOnes, Number, Pow2;
    Masks(k);
    RotationNumber(x, r, k, Halves(MAX, 32 - k), Halves(MAX, k));
  }

  lemma Rotl1Bits(x: Word)
    ensures var y, m := SkipEight(SkipEight(SkipEight(x))), SkipEight(SkipEight(SkipEight(MAX)));
      && And(Rotl1(x), Half(SkipTwo(SkipFour(m)))) == Half(SkipTwo(SkipFour(y)))
      && Half(Rotl1(x)) == And(x, Half(MAX))
  {
  }

  lemma Rotl5Bits(x: Word)
    ensures var y, m := SkipEight(SkipEight(SkipEight(x))), SkipEight(SkipEight(SkipEight(MAX)));
      && And(Rotl5(x), Half(SkipTwo(m))) == Half(SkipTwo(y)) && Half(SkipFour(Rotl5(x))) == And(x, Half(SkipFour(MAX)))
  {
  }

  lemma Rotl30Bits(x: Word)
    ensures var y, m := SkipEight(SkipEight(SkipEight(Rotl30(x)))), SkipEight(SkipEight(SkipEight(MAX)));
      && And(Rotl30(x), SkipTwo(MAX)) == SkipTwo(x) && SkipTwo(SkipFour(y)) == And(x, SkipTwo(SkipFour(m)))
  {
  }

  lemma Powers()
    ensures Pow2(1) == 2 && Pow2(2) == 4 && Pow2(5) == 32 && Pow2(27) == 0x800_0000
    ensures Pow2(30) == 0x4000_0000 && Pow2(31) == 0x8000_0000
  {
    PowersBelow();
    assert Pow2(25) == 2 * Pow2(24) && Pow2(26) == 2 * Pow2(25) && Pow2(27) == 2 * Pow2(26);
    assert Pow2(28) == 2 * Pow2(27) && Pow2(29) == 2 * Pow2(28) && Pow2(30) == 2 * Pow2(29) && Pow2(31) == 2 * Pow2(30);
  }

  lemma PowersBelow()
    ensures Pow2(1) == 2 && Pow2(2) == 4 && Pow2(5) == 32 && Pow2(24) == 0x100_0000
  {
    assert Pow2(8) == 0x100;
    assert Pow2(16) == 0x1_0000;
  }

  /** The rotations as multiplication modulo 2^32 with what overflows added again. */
  lemma Rotl1Number(x: Word)
    ensures Number(Rotl1(x)) == Number(x) * 2 % 0x1_0000_0000 + Number(x) / 0x8000_0000
  {
    Rotl1Bits(x);
    Powers();
    hide And, Half, SkipTwo, SkipFour, SkipEight, Halves, Number, Rotl1, Pow2;
    HalvesMany(x);
    HalvesMany(MAX);
    HalvesTwo(Rotl1(x));
    HalvesTwo(MAX);
    Rotated(x, Rotl1(x), 1);
  }

  lemma Rotl5Number(x: Word)
    ensures Number(Rotl5(x)) == Number(x) * 32 % 0x1_0000_0000 + Number(x) / 0x800_0000
  {
    Rotl5Bits(x);
    Powers();
    hide And, Half, SkipTwo, SkipFour, SkipEight, Halves, Number, Rotl5, Pow2;
    HalvesMany(x);
    HalvesMany(MAX);
    HalvesFive(Rotl5(x));
    HalvesFive(MAX);
    Rotated(x, Rotl5(x), 5);
  }

  lemma Rotl30Number(x: Word)
    ensures Number(Rotl30(x)) == Number(x) * 0x4000_0000 % 0x1_0000_0000 + Number(x) / 4
  {
    Rotl30Bits(x);
    Powers();
    hide And, Half, SkipTwo, SkipFour, SkipEight, Halves, Number, Rotl30, Pow2;
    HalvesMany(Rotl30(x));
    HalvesMany(MAX);
    HalvesTwo(x);
    HalvesTwo(MAX);
    Rotated(x, Rotl30(x), 30);
  }

  // ---------- words in bytes (section 3.1) ----------

  lemma {:induction false} ByteValue(b: Byte)
    ensures Value(Wide(b), 8) == ToNat(b)
    decreases ToNat(b)
  {
    hide ToNat, Wide, Value;
    NextByte(0);
    if b == 0 {
      WideZero();
      ValueZero(8);
    } else {
      var c := b - 1;
      WideNext(b);
      NextByte(c);
      ByteBelow(b, c);
      ByteValue(c);
      ValueNext(Wide(c), 8);
      ByteRange();
    }
  }

  function Wide(b: Byte): Word { b as Word }

  lemma WideZero()
    ensures Wide(0) == 0
  {
  }

  lemma WideNext(b: Byte)
    requires b != 0
    ensures Wide(b) == Next(Wide(b - 1)) && Wide(b - 1) != MAX && (b - 1) + 1 == b
  {
  }

  lemma ByteBelow(b: Byte, c: Byte)
    requires c + 1 == b && b != 0
    ensures ToNat(c) < 0xff
  {
  }

  lemma ByteRange()
    ensures Pow2(8) == 0x100
  {
    assert Pow2(4) == 16;
  }

  /** The low byte of a word. */
  function LowByte(x: Word): Byte { (x & 0xff) as Byte }

  lemma LowByteBits(x: Word)
    ensures Wide(LowByte(x)) == And(x, 0xff)
  {
  }

  lemma ByteMask()
    ensures var m: Word := 0xff; m & 0xf == 0xf && SkipFour(m) & 0xf == 0xf
  {
  }

  lemma LowByteNumber(x: Word)
    ensures ToNat(LowByte(x)) == Value(x, 8)
  {
    ByteMask();
    OnesEight(0xff);
    hide ToNat, LowByte, Wide, And, Value, LowOnes;
    LowByteBits(x);
    ByteValue(LowByte(x));
    MaskValue(x, 0xff, 8);
  }

  lemma ByteOn(x: Word, n: nat)
    ensures Value(x, 8 + n) == ToNat(LowByte(x)) + 0x100 * Value(SkipEight(x), n)
  {
    hide Value, Halves, Half, LowByte, ToNat, SkipEight, Pow2;
    LowByteNumber(x);
    HalvesEight(x);
    ValueOn(x, 8, n);
    ByteRange();
  }

  lemma BytesOfWord(x: Word)
    ensures var x1, x2, x3 := SkipEight(x), SkipEight(SkipEight(x)), SkipEight(SkipEight(SkipEight(x)));
      WordBytes(x) == [LowByte(x3), LowByte(x2), LowByte(x1), LowByte(x)]
  {
  }

  lemma NumberInBytes(x: Word)
    ensures var x1, x2, x3 := SkipEight(x), SkipEight(SkipEight(x)), SkipEight(SkipEight(SkipEight(x)));
      Number(x) == ToNat(LowByte(x)) + 0x100 * (ToNat(LowByte(x1)) + 0x100 * (ToNat(LowByte(x2)) + 0x100 * ToNat(LowByte(x3))))
  {
    hide Value, LowByte, ToNat, SkipEight;
    var x1, x2, x3 := SkipEight(x), SkipEight(SkipEight(x)), SkipEight(SkipEight(SkipEight(x)));
    ByteOn(x, 24);
    ByteOn(x1, 16);
    ByteOn(x2, 8);
    LowByteNumber(x3);
  }

  lemma FourBytes(b0: Byte, b1: Byte, b2: Byte, b3: Byte)
    ensures FromBigEndian([b0, b1, b2, b3]) == ToNat(b3) + 0x100 * (ToNat(b2) + 0x100 * (ToNat(b1) + 0x100 * ToNat(b0)))
  {
    hide ToNat;
    assert [b0, b1, b2, b3][..3] == [b0, b1, b2] && [b0, b1, b2][..2] == [b0, b1] && [b0, b1][..1] == [b0];
    assert FromBigEndian([b0]) == ToNat(b0) by { assert [b0][..0] == []; }
    assert FromBigEndian([b0, b1]) == 0x100 * ToNat(b0) + ToNat(b1);
    assert FromBigEndian([b0, b1, b2]) == 0x100 * FromBigEndian([b0, b1]) + ToNat(b2);
  }

  /** Bytes that are read as a number are written again. */
  lemma {:induction false} BytesBack(bytes: seq<Byte>)
    ensures BigEndian(FromBigEndian(bytes), |bytes|) == bytes
    decreases |bytes|
  {
    hide ToNat, ToByte;
    if bytes != [] {
      var front, last := bytes[..|bytes| - 1], bytes[|bytes| - 1];
      BytesBack(front);
      NumberBack(last);
      assert FromBigEndian(bytes) / 0x100 == FromBigEndian(front) && FromBigEndian(bytes) % 0x100 == ToNat(last);
    }
  }

  /** The bytes of a word are its number, the most significant byte first. */
  lemma WordBytesNumber(x: Word)
    ensures FromBigEndian(WordBytes(x)) == Number(x) && WordBytes(x) == BigEndian(Number(x), 4)
  {
    hide Number, LowByte, ToNat, SkipEight, WordBytes, FromBigEndian, BigEndian;
    BytesOfWord(x);
    NumberInBytes(x);
    var x1, x2, x3 := SkipEight(x), SkipEight(SkipEight(x)), SkipEight(SkipEight(SkipEight(x)));
    FourBytes(LowByte(x3), LowByte(x2), LowByte(x1), LowByte(x));
    BytesBack(WordBytes(x));
  }

  lemma BytesOfWordOf(b0: Byte, b1: Byte, b2: Byte, b3: Byte)
    ensures WordBytes(WordOf(b0, b1, b2, b3)) == [b0, b1, b2, b3]
  {
  }

  /** A word that is read from bytes has their number. */
  lemma WordOfNumber(b0: Byte, b1: Byte, b2: Byte, b3: Byte)
    ensures Number(WordOf(b0, b1, b2, b3)) == FromBigEndian([b0, b1, b2, b3])
  {
    hide Number, WordOf, WordBytes, FromBigEndian, BigEndian;
    BytesOfWordOf(b0, b1, b2, b3);
    WordBytesNumber(WordOf(b0, b1, b2, b3));
  }

  // ---------- constants (sections 4.2.1 and 5.3.1) ----------

  lemma KBytes()
    ensures K(0) == WordOf(0x5a, 0x82, 0x79, 0x99) && K(20) == WordOf(0x6e, 0xd9, 0xeb, 0xa1)
    ensures K(40) == WordOf(0x8f, 0x1b, 0xbc, 0xdc) && K(60) == WordOf(0xca, 0x62, 0xc1, 0xd6)
  {
  }

  function Radicand(t: nat): nat { if t < 20 then 2 else if t < 40 then 3 else if t < 60 then 5 else 10 }

  lemma KNumbers()
    ensures Number(K(0)) == 0x5a82_7999 && Number(K(20)) == 0x6ed9_eba1
    ensures Number(K(40)) == 0x8f1b_bcdc && Number(K(60)) == 0xca62_c1d6
  {
    KBytes();
    ByteNumbers();
    hide Number, WordOf, K, ToNat;
    WordOfNumber(0x5a, 0x82, 0x79, 0x99);
    WordOfNumber(0x6e, 0xd9, 0xeb, 0xa1);
    WordOfNumber(0x8f, 0x1b, 0xbc, 0xdc);
    WordOfNumber(0xca, 0x62, 0xc1, 0xd6);
    FourBytes(0x5a, 0x82, 0x79, 0x99);
    FourBytes(0x6e, 0xd9, 0xeb, 0xa1);
    FourBytes(0x8f, 0x1b, 0xbc, 0xdc);
    FourBytes(0xca, 0x62, 0xc1, 0xd6);
  }

  lemma ByteNumbers()
    ensures ToNat(0x5a) == 0x5a && ToNat(0x82) == 0x82 && ToNat(0x79) == 0x79 && ToNat(0x99) == 0x99
    ensures ToNat(0x6e) == 0x6e && ToNat(0xd9) == 0xd9 && ToNat(0xeb) == 0xeb && ToNat(0xa1) == 0xa1
    ensures ToNat(0x8f) == 0x8f && ToNat(0x1b) == 0x1b && ToNat(0xbc) == 0xbc && ToNat(0xdc) == 0xdc
    ensures ToNat(0xca) == 0xca && ToNat(0x62) == 0x62 && ToNat(0xc1) == 0xc1 && ToNat(0xd6) == 0xd6
  {
  }

  lemma SameK(t: nat)
    ensures K(t) == K(if t < 20 then 0 else if t < 40 then 20 else if t < 60 then 40 else 60)
  {
  }

  /** The constant of a round is the integer part of 2^30 times the square root of 2, 3, 5 or 10. */
  lemma KIsRoot(t: nat)
    ensures var k, c := Number(K(t)), Radicand(t);
      k * k <= c * 0x1000_0000_0000_0000 < (k + 1) * (k + 1)
  {
    hide Number, K;
    KNumbers();
    SameK(t);
  }

  /** The initial hash value, least significant bytes first: the sixteen digits upwards, then downwards, and then
      every digit with its complement. */
  lemma InitialBytes()
    ensures forall i {:trigger LowFirst(INITIAL)[i]} :: 0 <= i < 8 ==> ToNat(LowFirst(INITIAL)[i]) == 0x01 + 0x22 * i
    ensures forall i {:trigger LowFirst(INITIAL)[i]} :: 8 <= i < 16 ==> ToNat(LowFirst(INITIAL)[i]) == 0xfe - 0x22 * (i - 8)
    ensures forall i {:trigger LowFirst(INITIAL)[i]} :: 16 <= i < 20 ==> ToNat(LowFirst(INITIAL)[i]) == 0xf0 - 0x0f * (i - 16)
  {
    InitialLowFirst();
    hide LowFirst;
  }

  function Turned(b: seq<Byte>): seq<Byte>
    requires |b| == 4
  {
    [b[3], b[2], b[1], b[0]]
  }

  function LowFirst(h: Vars): (r: seq<Byte>)
    ensures |r| == 20
  {
    Turned(WordBytes(h.a)) + Turned(WordBytes(h.b)) + Turned(WordBytes(h.c)) + Turned(WordBytes(h.d)) + Turned(WordBytes(h.e))
  }

  lemma InitialLowFirst()
    ensures LowFirst(INITIAL)
      == [0x01, 0x23, 0x45, 0x67, 0x89, 0xab, 0xcd, 0xef, 0xfe, 0xdc, 0xba, 0x98, 0x76, 0x54, 0x32, 0x10, 0xf0, 0xe1, 0xd2, 0xc3]
  {
  }
}
