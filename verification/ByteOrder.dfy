/** Bytes, and numbers written in bytes with the most significant byte first. */
module ByteOrder {
  type Byte = bv8

  function ToNat(b: Byte): (r: nat)
    ensures r < 0x100
  {
    b as nat
  }

  function ToByte(n: nat): Byte
    requires n < 0x100
  {
    n as Byte
  }

  lemma ByteBack(n: nat)
    requires n < 0x100
    ensures ToNat(ToByte(n)) == n
  {
    hide ToNat, ToByte;
    var b := ByteOf(n);
    NumberBack(b);
  }

  /** Every number below 256 is that of a byte: counting reaches it. */
  lemma {:induction false} ByteOf(n: nat) returns (b: Byte)
    requires n < 0x100
    ensures ToNat(b) == n
  {
    hide ToNat;
    if n == 0 {
      b := 0;
      NextByte(0);
    } else {
      var before := ByteOf(n - 1);
      NextByte(before);
      b := before + 1;
    }
  }

  lemma NextByte(b: Byte)
    ensures ToNat(0) == 0
    ensures ToNat(b) < 0xff ==> ToNat(b + 1) == ToNat(b) + 1
  {
  }

  lemma NumberBack(b: Byte)
    ensures ToByte(ToNat(b)) == b
  {
  }

  /** A number in `n` bytes, without what does not fit. */
  function BigEndian(x: nat, n: nat): (r: seq<Byte>)
    ensures |r| == n
  {
    if n == 0 then [] else BigEndian(x / 0x100, n - 1) + [ToByte(x % 0x100)]
  }

  function FromBigEndian(bytes: seq<Byte>): nat {
    if bytes == [] then 0 else 0x100 * FromBigEndian(bytes[..|bytes| - 1]) + ToNat(bytes[|bytes| - 1])
  }

  /** The number without its `n` low bytes. */
  function DropBytes(x: nat, n: nat): nat { if n == 0 then x else DropBytes(x / 0x100, n - 1) }

  lemma {:induction false} BigEndianSplit(x: nat, high: nat, low: nat)
    ensures BigEndian(x, high + low) == BigEndian(DropBytes(x, low), high) + BigEndian(x, low)
    decreases low
  {
    if low > 0 {
      BigEndianSplit(x / 0x100, high, low - 1);
    } else {
      assert BigEndian(x, 0) == [];
    }
  }

  /** A number that fits is read back. */
  lemma {:induction false} BigEndianBack(x: nat, n: nat)
    requires DropBytes(x, n) == 0
    ensures FromBigEndian(BigEndian(x, n)) == x
  {
    if n > 0 {
      BigEndianBack(x / 0x100, n - 1);
      ByteBack(x % 0x100);
      var b := BigEndian(x, n);
      assert b[..n - 1] == BigEndian(x / 0x100, n - 1);
    }
  }

  lemma DropTwo(x: nat)
    ensures DropBytes(x, 2) == x / 0x1_0000
  {
    assert DropBytes(x, 2) == DropBytes(x / 0x100, 1);
    assert DropBytes(x / 0x100, 1) == DropBytes(x / 0x1_0000, 0);
  }

  lemma DropFour(x: nat)
    ensures DropBytes(x, 4) == x / 0x1_0000_0000
  {
    assert DropBytes(x, 4) == DropBytes(x / 0x100, 3);
    assert DropBytes(x / 0x100, 3) == DropBytes(x / 0x1_0000, 2);
    DropTwo(x / 0x1_0000);
  }

  lemma DropEight(x: nat)
    ensures DropBytes(x, 8) == x / 0x1_0000_0000_0000_0000
  {
    assert DropBytes(x, 8) == DropBytes(x / 0x100, 7);
    assert DropBytes(x / 0x100, 7) == DropBytes(x / 0x1_0000, 6);
    assert DropBytes(x / 0x1_0000, 6) == DropBytes(x / 0x100_0000, 5);
    assert DropBytes(x / 0x100_0000, 5) == DropBytes(x / 0x1_0000_0000, 4);
    DropFour(x / 0x1_0000_0000);
  }
}
