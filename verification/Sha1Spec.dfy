/** SHA-1 as FIPS 180-4 defines it. */
module Sha1Spec {
  import opened ByteOrder

  type Word = bv32

  // ---------- functions and constants (sections 3.2, 4.1.1, 4.2.1, 5.3.1) ----------

  function Rotl1(x: Word): Word { (x << 1) | (x >> 31) }
  function Rotl5(x: Word): Word { (x << 5) | (x >> 27) }
  function Rotl30(x: Word): Word { (x << 30) | (x >> 2) }

  function Ch(x: Word, y: Word, z: Word): Word { (x & y) ^ (!x & z) }
  function Parity(x: Word, y: Word, z: Word): Word { x ^ y ^ z }
  function Maj(x: Word, y: Word, z: Word): Word { (x & y) ^ (x & z) ^ (y & z) }

  function F(t: nat, x: Word, y: Word, z: Word): Word {
    if t < 20 then Ch(x, y, z) else if t < 40 then Parity(x, y, z) else if t < 60 then Maj(x, y, z) else Parity(x, y, z)
  }

  function K(t: nat): Word {
    if t < 20 then 0x5a827999 else if t < 40 then 0x6ed9eba1 else if t < 60 then 0x8f1bbcdc else 0xca62c1d6
  }

  /** The working variables, and the hash value. */
  datatype Vars = Vars(a: Word, b: Word, c: Word, d: Word, e: Word)

  const INITIAL: Vars := Vars(0x67452301, 0xefcdab89, 0x98badcfe, 0x10325476, 0xc3d2e1f0)

  // ---------- the hash computation (section 6.1.2) ----------

  function Xor4(a: Word, b: Word, c: Word, d: Word): Word { a ^ b ^ c ^ d }

  /** The message schedule. */
  function W(m: seq<Word>, t: nat): Word
    requires |m| == 16
  {
    if t < 16 then m[t] else Rotl1(Xor4(W(m, t - 3), W(m, t - 8), W(m, t - 14), W(m, t - 16)))
  }

  function Add(x: Word, y: Word): Word { x + y }

  function Sum5(a: Word, b: Word, c: Word, d: Word, e: Word): Word { Add(Add(Add(Add(a, b), c), d), e) }

  function Round(v: Vars, t: nat, w: Word): Vars {
    Vars(Sum5(Rotl5(v.a), F(t, v.b, v.c, v.d), v.e, K(t), w), v.a, Rotl30(v.b), v.c, v.d)
  }

  /** The working variables after `t` rounds. */
  function Rounds(h: Vars, m: seq<Word>, t: nat): Vars
    requires |m| == 16
  {
    if t == 0 then h else Round(Rounds(h, m, t - 1), t - 1, W(m, t - 1))
  }

  function Plus(v: Vars, h: Vars): Vars { Vars(Add(v.a, h.a), Add(v.b, h.b), Add(v.c, h.c), Add(v.d, h.d), Add(v.e, h.e)) }

  function Compress(h: Vars, m: seq<Word>): Vars
    requires |m| == 16
  {
    Plus(Rounds(h, m, 80), h)
  }

  // ---------- blocks (sections 3.1, 5.2.1) ----------

  /** A word from four bytes, the most significant first. */
  function WordOf(b0: Byte, b1: Byte, b2: Byte, b3: Byte): Word {
    ((b0 as Word) << 24) | ((b1 as Word) << 16) | ((b2 as Word) << 8) | (b3 as Word)
  }

  function WordAt(bytes: seq<Byte>, k: nat): Word
    requires 4 * k + 4 <= |bytes|
  {
    WordOf(bytes[4 * k], bytes[4 * k + 1], bytes[4 * k + 2], bytes[4 * k + 3])
  }

  function BlockOf(bytes: seq<Byte>): (r: seq<Word>)
    requires |bytes| >= 64
    ensures |r| == 16
  {
    seq(16, k requires 0 <= k < 16 => WordAt(bytes, k))
  }

  /** The hash value after all whole blocks of the bytes. */
  function HashBlocks(h: Vars, bytes: seq<Byte>): Vars
    decreases |bytes|
  {
    if |bytes| < 64 then h else HashBlocks(Compress(h, BlockOf(bytes)), bytes[64..])
  }

  lemma {:induction false} HashInTwo(h: Vars, front: seq<Byte>, back: seq<Byte>)
    requires |front| % 64 == 0
    ensures HashBlocks(h, front + back) == HashBlocks(HashBlocks(h, front), back)
    decreases |front|
  {
    if front == [] {
      assert front + back == back;
    } else {
      assert (front + back)[64..] == front[64..] + back;
      assert BlockOf(front + back) == BlockOf(front);
      HashInTwo(Compress(h, BlockOf(front)), front[64..], back);
    }
  }

  function WordBytes(w: Word): (r: seq<Byte>)
    ensures |r| == 4
  {
    [((w >> 24) & 0xff) as Byte, ((w >> 16) & 0xff) as Byte, ((w >> 8) & 0xff) as Byte, (w & 0xff) as Byte]
  }

  function Digest(h: Vars): (r: seq<Byte>)
    ensures |r| == 20
  {
    WordBytes(h.a) + WordBytes(h.b) + WordBytes(h.c) + WordBytes(h.d) + WordBytes(h.e)
  }

  // ---------- padding (section 5.1.1) ----------

  function Zeros(n: nat): (r: seq<Byte>)
    ensures |r| == n
  {
    seq(n, _ => 0)
  }

  /** How many zero bytes make the padded message end on a block. */
  function ZeroCount(n: nat): (z: nat)
    ensures (n + 1 + z) % 64 == 56 && z < 64
  {
    if n % 64 <= 55 then 55 - n % 64 else 119 - n % 64
  }

  /** A one bit, zero bits, and the length in bits in 64 bits. */
  function Pad(message: seq<Byte>): seq<Byte> {
    message + [0x80] + Zeros(ZeroCount(|message|)) + BigEndian(8 * |message|, 8)
  }

  function Sha1(message: seq<Byte>): seq<Byte> { Digest(HashBlocks(INITIAL, Pad(message))) }
}
