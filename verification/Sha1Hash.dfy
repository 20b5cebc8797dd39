/** The server's `sha1`: it fills the sixteen words of a block in place, byte by byte at the end. */
module Sha1Hash {
  import opened ByteOrder
  import opened Sha1Spec
  import opened Sha1
  import opened Sha1Padding

  // ---------- bytes in words ----------

  /** `w |= byte << ((3 ^ (i & 3)) << 3)` for position `i & 3`. */
  function PutByte(w: Word, pos: nat, b: Byte): Word
    requires pos < 4
  {
    w | (if pos == 0 then (b as Word) << 24 else if pos == 1 then (b as Word) << 16
         else if pos == 2 then (b as Word) << 8 else b as Word)
  }

  lemma PutFirst(b0: Byte, b1: Byte, b2: Byte, b3: Byte)
    ensures PutByte(WordOf(0, b1, b2, b3), 0, b0) == WordOf(b0, b1, b2, b3)
  {
  }

  lemma PutSecond(b0: Byte, b1: Byte, b2: Byte, b3: Byte)
    ensures PutByte(WordOf(b0, 0, b2, b3), 1, b1) == WordOf(b0, b1, b2, b3)
  {
  }

  lemma PutThird(b0: Byte, b1: Byte, b2: Byte, b3: Byte)
    ensures PutByte(WordOf(b0, b1, 0, b3), 2, b2) == WordOf(b0, b1, b2, b3)
  {
  }

  lemma PutFourth(b0: Byte, b1: Byte, b2: Byte, b3: Byte)
    ensures PutByte(WordOf(b0, b1, b2, 0), 3, b3) == WordOf(b0, b1, b2, b3)
  {
  }

  /** A block with one more byte. */
  lemma BlockPut(t: seq<Byte>, i: nat, b: Byte)
    requires |t| == 64 && i < 64 && t[i] == 0
    ensures BlockOf(t[i := b]) == BlockOf(t)[i / 4 := PutByte(BlockOf(t)[i / 4], i % 4, b)]
  {
    hide PutByte, WordOf;
    var t', k := t[i := b], i / 4;
    PutFirst(t'[4 * k], t'[4 * k + 1], t'[4 * k + 2], t'[4 * k + 3]);
    PutSecond(t'[4 * k], t'[4 * k + 1], t'[4 * k + 2], t'[4 * k + 3]);
    PutThird(t'[4 * k], t'[4 * k + 1], t'[4 * k + 2], t'[4 * k + 3]);
    PutFourth(t'[4 * k], t'[4 * k + 1], t'[4 * k + 2], t'[4 * k + 3]);
    assert i == 4 * k || i == 4 * k + 1 || i == 4 * k + 2 || i == 4 * k + 3;
    forall j | 0 <= j < 16 && j != k ensures WordAt(t', j) == WordAt(t, j) {
    }
  }

  /** The number `n << 3` as far as it fits into a word. */
  function LowWord(x: nat): Word {
    var b := BigEndian(x, 4);
    WordOf(b[0], b[1], b[2], b[3])
  }

  lemma BlockOfZeros()
    ensures BlockOf(Zeros(64)) == seq(16, _ => 0)
  {
    ZeroWord();
    hide WordOf;
    forall k | 0 <= k < 16 ensures BlockOf(Zeros(64))[k] == 0 {
      assert WordAt(Zeros(64), k) == WordOf(0, 0, 0, 0);
    }
  }

  lemma ZeroWord()
    ensures WordOf(0, 0, 0, 0) == 0
  {
  }

  // ---------- blocks ----------

  ghost function State(r: array<Word>): Vars
    requires r.Length == 5
    reads r
  {
    Vars(r[0], r[1], r[2], r[3], r[4])
  }

  /** The words of a whole block of the message. */
  method LoadBlock(w: array<Word>, p: array<Byte>, first: nat) returns (i: nat)
    requires w.Length == 16 && first % 64 == 0 && first + 64 <= p.Length
    modifies w
    ensures i == first + 64 && w[..] == BlockOf(p[first..first + 64])
  {
    hide WordOf;
    ghost var bytes := p[first..first + 64];
    i := first;
    var more := true;
    while more
      invariant first <= i <= first + 64 && i % 4 == 0
      invariant more <==> i < first + 64
      invariant forall k :: 0 <= k < (i - first) / 4 ==> w[k] == WordAt(bytes, k)
      invariant forall o {:trigger bytes[o]} :: 0 <= o < 64 ==> bytes[o] == p[first + o]
      decreases first + 64 - i
    {
      Place(first, i);
      ghost var k := (i - first) / 4;
      assert i == first + 4 * k;
      assert bytes[4 * k] == p[i] && bytes[4 * k + 1] == p[i + 1] && bytes[4 * k + 2] == p[i + 2] && bytes[4 * k + 3] == p[i + 3];
      w[i / 4 % 16] := WordOf(p[i], p[i + 1], p[i + 2], p[i + 3]);
      i := i + 4;
      BlockEnd(first, i);
      more := i % 64 != 0;
    }
  }

  lemma BlockEnd(first: nat, i: nat)
    requires first % 64 == 0 && first < i <= first + 64
    ensures i % 64 == 0 <==> i == first + 64
  {
  }

  /** `memset(w, 0, sizeof w)` */
  method Clear(w: array<Word>)
    requires w.Length == 16
    modifies w
    ensures w[..] == BlockOf(Zeros(64))
  {
    BlockOfZeros();
    forall k | 0 <= k < 16 {
      w[k] := 0;
    }
  }

  /** The bytes of a block that is not full: the rest of the message and a one bit. */
  function TailBytes(rest: seq<Byte>): (t: seq<Byte>)
    requires |rest| < 64
    ensures |t| == 64
  {
    rest + [0x80] + Zeros(63 - |rest|)
  }

  method LoadTail(w: array<Word>, p: array<Byte>, first: nat, n: nat)
    requires w.Length == 16 && first % 64 == 0 && first <= n < first + 64 && n <= p.Length && w[..] == BlockOf(Zeros(64))
    modifies w
    ensures w[..] == BlockOf(TailBytes(p[first..n]))
  {
    hide WordOf, PutByte, BlockOf;
    ghost var t := Zeros(64);
    var i := first;
    while i < n
      invariant first <= i <= n
      invariant t == p[first..i] + Zeros(64 - (i - first)) && w[..] == BlockOf(t)
    {
      Place(first, i);
      BlockPut(t, i - first, p[i]);
      w[i / 4 % 16] := PutByte(w[i / 4 % 16], i % 4, p[i]);
      t := t[i - first := p[i]];
      i := i + 1;
    }
    Place(first, i);
    BlockPut(t, i - first, 0x80);
    w[i / 4 % 16] := PutByte(w[i / 4 % 16], i % 4, 0x80);
    assert t[i - first := 0x80] == TailBytes(p[first..n]);
  }

  lemma Place(first: nat, i: nat)
    requires first % 64 == 0 && first <= i < first + 64
    ensures i / 4 % 16 == (i - first) / 4 && i % 4 == (i - first) % 4
  {
  }

  // ---------- the whole message ----------

  /** The last block of the padded message, when the length goes into the block of the message's end. */
  lemma LengthBlock(bytes: seq<Byte>, x: nat)
    requires |bytes| == 64 && bytes[60..] == Zeros(4)
    ensures BlockOf(bytes[..60] + BigEndian(x, 4)) == BlockOf(bytes)[15 := LowWord(x)]
  {
    hide WordOf;
    var whole := bytes[..60] + BigEndian(x, 4);
    forall k | 0 <= k < 16 ensures BlockOf(whole)[k] == BlockOf(bytes)[15 := LowWord(x)][k] {
      assert k < 15 ==> WordAt(whole, k) == WordAt(bytes, k);
    }
  }

  lemma OneBlock(h: Vars, bytes: seq<Byte>)
    requires |bytes| == 64
    ensures HashBlocks(h, bytes) == Compress(h, BlockOf(bytes))
  {
    hide Compress, BlockOf;
    assert HashBlocks(Compress(h, BlockOf(bytes)), bytes[64..]) == Compress(h, BlockOf(bytes));
  }

  /** What follows the whole blocks of the message in the server's padded message. */
  function PaddedRest(rest: seq<Byte>, n: nat): seq<Byte> {
    rest + [0x80] + Zeros(ZerosBeforeLength(n)) + BigEndian(8 * n, 4)
  }

  lemma PadAfterBlocks(m: seq<Byte>, first: nat)
    requires first == |m| - |m| % 64
    ensures HashBlocks(INITIAL, ServerPad(m)) == HashBlocks(HashBlocks(INITIAL, m[..first]), PaddedRest(m[first..], |m|))
  {
    hide BigEndian, HashBlocks, Zeros, ZerosBeforeLength;
    HashInTwo(INITIAL, m[..first], PaddedRest(m[first..], |m|));
    assert ServerPad(m) == m[..first] + PaddedRest(m[first..], |m|);
  }

  lemma TwoMoreBlocks(rest: seq<Byte>, n: nat, h: Vars)
    requires |rest| == n % 64 > 56
    ensures HashBlocks(h, PaddedRest(rest, n))
         == Compress(Compress(h, BlockOf(TailBytes(rest))), BlockOf(Zeros(64))[15 := LowWord(8 * n)])
  {
    hide Compress, BlockOf, LowWord, BigEndian, HashBlocks;
    var tail, last := TailBytes(rest), Zeros(64)[..60] + BigEndian(8 * n, 4);
    assert PaddedRest(rest, n) == tail + last;
    HashInTwo(h, tail, last);
    OneBlock(h, tail);
    OneBlock(Compress(h, BlockOf(tail)), last);
    LengthBlock(Zeros(64), 8 * n);
  }

  lemma OneMoreBlock(rest: seq<Byte>, n: nat, h: Vars)
    requires |rest| == n % 64 <= 56
    ensures HashBlocks(h, PaddedRest(rest, n)) == Compress(h, BlockOf(TailBytes(rest))[15 := LowWord(8 * n)])
  {
    hide Compress, BlockOf, LowWord, BigEndian, HashBlocks;
    var tail := TailBytes(rest);
    assert PaddedRest(rest, n) == tail[..60] + BigEndian(8 * n, 4);
    OneBlock(h, tail[..60] + BigEndian(8 * n, 4));
    LengthBlock(tail, 8 * n);
  }

  /** The server's padded message, in blocks: the whole blocks of the message, and then one or two more. */
  lemma ServerBlocks(m: seq<Byte>, first: nat, h: Vars)
    requires first == |m| - |m| % 64 && h == HashBlocks(INITIAL, m[..first])
    ensures var tail, x := TailBytes(m[first..]), 8 * |m|;
      HashBlocks(INITIAL, ServerPad(m))
      == if |m| % 64 > 56 then Compress(Compress(h, BlockOf(tail)), BlockOf(Zeros(64))[15 := LowWord(x)])
         else Compress(h, BlockOf(tail)[15 := LowWord(x)])
  {
    hide Compress, BlockOf, LowWord, HashBlocks, ServerPad, PaddedRest, TailBytes, Zeros;
    PadAfterBlocks(m, first);
    if |m| % 64 > 56 {
      TwoMoreBlocks(m[first..], |m|, h);
    } else {
      OneMoreBlock(m[first..], |m|, h);
    }
  }

  /** The loop over the whole blocks of the message. */
  method HashWholeBlocks(r: array<Word>, w: array<Word>, p: array<Byte>, n: nat) returns (i: nat)
    requires r.Length == 5 && w.Length == 16 && r != w && n <= p.Length && State(r) == INITIAL
    modifies r, w
    ensures i == n - n % 64 && State(r) == HashBlocks(INITIAL, p[..n][..i])
  {
    hide Compress, BlockOf;
    ghost var m := p[..n];
    i := 0;
    while i < n - n % 64
      invariant 0 <= i <= n - n % 64 && i % 64 == 0 && State(r) == HashBlocks(INITIAL, m[..i])
      modifies w, r
    {
      ghost var first := i;
      i := LoadBlock(w, p, i);
      Sha1Mix(r, w);
      NextBlock(m, first);
      assert m[first..i] == p[first..i];
    }
  }

  /** `sha1` */
  method Hash(h: array<Byte>, p: array<Byte>, n: nat)
    requires h.Length == 20 && n <= p.Length && h != p
    modifies h
    ensures h[..] == Digest(HashBlocks(INITIAL, ServerPad(p[..n])))
  {
    hide Compress, BlockOf, LowWord, Digest, ServerPad, Plus, TailBytes, HashBlocks;
    var w := new Word[16](_ => 0);
    var r := new Word[5](k => if k == 0 then 0x67452301 else if k == 1 then 0xefcdab89 else if k == 2 then 0x98badcfe
                              else if k == 3 then 0x10325476 else 0xc3d2e1f0);
    ghost var m := p[..n];
    var i := HashWholeBlocks(r, w, p, n);
    Clear(w);
    LoadTail(w, p, i, n);
    ServerBlocks(m, i, State(r));
    assert m[i..] == p[i..n];
    if n % 64 > 56 {
      Sha1Mix(r, w);
      Clear(w);
    }
    w[15] := LowWord(8 * n);
    Sha1Mix(r, w);
    WriteDigest(h, r);
  }

  lemma NextBlock(m: seq<Byte>, first: nat)
    requires first % 64 == 0 && first + 64 <= |m|
    ensures HashBlocks(INITIAL, m[..first + 64]) == Compress(HashBlocks(INITIAL, m[..first]), BlockOf(m[first..first + 64]))
  {
    hide Compress, BlockOf;
    assert m[..first + 64] == m[..first] + m[first..first + 64];
    HashInTwo(INITIAL, m[..first], m[first..first + 64]);
    OneBlock(HashBlocks(INITIAL, m[..first]), m[first..first + 64]);
  }

  lemma MiddlePart(front: seq<Byte>, part: seq<Byte>, back: seq<Byte>)
    ensures (front + part + back)[|front|..|front| + |part|] == part
  {
  }

  lemma DigestParts(a: seq<Byte>, b: seq<Byte>, c: seq<Byte>, d: seq<Byte>, e: seq<Byte>)
    requires |a| == |b| == |c| == |d| == |e| == 4
    ensures var all := a + b + c + d + e;
      all[..4] == a && all[4..8] == b && all[8..12] == c && all[12..16] == d && all[16..20] == e
  {
    MiddlePart(a, b, c + d + e);
    MiddlePart(a + b, c, d + e);
    MiddlePart(a + b + c, d, e);
    assert a + b + c + d + e == a + b + (c + d + e) == a + b + c + (d + e);
  }

  lemma DigestWord(v: Vars, r: seq<Word>, i: nat)
    requires r == [v.a, v.b, v.c, v.d, v.e] && i < 5
    ensures Digest(v)[4 * i..4 * i + 4] == WordBytes(r[i])
  {
    hide WordBytes;
    DigestParts(WordBytes(v.a), WordBytes(v.b), WordBytes(v.c), WordBytes(v.d), WordBytes(v.e));
  }

  method WriteDigest(h: array<Byte>, r: array<Word>)
    requires h.Length == 20 && r.Length == 5
    modifies h
    ensures h[..] == Digest(State(r))
  {
    hide WordBytes, Digest;
    ghost var v := State(r);
    var i := 0;
    while i < 5
      invariant 0 <= i <= 5
      invariant forall k :: 0 <= k < 4 * i ==> h[k] == Digest(v)[k]
    {
      DigestWord(v, r[..], i);
      var b := WordBytes(r[i]);
      assert forall j :: 0 <= j < 4 ==> Digest(v)[4 * i..4 * i + 4][j] == b[j];
      h[4 * i], h[4 * i + 1] := b[0], b[1];
      h[4 * i + 2], h[4 * i + 3] := b[2], b[3];
      i := i + 1;
    }
  }

  /** For messages that the server pads right, its hash is SHA-1. */
  lemma ServerHashIsSha1(message: seq<Byte>)
    requires |message| < 0x2000_0000 && |message| % 64 != 56
    ensures Digest(HashBlocks(INITIAL, ServerPad(message))) == Sha1Spec.Sha1(message)
  {
    PaddingIsRightIff(message);
  }
}
