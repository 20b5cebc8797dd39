/** Machine words of eight bytes, the least significant byte first, as the masking functions use them. */
module MaskWords {
  import opened ByteOrder

  type Word = bv64

  const WORD_SIZE: nat := 8

  // ---------- operations on bits ----------

  function Xor(a: Byte, b: Byte): Byte { a ^ b }

  function XorWords(v: Word, w: Word): Word { v ^ w }

  function OrWords(v: Word, w: Word): Word { v | w }

  function AndWords(v: Word, w: Word): Word { v & w }

  /** Shifts by one byte. */
  function Down(w: Word): Word { w >> 8 }

  function Up(w: Word): Word { w << 8 }

  /** The least significant byte. */
  function Low(w: Word): Byte { (w & 0xff) as Byte }

  function Wide(b: Byte): Word { b as Word }

  function WideKey(key: bv32): Word { key as Word }

  // ---------- the functions of the source ----------

  /** Shifts by whole bytes. */
  function Right(w: Word, bytes: nat): Word { if bytes == 0 then w else Down(Right(w, bytes - 1)) }

  function Left(w: Word, bytes: nat): Word { if bytes == 0 then w else Up(Left(w, bytes - 1)) }

  /** The `i`-th byte in memory. */
  function ByteAt(w: Word, i: nat): Byte { Low(Right(w, i)) }

  /** A word, or the low bytes of one, read from memory. */
  function WordOf(b: seq<Byte>): Word
    requires |b| <= WORD_SIZE
  {
    if b == [] then 0 else OrWords(Wide(b[0]), Up(WordOf(b[1..])))
  }

  /** `prepare_masking_key`: the key twice in a word. */
  function PrepareKey(key: bv32): Word { OrWords(Left(WideKey(key), 4), WideKey(key)) }

  /** `circshift_prepared_key` on a little-endian machine. */
  function CircShift(w: Word, offset: nat): Word
    requires offset < WORD_SIZE
  {
    if offset == 0 then w else OrWords(Right(w, offset), Left(w, WORD_SIZE - offset))
  }

  // ---------- facts about bits ----------

  /** The bits that are set in one of the two, and not in both. */
  lemma XorIsEither(a: Byte, b: Byte)
    ensures Xor(a, b) == (a | b) & !(a & b)
  {
  }

  lemma XorBits(v: Word, w: Word)
    ensures Down(XorWords(v, w)) == XorWords(Down(v), Down(w)) && Low(XorWords(v, w)) == Xor(Low(v), Low(w))
  {
  }

  lemma OrBits(v: Word, w: Word)
    ensures Down(OrWords(v, w)) == OrWords(Down(v), Down(w))
  {
  }

  lemma OrLow(v: Word, w: Word)
    ensures (Low(v) == 0 ==> Low(OrWords(v, w)) == Low(w)) && (Low(w) == 0 ==> Low(OrWords(v, w)) == Low(v))
  {
  }

  lemma AndBits(v: Word, w: Word)
    ensures Down(AndWords(v, w)) == AndWords(Down(v), Down(w)) && (Low(w) == 0xff ==> Low(AndWords(v, w)) == Low(v))
  {
  }

  lemma ZeroBits()
    ensures Down(0) == 0 && Low(0) == 0
  {
  }

  lemma ByteBits(b: Byte)
    ensures Low(Wide(b)) == b && Down(Wide(b)) == 0
  {
  }

  lemma KeyBits(key: bv32)
    ensures Down(Down(Down(Down(WideKey(key))))) == 0
  {
  }

  lemma WordBits(w: Word)
    ensures Down(Down(Down(Down(Down(Down(Down(Down(w)))))))) == 0
  {
  }

  const ALL_BUT_TOP: Word := 0x00ff_ffff_ffff_ffff

  lemma UpBits(w: Word)
    ensures Low(Up(w)) == 0 && Down(Up(w)) == AndWords(w, ALL_BUT_TOP)
  {
  }

  lemma MaskBits()
    ensures Down(0x00ff_ffff_ffff_ffff) == 0xffff_ffff_ffff && Down(0xffff_ffff_ffff) == 0xff_ffff_ffff
    ensures Down(0xff_ffff_ffff) == 0xffff_ffff && Down(0xffff_ffff) == 0xff_ffff && Down(0xff_ffff) == 0xffff
    ensures Down(0xffff) == 0xff && Low(0x00ff_ffff_ffff_ffff) == Low(0xffff_ffff_ffff) == Low(0xff_ffff_ffff) == 0xff
    ensures Low(0xffff_ffff) == Low(0xff_ffff) == Low(0xffff) == Low(0xff) == 0xff
  {
  }

  lemma SameBits(v: Word, w: Word)
    requires Down(v) == Down(w) && Low(v) == Low(w)
    ensures v == w
  {
  }

  // ---------- shifts ----------

  lemma {:induction false} RightRight(w: Word, j: nat, i: nat)
    ensures Right(Right(w, j), i) == Right(w, j + i)
  {
    hide Down;
    if i > 0 {
      RightRight(w, j, i - 1);
    }
  }

  lemma {:induction false} RightXor(v: Word, w: Word, i: nat)
    ensures Right(XorWords(v, w), i) == XorWords(Right(v, i), Right(w, i))
  {
    hide Down, XorWords, Xor, Low;
    if i > 0 {
      RightXor(v, w, i - 1);
      XorBits(Right(v, i - 1), Right(w, i - 1));
    }
  }

  lemma {:induction false} RightOr(v: Word, w: Word, i: nat)
    ensures Right(OrWords(v, w), i) == OrWords(Right(v, i), Right(w, i))
  {
    hide Down, OrWords, Low;
    if i > 0 {
      RightOr(v, w, i - 1);
      OrBits(Right(v, i - 1), Right(w, i - 1));
    }
  }

  lemma {:induction false} RightAnd(v: Word, w: Word, i: nat)
    ensures Right(AndWords(v, w), i) == AndWords(Right(v, i), Right(w, i))
  {
    hide Down, AndWords, Low;
    if i > 0 {
      RightAnd(v, w, i - 1);
      AndBits(Right(v, i - 1), Right(w, i - 1));
    }
  }

  lemma {:induction false} RightZero(i: nat)
    ensures Right(0, i) == 0
  {
    hide Down, Low;
    if i > 0 {
      RightZero(i - 1);
      ZeroBits();
    }
  }

  lemma RightNext(w: Word, i: nat, v: Word)
    requires Right(w, i) == v
    ensures Right(w, i + 1) == Down(v)
  {
  }

  lemma RightOnce(w: Word)
    ensures Right(w, 0) == w && Right(w, 1) == Down(w)
  {
  }

  lemma RightFour(w: Word)
    ensures Right(w, 4) == Down(Down(Down(Down(w))))
  {
    hide Down, Right;
    RightOnce(w);
    RightNext(w, 1, Down(w));
    RightNext(w, 2, Down(Down(w)));
    RightNext(w, 3, Down(Down(Down(w))));
  }

  lemma RightEight(w: Word)
    ensures Right(w, 8) == 0
  {
    hide Down, Right;
    RightFour(w);
    RightFour(Right(w, 4));
    RightRight(w, 4, 4);
    WordBits(w);
  }

  lemma RightKey(key: bv32)
    ensures Right(WideKey(key), 4) == 0
  {
    hide Down, Right, WideKey;
    RightFour(WideKey(key));
    KeyBits(key);
  }

  // ---------- bytes of what is put together ----------

  /** Nothing is left above a word that has been shifted out. */
  lemma NothingAbove(w: Word, n: nat, i: nat)
    requires Right(w, n) == 0 && i >= n
    ensures ByteAt(w, i) == 0
  {
    hide Down, Low, Right;
    RightRight(w, n, i - n);
    RightZero(i - n);
    ZeroBits();
  }

  lemma ByteOfOr(v: Word, w: Word, i: nat)
    ensures ByteAt(v, i) == 0 ==> ByteAt(OrWords(v, w), i) == ByteAt(w, i)
    ensures ByteAt(w, i) == 0 ==> ByteAt(OrWords(v, w), i) == ByteAt(v, i)
  {
    hide Down, OrWords, Low, Right;
    RightOr(v, w, i);
    OrLow(Right(v, i), Right(w, i));
  }

  lemma MaskByte(i: nat)
    requires i < 7
    ensures ByteAt(ALL_BUT_TOP, i) == 0xff
  {
    hide Down, Low, Right;
    MaskBits();
    var m := ALL_BUT_TOP;
    RightOnce(m);
    RightNext(m, 1, 0xffff_ffff_ffff);
    RightNext(m, 2, 0xff_ffff_ffff);
    RightNext(m, 3, 0xffff_ffff);
    RightNext(m, 4, 0xff_ffff);
    RightNext(m, 5, 0xffff);
  }

  lemma ByteOfUp(w: Word, i: nat)
    requires i < WORD_SIZE
    ensures ByteAt(Up(w), i) == if i == 0 then 0 else ByteAt(w, i - 1)
  {
    hide Down, Up, Low, AndWords, Right;
    UpBits(w);
    RightOnce(Up(w));
    if i > 0 {
      RightRight(Up(w), 1, i - 1);
      RightAnd(w, ALL_BUT_TOP, i - 1);
      MaskByte(i - 1);
      AndBits(Right(w, i - 1), Right(ALL_BUT_TOP, i - 1));
    }
  }

  lemma {:induction false} ByteOfLeft(w: Word, offset: nat, i: nat)
    requires i < WORD_SIZE
    ensures ByteAt(Left(w, offset), i) == if i < offset then 0 else ByteAt(w, i - offset)
  {
    hide ByteAt, Up;
    if offset > 0 {
      ByteOfUp(Left(w, offset - 1), i);
      if i > 0 {
        ByteOfLeft(w, offset - 1, i - 1);
      }
    }
  }

  lemma ByteOfRight(w: Word, offset: nat, i: nat)
    ensures ByteAt(Right(w, offset), i) == if offset + i < WORD_SIZE then ByteAt(w, offset + i) else 0
  {
    hide Down, Low, Right;
    RightRight(w, offset, i);
    RightEight(w);
    if offset + i >= WORD_SIZE {
      NothingAbove(w, WORD_SIZE, offset + i);
    }
  }

  lemma ByteOfByte(b: Byte, i: nat)
    ensures ByteAt(Wide(b), i) == if i == 0 then b else 0
  {
    hide Down, Low, Wide, Right;
    ByteBits(b);
    RightOnce(Wide(b));
    if i > 0 {
      NothingAbove(Wide(b), 1, i);
    }
  }

  // ---------- bytes of the results ----------

  lemma XorBytes(v: Word, w: Word, i: nat)
    ensures ByteAt(XorWords(v, w), i) == Xor(ByteAt(v, i), ByteAt(w, i))
  {
    hide Down, Low, Right, Xor, XorWords;
    RightXor(v, w, i);
    XorBits(Right(v, i), Right(w, i));
  }

  lemma {:induction false} ReadBack(b: seq<Byte>, i: nat)
    requires i < |b| <= WORD_SIZE
    ensures ByteAt(WordOf(b), i) == b[i]
  {
    hide ByteAt, Up, Wide, OrWords;
    var low, high := Wide(b[0]), WordOf(b[1..]);
    ByteOfOr(low, Up(high), i);
    ByteOfUp(high, i);
    ByteOfByte(b[0], i);
    if i > 0 {
      ReadBack(b[1..], i - 1);
    }
  }

  lemma PreparedByte(key: bv32, i: nat)
    requires i < WORD_SIZE
    ensures ByteAt(PrepareKey(key), i) == ByteAt(WideKey(key), i % 4)
  {
    hide ByteAt, Left, Right, OrWords, WideKey;
    var w := WideKey(key);
    ByteOfOr(Left(w, 4), w, i);
    ByteOfLeft(w, 4, i);
    if i >= 4 {
      RightKey(key);
      NothingAbove(w, 4, i);
    }
  }

  /** The word shifted by `offset` bytes starts with the byte at `offset`. */
  lemma ShiftedByte(w: Word, offset: nat, i: nat)
    requires offset < WORD_SIZE && i < WORD_SIZE
    ensures ByteAt(CircShift(w, offset), i) == ByteAt(w, (offset + i) % WORD_SIZE)
  {
    hide ByteAt, Left, Right, OrWords;
    if offset > 0 {
      ByteOfOr(Right(w, offset), Left(w, WORD_SIZE - offset), i);
      ByteOfRight(w, offset, i);
      ByteOfLeft(w, WORD_SIZE - offset, i);
    }
  }

  /** A word is its bytes. */
  lemma SameBytes(v: Word, w: Word)
    requires forall i :: 0 <= i < WORD_SIZE ==> ByteAt(v, i) == ByteAt(w, i)
    ensures v == w
  {
    hide ByteAt;
    SameFrom(v, w, 0);
  }

  lemma {:induction false} SameFrom(v: Word, w: Word, i: nat)
    requires i <= WORD_SIZE && forall k :: i <= k < WORD_SIZE ==> ByteAt(v, k) == ByteAt(w, k)
    ensures Right(v, i) == Right(w, i)
    decreases WORD_SIZE - i
  {
    hide Down, Low;
    if i == WORD_SIZE {
      RightEight(v);
      RightEight(w);
    } else {
      SameFrom(v, w, i + 1);
      assert ByteAt(v, i) == ByteAt(w, i);
      SameBits(Right(v, i), Right(w, i));
    }
  }
}
