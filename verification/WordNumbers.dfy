/** Words of 32 bits as numbers in binary, and what the operations of SHA-1 on words are in arithmetic.

    What shifts and sums do to numbers is derived from counting: the next word has the next number. */
module WordNumbers {
  import opened ByteOrder
  import opened Sha1Spec
  import opened Wraparound

  const MAX: Word := 0xffff_ffff

  function Half(x: Word): Word { x >> 1 }

  predicate Odd(x: Word) { x & 1 == 1 }

  function Next(x: Word): Word { x + 1 }

  /** The number that the low `n` bits spell. */
  function Value(x: Word, n: nat): nat { if n == 0 then 0 else 2 * Value(Half(x), n - 1) + (if Odd(x) then 1 else 0) }

  function Number(x: Word): nat { Value(x, 32) }

  function Pow2(n: nat): (r: nat)
    ensures r > 0
  {
    if n == 0 then 1 else 2 * Pow2(n - 1)
  }

  // ---------- bits ----------

  lemma NextBits(x: Word)
    ensures !Odd(x) ==> Half(Next(x)) == Half(x) && Odd(Next(x))
    ensures Odd(x) && x != MAX ==> Half(Next(x)) == Next(Half(x)) && !Odd(Next(x))
    ensures Half(x) != MAX
  {
  }

  lemma SameBits(x: Word, y: Word)
    requires Half(x) == Half(y) && (Odd(x) <==> Odd(y))
    ensures x == y
  {
  }

  lemma ZeroBits()
    ensures Half(0) == 0 && !Odd(0) && Next(MAX) == 0
  {
  }

  function Halves(x: Word, n: nat): Word { if n == 0 then x else Halves(Half(x), n - 1) }

  lemma {:induction false} HalvesOn(x: Word, m: nat, n: nat)
    ensures Halves(x, m + n) == Halves(Halves(x, m), n)
    decreases m
  {
    hide Half;
    if m > 0 {
      HalvesOn(Half(x), m - 1, n);
    }
  }

  lemma HalvesNext(x: Word, n: nat, y: Word)
    requires Halves(x, n) == y
    ensures Halves(x, n + 1) == Half(y)
  {
    hide Half;
    HalvesOn(x, n, 1);
    assert Halves(y, 1) == Halves(Half(y), 0);
  }

  lemma HalvesFour(x: Word)
    ensures Halves(x, 4) == Half(Half(Half(Half(x))))
  {
    hide Half, Halves;
    HalvesNone(x);
    HalvesNext(x, 0, x);
    HalvesNext(x, 1, Half(x));
    HalvesNext(x, 2, Half(Half(x)));
    HalvesNext(x, 3, Half(Half(Half(x))));
  }

  lemma HalvesNone(x: Word)
    ensures Halves(x, 0) == x
  {
  }

  function SkipFour(x: Word): Word { x >> 4 }

  function SkipEight(x: Word): Word { x >> 8 }

  lemma DropBits(x: Word)
    ensures Half(Half(Half(Half(x)))) == SkipFour(x) && SkipFour(SkipFour(x)) == SkipEight(x)
    ensures SkipEight(SkipEight(SkipEight(SkipEight(x)))) == 0
  {
  }

  lemma HalvesEight(x: Word)
    ensures Halves(x, 8) == SkipEight(x)
  {
    hide Half, Halves, SkipFour, SkipEight;
    HalvesFour(x);
    DropBits(x);
    HalvesFour(SkipFour(x));
    DropBits(SkipFour(x));
    HalvesOn(x, 4, 4);
  }

  /** After 32 halvings nothing is left. */
  lemma HalvesEnd(x: Word)
    ensures Halves(x, 32) == 0
  {
    hide Half, Halves, SkipFour, SkipEight;
    var y := SkipEight(SkipEight(x));
    HalvesEight(x);
    HalvesEight(SkipEight(x));
    HalvesOn(x, 8, 8);
    HalvesEight(y);
    HalvesEight(SkipEight(y));
    HalvesOn(y, 8, 8);
    HalvesOn(x, 16, 16);
    DropBits(x);
  }

  // ---------- counting ----------

  lemma {:induction false} ValueBound(x: Word, n: nat)
    ensures Value(x, n) < Pow2(n)
    decreases n
  {
    hide Half, Odd;
    if n > 0 {
      ValueBound(Half(x), n - 1);
    }
  }

  /** Words with the same number are the same. */
  lemma {:induction false} ValueOne(x: Word, y: Word, n: nat)
    requires Value(x, n) == Value(y, n) && Halves(x, n) == Halves(y, n)
    ensures x == y
    decreases n
  {
    hide Half, Odd;
    if n > 0 {
      assert Halves(x, n) == Halves(Half(x), n - 1) && Halves(y, n) == Halves(Half(y), n - 1);
      ValueOne(Half(x), Half(y), n - 1);
      SameBits(x, y);
    }
  }

  lemma NumberOne(x: Word, y: Word)
    requires Number(x) == Number(y)
    ensures x == y
  {
    hide Half, Odd, Halves, Value;
    HalvesEnd(x);
    HalvesEnd(y);
    ValueOne(x, y, 32);
  }

  lemma {:induction false} ValueNext(x: Word, n: nat)
    requires x != MAX
    ensures Value(Next(x), n) == if Value(x, n) + 1 == Pow2(n) then 0 else Value(x, n) + 1
    decreases n
  {
    hide Half, Odd, Next;
    if n > 0 {
      NextBits(x);
      ValueBound(Half(x), n - 1);
      if Odd(x) {
        ValueNext(Half(x), n - 1);
      }
    }
  }

  lemma {:induction false} ValueZero(n: nat)
    ensures Value(0, n) == 0
  {
    hide Half, Odd;
    if n > 0 {
      ZeroBits();
      ValueZero(n - 1);
    }
  }

  lemma Range()
    ensures Pow2(32) == 0x1_0000_0000
  {
    assert Pow2(8) == 0x100;
    assert Pow2(16) == 0x1_0000;
    assert Pow2(24) == 0x100_0000;
  }

  /** The next word has the next number. */
  lemma NextNumber(x: Word)
    ensures Number(x) < 0x1_0000_0000 && Number(0) == 0 && (x != MAX ==> Number(Next(x)) == Number(x) + 1)
  {
    hide Half, Odd, Next, Value, Pow2;
    Range();
    ValueBound(x, 32);
    ValueZero(32);
    if x != MAX {
      ValueNext(x, 32);
      if Number(Next(x)) == 0 {
        NumberOne(Next(x), 0);
        NextIsZero(x);
      }
    }
  }

  lemma NextIsZero(x: Word)
    ensures Next(x) == 0 <==> x == MAX
  {
  }

  // ---------- sums ----------

  lemma BeforeBits(y: Word)
    requires y != 0
    ensures Next(Before(y)) == y && Before(y) != MAX
  {
  }

  /** The low `n` bits are ones. */
  predicate LowOnes(x: Word, n: nat)
    decreases n
  {
    n == 0 || (Odd(x) && LowOnes(Half(x), n - 1))
  }

  lemma {:induction false} OnesValue(x: Word, n: nat)
    requires LowOnes(x, n)
    ensures Value(x, n) == Pow2(n) - 1
    decreases n
  {
    hide Half, Odd;
    if n > 0 {
      OnesValue(Half(x), n - 1);
    }
  }

  lemma {:induction false} OnesOn(x: Word, m: nat, n: nat)
    requires LowOnes(x, m) && LowOnes(Halves(x, m), n)
    ensures LowOnes(x, m + n)
    decreases m
  {
    hide Half, Odd;
    if m > 0 {
      OnesOn(Half(x), m - 1, n);
    }
  }

  lemma OnesFirst(x: Word, n: nat)
    requires Odd(x) && LowOnes(Half(x), n)
    ensures LowOnes(x, n + 1)
  {
  }

  lemma OnesNone(x: Word)
    ensures LowOnes(x, 0)
  {
  }

  lemma NibbleBits(x: Word)
    requires x & 0xf == 0xf
    ensures Odd(x) && Odd(Half(x)) && Odd(Half(Half(x))) && Odd(Half(Half(Half(x))))
  {
  }

  lemma OnesFour(x: Word)
    requires x & 0xf == 0xf
    ensures LowOnes(x, 4)
  {
    NibbleBits(x);
    hide Half, Odd, LowOnes;
    var y := Half(Half(Half(x)));
    OnesNone(Half(y));
    OnesFirst(y, 0);
    OnesFirst(Half(Half(x)), 1);
    OnesFirst(Half(x), 2);
    OnesFirst(x, 3);
  }

  lemma MaxBits()
    ensures var a, b, c, d := MAX, SkipFour(MAX), SkipEight(MAX), SkipEight(SkipEight(MAX));
      a & 0xf == 0xf && b & 0xf == 0xf && c & 0xf == 0xf && SkipFour(c) & 0xf == 0xf && d & 0xf == 0xf && SkipFour(d) & 0xf == 0xf
      && SkipEight(d) & 0xf == 0xf && SkipFour(SkipEight(d)) & 0xf == 0xf
  {
  }

  lemma OnesEight(x: Word)
    requires x & 0xf == 0xf && SkipFour(x) & 0xf == 0xf
    ensures LowOnes(x, 8)
  {
    OnesFour(x);
    OnesFour(SkipFour(x));
    hide Half, LowOnes, SkipFour, SkipEight, Halves;
    HalvesFour(x);
    DropBits(x);
    OnesOn(x, 4, 4);
  }

  lemma OnesSixteen(x: Word)
    requires LowOnes(x, 8) && LowOnes(SkipEight(x), 8)
    ensures LowOnes(x, 16)
  {
    hide LowOnes, SkipEight;
    HalvesEight(x);
    OnesOn(x, 8, 8);
  }

  lemma MaxOnes()
    ensures LowOnes(MAX, 32)
  {
    MaxBits();
    var d := SkipEight(SkipEight(MAX));
    OnesEight(MAX);
    OnesEight(SkipEight(MAX));
    OnesEight(d);
    OnesEight(SkipEight(d));
    hide LowOnes, SkipEight, SkipFour, Halves, Value, Pow2;
    OnesSixteen(MAX);
    OnesSixteen(d);
    HalvesEight(MAX);
    HalvesEight(SkipEight(MAX));
    HalvesOn(MAX, 8, 8);
    OnesOn(MAX, 16, 16);
  }

  lemma MaxNumber()
    ensures Number(MAX) == 0xffff_ffff
  {
    hide LowOnes, Value, Pow2;
    MaxOnes();
    OnesValue(MAX, 32);
    Range();
  }

  lemma ModNext(a: nat, b: nat)
    requires b == a % 0x1_0000_0000
    ensures (a + 1) % 0x1_0000_0000 == if b == 0xffff_ffff then 0 else b + 1
  {
  }

  function Before(y: Word): Word { y - 1 }

  function SumNumber(x: Word, y: Word): nat { Number(x + y) }

  /** Sums of words are sums of numbers modulo 2^32. */
  lemma {:induction false} AddNumber(x: Word, y: Word)
    ensures SumNumber(x, y) == (Number(x) + Number(y)) % 0x1_0000_0000
    decreases Number(y)
  {
    hide Number, SumNumber, Before;
    if y == 0 {
      SumZero(x);
      NextNumber(x);
    } else {
      NumberBefore(y);
      AddNumber(x, Before(y));
      SumNext(x, y);
      ModNext(Number(x) + Number(Before(y)), SumNumber(x, Before(y)));
    }
  }

  lemma SumIsAdd(x: Word, y: Word)
    ensures Number(Add(x, y)) == SumNumber(x, y)
  {
    hide Number;
  }

  lemma SumMod(x: int, m: int, n: int)
    requires m == x % 0x1_0000_0000
    ensures (m + n) % 0x1_0000_0000 == (x + n) % 0x1_0000_0000
  {
  }

  lemma Sum5Number(a: Word, b: Word, c: Word, d: Word, e: Word)
    ensures Number(Sum5(a, b, c, d, e)) == (Number(a) + Number(b) + Number(c) + Number(d) + Number(e)) % 0x1_0000_0000
  {
    hide Number, Add, SumNumber;
    var s2, s3, s4 := Add(a, b), Add(Add(a, b), c), Add(Add(Add(a, b), c), d);
    AddNumber(a, b);
    SumIsAdd(a, b);
    AddNumber(s2, c);
    SumIsAdd(s2, c);
    SumMod(Number(a) + Number(b), Number(s2), Number(c));
    AddNumber(s3, d);
    SumIsAdd(s3, d);
    SumMod(Number(a) + Number(b) + Number(c), Number(s3), Number(d));
    AddNumber(s4, e);
    SumIsAdd(s4, e);
    SumMod(Number(a) + Number(b) + Number(c) + Number(d), Number(s4), Number(e));
  }

  lemma SumZero(x: Word)
    ensures SumNumber(x, 0) == Number(x) && Number(0) == 0
  {
    NothingAdded(x);
    hide Number;
    NextNumber(0);
  }

  lemma NothingAdded(x: Word)
    ensures x + 0 == x
  {
  }

  lemma NumberBefore(y: Word)
    requires y != 0
    ensures Number(y) == Number(Before(y)) + 1
  {
    BeforeBits(y);
    hide Number, Next;
    NextNumber(Before(y));
  }

  lemma BeforeIs(y: Word)
    ensures Before(y) == y - 1
  {
  }

  lemma NextSum(x: Word, y: Word)
    ensures Next(x + (y - 1)) == x + y
  {
  }

  lemma SumNext(x: Word, y: Word)
    ensures SumNumber(x, y) == if SumNumber(x, Before(y)) == 0xffff_ffff then 0 else SumNumber(x, Before(y)) + 1
  {
    hide SumNumber, Before;
    BeforeIs(y);
    SumAfter(x, y);
  }

  lemma SumAfter(x: Word, y: Word)
    ensures SumNumber(x, y) == if SumNumber(x, y - 1) == 0xffff_ffff then 0 else SumNumber(x, y - 1) + 1
  {
    hide Number, Next;
    NextSum(x, y);
    NextNumber(x + (y - 1));
    AtMax(x + (y - 1));
  }

  lemma AtMax(x: Word)
    ensures Number(x) == 0xffff_ffff <==> x == MAX
    ensures x == MAX ==> Number(Next(x)) == 0
  {
    hide Number, Next;
    MaxNumber();
    NextIsZero(x);
    NextNumber(0);
    if Number(x) == 0xffff_ffff {
      NumberOne(x, MAX);
    }
  }

  // ---------- parts of words ----------

  lemma Distribute(p: nat, low: nat, high: nat, bit: nat)
    ensures 2 * (low + p * high) + bit == 2 * low + bit + 2 * p * high
  {
  }

  /** The low `m` bits and those above them. */
  lemma {:induction false} ValueOn(x: Word, m: nat, n: nat)
    ensures Value(x, m + n) == Value(x, m) + Pow2(m) * Value(Halves(x, m), n)
    decreases m
  {
    hide Half, Odd;
    if m > 0 {
      ValueOn(Half(x), m - 1, n);
      Distribute(Pow2(m - 1), Value(Half(x), m - 1), Value(Halves(x, m), n), if Odd(x) then 1 else 0);
    }
  }

  function And(x: Word, y: Word): Word { x & y }

  lemma AndBits(x: Word, y: Word)
    ensures Half(And(x, y)) == And(Half(x), Half(y)) && (Odd(And(x, y)) <==> Odd(x) && Odd(y))
  {
  }

  lemma {:induction false} MaskValue(x: Word, mask: Word, n: nat)
    requires LowOnes(mask, n)
    ensures Value(And(x, mask), n) == Value(x, n)
    decreases n
  {
    hide Half, Odd, And;
    if n > 0 {
      AndBits(x, mask);
      MaskValue(Half(x), Half(mask), n - 1);
    }
  }

  /** A word whose low bits are those of `low`, and whose other bits are those of `high`. */
  lemma Together(r: Word, k: nat, low: Word, high: Word, lowMask: Word, highMask: Word)
    requires k <= 32 && LowOnes(lowMask, k) && LowOnes(highMask, 32 - k)
    requires And(r, lowMask) == low && Halves(r, k) == And(high, highMask)
    ensures Number(r) == Value(low, k) + Pow2(k) * Value(high, 32 - k)
  {
    hide Half, Odd, And, Value, LowOnes, Halves;
    ValueOn(r, k, 32 - k);
    MaskValue(r, lowMask, k);
    MaskValue(high, highMask, 32 - k);
  }

  /** A rotation by `k`: the high `k` bits become the low ones. */
  lemma RotationNumber(x: Word, r: Word, k: nat, lowMask: Word, highMask: Word)
    requires k <= 32 && LowOnes(lowMask, k) && LowOnes(highMask, 32 - k)
    requires And(r, lowMask) == Halves(x, 32 - k) && Halves(r, k) == And(x, highMask)
    ensures Number(r) == Number(x) % Pow2(32 - k) * Pow2(k) + Number(x) / Pow2(32 - k)
  {
    hide Half, Odd, And, Value, LowOnes, Halves, Pow2, Number;
    Together(r, k, Halves(x, 32 - k), x, lowMask, highMask);
    NumberInTwo(x, 32 - k);
    var low, high := Value(x, 32 - k), Value(Halves(x, 32 - k), k);
    ValueBound(x, 32 - k);
    Divided(low, high, Pow2(32 - k));
    assert Pow2(k) * low == low * Pow2(k);
  }

  lemma NumberInTwo(x: Word, m: nat)
    requires m <= 32
    ensures Number(x) == Value(x, m) + Pow2(m) * Value(Halves(x, m), 32 - m)
  {
    ValueOn(x, m, 32 - m);
  }

  lemma Divided(low: nat, high: nat, size: nat)
    requires low < size
    ensures (low + size * high) % size == low && (low + size * high) / size == high
  {
    DivModUnique(low + size * high, high, low, size);
  }
}
