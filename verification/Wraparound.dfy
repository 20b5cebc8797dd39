/** Indices that wrap around.

    Indices are words of `size` values.  The results here relate what the code computes on words to the
    unbounded index that a word stands for. */
module Wraparound {

  // ---------- quotient and remainder ----------

  lemma DivModUnique(x: int, q: int, r: int, m: int)
    requires m > 0 && x == q * m + r && 0 <= r < m
    ensures x / m == q && x % m == r
  {
    var p, s := x / m, x % m;
    assert x == p * m + s;
    assert (q - p) * m == s - r;
    if q > p {
      assert (q - p) * m >= m by { MulMonotone(q - p - 1, m); }
    } else if q < p {
      assert (p - q) * m >= m by { MulMonotone(p - q - 1, m); }
    }
  }

  lemma MulMonotone(k: int, m: int)
    requires k >= 0 && m > 0
    ensures (k + 1) * m >= m
  {
  }

  lemma ModShift(x: int, k: int, m: int)
    requires m > 0
    ensures (x + k * m) % m == x % m && (x + k * m) / m == x / m + k
  {
    assert x + k * m == (x / m + k) * m + x % m;
    DivModUnique(x + k * m, x / m + k, x % m, m);
  }

  lemma ModReduceLeft(x: int, y: int, m: int)
    requires m > 0
    ensures (x % m + y) % m == (x + y) % m && (x % m - y) % m == (x - y) % m
  {
    var p := x / m;
    assert x == p * m + x % m;
    ModShift(x % m + y, p, m);
    ModShift(x % m - y, p, m);
  }

  lemma ModReduceRight(x: int, y: int, m: int)
    requires m > 0
    ensures (x + y % m) % m == (x + y) % m && (x - y % m) % m == (x - y) % m
  {
    var q := y / m;
    assert y == q * m + y % m;
    ModShift(x + y % m, q, m);
    ModShift(x - y, q, m);
  }

  /** Reducing the arguments first does not change a sum or a difference modulo `m`. */
  lemma ModReduce(x: int, y: int, m: int)
    requires m > 0
    ensures (x % m + y % m) % m == (x + y) % m == (x % m + y) % m == (x + y % m) % m
    ensures (x % m - y % m) % m == (x - y) % m == (x % m - y) % m == (x - y % m) % m
  {
    ModReduceLeft(x, y, m);
    ModReduceRight(x, y, m);
    ModReduceRight(x % m, y, m);
  }

  /** `x` as a word of `size` values. */
  function Reduce(x: int, size: int): int
    requires size > 0
  {
    x % size
  }

  // ---------- comparison ----------

  /** `circular_less_than` on words of `size` values. */
  predicate CircularLess(size: int, a: int, b: int)
    requires size > 0
  {
    (a - b) % size > size / 2
  }

  /** On the words of two unbounded indices, `circular_less_than` looks at their distance modulo the size. */
  lemma CircularLessMeaning(size: int, x: int, y: int)
    requires size > 0
    ensures CircularLess(size, x % size, y % size) <==> 0 < (y - x) % size < size - size / 2
  {
    ModReduce(x, y, size);
    var d := (y - x) % size;
    assert y - x == ((y - x) / size) * size + d;
    if d == 0 {
      DivModUnique(x - y, -((y - x) / size), 0, size);
    } else {
      assert x - y == (-((y - x) / size) - 1) * size + (size - d);
      DivModUnique(x - y, -((y - x) / size) - 1, size - d, size);
    }
  }

  /** So it decides `<` for indices less than half the range apart. */
  lemma CircularLessIsLess(size: int, x: int, y: int)
    requires size > 0 && -(size / 2) < x - y < size / 2
    ensures CircularLess(size, x % size, y % size) <==> x < y
  {
    CircularLessMeaning(size, x, y);
    if x <= y {
      DivModUnique(y - x, 0, y - x, size);
    } else {
      DivModUnique(y - x, -1, y - x + size, size);
    }
  }

  // ---------- the slot of a block ----------

  /** The block distance as the code computes it: the difference of two block bases, a word, is divided
      by the block size as an unsigned number, because the block size is unsigned. */
  function Offset(size: int, blockSize: int, base: int, frontBase: int): int
    requires size > 0 && blockSize > 0
  {
    (base - frontBase) % size / blockSize
  }

  /** `(front + offset) & (slots - 1)` for a power of two `slots`; the sum is a word. */
  function Slot(size: int, slots: int, front: int, offset: int): int
    requires size > 0 && slots > 0
  {
    (front + offset) % size % slots
  }

  /** Block `b` is `b - f` blocks away from block `f`, whose slot is `front`; this is the slot of block `b`. */
  predicate SlotIsRight(size: int, blockSize: int, slots: int, front: int, b: int, f: int)
    requires size > 0 && blockSize > 0 && slots > 0
  {
    Slot(size, slots, front, Offset(size, blockSize, b * blockSize % size, f * blockSize % size))
      == (front + b - f) % slots
  }

  /** Reducing modulo a multiple first does not change a remainder. */
  lemma ModMod(x: int, k: int, m: int)
    requires k > 0 && m > 0 && k * m > 0
    ensures x % (k * m) % m == x % m
  {
    var q := x / (k * m);
    assert x == q * (k * m) + x % (k * m);
    assert q * (k * m) == (q * k) * m;
    ModShift(x % (k * m), q * k, m);
  }

  /** A multiple of the block size, reduced and divided, is the number of blocks, reduced. */
  lemma BlocksMod(d: int, blocks: int, blockSize: int)
    requires blocks > 0 && blockSize > 0 && blocks * blockSize > 0
    ensures d * blockSize % (blocks * blockSize) == d % blocks * blockSize
    ensures d % blocks * blockSize / blockSize == d % blocks
  {
    var q, r := d / blocks, d % blocks;
    Spread(d, blocks, blockSize);
    MulLe(r + 1, blocks, blockSize);
    MulLe(0, r, blockSize);
    DivModUnique(d * blockSize, q, r * blockSize, blocks * blockSize);
    DivModUnique(r * blockSize, r, 0, blockSize);
  }

  lemma Spread(d: int, blocks: int, blockSize: int)
    requires blocks > 0
    ensures d * blockSize == d / blocks * (blocks * blockSize) + d % blocks * blockSize
    ensures (d % blocks + 1) * blockSize == d % blocks * blockSize + blockSize
  {
    var q, r := d / blocks, d % blocks;
    assert d * blockSize == (q * blocks) * blockSize + r * blockSize;
    assert (q * blocks) * blockSize == q * (blocks * blockSize);
  }

  /** The offset is the block distance modulo the number of blocks in the index range. */
  lemma OffsetMeaning(blocks: int, blockSize: int, b: int, f: int)
    requires blocks > 0 && blockSize > 0 && blocks * blockSize > 0
    ensures Offset(blocks * blockSize, blockSize, b * blockSize % (blocks * blockSize), f * blockSize % (blocks * blockSize))
         == (b - f) % blocks
  {
    ModReduce(b * blockSize, f * blockSize, blocks * blockSize);
    assert b * blockSize - f * blockSize == (b - f) * blockSize;
    BlocksMod(b - f, blocks, blockSize);
  }

  lemma MulLe(x: int, y: int, m: int)
    requires x <= y && m > 0
    ensures x * m <= y * m
  {
  }

  /** The lookup finds the right slot for every distance, negative ones included, when the number of
      slots divides the number of blocks in the index range. */
  lemma SlotRight(k: int, slots: int, blockSize: int, front: int, b: int, f: int)
    requires k > 0 && slots > 0 && blockSize > 0 && k * slots > 0 && (k * slots) * blockSize > 0
    ensures SlotIsRight((k * slots) * blockSize, blockSize, slots, front, b, f)
  {
    var blocks := k * slots;
    var size := blocks * blockSize;
    OffsetMeaning(blocks, blockSize, b, f);
    var offset := (b - f) % blocks;
    assert size == (blockSize * k) * slots;
    ModMod(front + offset, blockSize * k, slots);
    ModReduce(front, offset, slots);
    ModMod(b - f, k, slots);
    ModReduce(front, b - f, slots);
  }

  /** And only then: with any other number of slots, some lookup goes to a wrong slot. */
  lemma SlotRightIff(blocks: int, slots: int, blockSize: int)
    requires blocks > 0 && slots > 0 && blockSize > 0 && blocks * blockSize > 0
    ensures (forall front, b, f :: SlotIsRight(blocks * blockSize, blockSize, slots, front, b, f)) <==> blocks % slots == 0
  {
    var size := blocks * blockSize;
    if blocks % slots == 0 {
      var k := blocks / slots;
      assert blocks == k * slots;
      assert k > 0;
      forall front, b, f ensures SlotIsRight(size, blockSize, slots, front, b, f) {
        SlotRight(k, slots, blockSize, front, b, f);
      }
    } else {
      SlotWrong(blocks, slots, blockSize);
    }
  }

  /** One block back from block 0, whose slot is 0. */
  lemma SlotWrong(blocks: int, slots: int, blockSize: int)
    requires blocks > 0 && slots > 0 && blockSize > 0 && blocks * blockSize > 0 && blocks % slots != 0
    ensures !SlotIsRight(blocks * blockSize, blockSize, slots, 0, -1, 0)
  {
    var size := blocks * blockSize;
    if SlotIsRight(size, blockSize, slots, 0, -1, 0) {
      OffsetMeaning(blocks, blockSize, -1, 0);
      DivModUnique(-1, -1, blocks - 1, blocks);
      assert blocks - 1 < size by { MulLe(1, blockSize, blocks); }
      DivModUnique(blocks - 1, 0, blocks - 1, size);
      DivModUnique(-1, -1, slots - 1, slots);
      assert (blocks - 1) % slots == slots - 1;
      var q := (blocks - 1) / slots;
      assert blocks == (q + 1) * slots + 0;
      DivModUnique(blocks, q + 1, 0, slots);
      assert false;
    }
  }
}
