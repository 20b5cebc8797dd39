/** The block indices on words.  `BlockIndex`, `ImplicitQueue` and `ExplicitProducer` count with unbounded integers;
    here is what they compute, as the code computes it on words that wrap around.  The index range has `blocks`
    blocks, a multiple of the slots of any index header. */
module IndexWords {
  import opened Ring
  import opened Wraparound
  import BI = BlockIndex
  import Q = ImplicitQueue
  import E = ExplicitBlocks

  const BLOCK_SIZE: nat := 32

  /** `index & ~(BLOCK_SIZE - 1)` */
  function RoundDown(word: nat): (r: nat)
    ensures r <= word && r % BLOCK_SIZE == 0 && word < r + BLOCK_SIZE
  {
    word / BLOCK_SIZE * BLOCK_SIZE
  }

  /** The code's computation of a slot from a slot, its base and another base, on words, and the models'. */
  lemma SlotOnWords(k: int, slots: nat, front: int, b: int, f: int)
    requires k > 0 && slots > 0 && k * slots > 0
    ensures var size := k * slots * BLOCK_SIZE;
      size > 0 && Slot(size, slots, front, Offset(size, BLOCK_SIZE, b * BLOCK_SIZE % size, f * BLOCK_SIZE % size))
               == Wrap(front + (b - f), slots)
  {
    SlotRight(k, slots, BLOCK_SIZE, front, b, f);
    WrapIsRemainder(front + (b - f), slots);
  }

  /** The lookup of an implicit producer. */
  lemma LookupOnWords(ix: BI.Index, h: nat, tail: int, tailKey: int, b: int, k: int)
    requires BI.Shape(ix) && h < |ix.headers| && k > 0 && ix.headers[h].capacity > 0 && k * ix.headers[h].capacity > 0
    ensures var slots := ix.headers[h].capacity;
      var size := k * slots * BLOCK_SIZE;
      size > 0 && Slot(size, slots, tail, Offset(size, BLOCK_SIZE, b * BLOCK_SIZE % size, tailKey * BLOCK_SIZE % size))
               == BI.LookupSlot(ix, h, tail, tailKey, b)
  {
    SlotOnWords(k, ix.headers[h].capacity, tail, b, tailKey);
  }

  /** The lookup of an explicit producer reaches the block through words, too. */
  lemma ExplicitLookupOnWords(entries: seq<E.Entry>, ring: seq<E.Block>, nextSlot: int, started: nat, b: nat, k: int)
    requires E.IndexOk(entries, ring, nextSlot, started) && |ring| > 0 && started - |ring| <= b < started
    requires k > 0 && |entries| > 0 && k * |entries| > 0
    ensures var size, front := k * |entries| * BLOCK_SIZE, Wrap(nextSlot - 1, |entries|);
      && size > 0 && entries[front].base == BLOCK_SIZE * (started - 1)
      && var slot := Slot(size, |entries|, front,
                          Offset(size, BLOCK_SIZE, b * BLOCK_SIZE % size, entries[front].base % size));
         0 <= slot < |entries| && entries[slot] == E.Entry(BLOCK_SIZE * b, ring[b - (started - |ring|)])
  {
    E.LookupFinds(entries, ring, nextSlot, started, b);
    SlotOnWords(k, |entries|, Wrap(nextSlot - 1, |entries|), b, started - 1);
    assert BLOCK_SIZE * (started - 1) == (started - 1) * BLOCK_SIZE;
  }

  /** The base of an index, and its place in the block, can be taken from its word. */
  lemma BaseOnWords(x: int, blocks: int)
    requires blocks > 0
    ensures RoundDown(x % (blocks * BLOCK_SIZE)) == x / BLOCK_SIZE * BLOCK_SIZE % (blocks * BLOCK_SIZE)
    ensures x % (blocks * BLOCK_SIZE) % BLOCK_SIZE == x % BLOCK_SIZE
  {
    var size := blocks * BLOCK_SIZE;
    ModMod(x, blocks, BLOCK_SIZE);
    BlocksMod(x / BLOCK_SIZE, blocks, BLOCK_SIZE);
    var word, r := x % size, x % BLOCK_SIZE;
    assert word == word / BLOCK_SIZE * BLOCK_SIZE + r;
    assert x / BLOCK_SIZE * BLOCK_SIZE == x - r;
    ModShiftDown(x, r, size);
  }

  /** Taking off what stays above a multiple can be done before or after reducing. */
  lemma ModShiftDown(x: int, r: int, size: int)
    requires size > 0 && 0 <= r <= x % size
    ensures (x - r) % size == x % size - r
  {
    DivModUnique(x - r, x / size, x % size - r, size);
  }

  /** Bases less than the range apart are equal exactly if their words are. */
  lemma KeysOnWords(b: int, f: int, blocks: int)
    requires blocks > 0 && -blocks < b - f < blocks
    ensures b * BLOCK_SIZE % (blocks * BLOCK_SIZE) == f * BLOCK_SIZE % (blocks * BLOCK_SIZE) <==> b == f
  {
    BlocksMod(b, blocks, BLOCK_SIZE);
    BlocksMod(f, blocks, BLOCK_SIZE);
    if b % blocks == f % blocks {
      ModNear(b, f, blocks);
    }
  }

  lemma ModNear(b: int, f: int, m: int)
    requires m > 0 && -m < b - f < m && b % m == f % m
    ensures b == f
  {
    var q, p, r := b / m, f / m, b % m;
    assert b == q * m + r && f == p * m + r;
    assert b - f == (q - p) * m;
    if q > p {
      MulMonotone(q - p - 1, m);
    } else if q < p {
      MulMonotone(p - q - 1, m);
    }
  }

  /** `blockBaseDiff`, the difference of two bases as a word, is that many blocks as a bulk enqueue needs, as long as
      it does not go once around the range. */
  lemma NeededOnWords(tail: nat, count: nat, blocks: int)
    requires blocks > 0 && 0 <= Q.Needed(tail, count) < blocks
    ensures var size := blocks * BLOCK_SIZE;
      (RoundDown((tail + count - 1) % size) - RoundDown((tail - 1) % size)) % size == Q.Needed(tail, count) * BLOCK_SIZE
  {
    DifferenceOnWords(tail + count - 1, tail - 1, blocks);
  }

  lemma DifferenceOnWords(x: int, y: int, blocks: int)
    requires blocks > 0 && 0 <= x / BLOCK_SIZE - y / BLOCK_SIZE < blocks
    ensures var size := blocks * BLOCK_SIZE;
      (RoundDown(x % size) - RoundDown(y % size)) % size == (x / BLOCK_SIZE - y / BLOCK_SIZE) * BLOCK_SIZE
  {
    BaseOnWords(x, blocks);
    BaseOnWords(y, blocks);
    hide RoundDown;
    var size, b, f := blocks * BLOCK_SIZE, x / BLOCK_SIZE, y / BLOCK_SIZE;
    ModReduce(b * BLOCK_SIZE, f * BLOCK_SIZE, size);
    DivModUnique((b - f) * BLOCK_SIZE, 0, (b - f) * BLOCK_SIZE, size);
  }
}
