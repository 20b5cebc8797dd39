/** The blocks of an explicit producer and the circular index over them. */
module ExplicitBlocks {
  import opened Ring

  type Elem = int

  const BLOCK_SIZE: nat := 32

  /** `EXPLICIT_BLOCK_EMPTY_COUNTER_THRESHOLD` is not below the block size, so an explicit producer tracks
      which elements are dequeued with one flag each, in reverse order. */
  class Block {
    const elements: array<Elem>
    const emptyFlags: array<bool>
    var next: Block?

    ghost predicate Valid() { elements.Length == BLOCK_SIZE && emptyFlags.Length == BLOCK_SIZE }

    constructor ()
      ensures Valid() && fresh(elements) && fresh(emptyFlags)
    {
      elements := new Elem[BLOCK_SIZE](_ => 0);
      emptyFlags := new bool[BLOCK_SIZE](_ => false);
      next := null;
    }

    /** Whether the `o`-th element is dequeued. */
    ghost predicate Dequeued(o: int)
      requires Valid() && 0 <= o < BLOCK_SIZE
      reads emptyFlags
    {
      emptyFlags[BLOCK_SIZE - 1 - o]
    }

    method IsEmpty() returns (r: bool)
      requires Valid()
      ensures r <==> forall o :: 0 <= o < BLOCK_SIZE ==> Dequeued(o)
    {
      var i := 0;
      while i < BLOCK_SIZE
        invariant 0 <= i <= BLOCK_SIZE
        invariant forall j :: 0 <= j < i ==> emptyFlags[j]
      {
        if !emptyFlags[i] {
          assert !Dequeued(BLOCK_SIZE - 1 - i);
          return false;
        }
        i := i + 1;
      }
      return true;
    }

    /** Marks the element of index `i`, which must not be marked yet. */
    method SetEmpty(i: nat)
      requires Valid() && !Dequeued(i % BLOCK_SIZE)
      modifies emptyFlags
      ensures forall o :: 0 <= o < BLOCK_SIZE ==> Dequeued(o) == (old(Dequeued(o)) || o == i % BLOCK_SIZE)
    {
      assert !emptyFlags[BLOCK_SIZE - 1 - i % BLOCK_SIZE];
      emptyFlags[BLOCK_SIZE - 1 - i % BLOCK_SIZE] := true;
    }

    /** Marks the elements of `count` indices from `i` on, all in this block and none marked yet. */
    method SetManyEmpty(i: nat, count: nat)
      requires Valid() && i % BLOCK_SIZE + count <= BLOCK_SIZE
      requires forall o :: i % BLOCK_SIZE <= o < i % BLOCK_SIZE + count ==> !Dequeued(o)
      modifies emptyFlags
      ensures forall o :: 0 <= o < BLOCK_SIZE ==>
        Dequeued(o) == (old(Dequeued(o)) || i % BLOCK_SIZE <= o < i % BLOCK_SIZE + count)
    {
      var first := BLOCK_SIZE - 1 - i % BLOCK_SIZE - count + 1;
      var j := 0;
      while j != count
        invariant 0 <= j <= count
        invariant forall k :: 0 <= k < BLOCK_SIZE ==> emptyFlags[k] == (old(emptyFlags[k]) || first <= k < first + j)
      {
        assert !old(Dequeued(BLOCK_SIZE - 1 - (first + j)));
        assert !emptyFlags[first + j];
        emptyFlags[first + j] := true;
        j := j + 1;
      }
    }

    method ResetEmpty()
      requires Valid()
      modifies emptyFlags
      ensures forall o :: 0 <= o < BLOCK_SIZE ==> !Dequeued(o)
    {
      var i := 0;
      while i != BLOCK_SIZE
        invariant 0 <= i <= BLOCK_SIZE
        invariant forall j :: 0 <= j < i ==> !emptyFlags[j]
      {
        emptyFlags[i] := false;
        i := i + 1;
      }
    }
  }

  /** An entry of the block index. */
  datatype Entry = Entry(base: nat, block: Block?)

  // ---------- the ring ----------

  /** The blocks of the ring and their arrays are distinct and part of the footprint. */
  ghost predicate Apart(ring: seq<Block>, repr: set<object>) {
    && (forall i {:trigger ring[i]} :: 0 <= i < |ring| ==>
          ring[i] in repr && ring[i].elements in repr && ring[i].emptyFlags in repr && ring[i].Valid())
    && (forall i, j {:trigger ring[i], ring[j]} :: 0 <= i < j < |ring| ==>
          ring[i] != ring[j] && ring[i].elements != ring[j].elements && ring[i].emptyFlags != ring[j].emptyFlags)
  }

  lemma RingInFootprint(ring: seq<Block>, repr: set<object>)
    requires Apart(ring, repr)
    ensures forall b {:trigger b in ring} :: b in ring ==> b in repr && b.elements in repr && b.emptyFlags in repr
  {
  }

  lemma ApartGrows(ring: seq<Block>, repr: set<object>, repr': set<object>)
    requires Apart(ring, repr) && repr <= repr'
    ensures Apart(ring, repr')
  {
  }

  predicate LeadsOn(ring: seq<Block>, i: nat)
    requires i < |ring|
    reads ring[i]
  {
    ring[i].next == ring[if i + 1 < |ring| then i + 1 else 0]
  }

  /** Each block leads to the next one, and the last to the first. */
  ghost predicate Linked(ring: seq<Block>)
    reads set b | b in ring
  {
    forall i {:trigger LeadsOn(ring, i)} :: 0 <= i < |ring| ==> LeadsOn(ring, i)
  }

  /** Block number `b` holds its part of the log, and its flags tell which elements are dequeued. */
  ghost predicate Holds(block: Block, b: int, head: nat, log: seq<Elem>)
    reads block.elements, block.emptyFlags
  {
    && block.Valid() && b >= 0
    && forall o :: 0 <= o < BLOCK_SIZE ==>
         && block.Dequeued(o) == (BLOCK_SIZE * b + o < head)
         && (BLOCK_SIZE * b + o < |log| ==> block.elements[o] == log[BLOCK_SIZE * b + o])
  }

  lemma ApartTurns(ring: seq<Block>, repr: set<object>)
    requires Apart(ring, repr) && ring != []
    ensures Apart(ring[1..] + [ring[0]], repr)
  {
  }

  lemma ApartExtends(ring: seq<Block>, repr: set<object>, block: Block)
    requires Apart(ring, repr) && block.Valid() && block !in repr && block.elements !in repr && block.emptyFlags !in repr
    ensures Apart(ring + [block], repr + {block, block.elements, block.emptyFlags})
  {
  }

  lemma LinkedMeans(ring: seq<Block>)
    requires Linked(ring)
    ensures forall i {:trigger LeadsOn(ring, i)} :: 0 <= i < |ring| ==> LeadsOn(ring, i)
  {
  }

  lemma LinkedTurns(ring: seq<Block>)
    requires ring != [] && forall i {:trigger LeadsOn(ring, i)} :: 0 <= i < |ring| ==> LeadsOn(ring, i)
    ensures Linked(ring[1..] + [ring[0]])
  {
    var ring' := ring[1..] + [ring[0]];
    forall i: nat | i < |ring'| ensures LeadsOn(ring', i) {
      assert LeadsOn(ring, if i + 1 < |ring| then i + 1 else 0);
    }
  }

  /** Putting a block behind the last one. */
  lemma LinkedExtends(ring: seq<Block>, block: Block)
    requires forall i {:trigger LeadsOn(ring, i)} :: 0 <= i < |ring| - 1 ==> LeadsOn(ring, i)
    requires if ring == [] then block.next == block else ring[|ring| - 1].next == block && block.next == ring[0]
    ensures Linked(ring + [block])
  {
    var ring' := ring + [block];
    forall i: nat | i < |ring'| ensures LeadsOn(ring', i) {
      assert i < |ring| - 1 ==> LeadsOn(ring, i);
    }
  }

  /** What the ring says about its first and last block. */
  lemma RingEnds(ring: seq<Block>, repr: set<object>)
    requires Apart(ring, repr) && Linked(ring) && ring != []
    ensures ring[0].Valid() && ring[0] in repr && ring[0].emptyFlags in repr && ring[|ring| - 1].next == ring[0]
    ensures forall i {:trigger ring[i]} :: 0 <= i < |ring| ==> ring[i] in repr && (i < |ring| - 1 ==> ring[i] != ring[|ring| - 1])
  {
    assert LeadsOn(ring, |ring| - 1);
  }

  lemma LastIsValid(ring: seq<Block>, repr: set<object>)
    requires Apart(ring, repr) && ring != []
    ensures ring[|ring| - 1].Valid() && ring[|ring| - 1].elements in repr
  {
  }

  /** Different places of the ring have different arrays. */
  lemma DistinctArrays(ring: seq<Block>, repr: set<object>, i: nat)
    requires Apart(ring, repr) && i < |ring|
    ensures forall j {:trigger ring[j]} :: 0 <= j < |ring| && j != i ==>
      ring[j].elements != ring[i].elements && ring[j].emptyFlags != ring[i].emptyFlags
  {
  }

  lemma IsValid(ring: seq<Block>, repr: set<object>, i: nat)
    requires Apart(ring, repr) && i < |ring|
    ensures ring[i].Valid() && ring[i].emptyFlags in repr
  {
  }

  // ---------- what the blocks hold ----------

  /** The `i`-th block of the ring, of `started` blocks. */
  ghost predicate HoldsAt(ring: seq<Block>, i: nat, started: nat, head: nat, log: seq<Elem>)
    requires i < |ring|
    reads ring[i].elements, ring[i].emptyFlags
  {
    Holds(ring[i], started - |ring| + i, head, log)
  }

  /** The blocks are the last ones of `started` blocks. */
  ghost predicate AllHold(ring: seq<Block>, started: nat, head: nat, log: seq<Elem>)
    reads set b | b in ring :: b.elements
    reads set b | b in ring :: b.emptyFlags
  {
    forall i {:trigger HoldsAt(ring, i, started, head, log)} :: 0 <= i < |ring| ==> HoldsAt(ring, i, started, head, log)
  }

  lemma AllHoldMeans(ring: seq<Block>, started: nat, head: nat, log: seq<Elem>)
    requires AllHold(ring, started, head, log)
    ensures forall i {:trigger HoldsAt(ring, i, started, head, log)} :: 0 <= i < |ring| ==> HoldsAt(ring, i, started, head, log)
  {
  }

  lemma MeansAllHold(ring: seq<Block>, started: nat, head: nat, log: seq<Elem>)
    requires forall i {:trigger HoldsAt(ring, i, started, head, log)} :: 0 <= i < |ring| ==> HoldsAt(ring, i, started, head, log)
    ensures AllHold(ring, started, head, log)
  {
  }

  /** A block that has just been reset is right for the block number that starts at the tail. */
  lemma FreshHolds(block: Block, started: nat, head: nat, log: seq<Elem>)
    requires block.Valid() && head <= |log| == BLOCK_SIZE * started
    requires forall o :: 0 <= o < BLOCK_SIZE ==> !block.Dequeued(o)
    ensures Holds(block, started, head, log)
  {
  }

  /** The first block, reset, becomes the last. */
  lemma HoldTurns(ring: seq<Block>, started: nat, head: nat, log: seq<Elem>)
    requires ring != [] && Holds(ring[0], started, head, log)
    requires forall i {:trigger HoldsAt(ring, i, started, head, log)} :: 0 < i < |ring| ==> HoldsAt(ring, i, started, head, log)
    ensures AllHold(ring[1..] + [ring[0]], started + 1, head, log)
  {
    var ring', started' := ring[1..] + [ring[0]], started + 1;
    forall i: nat | i < |ring'| ensures HoldsAt(ring', i, started', head, log) {
      assert i + 1 < |ring| ==> HoldsAt(ring, i + 1, started, head, log);
    }
  }

  lemma HoldExtends(ring: seq<Block>, started: nat, head: nat, log: seq<Elem>, block: Block)
    requires forall i {:trigger HoldsAt(ring, i, started, head, log)} :: 0 <= i < |ring| ==> HoldsAt(ring, i, started, head, log)
    requires Holds(block, started, head, log)
    ensures AllHold(ring + [block], started + 1, head, log)
  {
    var ring', started' := ring + [block], started + 1;
    forall i: nat | i < |ring'| ensures HoldsAt(ring', i, started', head, log) {
      assert i < |ring| ==> HoldsAt(ring, i, started, head, log);
    }
  }

  lemma FirstHolds(ring: seq<Block>, started: nat, head: nat, log: seq<Elem>)
    requires AllHold(ring, started, head, log) && ring != []
    ensures Holds(ring[0], started - |ring|, head, log)
  {
    assert HoldsAt(ring, 0, started, head, log);
  }

  // ---------- the index ----------

  /** How many blocks have been started when the tail is at `tail`. */
  function Started(tail: nat): nat { (tail + BLOCK_SIZE - 1) / BLOCK_SIZE }

  lemma StartedAt(tail: nat)
    requires tail % BLOCK_SIZE == 0
    ensures BLOCK_SIZE * Started(tail) == tail
  {
  }

  /** The slot of the `i`-th of the last `n` blocks, when `nextSlot` is the slot for the next one. */
  function Slot(nextSlot: int, n: nat, i: int, size: nat): (r: int)
    requires size > 0
    ensures 0 <= r < size
  {
    Wrap(nextSlot - n + i, size)
  }

  ghost predicate Mirrors(entries: seq<Entry>, ring: seq<Block>, nextSlot: int, started: nat, i: nat)
    requires |entries| > 0 && i < |ring| <= started
  {
    entries[Slot(nextSlot, |ring|, i, |entries|)] == Entry(BLOCK_SIZE * (started - |ring| + i), ring[i])
  }

  /** The window of the index before `nextSlot` mirrors the ring of blocks: the same blocks in the same order,
      with consecutive bases, the last one being that of the block started last. */
  ghost predicate IndexOk(entries: seq<Entry>, ring: seq<Block>, nextSlot: int, started: nat) {
    && |ring| <= started && |ring| <= |entries| && 0 <= nextSlot <= |entries|
    && (|entries| > 0 ==> forall i {:trigger Mirrors(entries, ring, nextSlot, started, i)} ::
          0 <= i < |ring| ==> Mirrors(entries, ring, nextSlot, started, i))
  }

  /** A slot before `nextSlot` is another one. */
  lemma OtherSlot(nextSlot: int, d: int, size: nat)
    requires size > 0 && 0 <= nextSlot < size && 0 < d < size
    ensures Wrap(nextSlot - d, size) != nextSlot
  {
    assert Wrap(nextSlot, size) == nextSlot;
    if Wrap(nextSlot - d, size) == nextSlot {
      WrapNear(nextSlot - d, nextSlot, size);
    }
  }

  lemma NextSlotMoves(nextSlot: int, n: nat, i: int, size: nat)
    requires size > 0
    ensures Wrap(Wrap(nextSlot + 1, size) - n + i, size) == Wrap(nextSlot + 1 - n + i, size)
  {
    WrapAdd(nextSlot + 1, i - n, size);
  }

  /** Adding a block behind the last one. */
  lemma IndexGrowsRing(entries: seq<Entry>, ring: seq<Block>, nextSlot: nat, started: nat, block: Block)
    requires IndexOk(entries, ring, nextSlot, started) && |ring| < |entries| && nextSlot < |entries|
    ensures IndexOk(entries[nextSlot := Entry(BLOCK_SIZE * started, block)], ring + [block], Wrap(nextSlot + 1, |entries|), started + 1)
  {
    var entries', ring', size := entries[nextSlot := Entry(BLOCK_SIZE * started, block)], ring + [block], |entries|;
    var nextSlot', started' := Wrap(nextSlot + 1, size), started + 1;
    forall i: nat | i < |ring'| ensures Mirrors(entries', ring', nextSlot', started', i) {
      NextSlotMoves(nextSlot, |ring'|, i, size);
      if i < |ring| {
        assert Mirrors(entries, ring, nextSlot, started, i);
        OtherSlot(nextSlot, |ring| - i, size);
      } else {
        assert Wrap(nextSlot, size) == nextSlot;
      }
    }
  }

  /** Taking the oldest block and putting it behind the last one: its entry leaves the window at one end and
      comes back at the other, so there is always room. */
  lemma IndexTurnsRing(entries: seq<Entry>, ring: seq<Block>, nextSlot: nat, started: nat)
    requires IndexOk(entries, ring, nextSlot, started) && 0 < |ring| && nextSlot < |entries|
    ensures IndexOk(entries[nextSlot := Entry(BLOCK_SIZE * started, ring[0])], ring[1..] + [ring[0]],
                    Wrap(nextSlot + 1, |entries|), started + 1)
  {
    var entries', ring', size := entries[nextSlot := Entry(BLOCK_SIZE * started, ring[0])], ring[1..] + [ring[0]], |entries|;
    var nextSlot', started' := Wrap(nextSlot + 1, size), started + 1;
    forall i: nat | i < |ring'| ensures Mirrors(entries', ring', nextSlot', started', i) {
      NextSlotMoves(nextSlot, |ring'|, i, size);
      if i + 1 < |ring| {
        assert Mirrors(entries, ring, nextSlot, started, i + 1);
        OtherSlot(nextSlot, |ring| - (i + 1), size);
      } else {
        assert Wrap(nextSlot, size) == nextSlot;
      }
    }
  }

  /** The lookup: from the front slot and its base to the block of another base. */
  lemma LookupFinds(entries: seq<Entry>, ring: seq<Block>, nextSlot: int, started: nat, b: nat)
    requires IndexOk(entries, ring, nextSlot, started) && |ring| > 0 && started - |ring| <= b < started
    ensures entries[Wrap(nextSlot - 1, |entries|)].base == BLOCK_SIZE * (started - 1)
    ensures entries[Wrap(Wrap(nextSlot - 1, |entries|) + (b - (started - 1)), |entries|)]
         == Entry(BLOCK_SIZE * b, ring[b - (started - |ring|)])
  {
    var n := |ring|;
    assert Mirrors(entries, ring, nextSlot, started, n - 1);
    assert Mirrors(entries, ring, nextSlot, started, b - (started - n));
    WrapAdd(nextSlot - 1, b - (started - 1), |entries|);
  }

  lemma EmptyWindow(entries: seq<Entry>, started: nat)
    ensures IndexOk(entries, [], 0, started)
  {
  }

  /** Copying the window to the start of a larger index. */
  lemma WindowMoves(entries: seq<Entry>, entries': seq<Entry>, ring: seq<Block>, nextSlot: int, started: nat)
    requires IndexOk(entries, ring, nextSlot, started) && |entries| > 0 && |ring| < |entries'|
    requires forall k :: 0 <= k < |ring| ==> entries'[k] == entries[Slot(nextSlot, |ring|, k, |entries|)]
    ensures IndexOk(entries', ring, |ring|, started)
  {
    forall i: nat | i < |ring| ensures Mirrors(entries', ring, |ring|, started, i) {
      assert Mirrors(entries, ring, nextSlot, started, i);
    }
  }

  // ---------- elements ----------

  /** The slot of the block with number `b` leads to it. */
  lemma SlotFinds(entries: seq<Entry>, ring: seq<Block>, nextSlot: int, started: nat, b: nat)
    requires IndexOk(entries, ring, nextSlot, started) && |entries| > 0 && started - |ring| <= b < started
    ensures entries[Slot(nextSlot, |ring|, b - (started - |ring|), |entries|)] == Entry(BLOCK_SIZE * b, ring[b - (started - |ring|)])
  {
    assert Mirrors(entries, ring, nextSlot, started, b - (started - |ring|));
  }

  /** What a block says about its elements. */
  lemma BlockMeans(ring: seq<Block>, repr: set<object>, started: nat, head: nat, log: seq<Elem>, b: nat)
    requires Apart(ring, repr) && AllHold(ring, started, head, log) && started - |ring| <= b < started && |ring| <= started
    ensures var block := ring[b - (started - |ring|)];
      && block.Valid() && block.emptyFlags in repr
      && forall o :: 0 <= o < BLOCK_SIZE ==>
           && block.Dequeued(o) == (BLOCK_SIZE * b + o < head)
           && (BLOCK_SIZE * b + o < |log| ==> block.elements[o] == log[BLOCK_SIZE * b + o])
  {
    assert HoldsAt(ring, b - (started - |ring|), started, head, log);
  }

  /** A block is empty when the head has passed it. */
  lemma EmptyMeansPassed(block: Block, b: int, head: nat, log: seq<Elem>)
    requires Holds(block, b, head, log)
    ensures (forall o :: 0 <= o < BLOCK_SIZE ==> block.Dequeued(o)) <==> BLOCK_SIZE * b + BLOCK_SIZE <= head
  {
    assert block.Dequeued(BLOCK_SIZE - 1) == (BLOCK_SIZE * b + (BLOCK_SIZE - 1) < head);
  }

  /** Flags and elements as they should be. */
  lemma FlagsHold(block: Block, b: nat, head: nat, log: seq<Elem>)
    requires block.Valid() && forall o :: 0 <= o < BLOCK_SIZE ==>
      && block.Dequeued(o) == (BLOCK_SIZE * b + o < head)
      && (BLOCK_SIZE * b + o < |log| ==> block.elements[o] == log[BLOCK_SIZE * b + o])
    ensures Holds(block, b, head, log)
  {
  }

  /** The last block with the next element written. */
  lemma LastHolds(block: Block, b: nat, head: nat, log: seq<Elem>, x: Elem)
    requires block.Valid() && BLOCK_SIZE * b <= |log| < BLOCK_SIZE * b + BLOCK_SIZE
    requires block.elements[|log| % BLOCK_SIZE] == x
    requires forall o :: 0 <= o < BLOCK_SIZE ==>
      && block.Dequeued(o) == (BLOCK_SIZE * b + o < head)
      && (BLOCK_SIZE * b + o < |log| ==> block.elements[o] == log[BLOCK_SIZE * b + o])
    ensures Holds(block, b, head, log + [x])
  {
    assert |log| % BLOCK_SIZE == |log| - BLOCK_SIZE * b;
  }

  /** Another element behind the log concerns the last block only. */
  lemma WrittenHolds(ring: seq<Block>, started: nat, head: nat, log: seq<Elem>, x: Elem)
    requires ring != [] && |ring| <= started && BLOCK_SIZE * (started - 1) <= |log|
    requires forall i {:trigger HoldsAt(ring, i, started, head, log)} :: 0 <= i < |ring| - 1 ==> HoldsAt(ring, i, started, head, log)
    requires Holds(ring[|ring| - 1], started - 1, head, log + [x])
    ensures AllHold(ring, started, head, log + [x])
  {
    forall i: nat | i < |ring| ensures HoldsAt(ring, i, started, head, log + [x]) {
      assert i < |ring| - 1 ==> HoldsAt(ring, i, started, head, log);
    }
  }

  /** The head moves within block number `b`, whose flags follow. */
  lemma MarkedHolds(ring: seq<Block>, started: nat, head: nat, head': nat, log: seq<Elem>, b: nat)
    requires |ring| <= started && started - |ring| <= b < started
    requires BLOCK_SIZE * b <= head <= head' <= BLOCK_SIZE * b + BLOCK_SIZE
    requires forall j {:trigger HoldsAt(ring, j, started, head, log)} ::
      0 <= j < |ring| && j != b - (started - |ring|) ==> HoldsAt(ring, j, started, head, log)
    requires Holds(ring[b - (started - |ring|)], b, head', log)
    ensures AllHold(ring, started, head', log)
  {
    forall j: nat | j < |ring| ensures HoldsAt(ring, j, started, head', log) {
      assert j != b - (started - |ring|) ==> HoldsAt(ring, j, started, head, log);
    }
  }
}
