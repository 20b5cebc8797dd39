/** An explicit producer's sub-queue, for runs in which one operation follows the other.

    Blocks form a circular list; a block is used again when all its elements are dequeued, and otherwise a
    new one is inserted.  A circular index, which doubles when it is full, leads from element indices to blocks. */
module ExplicitProducer {
  import opened Ring
  import opened ExplicitBlocks

  const INITIAL_SIZE: nat := 32

  function Min(a: nat, b: nat): nat { if a < b then a else b }

  lemma FrontOfCopy(j: nat, size: nat)
    requires j <= size && size > 0
    ensures j > 0 ==> Wrap(j - 1, size) == j - 1
  {
  }

  lemma FrontIsBehind(slot: nat, next: nat, size: nat)
    requires slot < size && next == Wrap(slot + 1, size)
    ensures slot == Wrap(next - 1, size)
  {
    WrapAdd(slot + 1, -1, size);
  }

  class Producer {
    var tailIndex: nat
    var headIndex: nat
    var optimisticCount: nat
    var overcommit: nat
    var tailBlock: Block?
    /** The index: its entries (absent until one could be allocated), the published front slot, and the
        producer's own count of used slots, size and next slot. */
    var entries: array?<Entry>
    var front: int
    var slotsUsed: nat
    var size: nat
    var nextSlot: nat

    /** Everything enqueued so far, the blocks from the oldest to the last, and the footprint. */
    ghost var log: seq<Elem>
    ghost var ring: seq<Block>
    ghost var Repr: set<object>

    ghost function Contents(): seq<Elem>
      reads this
      requires headIndex <= |log|
    {
      log[headIndex..]
    }

    /** The ring is a circular list of distinct blocks that ends with the tail block. */
    ghost predicate RingOk()
      reads this, ring
    {
      && this in Repr && |ring| == slotsUsed && Apart(ring, Repr) && Linked(ring)
      && tailBlock == (if ring == [] then null else ring[|ring| - 1])
    }

    ghost predicate WindowOk(started: nat)
      reads this, entries
    {
      && size > 0
      && (entries == null ==> ring == [] && nextSlot == 0)
      && (entries != null ==>
            && entries in Repr && entries.Length == size && nextSlot < size && |ring| <= size
            && IndexOk(entries[..], ring, nextSlot, started)
            && (ring != [] ==> front == Wrap(nextSlot - 1, size)))
    }

    /** Valid when `started` blocks have been started. */
    ghost predicate ValidAt(started: nat)
      reads this, Repr
    {
      && this in Repr && Apart(ring, Repr) && (entries != null ==> entries in Repr)
      && RingOk() && WindowOk(started) && AllHold(ring, started, headIndex, log)
      && headIndex <= tailIndex == |log| && optimisticCount == headIndex + overcommit
      && |ring| <= started && Started(tailIndex) <= started && BLOCK_SIZE * (started - |ring|) <= headIndex
      && (ring == [] ==> tailIndex == 0)
    }

    ghost predicate Valid()
      reads this, Repr
    {
      ValidAt(Started(tailIndex))
    }

    /** `indexOk` says whether the first index could be allocated. */
    constructor (indexOk: bool)
      ensures Valid() && fresh(Repr) && log == [] && headIndex == 0
    {
      tailIndex, headIndex, optimisticCount, overcommit := 0, 0, 0, 0;
      tailBlock := null;
      entries := null;
      front, slotsUsed, size, nextSlot := 0, 0, INITIAL_SIZE / 2, 0;
      log, ring := [], [];
      new;
      Repr := {this};
      var ok := NewBlockIndex(0, indexOk);
    }

    /** Doubles the index and copies the window to its start; without memory nothing changes. */
    method NewBlockIndex(toExpose: nat, memory: bool) returns (ok: bool)
      requires RingOk() && WindowOk(Started(tailIndex)) && toExpose == slotsUsed
      requires entries != null ==> slotsUsed == size
      modifies this
      ensures ok == memory
      ensures RingOk() && WindowOk(Started(tailIndex)) && (ok ==> entries != null && slotsUsed < size && fresh(entries))
      ensures !ok ==> entries == old(entries) && Repr == old(Repr)
      ensures ok ==> Repr == old(Repr) + {entries}
      ensures tailIndex == old(tailIndex) && headIndex == old(headIndex) && optimisticCount == old(optimisticCount)
      ensures overcommit == old(overcommit) && tailBlock == old(tailBlock) && slotsUsed == old(slotsUsed)
      ensures log == old(log) && ring == old(ring)
    {
      hide Wrap, IndexOk, Linked, Apart, AllHold, Started;
      var oldSize := size;
      size := 2 * size;
      if !memory {
        size := size / 2;
        return false;
      }
      var newEntries, j := CopiedIndex(oldSize);
      FrontOfCopy(j, size);
      ApartGrows(ring, Repr, Repr + {newEntries});
      front := toExpose - 1;
      nextSlot := j;
      entries := newEntries;
      Repr := Repr + {entries};
      return true;
    }

    /** An index of the new size with the window at its start. */
    method CopiedIndex(oldSize: nat) returns (newEntries: array<Entry>, j: nat)
      requires |ring| == slotsUsed < size && (slotsUsed == 0 ==> ring == [])
      requires slotsUsed != 0 ==> entries != null && entries.Length == oldSize == slotsUsed && nextSlot < oldSize
      requires slotsUsed != 0 ==> IndexOk(entries[..], ring, nextSlot, Started(tailIndex))
      ensures fresh(newEntries) && newEntries.Length == size && j == slotsUsed
      ensures IndexOk(newEntries[..], ring, j, Started(tailIndex))
    {
      hide Wrap, IndexOk, Started;
      newEntries := new Entry[size](_ => Entry(0, null));
      j := CopyWindow(newEntries, oldSize);
      if slotsUsed != 0 {
        WindowMoves(entries[..], newEntries[..], ring, nextSlot, Started(tailIndex));
      } else {
        EmptyWindow(newEntries[..], Started(tailIndex));
      }
    }

    /** The loop that copies the used slots, from the oldest on. */
    method CopyWindow(newEntries: array<Entry>, oldSize: nat) returns (j: nat)
      requires slotsUsed != 0 ==> entries != null && entries != newEntries && entries.Length == oldSize == slotsUsed
      requires slotsUsed <= newEntries.Length && (slotsUsed != 0 ==> nextSlot < oldSize)
      modifies newEntries
      ensures j == slotsUsed
      ensures slotsUsed != 0 ==>
        forall k :: 0 <= k < slotsUsed ==> newEntries[k] == entries[Slot(nextSlot, slotsUsed, k, oldSize)]
    {
      j := 0;
      if slotsUsed != 0 {
        var i := Wrap(nextSlot - slotsUsed, oldSize);
        var more := true;
        assert Wrap(nextSlot, oldSize) == nextSlot;
        while more
          invariant 0 <= j <= slotsUsed && i == Wrap(nextSlot - slotsUsed + j, oldSize)
          invariant more <==> j < slotsUsed
          invariant forall k :: 0 <= k < j ==> newEntries[k] == entries[Slot(nextSlot, slotsUsed, k, oldSize)]
          decreases slotsUsed - j
        {
          newEntries[j] := entries[i];
          j := j + 1;
          WrapAdd(nextSlot - slotsUsed + (j - 1), 1, oldSize);
          i := Wrap(i + 1, oldSize);
          if i == nextSlot {
            WrapNear(nextSlot - slotsUsed + j, nextSlot, oldSize);
          }
          more := i != nextSlot;
        }
      }
    }

    // ---------- starting a block ----------

    /** Takes the oldest block, whose elements are all dequeued, for the next elements. */
    method Reuse()
      requires RingOk() && AllHold(ring, Started(tailIndex), headIndex, log) && tailIndex % BLOCK_SIZE == 0
      requires headIndex <= tailIndex == |log| && ring != []
      modifies this`tailBlock, this`ring, ring[0].emptyFlags
      ensures ring == old(ring)[1..] + [old(ring)[0]] && tailBlock == old(ring)[0]
      ensures RingOk() && AllHold(ring, Started(tailIndex) + 1, headIndex, log)
    {
      hide Wrap, IndexOk, Linked, Apart, AllHold, Holds, HoldsAt, LeadsOn, Started;
      ghost var before, started := ring, Started(tailIndex);
      StartedAt(tailIndex);
      RingEnds(ring, Repr);
      DistinctArrays(ring, Repr, 0);
      AllHoldMeans(ring, started, headIndex, log);
      LinkedMeans(ring);
      tailBlock := tailBlock.next;
      assert tailBlock == before[0];
      ring := before[1..] + [before[0]];
      tailBlock.ResetEmpty();
      FreshHolds(tailBlock, started, headIndex, log);
      HoldTurns(before, started, headIndex, log);
      ApartTurns(before, Repr);
      LinkedTurns(before);
    }

    ghost function LastBlock(): set<object>
      reads this
    {
      if tailBlock == null then {} else {tailBlock}
    }

    /** Links a new block into the circular list behind the tail block. */
    method Link(newBlock: Block)
      requires RingOk() && newBlock !in Repr
      modifies LastBlock(), newBlock
      ensures Linked(ring + [newBlock])
    {
      hide Wrap, IndexOk, Linked, Apart, AllHold, Holds, HoldsAt, LeadsOn, Started;
      RingInFootprint(ring, Repr);
      assert forall i {:trigger ring[i]} :: 0 <= i < |ring| ==> ring[i] in ring;
      LinkedMeans(ring);
      if tailBlock == null {
        newBlock.next := newBlock;
      } else {
        RingEnds(ring, Repr);
        newBlock.next := tailBlock.next;
        tailBlock.next := newBlock;
      }
      LinkedExtends(ring, newBlock);
    }

    /** Puts a new block behind the tail block. */
    method Insert(newBlock: Block)
      requires RingOk() && AllHold(ring, Started(tailIndex), headIndex, log) && tailIndex % BLOCK_SIZE == 0
      requires headIndex <= tailIndex == |log|
      requires newBlock.Valid() && newBlock !in Repr && newBlock.elements !in Repr && newBlock.emptyFlags !in Repr
      modifies this`tailBlock, this`ring, this`slotsUsed, this`Repr, LastBlock(), newBlock, newBlock.emptyFlags
      ensures ring == old(ring) + [newBlock] && Repr == old(Repr) + {newBlock, newBlock.elements, newBlock.emptyFlags}
      ensures RingOk() && AllHold(ring, Started(tailIndex) + 1, headIndex, log)
    {
      hide Wrap, IndexOk, Linked, Apart, AllHold, Holds, HoldsAt, LeadsOn, Started;
      ghost var started := Started(tailIndex);
      StartedAt(tailIndex);
      RingInFootprint(ring, Repr);
      assert forall i {:trigger ring[i]} :: 0 <= i < |ring| ==> ring[i] in ring;
      AllHoldMeans(ring, started, headIndex, log);
      newBlock.ResetEmpty();
      Link(newBlock);
      tailBlock := newBlock;
      slotsUsed := slotsUsed + 1;
      ghost var before, footprint := ring, Repr;
      ring := ring + [newBlock];
      Repr := Repr + {newBlock, newBlock.elements, newBlock.emptyFlags};
      FreshHolds(newBlock, started, headIndex, log);
      HoldExtends(before, started, headIndex, log, newBlock);
      ApartExtends(before, footprint, newBlock);
    }

    method WriteEntry()
      requires entries != null && nextSlot < entries.Length == size
      modifies this`front, this`nextSlot, entries
      ensures entries[..] == old(entries[..])[old(nextSlot) := Entry(tailIndex, tailBlock)]
      ensures front == old(nextSlot) && nextSlot == Wrap(old(nextSlot) + 1, size)
    {
      entries[nextSlot] := Entry(tailIndex, tailBlock);
      front := nextSlot;
      nextSlot := Wrap(nextSlot + 1, size);
    }

    /** The last block of the ring is ready for the elements from the tail on, and the index for its entry. */
    ghost predicate Recordable(started: nat)
      reads this, Repr, entries
    {
      && Apart(ring, Repr) && this in Repr
      && RingOk() && AllHold(ring, started + 1, headIndex, log) && 0 < |ring| <= started + 1
      && entries != null && entries in Repr && nextSlot < entries.Length == size && |ring| <= size
      && IndexOk(entries[..][nextSlot := Entry(tailIndex, tailBlock)], ring, Wrap(nextSlot + 1, size), started + 1)
      && headIndex <= tailIndex == |log| && Started(tailIndex) == started && optimisticCount == headIndex + overcommit
      && tailIndex == BLOCK_SIZE * started && BLOCK_SIZE * (started + 1 - |ring|) <= headIndex
    }

    /** Writes the tail block into the index and publishes the slot. */
    method Record(ghost started: nat)
      requires Recordable(started)
      modifies this`front, this`nextSlot, entries
      ensures ValidAt(started + 1)
    {
      hide Wrap, IndexOk, Linked, Apart, AllHold, Holds, HoldsAt, LeadsOn, Started;
      AllHoldMeans(ring, started + 1, headIndex, log);
      WriteEntry();
      FrontIsBehind(front, nextSlot, size);
      MeansAllHold(ring, started + 1, headIndex, log);
    }

    /** Whether the block behind the tail block, the oldest one, can be used again. */
    method AheadIsEmpty() returns (reuse: bool)
      requires Valid()
      ensures reuse == CanReuse()
    {
      hide Wrap, IndexOk, Linked, Apart, AllHold, Holds, HoldsAt, LeadsOn, Started;
      reuse := false;
      if tailBlock != null {
        RingEnds(ring, Repr);
        reuse := tailBlock.next.IsEmpty();
        FirstHolds(ring, Started(tailIndex), headIndex, log);
        EmptyMeansPassed(ring[0], Started(tailIndex) - |ring|, headIndex, log);
      }
    }

    /** The oldest block is empty: the head has passed it. */
    ghost predicate CanReuse()
      reads this
    {
      ring != [] && BLOCK_SIZE * (Started(tailIndex) - |ring|) + BLOCK_SIZE <= headIndex
    }

    ghost predicate HasRoom()
      reads this
    {
      entries != null && slotsUsed != size
    }

    /** What a block given by the pool consists of. */
    ghost function Parts(block: Block?): set<object> {
      if block == null then {} else {block, block.elements, block.emptyFlags}
    }

    /** Starts the block for the next element: uses the oldest one again if it is empty, and otherwise inserts
        the block that the pool has given, if it has given one and the index has room or can grow. */
    method StartBlock(memory: bool, newBlock: Block?) returns (ok: bool)
      requires Valid() && tailIndex % BLOCK_SIZE == 0
      requires Parts(newBlock) !! Repr && (newBlock != null ==> newBlock.Valid())
      modifies Repr, Parts(newBlock)
      ensures ok <==> old(CanReuse()) || ((old(HasRoom()) || memory) && newBlock != null)
      ensures if ok then ValidAt(Started(tailIndex) + 1) else Valid()
      ensures fresh(Repr - old(Repr) - Parts(newBlock))
      ensures ring == (if !ok then old(ring) else if old(CanReuse()) then old(ring)[1..] + [old(ring)[0]] else old(ring) + [newBlock])
      ensures log == old(log) && tailIndex == old(tailIndex) && headIndex == old(headIndex)
      ensures optimisticCount == old(optimisticCount) && overcommit == old(overcommit)
    {
      hide Wrap, IndexOk, Linked, Apart, AllHold, Holds, HoldsAt, LeadsOn, Started;
      ghost var started := Started(tailIndex);
      StartedAt(tailIndex);
      var reuse := AheadIsEmpty();
      RingInFootprint(ring, Repr);
      assert ring != [] ==> ring[0] in ring && ring[|ring| - 1] in ring;
      if reuse {
        IndexTurnsRing(entries[..], ring, nextSlot, started);
        Reuse();
      } else {
        ok := AddBlock(memory, newBlock);
        if !ok {
          return false;
        }
      }
      Record(started);
      return true;
    }

    /** Makes room in the index and inserts the new block, if both can be done. */
    method AddBlock(memory: bool, newBlock: Block?) returns (ok: bool)
      requires Valid() && tailIndex % BLOCK_SIZE == 0
      requires Parts(newBlock) !! Repr && (newBlock != null ==> newBlock.Valid())
      modifies Repr, Parts(newBlock)
      ensures ok <==> (old(HasRoom()) || memory) && newBlock != null
      ensures if ok then Recordable(Started(tailIndex)) else Valid()
      ensures fresh(Repr - old(Repr) - Parts(newBlock))
      ensures ring == (if ok then old(ring) + [newBlock] else old(ring))
      ensures log == old(log) && tailIndex == old(tailIndex) && headIndex == old(headIndex)
      ensures optimisticCount == old(optimisticCount) && overcommit == old(overcommit)
    {
      hide Wrap, IndexOk, Linked, Apart, AllHold, Holds, HoldsAt, LeadsOn, Started;
      ghost var started := Started(tailIndex);
      StartedAt(tailIndex);
      RingInFootprint(ring, Repr);
      assert ring != [] ==> ring[|ring| - 1] in ring;
      if entries == null || slotsUsed == size {
        ok := NewBlockIndex(slotsUsed, memory);
        if !ok {
          return false;
        }
      }
      if newBlock == null {
        return false;
      }
      IndexGrowsRing(entries[..], ring, nextSlot, started, newBlock);
      Insert(newBlock);
      return true;
    }

    // ---------- enqueuing ----------

    /** Writes the element into the last block and moves the tail. */
    method Write(x: Elem, ghost started: nat)
      requires ValidAt(started) && BLOCK_SIZE * (started - 1) <= tailIndex < BLOCK_SIZE * started
      requires tailBlock != null && tailBlock.Valid()
      modifies this`tailIndex, this`log, tailBlock.elements
      ensures Valid() && log == old(log) + [x] && tailIndex == old(tailIndex) + 1
    {
      hide Wrap, IndexOk, Linked, Apart, AllHold, Holds, HoldsAt, LeadsOn;
      ghost var before := log;
      DistinctArrays(ring, Repr, |ring| - 1);
      AllHoldMeans(ring, started, headIndex, log);
      BlockMeans(ring, Repr, started, headIndex, log, started - 1);
      tailBlock.elements[tailIndex % BLOCK_SIZE] := x;
      tailIndex := tailIndex + 1;
      log := log + [x];
      LastHolds(tailBlock, started - 1, headIndex, before, x);
      WrittenHolds(ring, started, headIndex, before, x);
      assert Started(tailIndex) == started;
    }

    /** Appends the element, or fails when a block is needed and none is to be had; a failure changes nothing
        but, perhaps, the size of the index. */
    method Enqueue(x: Elem, memory: bool, newBlock: Block?) returns (ok: bool)
      requires Valid() && Parts(newBlock) !! Repr && (newBlock != null ==> newBlock.Valid())
      modifies Repr, Parts(newBlock)
      ensures Valid() && fresh(Repr - old(Repr) - Parts(newBlock))
      ensures ok <==> old(tailIndex) % BLOCK_SIZE != 0 || old(CanReuse()) || ((old(HasRoom()) || memory) && newBlock != null)
      ensures Contents() == if ok then old(Contents()) + [x] else old(Contents())
      ensures headIndex == old(headIndex) && log == if ok then old(log) + [x] else old(log)
      ensures ring == if !ok || old(tailIndex) % BLOCK_SIZE != 0 then old(ring)
                      else if old(CanReuse()) then old(ring)[1..] + [old(ring)[0]] else old(ring) + [newBlock]
    {
      hide Wrap, IndexOk, Linked, Apart, AllHold, Holds, HoldsAt, LeadsOn;
      ghost var started := Started(tailIndex);
      if tailIndex % BLOCK_SIZE == 0 {
        ok := StartBlock(memory, newBlock);
        if !ok {
          return false;
        }
        started := started + 1;
      }
      LastIsValid(ring, Repr);
      Write(x, started);
      return true;
    }

    // ---------- dequeuing ----------

    /** The slot of an element's block, from the front slot of the index and its base. */
    method Lookup(index: nat) returns (slot: int)
      requires WindowOk(Started(tailIndex)) && |ring| <= Started(tailIndex)
      requires Started(tailIndex) - |ring| <= index / BLOCK_SIZE < Started(tailIndex)
      ensures entries != null && slot == Slot(nextSlot, |ring|, index / BLOCK_SIZE - (Started(tailIndex) - |ring|), size)
    {
      hide IndexOk;
      LookupFinds(entries[..], ring, nextSlot, Started(tailIndex), index / BLOCK_SIZE);
      var frontBase := entries[front].base;
      // The bases are multiples of the block size, so the quotient is exact.
      var offset := (index / BLOCK_SIZE * BLOCK_SIZE - frontBase) / BLOCK_SIZE;
      slot := Wrap(front + offset, size);
      WrapAdd(nextSlot - 1, offset, size);
    }

    /** Takes the oldest element, if there is one.  In a run of one operation after the other the tail does not
        move between the two looks at it, so the second one always succeeds. */
    method Dequeue() returns (ok: bool, element: Elem)
      requires Valid()
      modifies Repr
      ensures Valid() && Repr == old(Repr) && ring == old(ring) && log == old(log)
      ensures ok <==> old(Contents()) != []
      ensures ok ==> element == old(Contents())[0] && Contents() == old(Contents())[1..]
      ensures !ok ==> Contents() == old(Contents())
    {
      hide Wrap, IndexOk, Linked, Apart, AllHold, Holds, HoldsAt, LeadsOn;
      ok, element := false, 0;
      if optimisticCount - overcommit < tailIndex {
        var my := optimisticCount;
        optimisticCount := optimisticCount + 1;
        assert my - overcommit < tailIndex;
        var index := headIndex;
        headIndex := headIndex + 1;
        var slot := Lookup(index);
        ghost var started := Started(tailIndex);
        SlotFinds(entries[..], ring, nextSlot, started, index / BLOCK_SIZE);
        IsValid(ring, Repr, index / BLOCK_SIZE - (started - |ring|));
        element := TakeOne(entries[slot].block, index);
        ok := true;
      }
    }

    /** Takes the element of the index out of its block and marks it. */
    method TakeOne(block: Block, index: nat) returns (element: Elem)
      requires RingOk() && AllHold(ring, Started(tailIndex), index, log) && index < tailIndex == |log|
      requires var i := index / BLOCK_SIZE - (Started(tailIndex) - |ring|);
        |ring| <= Started(tailIndex) && 0 <= i < |ring| && block == ring[i] && block.emptyFlags in Repr
      modifies block.emptyFlags
      ensures AllHold(ring, Started(tailIndex), index + 1, log) && element == log[index]
    {
      hide Wrap, IndexOk, Linked, Apart, AllHold, Holds, HoldsAt, LeadsOn;
      ghost var started := Started(tailIndex);
      AllHoldMeans(ring, started, index, log);
      BlockMeans(ring, Repr, started, index, log, index / BLOCK_SIZE);
      DistinctArrays(ring, Repr, index / BLOCK_SIZE - (started - |ring|));
      element := block.elements[index % BLOCK_SIZE];
      block.SetEmpty(index);
      FlagsHold(block, index / BLOCK_SIZE, index + 1, log);
      MarkedHolds(ring, started, index, index + 1, log, index / BLOCK_SIZE);
    }

    /** Reads the elements of the indices from `from` to `to` from block number `b`. */
    method ReadSegment(block: Block, b: nat, from: nat, to: nat) returns (part: seq<Elem>)
      requires block.Valid() && BLOCK_SIZE * b <= from <= to <= BLOCK_SIZE * b + BLOCK_SIZE && to <= |log|
      requires forall o :: 0 <= o < BLOCK_SIZE && BLOCK_SIZE * b + o < |log| ==> block.elements[o] == log[BLOCK_SIZE * b + o]
      ensures part == log[from..to]
    {
      part := [];
      var index := from;
      while index != to
        invariant from <= index <= to && part == log[from..index]
      {
        part := part + [block.elements[index % BLOCK_SIZE]];
        index := index + 1;
      }
    }

    /** Takes the elements of the indices from `from` to `to`, which lie in one block, and marks them. */
    method TakeSegment(block: Block, from: nat, to: nat) returns (part: seq<Elem>)
      requires RingOk() && AllHold(ring, Started(tailIndex), from, log) && tailIndex == |log|
      requires BLOCK_SIZE * (from / BLOCK_SIZE) <= from <= to <= BLOCK_SIZE * (from / BLOCK_SIZE) + BLOCK_SIZE && to <= tailIndex
      requires var i := from / BLOCK_SIZE - (Started(tailIndex) - |ring|);
        |ring| <= Started(tailIndex) && 0 <= i < |ring| && block == ring[i] && block.emptyFlags in Repr
      modifies block.emptyFlags
      ensures AllHold(ring, Started(tailIndex), to, log) && part == log[from..to]
    {
      hide Wrap, IndexOk, Linked, Apart, AllHold, Holds, HoldsAt, LeadsOn;
      ghost var started := Started(tailIndex);
      AllHoldMeans(ring, started, from, log);
      BlockMeans(ring, Repr, started, from, log, from / BLOCK_SIZE);
      part := ReadSegment(block, from / BLOCK_SIZE, from, to);
      DistinctArrays(ring, Repr, from / BLOCK_SIZE - (started - |ring|));
      block.SetManyEmpty(from, to - from);
      FlagsHold(block, from / BLOCK_SIZE, to, log);
      MarkedHolds(ring, started, from, to, log, from / BLOCK_SIZE);
    }

    ghost function Flags(): set<object>
      reads this
    {
      set b | b in ring :: b.emptyFlags
    }

    /** Takes the elements of `count` indices from `first` on, block by block, along the slots of the index. */
    method TakeBlocks(first: nat, count: nat, firstSlot: int) returns (out: seq<Elem>)
      requires RingOk() && WindowOk(Started(tailIndex)) && AllHold(ring, Started(tailIndex), first, log)
      requires first + count <= tailIndex == |log| && first < tailIndex
      requires |ring| <= Started(tailIndex) && BLOCK_SIZE * (Started(tailIndex) - |ring|) <= first && entries != null
      requires firstSlot == Slot(nextSlot, |ring|, first / BLOCK_SIZE - (Started(tailIndex) - |ring|), size)
      modifies Flags()
      ensures AllHold(ring, Started(tailIndex), first + count, log) && out == log[first..first + count]
    {
      hide Wrap, IndexOk, Linked, Apart, AllHold, Holds, HoldsAt, LeadsOn;
      ghost var started := Started(tailIndex);
      out := [];
      var index, slot, more := first, firstSlot, true;
      while more
        invariant first <= index <= first + count && out == log[first..index]
        invariant more ==> slot == Slot(nextSlot, |ring|, index / BLOCK_SIZE - (started - |ring|), size) && index < tailIndex
        invariant !more ==> index == first + count
        invariant RingOk() && AllHold(ring, started, index, log)
        modifies Flags()
        decreases more, first + count - index
      {
        var endIndex := index / BLOCK_SIZE * BLOCK_SIZE + BLOCK_SIZE;
        if first + count < endIndex {
          endIndex := first + count;
        }
        SlotFinds(entries[..], ring, nextSlot, started, index / BLOCK_SIZE);
        IsValid(ring, Repr, index / BLOCK_SIZE - (started - |ring|));
        var block := entries[slot].block;
        var part := TakeSegment(block, index, endIndex);
        out := out + part;
        WrapAdd(nextSlot - |ring| + (index / BLOCK_SIZE - (started - |ring|)), 1, size);
        slot := Wrap(slot + 1, size);
        index := endIndex;
        more := index != first + count;
      }
    }

    /** Takes up to `max` of the oldest elements. */
    method DequeueBulk(max: nat) returns (out: seq<Elem>)
      requires Valid()
      modifies Repr
      ensures Valid() && Repr == old(Repr) && ring == old(ring) && log == old(log)
      ensures |out| == Min(max, |old(Contents())|)
      ensures out == old(Contents())[..|out|] && Contents() == old(Contents())[|out|..]
    {
      hide Wrap, IndexOk, Linked, Apart, AllHold, Holds, HoldsAt, LeadsOn;
      out := [];
      var desired := tailIndex - (optimisticCount - overcommit);
      if 0 < desired {
        var actual := if desired < max then desired else max;
        optimisticCount := optimisticCount + actual;
        var first := headIndex;
        headIndex := headIndex + actual;
        var slot := Lookup(first);
        RingInFootprint(ring, Repr);
        out := TakeBlocks(first, actual, slot);
      }
    }
  }
}
