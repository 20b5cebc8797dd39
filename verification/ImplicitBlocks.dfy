/** Where the blocks of an implicit producer are. */
module ImplicitBlocks {
  import opened ThreadSums
  import BI = BlockIndex
  import opened ImplicitQueue
  import opened ImplicitQueueInv
  import IR = ImplicitRelease
  import opened ImplicitRuns

  // ---------- places ----------

  predicate PointsTo(s: State, e: nat, block: Block) {
    e < |s.ix.entries| && s.ix.entries[e].value == BI.Ptr(block)
  }

  ghost predicate InIndex(s: State, block: Block) { exists e :: PointsTo(s, e, block) }

  predicate FreedBy(s: State, t: Tid, block: Block) {
    t in s.consumers && s.consumers[t].Busy? && s.consumers[t].at.FreeBlock? && s.consumers[t].at.block == block
  }

  ghost predicate BeingFreed(s: State, block: Block) { exists t :: FreedBy(s, t, block) }

  /** Consumer `t` is reading the block through entry `e`, or about to count or clear it. */
  predicate ReadBy(s: State, t: Tid, e: nat, block: Block) {
    && t in s.consumers && s.consumers[t].Busy?
    && (s.consumers[t].at.Read? || s.consumers[t].at.CountDone? || s.consumers[t].at.ClearEntry?)
    && s.consumers[t].at.block == block && s.consumers[t].at.e == e
  }

  ghost function Places(s: State, block: Block): nat {
    (if block in s.pool then 1 else 0) + (if block in s.other then 1 else 0) + (if InIndex(s, block) then 1 else 0)
    + (if IsMine(s.producer, block) then 1 else 0) + (if BeingFreed(s, block) then 1 else 0)
  }

  /** The owner of a block says where it is. */
  ghost predicate At(s: State, owner: Owner, block: Block) {
    && (block in s.pool <==> owner.InPool?) && (block in s.other <==> owner.Lent?)
    && (InIndex(s, block) <==> owner.Indexed? || owner.Emptying?)
    && (IsMine(s.producer, block) <==> owner.Mine?)
    && (BeingFreed(s, block) <==> owner.Freeing?)
  }

  lemma OwnerIsPlace(s: State, a: Aux, block: Block)
    requires Good(s, a) && block in s.blocks
    ensures block in a.owner && At(s, a.owner[block], block)
  {
    assert BlockOk(s, a, block);
    InIndexIsOwned(s, a, block);
    MineIsOwned(s, a, block);
    forall t | FreedBy(s, t, block) ensures a.owner[block] == Freeing(t) {
      assert ConsumerOk(s, a, t);
    }
    if a.owner[block].Freeing? {
      assert FreedBy(s, a.owner[block].t, block);
    }
  }

  lemma InIndexIsOwned(s: State, a: Aux, block: Block)
    requires Good(s, a) && block in s.blocks && block in a.owner
    ensures InIndex(s, block) <==> a.owner[block].Indexed? || a.owner[block].Emptying?
    ensures forall e, f :: PointsTo(s, e, block) && PointsTo(s, f, block) ==> e == f
  {
    assert BlockOk(s, a, block);
    forall e: nat | PointsTo(s, e, block)
      ensures (a.owner[block].Indexed? || a.owner[block].Emptying?) && a.owner[block].b in a.ia.live
      ensures a.ia.live[a.owner[block].b].entry == e
    {
      assert BI.EntryOk(s.ix, a.ia, e);
      assert LiveBlock(s, a, s.ix.entries[e].key.b);
    }
    if a.owner[block].Indexed? || a.owner[block].Emptying? {
      assert BI.LiveOk(s.ix, a.ia, a.owner[block].b);
      assert PointsTo(s, a.ia.live[a.owner[block].b].entry, block);
    }
  }

  lemma MineIsOwned(s: State, a: Aux, block: Block)
    requires Good(s, a) && block in s.blocks && block in a.owner
    ensures IsMine(s.producer, block) <==> a.owner[block].Mine?
  {
    hide BI.KeysOk, BI.SharingOk, BI.ContentOk, BI.PeakOk, BI.OpenOk;
    assert BlockOk(s, a, block);
  }

  /** A block is in exactly one place: the pool, another producer, one entry of this producer's index, this
      producer's hands, or the hands of the one consumer that emptied it. */
  lemma OnePlace(s0: State, steps: seq<Step>, block: Block)
    requires Init(s0) && Feasible(s0, steps) && AllProper(steps) && block in Run(s0, steps).blocks
    ensures Places(Run(s0, steps), block) == 1
    ensures forall e, f :: PointsTo(Run(s0, steps), e, block) && PointsTo(Run(s0, steps), f, block) ==> e == f
    ensures forall t, u :: FreedBy(Run(s0, steps), t, block) && FreedBy(Run(s0, steps), u, block) ==> t == u
  {
    var s := Run(s0, steps);
    var a := Reachable(s0, steps);
    OwnerIsPlace(s, a, block);
    InIndexIsOwned(s, a, block);
    forall t | FreedBy(s, t, block) ensures a.owner[block] == Freeing(t) {
      assert ConsumerOk(s, a, t);
    }
  }

  /** While a consumer reads a block it stays in the index at the entry the consumer found, so it is not in
      the pool, with another producer or being freed; and whoever clears its entry is the last to read it. */
  lemma ReadBlockStays(s0: State, steps: seq<Step>, t: Tid, e: nat, block: Block)
    requires Init(s0) && Feasible(s0, steps) && AllProper(steps) && ReadBy(Run(s0, steps), t, e, block)
    ensures var s := Run(s0, steps);
      && PointsTo(s, e, block) && block in s.blocks
      && block !in s.pool && block !in s.other && !BeingFreed(s, block)
      && (s.consumers[t].at.ClearEntry? ==> forall u, f :: u != t ==> !ReadBy(s, u, f, block))
  {
    var s := Run(s0, steps);
    var a := Reachable(s0, steps);
    ReadIsLive(s, a, t, e, block);
    var b := UsedBase(s, t);
    assert LiveBlock(s, a, b) && BI.LiveOk(s.ix, a.ia, b);
    assert PointsTo(s, e, block);
    OwnerIsPlace(s, a, block);
    if s.consumers[t].at.ClearEntry? {
      forall u, f | u != t ensures !ReadBy(s, u, f, block) {
        LastReader(s, a, t, b, u, f, block);
      }
    }
  }

  function UsedBase(s: State, t: Tid): int
    requires t in s.consumers && s.consumers[t].Busy?
  {
    if s.consumers[t].at.ClearEntry? then (s.consumers[t].job.seg - 1) / BLOCK_SIZE else s.consumers[t].job.seg / BLOCK_SIZE
  }

  lemma ReadIsLive(s: State, a: Aux, t: Tid, e: nat, block: Block)
    requires Good(s, a) && ReadBy(s, t, e, block)
    ensures HasBlock(a, UsedBase(s, t), e, block)
  {
    assert ConsumerOk(s, a, t);
  }

  lemma LastReader(s: State, a: Aux, t: Tid, b: int, u: Tid, f: nat, block: Block)
    requires Good(s, a) && t in s.consumers && s.consumers[t].Busy? && s.consumers[t].at.ClearEntry? && b == UsedBase(s, t)
    requires b in a.ia.live && a.ia.live[b].block == block && u != t
    ensures !ReadBy(s, u, f, block)
  {
    hide BI.KeysOk, BI.SharingOk, BI.ContentOk, BI.PeakOk, BI.OpenOk, OwnerOk;
    if ReadBy(s, u, f, block) {
      var c := IR.ClearIsSafe(s, a, t);
      ReadIsLive(s, a, u, f, block);
      assert LiveBlock(s, a, b) && LiveBlock(s, a, UsedBase(s, u)) && ConsumerOk(s, a, u);
      IR.UsedIsNotEmptied(s, a, t, b, u);
    }
  }

  // ---------- between calls ----------

  /** Entry `e` is that of block number `b` and points to a block. */
  predicate Holds(s: State, e: nat, b: int) {
    e < |s.ix.entries| && s.ix.entries[e].key == BI.Base(b) && s.ix.entries[e].value.Ptr?
  }

  /** The index points to the block of element `y`. */
  ghost predicate IsIndexed(s: State, y: int) { exists e :: Holds(s, e, y / BLOCK_SIZE) }

  /** Between calls nothing is left over from a call that failed: the producer holds no block, the index points
      to no block behind the tail, and it points to the block of every element that is still unread. */
  lemma IdleIsClean(s0: State, steps: seq<Step>)
    requires Init(s0) && Feasible(s0, steps) && AllProper(steps) && Run(s0, steps).producer.PIdle?
    ensures var s := Run(s0, steps);
      && (forall block :: !IsMine(s.producer, block))
      && (forall e :: 0 <= e < |s.ix.entries| && s.ix.entries[e].value.Ptr? ==>
            s.ix.entries[e].key.Base? && s.ix.entries[e].key.b < BlocksFor(s.tail))
      && (forall y :: s.head <= y < s.tail ==> IsIndexed(s, y))
  {
    var s := Run(s0, steps);
    var a := Reachable(s0, steps);
    forall e | 0 <= e < |s.ix.entries| && s.ix.entries[e].value.Ptr?
      ensures s.ix.entries[e].key.Base? && s.ix.entries[e].key.b < BlocksFor(s.tail)
    {
      assert BI.EntryOk(s.ix, a.ia, e) && BI.LiveOk(s.ix, a.ia, s.ix.entries[e].key.b);
    }
    forall y | s.head <= y < s.tail
      ensures IsIndexed(s, y)
    {
      assert !DeadBlock(s, y / BLOCK_SIZE);
      assert BI.LiveOk(s.ix, a.ia, y / BLOCK_SIZE);
      assert Holds(s, a.ia.live[y / BLOCK_SIZE].entry, y / BLOCK_SIZE);
    }
  }

  lemma GotIsIndexed(s: State, a: Aux, got: seq<Block>, i: nat)
    requires BI.Inv(s.ix, a.ia) && i < |got| && GotAt(a, got, i)
    ensures InIndex(s, got[i])
  {
    assert BI.LiveOk(s.ix, a.ia, a.ia.base + i);
    assert PointsTo(s, a.ia.live[a.ia.base + i].entry, got[i]);
  }

  /** A call that succeeds uses exactly the blocks it counted, and they are what the longer queue needs. */
  lemma BlocksUsed(s0: State, steps: seq<Step>)
    requires Init(s0) && Feasible(s0, steps) && AllProper(steps) && Run(s0, steps).producer.PWrite?
    ensures var s := Run(s0, steps);
      && |s.producer.got| == Needed(s.tail, |s.producer.items|)
      && BlocksFor(s.tail) + |s.producer.got| == BlocksFor(s.tail + |s.producer.items|)
      && (forall i, j :: 0 <= i < j < |s.producer.got| ==> s.producer.got[i] != s.producer.got[j])
      && (forall i :: 0 <= i < |s.producer.got| ==> InIndex(s, s.producer.got[i]))
  {
    var s := Run(s0, steps);
    var a := Reachable(s0, steps);
    GotBlocks(s, a);
  }

  lemma GotBlocks(s: State, a: Aux)
    requires Good(s, a) && s.producer.PWrite?
    ensures var got := s.producer.got;
      |got| == Needed(s.tail, |s.producer.items|) && Distinct(got) && forall i :: 0 <= i < |got| ==> InIndex(s, got[i])
  {
    assert ProducerOk(s, a);
    var got := s.producer.got;
    forall i: nat | i < |got| ensures InIndex(s, got[i]) {
      assert GotAt(a, got, i);
      GotIsIndexed(s, a, got, i);
    }
  }
}
