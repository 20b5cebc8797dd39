/** Consumers count the elements they have read, and the one that empties a block clears its entry and gives
    the block back: these steps keep the invariant too. */
module ImplicitRelease {
  import opened ThreadSums
  import opened Ring
  import BI = BlockIndex
  import BIS = BlockIndexSteps
  import opened ImplicitQueue
  import opened ImplicitQueueInv
  import opened ImplicitConsumers

  /** Behind a segment that does not end the job, the next block begins. */
  ghost predicate Between(s: State, a: Aux, job: Job, h: nat, slot: int) {
    && job.seg == Pos(job) > job.first && Reaches(s, a, h, job) && (job.seg < job.end ==> job.seg % BLOCK_SIZE == 0)
    && slot == BI.SlotOf(s.ix, a.ia, h, (job.seg - 1) / BLOCK_SIZE)
  }

  lemma NextSegmentOk(s: State, a: Aux, t: Tid, job: Job, h: nat, slot: int)
    requires BI.Shape(s.ix) && h < |s.ix.headers| && JobOk(s, a, job) && Between(s, a, job, h, slot)
    requires t in s.consumers && s.consumers[t] == NextSegment(s, job, h, slot)
    ensures ConsumerOk(s, a, t)
  {
    assert BI.HeaderOk(s.ix, h);
    if job.seg < job.end {
      assert (job.seg - 1) / BLOCK_SIZE + 1 == job.seg / BLOCK_SIZE;
      WrapAdd((job.seg - 1) / BLOCK_SIZE - a.ia.shift[h], 1, s.ix.headers[h].capacity);
    }
  }

  // ---------- counting ----------

  predicate Counting(s: State, t: Tid) { t in s.consumers && s.consumers[t].Busy? && s.consumers[t].at.CountDone? }

  function SegBlock(s: State, t: Tid): nat
    requires Counting(s, t)
  {
    s.consumers[t].job.seg / BLOCK_SIZE
  }

  function Counted(s: State, t: Tid): Job
    requires Counting(s, t)
  {
    s.consumers[t].job.(seg := SegEnd(s.consumers[t].job))
  }

  /** The block is still in the index and has room for the count. */
  ghost predicate Fits(s: State, a: Aux, t: Tid) {
    && Counting(s, t) && ConsumerDefined(s, t)
    && var job, block, b := s.consumers[t].job, s.consumers[t].at.block, SegBlock(s, t);
       && b in a.ia.live && a.ia.live[b].block == block && block in s.blocks && block in a.owner && a.owner[block] == Indexed(b)
       && job.seg < SegEnd(job) == Pos(job)
       && s.blocks[block].done + (SegEnd(job) - job.seg) <= BLOCK_SIZE
  }

  lemma CountFits(s: State, a: Aux, t: Tid)
    requires Good(s, a) && Counting(s, t)
    ensures Fits(s, a, t)
  {
    hide BI.Inv, ProducerOk, TailBlockOk, ElemsOk, DeadBlock;
    assert ConsumerOk(s, a, t);
    var block, b := s.consumers[t].at.block, SegBlock(s, t);
    assert LiveBlock(s, a, b) && BlockOk(s, a, block);
    SumAtLeast(s.consumers, HeldWeight(b), t);
  }

  /** Counting takes what it counts from the elements still held. */
  lemma CountHeld(s: State, t: Tid, c: Consumer, b: int)
    requires Counting(s, t) && c.Busy? && c.job == Counted(s, t) && s.consumers[t].job.seg <= SegEnd(s.consumers[t].job)
    ensures var d := if b == SegBlock(s, t) then SegEnd(s.consumers[t].job) - s.consumers[t].job.seg else 0;
      Held(s.consumers[t := c], b) == Held(s.consumers, b) - d
  {
    HeldChange(s.consumers, t, c, b);
  }

  /** The state and the bookkeeping after a consumer has counted. */
  ghost predicate Counts(s: State, a: Aux, t: Tid, s': State, a': Aux)
    requires Counting(s, t) && ConsumerDefined(s, t)
  {
    var job, at := s.consumers[t].job, s.consumers[t].at;
    var cell := s.blocks[at.block];
    var done := cell.done + (SegEnd(job) - job.seg);
    && t in s'.consumers && s'.consumers[t].Busy? && s'.consumers[t].job == Counted(s, t)
    && s' == s.(blocks := s.blocks[at.block := Cell(cell.elems, done)], consumers := s.consumers[t := s'.consumers[t]])
    && (if done == BLOCK_SIZE
        then a' == a.(owner := a.owner[at.block := Emptying(t, SegBlock(s, t))])
             && s'.consumers[t].at == ClearEntry(at.h, at.slot, at.e, at.block)
        else a' == a && at.h < |s.ix.headers| && BI.Shape(s.ix)
             && s'.consumers[t] == NextSegment(s, Counted(s, t), at.h, at.slot))
  }

  lemma CountBlock(s: State, a: Aux, t: Tid, s': State, a': Aux, block: Block)
    requires Fits(s, a, t) && Counts(s, a, t, s', a') && block in s.blocks && BlockOk(s, a, block)
    ensures BlockOk(s', a', block)
  {
  }

  lemma CountLive(s: State, a: Aux, t: Tid, s': State, a': Aux, x: int)
    requires Fits(s, a, t) && Counts(s, a, t, s', a') && x in a.ia.live && LiveBlock(s, a, x)
    requires BlockOk(s, a, a.ia.live[x].block)
    ensures LiveBlock(s', a', x)
  {
    CountHeld(s, t, s'.consumers[t], x);
  }

  lemma CountBlocks(s: State, a: Aux, t: Tid, s': State, a': Aux)
    requires Fits(s, a, t) && Counts(s, a, t, s', a') && BlocksOk(s, a)
    ensures BlocksOk(s', a')
  {
    forall x | x in a'.ia.live ensures LiveBlock(s', a', x) {
      assert LiveBlock(s, a, x);
      CountLive(s, a, t, s', a', x);
    }
    forall x | 0 <= x < a'.ia.base && x !in a'.ia.live ensures DeadBlock(s', x) {
      assert DeadBlock(s, x);
      CountHeld(s, t, s'.consumers[t], x);
    }
    forall block | block in s'.blocks ensures BlockOk(s', a', block) {
      CountBlock(s, a, t, s', a', block);
    }
  }

  lemma CountedBetween(s: State, a: Aux, t: Tid)
    requires Counting(s, t) && ConsumerOk(s, a, t)
    ensures var at := s.consumers[t].at;
      Between(s, a, Counted(s, t), at.h, at.slot) && (Counted(s, t).seg - 1) / BLOCK_SIZE == SegBlock(s, t)
  {
    var job, at, job' := s.consumers[t].job, s.consumers[t].at, Counted(s, t);
    assert (job'.seg - 1) / BLOCK_SIZE == job.seg / BLOCK_SIZE;
    assert Reaches(s, a, at.h, job') by {
      assert Reaches(s, a, at.h, job);
    }
  }

  lemma CountConsumer(s: State, a: Aux, t: Tid, s': State, a': Aux)
    requires Fits(s, a, t) && Counts(s, a, t, s', a') && ConsumerOk(s, a, t)
    ensures ConsumerOk(s', a', t)
  {
    var at, job' := s.consumers[t].at, Counted(s, t);
    CountedBetween(s, a, t);
    assert JobOk(s', a', job');
    assert Between(s', a', job', at.h, at.slot);
    if !s'.consumers[t].at.ClearEntry? {
      NextSegmentOk(s', a', t, job', at.h, at.slot);
    }
  }

  lemma CountOthers(s: State, a: Aux, t: Tid, s': State, a': Aux, u: Tid)
    requires Fits(s, a, t) && Counts(s, a, t, s', a') && u in s.consumers && u != t && ConsumerOk(s, a, u)
    requires |a.ia.shift| == |s.ix.headers| && s.head <= s.tail == |a.log|
    ensures ConsumerOk(s', a', u)
  {
    NothingExtends(s, a);
    ConsumerStays(s, a, s', a', u);
  }

  lemma CountProducer(s: State, a: Aux, t: Tid, s': State, a': Aux)
    requires Fits(s, a, t) && Counts(s, a, t, s', a') && Inv(s, a)
    ensures ProducerOk(s', a') && TailBlockOk(s', a')
  {
    hide ConsumerOk, BlocksOk, ProducerOk, TailBlockOk, SegEnd, NextSegment;
    ProducerStays(s, a, s', a');
    TailBlockStays(s, a, s', a');
  }

  lemma CountStep(s: State, a: Aux, t: Tid) returns (a': Aux)
    requires Fits(s, a, t)
    ensures a'.log == a.log && Counts(s, a, t, ConsumeStep(s, t), a')
  {
    var job, block := s.consumers[t].job, s.consumers[t].at.block;
    a' := if s.blocks[block].done + (SegEnd(job) - job.seg) == BLOCK_SIZE
      then a.(owner := a.owner[block := Emptying(t, SegBlock(s, t))]) else a;
  }

  lemma KeepCounts(s: State, a: Aux, t: Tid, s': State, a': Aux)
    requires Good(s, a) && Fits(s, a, t) && Counts(s, a, t, s', a')
    ensures Good(s', a')
  {
    CountBlocks(s, a, t, s', a');
    forall u | u in s'.consumers ensures ConsumerOk(s', a', u) {
      if u == t {
        CountConsumer(s, a, t, s', a');
      } else {
        CountOthers(s, a, t, s', a', u);
      }
    }
    CountProducer(s, a, t, s', a');
  }

  lemma KeepCountDone(s: State, a: Aux, t: Tid) returns (a': Aux)
    requires Good(s, a) && Counting(s, t)
    ensures ConsumerDefined(s, t) && a'.log == a.log && Good(ConsumeStep(s, t), a')
  {
    CountFits(s, a, t);
    a' := CountStep(s, a, t);
    KeepCounts(s, a, t, ConsumeStep(s, t), a');
  }

  // ---------- clearing the entry ----------

  /** A consumer is about to clear the entry of block number `b`, which it has emptied: nobody holds or will
      be granted an index of it. */
  ghost predicate Emptied(s: State, a: Aux, t: Tid, b: int) {
    && t in s.consumers && s.consumers[t].Busy? && s.consumers[t].at.ClearEntry?
    && s.consumers[t].job.seg > 0 && b == (s.consumers[t].job.seg - 1) / BLOCK_SIZE
    && HasBlock(a, b, s.consumers[t].at.e, s.consumers[t].at.block)
    && s.consumers[t].at.block in a.owner && a.owner[s.consumers[t].at.block] == Emptying(t, b)
    && 0 <= b && DeadBlock(s, b)
  }

  lemma ClearIsSafe(s: State, a: Aux, t: Tid) returns (b: int)
    requires Good(s, a) && t in s.consumers && s.consumers[t].Busy? && s.consumers[t].at.ClearEntry?
    ensures Emptied(s, a, t, b) && ConsumerDefined(s, t) && b < a.ia.base
  {
    hide BI.KeysOk, BI.SharingOk, BI.PeakOk, BI.OpenOk, ProducerOk, TailBlockOk, ElemsOk, Reaches;
    assert ConsumerOk(s, a, t);
    b := (s.consumers[t].job.seg - 1) / BLOCK_SIZE;
    assert LiveBlock(s, a, b) && BI.LiveOk(s.ix, a.ia, b);
    FullBlockIsEmptied(s, a, t, b);
  }

  lemma FullBlockIsEmptied(s: State, a: Aux, t: Tid, b: int)
    requires t in s.consumers && s.consumers[t].Busy? && s.consumers[t].at.ClearEntry? && ConsumerOk(s, a, t)
    requires b == (s.consumers[t].job.seg - 1) / BLOCK_SIZE && b in a.ia.live && LiveBlock(s, a, b)
    requires BlockOk(s, a, a.ia.live[b].block)
    ensures Emptied(s, a, t, b)
  {
  }

  ghost predicate Clears(s: State, a: Aux, t: Tid, b: int, s': State, a': Aux)
    requires Emptied(s, a, t, b) && s.consumers[t].at.e < |s.ix.entries|
  {
    var job, at := s.consumers[t].job, s.consumers[t].at;
    && s' == s.(ix := BI.StoreValue(s.ix, at.e, BI.Null),
                consumers := s.consumers[t := Busy(job, FreeBlock(at.h, at.slot, at.block))])
    && a' == a.(ia := a.ia.(live := a.ia.live - {b}), owner := a.owner[at.block := Freeing(t)])
  }

  lemma SameHeld(s: State, t: Tid, c: Consumer, b: int)
    requires t in s.consumers && HeldWeight(b)(c) == HeldWeight(b)(s.consumers[t])
    ensures Held(s.consumers[t := c], b) == Held(s.consumers, b)
  {
    HeldChange(s.consumers, t, c, b);
  }

  lemma ClearBlock(s: State, a: Aux, t: Tid, b: int, s': State, a': Aux, block: Block)
    requires Emptied(s, a, t, b) && s.consumers[t].at.e < |s.ix.entries| && Clears(s, a, t, b, s', a')
    requires b in a.ia.live && LiveBlock(s, a, b) && block in s.blocks && BlockOk(s, a, block)
    ensures BlockOk(s', a', block)
  {
  }

  lemma ClearLive(s: State, a: Aux, t: Tid, b: int, s': State, a': Aux, x: int)
    requires Emptied(s, a, t, b) && s.consumers[t].at.e < |s.ix.entries| && Clears(s, a, t, b, s', a')
    requires b in a.ia.live && LiveBlock(s, a, b) && x in a'.ia.live && LiveBlock(s, a, x)
    ensures LiveBlock(s', a', x)
  {
    SameHeld(s, t, s'.consumers[t], x);
  }

  lemma ClearBlocks(s: State, a: Aux, t: Tid, b: int, s': State, a': Aux)
    requires Emptied(s, a, t, b) && s.consumers[t].at.e < |s.ix.entries| && Clears(s, a, t, b, s', a') && BlocksOk(s, a)
    ensures BlocksOk(s', a')
  {
    assert LiveBlock(s, a, b);
    forall x | x in a'.ia.live ensures LiveBlock(s', a', x) {
      assert LiveBlock(s, a, x);
      ClearLive(s, a, t, b, s', a', x);
    }
    forall x | 0 <= x < a'.ia.base && x !in a'.ia.live ensures DeadBlock(s', x) {
      assert DeadBlock(s, x);
      SameHeld(s, t, s'.consumers[t], x);
    }
    forall block | block in s'.blocks ensures BlockOk(s', a', block) {
      ClearBlock(s, a, t, b, s', a', block);
    }
  }

  /** A consumer that still uses a block has not had it taken away. */
  lemma UsedIsNotEmptied(s: State, a: Aux, t: Tid, b: int, u: Tid)
    requires Emptied(s, a, t, b) && u in s.consumers && u != t && ConsumerOk(s, a, u)
    ensures !Uses(s.consumers[u], b)
  {
    SumAtLeast(s.consumers, HeldWeight(b), u);
  }

  lemma KeepClearEntry(s: State, a: Aux, t: Tid) returns (a': Aux)
    requires Good(s, a) && t in s.consumers && s.consumers[t].Busy? && s.consumers[t].at.ClearEntry?
    ensures ConsumerDefined(s, t) && a'.log == a.log && Good(ConsumeStep(s, t), a')
  {
    var b := ClearIsSafe(s, a, t);
    var at, s' := s.consumers[t].at, ConsumeStep(s, t);
    var ia := BIS.KeepClearLive(s.ix, a.ia, b);
    a' := a.(ia := ia, owner := a.owner[at.block := Freeing(t)]);
    assert Clears(s, a, t, b, s', a');
    ClearBlocks(s, a, t, b, s', a');
    ClearConsumer(s, a, t, b, s', a');
    forall u | u in s'.consumers && u != t ensures Undisturbed(s, a, s', a', u) {
      assert ConsumerOk(s, a, u);
      ClearOthers(s, a, t, b, s', a', u);
    }
    ClearProducer(s, a, t, b, s', a');
    KeepRest(s, a, s', a', t);
  }

  lemma ClearOthers(s: State, a: Aux, t: Tid, b: int, s': State, a': Aux, u: Tid)
    requires Emptied(s, a, t, b) && s.consumers[t].at.e < |s.ix.entries| && Clears(s, a, t, b, s', a')
    requires BI.Shape(s'.ix) && BIS.Extends(s.ix, a.ia, s'.ix, a'.ia) && s.head <= s.tail == |a.log|
    requires u in s.consumers && u != t && ConsumerOk(s, a, u)
    ensures Undisturbed(s, a, s', a', u)
  {
    UsedIsNotEmptied(s, a, t, b, u);
  }

  lemma ClearProducer(s: State, a: Aux, t: Tid, b: int, s': State, a': Aux)
    requires Emptied(s, a, t, b) && s.consumers[t].at.e < |s.ix.entries| && Clears(s, a, t, b, s', a')
    requires a.ia.base == BlocksFor(s.tail) && s.head <= s.tail
    ensures ProducerUndisturbed(s, a, s', a')
  {
  }

  lemma ClearConsumer(s: State, a: Aux, t: Tid, b: int, s': State, a': Aux)
    requires Emptied(s, a, t, b) && s.consumers[t].at.e < |s.ix.entries| && Clears(s, a, t, b, s', a') && ConsumerOk(s, a, t)
    requires BI.Shape(s'.ix) && BIS.Extends(s.ix, a.ia, s'.ix, a'.ia)
    ensures ConsumerOk(s', a', t)
  {
    var job, h := s.consumers[t].job, s.consumers[t].at.h;
    forall x | Overlap(job.seg, job.end, x) > 0 ensures BI.Finds(s'.ix, a'.ia, h, x) {
      assert BI.Finds(s.ix, a.ia, h, x);
      SumAtLeast(s.consumers, HeldWeight(b), t);
      BIS.FindsStays(s.ix, a.ia, s'.ix, a'.ia, h, x);
    }
    assert BI.HeaderOk(s.ix, h);
  }

  // ---------- giving the block back ----------

  ghost predicate Frees(s: State, a: Aux, t: Tid, s': State, a': Aux)
    requires t in s.consumers && s.consumers[t].Busy? && s.consumers[t].at.FreeBlock?
    requires s.consumers[t].at.h < |s.ix.headers| && BI.Shape(s.ix)
  {
    var job, at := s.consumers[t].job, s.consumers[t].at;
    && s' == s.(pool := s.pool + {at.block}, consumers := s.consumers[t := NextSegment(s, job, at.h, at.slot)])
    && a' == a.(owner := a.owner[at.block := InPool])
  }

  lemma FreeLive(s: State, a: Aux, t: Tid, s': State, a': Aux, x: int)
    requires t in s.consumers && s.consumers[t].Busy? && s.consumers[t].at.FreeBlock? && ConsumerOk(s, a, t)
    requires s.consumers[t].at.h < |s.ix.headers| && BI.Shape(s.ix) && Frees(s, a, t, s', a')
    requires x in a.ia.live && LiveBlock(s, a, x)
    ensures LiveBlock(s', a', x)
  {
    SameHeld(s, t, s'.consumers[t], x);
  }

  lemma FreeOne(s: State, a: Aux, t: Tid, s': State, a': Aux, block: Block)
    requires t in s.consumers && s.consumers[t].Busy? && s.consumers[t].at.FreeBlock? && ConsumerOk(s, a, t)
    requires s.consumers[t].at.h < |s.ix.headers| && BI.Shape(s.ix) && Frees(s, a, t, s', a')
    requires block in s.blocks && BlockOk(s, a, block)
    ensures BlockOk(s', a', block)
  {
  }

  lemma FreeBlocks(s: State, a: Aux, t: Tid, s': State, a': Aux)
    requires t in s.consumers && s.consumers[t].Busy? && s.consumers[t].at.FreeBlock? && ConsumerOk(s, a, t)
    requires s.consumers[t].at.h < |s.ix.headers| && BI.Shape(s.ix) && Frees(s, a, t, s', a') && BlocksOk(s, a)
    ensures BlocksOk(s', a')
  {
    forall x | x in a'.ia.live ensures LiveBlock(s', a', x) {
      FreeLive(s, a, t, s', a', x);
    }
    forall x | 0 <= x < a'.ia.base && x !in a'.ia.live ensures DeadBlock(s', x) {
      assert DeadBlock(s, x);
      SameHeld(s, t, s'.consumers[t], x);
    }
    forall block | block in s'.blocks ensures BlockOk(s', a', block) {
      FreeOne(s, a, t, s', a', block);
    }
  }

  /** The block is in nobody's hands when it goes back to the pool. */
  lemma KeepFreeBlock(s: State, a: Aux, t: Tid) returns (a': Aux)
    requires Good(s, a) && t in s.consumers && s.consumers[t].Busy? && s.consumers[t].at.FreeBlock?
    ensures ConsumerDefined(s, t) && s.consumers[t].at.block !in s.pool
    ensures a'.log == a.log && Good(ConsumeStep(s, t), a')
  {
    assert ConsumerOk(s, a, t);
    var at := s.consumers[t].at;
    assert BlockOk(s, a, at.block);
    var s' := ConsumeStep(s, t);
    a' := a.(owner := a.owner[at.block := InPool]);
    assert Frees(s, a, t, s', a');
    FreeBlocks(s, a, t, s', a');
    FreeConsumer(s, a, t, s', a');
    forall u | u in s'.consumers && u != t ensures Undisturbed(s, a, s', a', u) {
      FreeOthers(s, a, t, s', a', u);
    }
    FreeProducer(s, a, t, s', a');
    KeepRest(s, a, s', a', t);
  }

  lemma FreeOthers(s: State, a: Aux, t: Tid, s': State, a': Aux, u: Tid)
    requires t in s.consumers && s.consumers[t].Busy? && s.consumers[t].at.FreeBlock? && ConsumerOk(s, a, t)
    requires s.consumers[t].at.h < |s.ix.headers| && BI.Shape(s.ix) && Frees(s, a, t, s', a')
    requires |a.ia.shift| == |s.ix.headers| && s.head <= s.tail == |a.log| && u in s.consumers && u != t
    ensures Undisturbed(s, a, s', a', u)
  {
    NothingExtends(s, a);
  }

  lemma FreeProducer(s: State, a: Aux, t: Tid, s': State, a': Aux)
    requires t in s.consumers && s.consumers[t].Busy? && s.consumers[t].at.FreeBlock? && ConsumerOk(s, a, t)
    requires s.consumers[t].at.h < |s.ix.headers| && BI.Shape(s.ix) && Frees(s, a, t, s', a')
    requires a.ia.base == BlocksFor(s.tail)
    ensures ProducerUndisturbed(s, a, s', a')
  {
  }

  lemma FreeConsumer(s: State, a: Aux, t: Tid, s': State, a': Aux)
    requires t in s.consumers && s.consumers[t].Busy? && s.consumers[t].at.FreeBlock? && ConsumerOk(s, a, t)
    requires s.consumers[t].at.h < |s.ix.headers| && BI.Shape(s.ix) && Frees(s, a, t, s', a')
    ensures ConsumerOk(s', a', t)
  {
    var job, at := s.consumers[t].job, s.consumers[t].at;
    assert Reaches(s', a', at.h, job) by {
      assert Reaches(s, a, at.h, job);
    }
    NextSegmentOk(s', a', t, job, at.h, at.slot);
  }
}
