/** The consumers' steps keep the invariant of an implicit producer's sub-queue. */
module ImplicitConsumers {
  import opened ThreadSums
  import opened Ring
  import BI = BlockIndex
  import BIS = BlockIndexSteps
  import opened ImplicitQueue
  import opened ImplicitQueueInv

  lemma HeldChange(consumers: map<Tid, Consumer>, t: Tid, c: Consumer, b: int)
    requires t in consumers
    ensures Held(consumers[t := c], b) + HeldWeight(b)(consumers[t]) == Held(consumers, b) + HeldWeight(b)(c)
  {
    SumSet(consumers, HeldWeight(b), t, c);
  }

  /** A block that a consumer still needs is live. */
  lemma NeededIsLive(s: State, a: Aux, t: Tid, b: int)
    requires Inv(s, a) && t in s.consumers && s.consumers[t].Busy?
    requires Overlap(s.consumers[t].job.seg, s.consumers[t].job.end, b) > 0
    ensures b in a.ia.live && 0 <= b < a.ia.base
  {
    SumAtLeast(s.consumers, HeldWeight(b), t);
    assert ConsumerOk(s, a, t);
    assert b !in a.ia.live ==> !DeadBlock(s, b);
  }

  /** The blocks that a consumer's state refers to. */
  ghost predicate Uses(c: Consumer, b: int) {
    && c.Busy?
    && (Overlap(c.job.seg, c.job.end, b) > 0 || (c.at.ClearEntry? && c.job.seg > 0 && b == (c.job.seg - 1) / BLOCK_SIZE))
  }

  ghost predicate OwnedBy(o: Owner, t: Tid) { (o.Emptying? || o.Freeing?) && o.t == t }

  /** A step that leaves consumer `u` and what it uses alone. */
  ghost predicate Undisturbed(s: State, a: Aux, s': State, a': Aux, u: Tid) {
    && u in s.consumers && u in s'.consumers && s'.consumers[u] == s.consumers[u]
    && BI.Shape(s'.ix) && BIS.Extends(s.ix, a.ia, s'.ix, a'.ia)
    && s.head <= s'.head <= s'.tail == |a'.log| && |a.log| <= |a'.log| && a'.log[..|a.log|] == a.log
    && (forall b :: b in a.ia.live && Uses(s.consumers[u], b) ==> b in a'.ia.live && a'.ia.live[b] == a.ia.live[b])
    && (forall block :: block in a.owner && OwnedBy(a.owner[block], u) ==>
          block in a'.owner && a'.owner[block] == a.owner[block])
  }

  lemma ReachesStays(s: State, a: Aux, s': State, a': Aux, u: Tid, h: nat)
    requires Undisturbed(s, a, s', a', u) && s.consumers[u].Busy? && Reaches(s, a, h, s.consumers[u].job)
    ensures Reaches(s', a', h, s.consumers[u].job)
    ensures h < |s.ix.headers| && h < |s'.ix.headers| && s'.ix.headers[h].capacity == s.ix.headers[h].capacity
    ensures forall b :: BI.SlotOf(s'.ix, a'.ia, h, b) == BI.SlotOf(s.ix, a.ia, h, b)
    ensures forall p {:trigger BI.EntryAt(s'.ix, h, p)} :: 0 <= p < s.ix.headers[h].capacity ==> BI.EntryAt(s'.ix, h, p) == BI.EntryAt(s.ix, h, p)
  {
    var job := s.consumers[u].job;
    forall b | Overlap(job.seg, job.end, b) > 0 ensures BI.Finds(s'.ix, a'.ia, h, b) {
      assert BI.Finds(s.ix, a.ia, h, b);
      BIS.FindsStays(s.ix, a.ia, s'.ix, a'.ia, h, b);
    }
  }

  lemma ConsumerStays(s: State, a: Aux, s': State, a': Aux, u: Tid)
    requires Undisturbed(s, a, s', a', u) && ConsumerOk(s, a, u)
    ensures ConsumerOk(s', a', u)
  {
    if s.consumers[u].Busy? {
      var job := s.consumers[u].job;
      assert a'.log[job.first..Pos(job)] == a.log[job.first..Pos(job)];
      var at := s.consumers[u].at;
      if !at.LoadIndex? && !at.Done? {
        ReachesStays(s, a, s', a', u, at.h);
        if at.Read? || at.CountDone? {
          assert Uses(s.consumers[u], job.seg / BLOCK_SIZE);
        }
      }
    }
  }

  lemma NothingExtends(s: State, a: Aux)
    requires BI.Shape(s.ix) && |a.ia.shift| == |s.ix.headers|
    ensures BIS.Extends(s.ix, a.ia, s.ix, a.ia)
  {
  }

  // ---------- steps that change nothing shared ----------

  /** Consumer `t` moves on, without counting or freeing anything. */
  ghost predicate Quiet(s: State, t: Tid, c: Consumer) {
    && t in s.consumers
    && (s.consumers[t].Busy? ==> !s.consumers[t].at.ClearEntry? && !s.consumers[t].at.FreeBlock?)
    && (c.Busy? ==> !c.at.ClearEntry? && !c.at.FreeBlock?)
    && forall b :: HeldWeight(b)(s.consumers[t]) == HeldWeight(b)(c)
  }

  lemma QuietBlocks(s: State, a: Aux, t: Tid, c: Consumer)
    requires BlocksOk(s, a) && Quiet(s, t, c)
    ensures BlocksOk(Con(s, t, c), a)
  {
    var s' := Con(s, t, c);
    forall b ensures Held(s'.consumers, b) == Held(s.consumers, b) {
      HeldChange(s.consumers, t, c, b);
    }
    forall block | block in s'.blocks ensures BlockOk(s', a, block) {
      assert BlockOk(s, a, block);
    }
    forall b | b in a.ia.live ensures LiveBlock(s', a, b) {
      assert LiveBlock(s, a, b);
    }
    forall b | 0 <= b < a.ia.base && b !in a.ia.live ensures DeadBlock(s', b) {
      assert DeadBlock(s, b);
    }
  }

  lemma KeepQuiet(s: State, a: Aux, t: Tid, c: Consumer)
    requires Good(s, a) && Quiet(s, t, c) && ConsumerOk(Con(s, t, c), a, t)
    ensures Good(Con(s, t, c), a)
  {
    var s' := Con(s, t, c);
    QuietBlocks(s, a, t, c);
    NothingExtends(s, a);
    forall u | u in s'.consumers ensures ConsumerOk(s', a, u) {
      if u != t {
        assert ConsumerOk(s, a, u);
        ConsumerStays(s, a, s', a, u);
      }
    }
    ProducerStays(s, a, s', a);
  }

  /** A step of somebody else, as far as the producer can tell: its own blocks and those that still have
      indices at or behind the tail stay as they are. */
  ghost predicate ProducerUndisturbed(s: State, a: Aux, s': State, a': Aux) {
    && s'.producer == s.producer && s'.tail == s.tail && s'.tailBlock == s.tailBlock
    && a'.ia == a.ia.(live := a'.ia.live) && s.tail <= BLOCK_SIZE * a.ia.base
    && (forall b :: b in a'.ia.live ==> b in a.ia.live)
    && (forall b :: b in a.ia.live && s.tail < BLOCK_SIZE * b + BLOCK_SIZE ==> b in a'.ia.live && a'.ia.live[b] == a.ia.live[b])
    && (forall block :: block in a.owner && a.owner[block] == Mine ==>
          && block in a'.owner && a'.owner[block] == Mine
          && (block in s.blocks ==> block in s'.blocks && s'.blocks[block] == s.blocks[block]))
    && (forall b :: b in a.ia.live && s.tail < BLOCK_SIZE * b + BLOCK_SIZE && a.ia.live[b].block in s.blocks ==>
          a.ia.live[b].block in s'.blocks && s'.blocks[a.ia.live[b].block].elems == s.blocks[a.ia.live[b].block].elems)
  }

  lemma GotStays(s: State, a: Aux, s': State, a': Aux, got: seq<Block>, lo: nat)
    requires ProducerUndisturbed(s, a, s', a') && GotLive(a, got, lo)
    ensures GotLive(a', got, lo)
  {
    forall k: nat | lo <= k < |got| ensures GotAt(a', got, k) {
      assert GotAt(a, got, k);
    }
  }

  lemma ProducerStays(s: State, a: Aux, s': State, a': Aux)
    requires ProducerUndisturbed(s, a, s', a') && ProducerOk(s, a)
    ensures ProducerOk(s', a')
  {
    var p := s.producer;
    if p.PUndoClear? || p.PUndoRewind? || p.PUndoFree? || p.PIdle? {
      UndoingStays(s, a, s', a');
    } else if p.PWrite? {
      GotStays(s, a, s', a', p.got, 0);
      WrittenStays(s, a, s', a');
    } else {
      GotStays(s, a, s', a', p.got, 0);
    }
  }

  lemma UndoingStays(s: State, a: Aux, s': State, a': Aux)
    requires ProducerUndisturbed(s, a, s', a') && ProducerOk(s, a)
    requires s.producer.PUndoClear? || s.producer.PUndoRewind? || s.producer.PUndoFree? || s.producer.PIdle?
    ensures ProducerOk(s', a')
  {
    if s.producer.PUndoClear? {
      GotStays(s, a, s', a', s.producer.got, s.producer.k);
    } else if s.producer.PUndoRewind? {
      GotStays(s, a, s', a', s.producer.got, s.producer.k + 1);
    }
  }

  lemma WrittenStays(s: State, a: Aux, s': State, a': Aux)
    requires ProducerUndisturbed(s, a, s', a') && ProducerOk(s, a) && s.producer.PWrite?
    ensures Written(s', a', s.producer.items, s.producer.j)
  {
    var items := s.producer.items;
    assert Written(s, a, items, s.producer.j);
    forall i: nat | i < s.producer.j ensures WrittenAt(s', a', items, i) {
      assert WrittenAt(s, a, items, i);
    }
  }

  lemma TailBlockStays(s: State, a: Aux, s': State, a': Aux)
    requires ProducerUndisturbed(s, a, s', a') && TailBlockOk(s, a) && a.ia.base == BlocksFor(s.tail)
    ensures TailBlockOk(s', a')
  {
  }

  /** A step that disturbs neither the producer nor any consumer but `t` keeps the invariant if what it
      touches itself is right. */
  lemma KeepRest(s: State, a: Aux, s': State, a': Aux, t: Tid)
    requires Good(s, a) && BI.Inv(s'.ix, a'.ia) && s'.head <= s'.tail == |a'.log| && BlocksOk(s', a')
    requires forall u :: u in s'.consumers ==> u in s.consumers
    requires t in s'.consumers ==> ConsumerOk(s', a', t)
    requires forall u :: u in s'.consumers && u != t ==> Undisturbed(s, a, s', a', u)
    requires ProducerUndisturbed(s, a, s', a')
    ensures Good(s', a')
  {
    forall u | u in s'.consumers ensures ConsumerOk(s', a', u) {
      if u != t {
        assert ConsumerOk(s, a, u);
        ConsumerStays(s, a, s', a', u);
      }
    }
    ProducerStays(s, a, s', a');
    TailBlockStays(s, a, s', a');
  }

  // ---------- the lookup ----------

  /** A consumer that has just loaded the current header: it leads to all blocks the consumer needs. */
  lemma KeepLoadIndex(s: State, a: Aux, t: Tid)
    requires Good(s, a) && t in s.consumers && s.consumers[t].Busy? && s.consumers[t].at.LoadIndex?
    ensures ConsumerDefined(s, t) && Good(ConsumeStep(s, t), a)
  {
    assert ConsumerOk(s, a, t);
    var job := s.consumers[t].job;
    var c := Busy(job, LoadTail(BI.Last(s.ix)));
    forall b | Overlap(job.seg, job.end, b) > 0 ensures BI.Finds(s.ix, a.ia, BI.Last(s.ix), b) {
      NeededIsLive(s, a, t, b);
      BI.CurrentFinds(s.ix, a.ia, b);
    }
    KeepQuiet(s, a, t, c);
  }

  lemma KeepLoadTail(s: State, a: Aux, t: Tid)
    requires Good(s, a) && t in s.consumers && s.consumers[t].Busy? && s.consumers[t].at.LoadTail?
    ensures ConsumerDefined(s, t) && Good(ConsumeStep(s, t), a)
  {
    assert ConsumerOk(s, a, t);
    var job, h := s.consumers[t].job, s.consumers[t].at.h;
    NeededIsLive(s, a, t, job.seg / BLOCK_SIZE);
    BI.TailKeyIsBase(s.ix, a.ia, h, job.seg / BLOCK_SIZE);
    KeepQuiet(s, a, t, Busy(job, LoadKey(h, s.ix.headers[h].tail)));
  }

  /** The assertions of the lookup hold: the key at the tail is valid, and the entry at the computed slot has
      the block's base as its key and a block as its value. */
  lemma LookupHolds(s: State, a: Aux, t: Tid)
    requires Good(s, a) && t in s.consumers && s.consumers[t].Busy? && s.consumers[t].at.LoadKey?
    ensures ConsumerDefined(s, t)
    ensures var job, at := s.consumers[t].job, s.consumers[t].at;
      var key := s.ix.entries[BI.EntryAt(s.ix, at.h, at.tail)].key;
      && key.Base?
      && var slot := BI.LookupSlot(s.ix, at.h, at.tail, key.b, job.first / BLOCK_SIZE);
         var entry := s.ix.entries[BI.EntryAt(s.ix, at.h, slot)];
         && entry.key == BI.Base(job.first / BLOCK_SIZE) && entry.value.Ptr?
         && job.seg / BLOCK_SIZE == job.first / BLOCK_SIZE && slot == BI.SlotOf(s.ix, a.ia, at.h, job.first / BLOCK_SIZE)
  {
    assert ConsumerOk(s, a, t);
    var job, at := s.consumers[t].job, s.consumers[t].at;
    assert Overlap(job.seg, job.end, job.first / BLOCK_SIZE) > 0;
    assert BI.Finds(s.ix, a.ia, at.h, job.first / BLOCK_SIZE);
    BI.LookupIsRight(s.ix, a.ia, at.h, at.tail, job.first / BLOCK_SIZE);
  }

  lemma KeepLoadKey(s: State, a: Aux, t: Tid)
    requires Good(s, a) && t in s.consumers && s.consumers[t].Busy? && s.consumers[t].at.LoadKey?
    ensures ConsumerDefined(s, t) && Good(ConsumeStep(s, t), a)
  {
    assert ConsumerOk(s, a, t);
    LookupHolds(s, a, t);
    KeepQuiet(s, a, t, ConsumeStep(s, t).consumers[t]);
  }

  lemma KeepLoadBlock(s: State, a: Aux, t: Tid)
    requires Good(s, a) && t in s.consumers && s.consumers[t].Busy? && s.consumers[t].at.LoadBlock?
    ensures ConsumerDefined(s, t) && Good(ConsumeStep(s, t), a)
  {
    assert ConsumerOk(s, a, t);
    var job, at := s.consumers[t].job, s.consumers[t].at;
    var b := job.seg / BLOCK_SIZE;
    assert Overlap(job.seg, job.end, b) > 0;
    assert BI.Finds(s.ix, a.ia, at.h, b);
    assert BI.LiveOk(s.ix, a.ia, b);
    KeepQuiet(s, a, t, ConsumeStep(s, t).consumers[t]);
  }

  /** The element read is the one that was enqueued at that index. */
  lemma ReadIsRight(s: State, a: Aux, t: Tid)
    requires Good(s, a) && t in s.consumers && s.consumers[t].Busy? && s.consumers[t].at.Read?
    ensures ConsumerDefined(s, t)
    ensures var job, block := s.consumers[t].job, s.consumers[t].at.block;
      Pos(job) < |a.log| && s.blocks[block].elems[Pos(job) % BLOCK_SIZE] == a.log[Pos(job)]
  {
    assert ConsumerOk(s, a, t);
    var job := s.consumers[t].job;
    var b := job.seg / BLOCK_SIZE;
    assert LiveBlock(s, a, b);
    ReadElem(s, a, b, Pos(job));
  }

  lemma ReadElem(s: State, a: Aux, b: nat, x: nat)
    requires b in a.ia.live && LiveBlock(s, a, b) && BLOCK_SIZE * b <= x < BLOCK_SIZE * b + BLOCK_SIZE && x < s.tail
    ensures x % BLOCK_SIZE < BLOCK_SIZE && s.blocks[a.ia.live[b].block].elems[x % BLOCK_SIZE] == a.log[x]
  {
    InBlock(x, b);
  }

  lemma InBlock(x: nat, b: nat)
    requires BLOCK_SIZE * b <= x < BLOCK_SIZE * b + BLOCK_SIZE
    ensures x / BLOCK_SIZE == b && x % BLOCK_SIZE == x - BLOCK_SIZE * b
  {
  }

  function AfterRead(job: Job, at: At, elem: Elem): Consumer
    requires at.Read?
  {
    var job' := job.(out := job.out + [elem]);
    if Pos(job') == SegEnd(job) then Busy(job', CountDone(at.h, at.slot, at.e, at.block)) else Busy(job', at)
  }

  lemma AfterReadOk(s: State, a: Aux, t: Tid, c: Consumer)
    requires t in s.consumers && s.consumers[t].Busy? && s.consumers[t].at.Read? && ConsumerOk(s, a, t)
    requires Pos(s.consumers[t].job) < |a.log| && c == AfterRead(s.consumers[t].job, s.consumers[t].at, a.log[Pos(s.consumers[t].job)])
    ensures ConsumerOk(Con(s, t, c), a, t)
  {
    var job, h := s.consumers[t].job, s.consumers[t].at.h;
    assert a.log[job.first..Pos(job) + 1] == a.log[job.first..Pos(job)] + [a.log[Pos(job)]];
    assert Reaches(Con(s, t, c), a, h, c.job) by {
      assert Reaches(s, a, h, job);
    }
  }

  lemma KeepRead(s: State, a: Aux, t: Tid)
    requires Good(s, a) && t in s.consumers && s.consumers[t].Busy? && s.consumers[t].at.Read?
    ensures ConsumerDefined(s, t) && Good(ConsumeStep(s, t), a)
  {
    ReadIsRight(s, a, t);
    var c := AfterRead(s.consumers[t].job, s.consumers[t].at, a.log[Pos(s.consumers[t].job)]);
    AfterReadOk(s, a, t, c);
    KeepQuiet(s, a, t, c);
  }

  lemma KeepDone(s: State, a: Aux, t: Tid)
    requires Good(s, a) && t in s.consumers && s.consumers[t].Busy? && s.consumers[t].at.Done?
    ensures ConsumerDefined(s, t) && Good(ConsumeStep(s, t), a)
  {
    assert ConsumerOk(s, a, t);
    KeepQuiet(s, a, t, Idle);
  }
}
