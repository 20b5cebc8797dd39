/** The producer's steps that take, fill, publish and give back blocks keep the invariant. */
module ImplicitBulk {
  import opened ThreadSums
  import opened Ring
  import BI = BlockIndex
  import BIS = BlockIndexSteps
  import opened ImplicitQueue
  import opened ImplicitQueueInv
  import opened ImplicitConsumers
  import opened ImplicitProducer

  /** A step on one block that is not in the index before or after, or enters or leaves it: what it leaves alone. */
  ghost predicate OthersAlone(s: State, a: Aux, s': State, a': Aux, block: Block) {
    && s' == s.(ix := s'.ix, blocks := s'.blocks, pool := s'.pool, producer := s'.producer)
    && a' == a.(ia := a'.ia, owner := a'.owner) && a'.ia.base == a.ia.base
    && block in s'.blocks && block in a'.owner && |s'.blocks[block].elems| == BLOCK_SIZE
    && (forall x :: x != block ==> (x in s'.blocks <==> x in s.blocks))
    && (forall x :: x != block ==> (x in a'.owner <==> x in a.owner))
    && (forall x :: x != block ==> (x in s'.pool <==> x in s.pool))
    && (forall x :: x != block && x in s.blocks ==> s'.blocks[x] == s.blocks[x])
    && (forall x :: x != block && x in a.owner ==> a'.owner[x] == a.owner[x])
    && (forall x :: x != block && IsMine(s.producer, x) ==> IsMine(s'.producer, x))
    && (forall b :: b in a.ia.live && a.ia.live[b].block != block ==> b in a'.ia.live && a'.ia.live[b] == a.ia.live[b])
    && (forall b :: b in a'.ia.live && a'.ia.live[b].block != block ==> b in a.ia.live && a.ia.live[b] == a'.ia.live[b])
    && (block in s'.pool <==> a'.owner[block] == InPool) && block !in s'.other && !a'.owner[block].Lent?
    && OwnerOk(s', a', block)
  }

  lemma OneBlock(s: State, a: Aux, s': State, a': Aux, block: Block)
    requires BlocksOk(s, a) && OthersAlone(s, a, s', a', block)
    requires forall b :: b in a.ia.live && a.ia.live[b].block == block ==> b >= a.ia.base
    requires forall b :: b in a'.ia.live && a'.ia.live[b].block == block ==> LiveBlock(s', a', b)
    ensures BlocksOk(s', a')
  {
    forall b | b in a'.ia.live ensures LiveBlock(s', a', b) {
      assert a'.ia.live[b].block != block ==> LiveBlock(s, a, b);
    }
    forall b | 0 <= b < a'.ia.base && b !in a'.ia.live ensures DeadBlock(s', b) {
      assert DeadBlock(s, b);
    }
    forall x | x in s'.blocks ensures BlockOk(s', a', x) {
      assert x != block ==> BlockOk(s, a, x);
    }
  }

  lemma NotLive(s: State, a: Aux, block: Block)
    requires Inv(s, a) && (block !in s.blocks || block !in a.owner || a.owner[block].InPool? || a.owner[block].Mine?)
    ensures forall b :: b in a.ia.live ==> a.ia.live[b].block != block
  {
    forall b | b in a.ia.live ensures a.ia.live[b].block != block {
      assert LiveBlock(s, a, b);
    }
  }

  // ---------- taking a block ----------

  ghost predicate Takes(s: State, a: Aux, block: Block, s': State, a': Aux) {
    && s.producer.PTakeBlock? && (block in s.pool || block !in s.blocks)
    && s' == s.(pool := s.pool - {block},
                blocks := if block in s.blocks then s.blocks else s.blocks[block := Cell(seq(BLOCK_SIZE, _ => 0), 0)],
                producer := PReset(s.producer.items, s.producer.got, s.producer.e, block))
    && a' == a.(owner := a.owner[block := Mine])
  }

  lemma TakeAlone(s: State, a: Aux, block: Block, s': State, a': Aux)
    requires Takes(s, a, block, s', a') && (block in s.blocks ==> BlockOk(s, a, block)) && s.other <= s.blocks.Keys
    ensures OthersAlone(s, a, s', a', block)
  {
  }

  lemma TakeProducer(s: State, a: Aux, block: Block, s': State, a': Aux)
    requires Takes(s, a, block, s', a') && ProducerOk(s, a) && TailBlockOk(s, a)
    ensures ProducerOk(s', a') && TailBlockOk(s', a')
  {
    GotMoves(a, a', s.producer.got, 0);
  }

  lemma KeepTake(s: State, a: Aux, block: Block) returns (a': Aux)
    requires Good(s, a) && s.producer.PTakeBlock? && ProducerDefined(s, Take(block))
    ensures a'.log == a.log && Good(ProduceStep(s, Take(block)), a')
  {
    a' := a.(owner := a.owner[block := Mine]);
    var s' := ProduceStep(s, Take(block));
    assert block in s.blocks ==> BlockOk(s, a, block);
    NotLive(s, a, block);
    assert Takes(s, a, block, s', a');
    TakeAlone(s, a, block, s', a');
    OneBlock(s, a, s', a', block);
    TakeProducer(s, a, block, s', a');
    PoolDisturbsNobody(s, a, s', a', block);
    KeepProduced(s, a, s', a');
  }

  /** Consumers do not notice a block that is neither in the index nor in their hands. */
  lemma PoolDisturbsNobody(s: State, a: Aux, s': State, a': Aux, block: Block)
    requires Good(s, a) && s' == s.(blocks := s'.blocks, pool := s'.pool, producer := s'.producer)
    requires a' == a.(owner := a'.owner) && (forall x :: x in a.owner && x != block ==> x in a'.owner && a'.owner[x] == a.owner[x])
    requires block in a.owner ==> !a.owner[block].Emptying? && !a.owner[block].Freeing?
    ensures ConsumersUndisturbed(s, a, s', a')
  {
    NothingExtends(s, a);
  }

  ghost predicate Resets(s: State, s': State) {
    && s.producer.PReset? && s.producer.block in s.blocks
    && s' == s.(blocks := s.blocks[s.producer.block := Cell(s.blocks[s.producer.block].elems, 0)],
                producer := PStoreBlock(s.producer.items, s.producer.got, s.producer.e, s.producer.block))
  }

  lemma ResetAlone(s: State, a: Aux, s': State)
    requires Resets(s, s') && BlockOk(s, a, s.producer.block) && a.owner[s.producer.block] == Mine
    ensures OthersAlone(s, a, s', a, s.producer.block)
  {
  }

  lemma KeepReset(s: State, a: Aux, choice: Choice)
    requires Good(s, a) && s.producer.PReset? && ProducerDefined(s, choice)
    ensures Good(ProduceStep(s, choice), a)
  {
    var s', block := ProduceStep(s, choice), s.producer.block;
    assert BlockOk(s, a, block);
    NotLive(s, a, block);
    assert Resets(s, s');
    ResetAlone(s, a, s');
    OneBlock(s, a, s', a, block);
    PoolDisturbsNobody(s, a, s', a, block);
    KeepProduced(s, a, s', a);
  }

  // ---------- inserting it ----------

  /** Nobody holds an index that is not below the tail. */
  lemma NotYetHeld(s: State, a: Aux, b: int)
    requires Inv(s, a) && b >= a.ia.base
    ensures Held(s.consumers, b) == 0 && Ungranted(s.head, b) == BLOCK_SIZE
  {
    forall t | t in s.consumers ensures HeldWeight(b)(s.consumers[t]) == 0 {
      assert ConsumerOk(s, a, t);
    }
    SumZero(s.consumers, HeldWeight(b));
  }

  lemma GotGrows(a: Aux, a': Aux, got: seq<Block>, block: Block, loc: BI.Location)
    requires GotLive(a, got, 0) && forall b :: b in a.ia.live ==> a.ia.live[b].block != block
    requires loc.block == block && a'.ia.base == a.ia.base && a'.ia.live == a.ia.live[a.ia.base + |got| := loc]
    ensures GotLive(a', got + [block], 0)
  {
    forall k: nat | k < |got| + 1 ensures GotAt(a', got + [block], k) && (k < |got| ==> got[k] != block) {
      assert k < |got| ==> GotAt(a, got, k);
    }
  }

  ghost predicate Stores(s: State, a: Aux, s': State, a': Aux) {
    && s.producer.PStoreBlock?
    && s' == s.(ix := s'.ix, producer := PInsert(s.producer.items, s.producer.got + [s.producer.block]))
    && var b := a.ia.base + |s.producer.got|;
       && a' == a.(ia := a'.ia, owner := a.owner[s.producer.block := Indexed(b)])
       && a'.ia == a.ia.(open := BI.Closed, live := a'.ia.live) && b !in a.ia.live
       && b in a'.ia.live && a'.ia.live == a.ia.live[b := a'.ia.live[b]] && a'.ia.live[b].block == s.producer.block
  }

  lemma StoreAlone(s: State, a: Aux, s': State, a': Aux)
    requires Stores(s, a, s', a') && s.producer.block in s.blocks && BlockOk(s, a, s.producer.block) && ProducerOk(s, a)
    ensures OthersAlone(s, a, s', a', s.producer.block)
  {
  }

  lemma StoreLive(s: State, a: Aux, s': State, a': Aux)
    requires Stores(s, a, s', a') && Inv(s, a)
    ensures LiveBlock(s', a', a.ia.base + |s.producer.got|)
  {
    NotYetHeld(s, a, a.ia.base + |s.producer.got|);
  }

  lemma StoreConsumers(s: State, a: Aux, s': State, a': Aux)
    requires Stores(s, a, s', a') && s.head <= s.tail == |a.log| && BI.Shape(s'.ix) && BIS.Extends(s.ix, a.ia, s'.ix, a'.ia)
    requires ProducerOk(s, a)
    ensures ConsumersUndisturbed(s, a, s', a')
  {
  }

  lemma StoreProducer(s: State, a: Aux, s': State, a': Aux)
    requires Stores(s, a, s', a') && ProducerOk(s, a) && TailBlockOk(s, a)
    requires forall b :: b in a.ia.live ==> a.ia.live[b].block != s.producer.block
    ensures ProducerOk(s', a') && TailBlockOk(s', a')
  {
    var got, block := s.producer.got, s.producer.block;
    assert Inserting(s, a, s.producer.items, got, |got| + 1, BI.Placed(s.producer.e));
    GotGrows(a, a', got, block, a'.ia.live[a.ia.base + |got|]);
  }

  lemma StoreBlocks(s: State, a: Aux, s': State, a': Aux)
    requires Stores(s, a, s', a') && BlocksOk(s, a) && OthersAlone(s, a, s', a', s.producer.block)
    requires forall b :: b in a.ia.live ==> a.ia.live[b].block != s.producer.block
    requires LiveBlock(s', a', a.ia.base + |s.producer.got|)
    ensures BlocksOk(s', a')
  {
    hide LiveBlock, BlockOk, OwnerOk;
    OneBlock(s, a, s', a', s.producer.block);
  }

  lemma KeepStores(s: State, a: Aux, s': State, a': Aux)
    requires Inv(s, a) && BI.Shape(s.ix) && Stores(s, a, s', a') && BI.Inv(s'.ix, a'.ia) && BIS.Extends(s.ix, a.ia, s'.ix, a'.ia)
    requires s.producer.block in s.blocks
    ensures BlocksOk(s', a') && ProducerOk(s', a') && TailBlockOk(s', a') && ConsumersUndisturbed(s, a, s', a')
  {
    hide BI.KeysOk, BI.SharingOk, BI.ContentOk, BI.OpenOk, BI.PeakOk, BIS.Extends, ConsumerOk;
    assert BlockOk(s, a, s.producer.block);
    NotLive(s, a, s.producer.block);
    hide BlocksOk, BlockOk, LiveBlock;
    StoreAlone(s, a, s', a');
    StoreLive(s, a, s', a');
    StoreBlocks(s, a, s', a');
    StoreProducer(s, a, s', a');
    StoreConsumers(s, a, s', a');
  }

  lemma KeepStore(s: State, a: Aux, choice: Choice) returns (a': Aux)
    requires Good(s, a) && s.producer.PStoreBlock? && ProducerDefined(s, choice)
    ensures a'.log == a.log && Good(ProduceStep(s, choice), a')
  {
    hide BI.KeysOk, BI.SharingOk, BI.ContentOk, BI.OpenOk, BI.PeakOk, BIS.Extends, BlocksOk, ConsumerOk, TailBlockOk;
    var ia := BIS.KeepStoreBlock(s.ix, a.ia, s.producer.block);
    a' := a.(ia := ia, owner := a.owner[s.producer.block := Indexed(a.ia.next - 1)]);
    KeepStores(s, a, ProduceStep(s, choice), a');
    KeepProduced(s, a, ProduceStep(s, choice), a');
  }

  // ---------- undoing ----------

  /** While the tail is ahead of the last commit, the key at it is the base of the block before it. */
  lemma TailKeyIsLast(ix: BI.Index, ia: BI.Aux)
    requires BI.Inv(ix, ia) && ia.base < ia.next
    ensures BI.HeaderOk(ix, BI.Last(ix))
    ensures ix.entries[BI.EntryAt(ix, BI.Last(ix), BI.Current(ix).tail)].key == BI.Base(ia.next - 1)
  {
    var last, cap, tail := BI.Last(ix), BI.Current(ix).capacity, BI.Current(ix).tail;
    assert BI.HeaderOk(ix, last);
    WrapTogether(ia.next - ia.shift[last], tail + 1, -1, cap);
    assert BI.SlotOf(ix, ia, last, ia.next - 1) == tail;
  }

  /** The producer's own lookup leads to the block to be undone. */
  lemma UndoFindsEntry(s: State, a: Aux)
    requires BI.Inv(s.ix, a.ia) && ProducerOk(s, a) && a.ia.base == BlocksFor(s.tail)
    requires s.producer.PUndoClear? && s.producer.k < |s.producer.got|
    ensures TailKey(s).Base? && GotAt(a, s.producer.got, s.producer.k)
    ensures var b := a.ia.base + s.producer.k;
      b in a.ia.live && a.ia.live[b] == BI.Location(UndoEntry(s, s.producer.k), s.producer.got[s.producer.k])
  {
    var b := a.ia.base + s.producer.k;
    assert GotAt(a, s.producer.got, s.producer.k);
    TailKeyIsLast(s.ix, a.ia);
    BI.CurrentFinds(s.ix, a.ia, b);
    BI.LookupIsRight(s.ix, a.ia, BI.Last(s.ix), BI.Current(s.ix).tail, b);
  }

  ghost predicate Undoes(s: State, a: Aux, s': State, a': Aux) {
    && s.producer.PUndoClear? && s.producer.k < |s.producer.got|
    && var got, k := s.producer.got, s.producer.k;
       && s' == s.(ix := s'.ix, producer := PUndoRewind(got, k))
       && a' == a.(ia := a.ia.(live := a.ia.live - {a.ia.base + k}), owner := a.owner[got[k] := Mine])
  }

  lemma UndoAlone(s: State, a: Aux, s': State, a': Aux)
    requires Undoes(s, a, s', a')
    requires var block := s.producer.got[s.producer.k];
      && a.ia.base + s.producer.k in a.ia.live && a.ia.live[a.ia.base + s.producer.k].block == block
      && block in s.blocks && BlockOk(s, a, block) && a.owner[block].Indexed?
      && forall x :: x in a.ia.live && a.ia.live[x].block == block ==> x == a.ia.base + s.producer.k
    ensures OthersAlone(s, a, s', a', s.producer.got[s.producer.k])
  {
  }

  /** The block to be undone is still untouched by consumers. */
  lemma UndoBlock(s: State, a: Aux, b: int)
    requires Inv(s, a) && b in a.ia.live && b >= a.ia.base
    ensures var block := a.ia.live[b].block;
      && block in s.blocks && BlockOk(s, a, block) && a.owner[block] == Indexed(b)
      && forall x :: x in a.ia.live && a.ia.live[x].block == block ==> x == b
  {
    NotYetHeld(s, a, b);
    var block := a.ia.live[b].block;
    assert LiveBlock(s, a, b) && BlockOk(s, a, block);
    forall x | x in a.ia.live && a.ia.live[x].block == block ensures x == b {
      assert LiveBlock(s, a, x);
    }
  }

  lemma UndoConsumers(s: State, a: Aux, s': State, a': Aux)
    requires Undoes(s, a, s', a') && s.head <= s.tail == |a.log| && BI.Shape(s'.ix) && BIS.Extends(s.ix, a.ia, s'.ix, a'.ia)
    requires var block := s.producer.got[s.producer.k]; block in a.owner && a.owner[block].Indexed?
    ensures ConsumersUndisturbed(s, a, s', a')
  {
  }

  lemma UndoProducer(s: State, a: Aux, s': State, a': Aux)
    requires Undoes(s, a, s', a') && ProducerOk(s, a) && TailBlockOk(s, a)
    ensures ProducerOk(s', a') && TailBlockOk(s', a')
  {
    UndoneMoves(a, a', s.producer.got, s.producer.k);
  }

  lemma KeepUndoes(s: State, a: Aux, s': State, a': Aux)
    requires BI.Shape(s.ix) && Inv(s, a) && Undoes(s, a, s', a') && BI.Inv(s'.ix, a'.ia) && BIS.Extends(s.ix, a.ia, s'.ix, a'.ia)
    requires GotAt(a, s.producer.got, s.producer.k)
    ensures BI.Inv(s'.ix, a'.ia) && BlocksOk(s', a') && ProducerOk(s', a') && TailBlockOk(s', a') && ConsumersUndisturbed(s, a, s', a')
  {
    hide BI.KeysOk, BI.SharingOk, BI.ContentOk, BI.OpenOk, BI.PeakOk, BIS.Extends, ConsumerOk, BlocksOk, BlockOk, LiveBlock, OthersAlone;
    UndoBlock(s, a, a.ia.base + s.producer.k);
    UndoAlone(s, a, s', a');
    OneBlock(s, a, s', a', s.producer.got[s.producer.k]);
    UndoProducer(s, a, s', a');
    UndoConsumers(s, a, s', a');
  }

  lemma KeepUndoClear(s: State, a: Aux, choice: Choice) returns (a': Aux)
    requires Good(s, a) && s.producer.PUndoClear? && s.producer.k < |s.producer.got| && ProducerDefined(s, choice)
    ensures a'.log == a.log && Good(ProduceStep(s, choice), a')
  {
    UndoFindsEntry(s, a);
    var ix, ia := UndoIndex(s, a);
    var s';
    s', a' := UndoStep(s, a, ix, ia, choice);
    KeepUndoGood(s, a, s', a');
  }

  lemma UndoIndex(s: State, a: Aux) returns (ix: BI.Index, ia: BI.Aux)
    requires BI.Inv(s.ix, a.ia) && a.ia.open.Undoing? && s.producer.PUndoClear? && TailKey(s).Base?
    requires var b := a.ia.base + s.producer.k; b in a.ia.live && a.ia.live[b].entry == UndoEntry(s, s.producer.k)
    ensures ix == BI.StoreValue(s.ix, UndoEntry(s, s.producer.k), BI.Null)
    ensures ia == a.ia.(live := a.ia.live - {a.ia.base + s.producer.k}) && BI.Inv(ix, ia) && BIS.Extends(s.ix, a.ia, ix, ia)
  {
    ia := BIS.KeepClearLive(s.ix, a.ia, a.ia.base + s.producer.k);
    ix := BI.StoreValue(s.ix, UndoEntry(s, s.producer.k), BI.Null);
  }

  lemma KeepUndoGood(s: State, a: Aux, s': State, a': Aux)
    requires Good(s, a) && Undoes(s, a, s', a') && BI.Inv(s'.ix, a'.ia) && BIS.Extends(s.ix, a.ia, s'.ix, a'.ia)
    requires GotAt(a, s.producer.got, s.producer.k)
    ensures Good(s', a')
  {
    KeepUndoes(s, a, s', a');
    KeepProduced(s, a, s', a');
  }

  lemma UndoStep(s: State, a: Aux, ix: BI.Index, ia: BI.Aux, choice: Choice) returns (s': State, a': Aux)
    requires s.producer.PUndoClear? && s.producer.k < |s.producer.got| && ProducerDefined(s, choice)
    requires ix == BI.StoreValue(s.ix, UndoEntry(s, s.producer.k), BI.Null)
    requires ia == a.ia.(live := a.ia.live - {a.ia.base + s.producer.k})
    ensures a'.log == a.log && a'.ia == ia && s'.ix == ix && Undoes(s, a, s', a') && s' == ProduceStep(s, choice)
  {
    s' := s.(ix := ix, producer := PUndoRewind(s.producer.got, s.producer.k));
    a' := a.(ia := ia, owner := a.owner[s.producer.got[s.producer.k] := Mine]);
  }

  lemma UndoneMoves(a: Aux, a': Aux, got: seq<Block>, k: nat)
    requires k < |got| && UndoOk(a, got, k, |got| - k)
    requires a'.ia == a.ia.(live := a.ia.live - {a.ia.base + k}) && a'.owner == a.owner[got[k] := Mine]
    ensures UndoOk(a', got, k + 1, |got| - k)
  {
    forall i: nat | k < i < |got| ensures GotAt(a', got, i) {
      assert GotAt(a, got, i);
    }
  }

  ghost predicate Frees(s: State, a: Aux, s': State, a': Aux) {
    && s.producer.PUndoFree? && s.producer.k < |s.producer.got|
    && var got, k := s.producer.got, s.producer.k;
       && s' == s.(pool := s.pool + {got[k]}, producer := PUndoFree(got, k + 1))
       && a' == a.(owner := a.owner[got[k] := InPool])
  }

  lemma FreeAlone(s: State, a: Aux, s': State, a': Aux)
    requires Frees(s, a, s', a') && ProducerOk(s, a)
    requires s.producer.got[s.producer.k] in s.blocks && BlockOk(s, a, s.producer.got[s.producer.k])
    ensures OthersAlone(s, a, s', a', s.producer.got[s.producer.k])
  {
  }

  lemma FreeProducer(s: State, a: Aux, s': State, a': Aux)
    requires Frees(s, a, s', a') && ProducerOk(s, a) && TailBlockOk(s, a)
    ensures ProducerOk(s', a') && TailBlockOk(s', a')
  {
  }

  /** The blocks go back to the pool, each once. */
  lemma KeepUndoFree(s: State, a: Aux, choice: Choice) returns (a': Aux)
    requires Good(s, a) && s.producer.PUndoFree? && s.producer.k < |s.producer.got| && ProducerDefined(s, choice)
    ensures s.producer.got[s.producer.k] !in s.pool
    ensures a'.log == a.log && Good(ProduceStep(s, choice), a')
  {
    hide BI.KeysOk, BI.SharingOk, BI.ContentOk, BI.PeakOk, BI.OpenOk;
    var s', block := ProduceStep(s, choice), s.producer.got[s.producer.k];
    a' := a.(owner := a.owner[block := InPool]);
    assert BlockOk(s, a, block);
    NotLive(s, a, block);
    assert Frees(s, a, s', a');
    FreeAlone(s, a, s', a');
    OneBlock(s, a, s', a', block);
    FreeProducer(s, a, s', a');
    PoolDisturbsNobody(s, a, s', a', block);
    KeepProduced(s, a, s', a');
  }
}
