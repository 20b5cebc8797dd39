/** Writing the elements and publishing the new tail keep the invariant. */
module ImplicitPublish {
  import opened ThreadSums
  import BI = BlockIndex
  import BIS = BlockIndexSteps
  import opened ImplicitQueue
  import opened ImplicitQueueInv
  import opened ImplicitConsumers
  import opened ImplicitProducer

  // ---------- writing ----------

  predicate Writing(s: State) { s.producer.PWrite? && s.producer.j < |s.producer.items| }

  /** The block that the next element goes to. */
  function WriteBase(s: State): nat
    requires Writing(s)
  {
    (s.tail + s.producer.j) / BLOCK_SIZE
  }

  lemma BlockRange(tail: nat, count: nat, j: nat)
    requires j < count
    ensures var b := (tail + j) / BLOCK_SIZE;
      && BlocksFor(tail) - 1 <= b < BlocksFor(tail) + Needed(tail, count)
      && (b < BlocksFor(tail) ==> tail % BLOCK_SIZE != 0)
  {
  }

  /** The producer walks along the chain of blocks it inserted; each element goes where the index says it is. */
  lemma WriteBlockIsIndexed(s: State, a: Aux)
    requires Inv(s, a) && Writing(s)
    ensures var b := WriteBase(s);
      b in a.ia.live && WriteBlock(s, s.producer.got, s.tail + s.producer.j) == Some(a.ia.live[b].block)
  {
    hide BlocksOk, ConsumerOk;
    var got, b := s.producer.got, WriteBase(s);
    BlockRange(s.tail, |s.producer.items|, s.producer.j);
    if b >= a.ia.base {
      assert GotAt(a, got, b - a.ia.base);
    }
  }

  ghost predicate Writes(s: State, a: Aux, s': State) {
    && Writing(s)
    && var y, items, j, b := s.tail + s.producer.j, s.producer.items, s.producer.j, WriteBase(s);
       && b in a.ia.live && a.ia.live[b].block in s.blocks && |s.blocks[a.ia.live[b].block].elems| == BLOCK_SIZE
       && var block := a.ia.live[b].block;
          var cell := s.blocks[block];
          s' == s.(blocks := s.blocks[block := Cell(cell.elems[y % BLOCK_SIZE := items[j]], cell.done)],
                   producer := PWrite(items, s.producer.got, j + 1))
  }

  lemma InBlockOf(y: nat)
    ensures y / BLOCK_SIZE * BLOCK_SIZE <= y < y / BLOCK_SIZE * BLOCK_SIZE + BLOCK_SIZE
    ensures y % BLOCK_SIZE == y - BLOCK_SIZE * (y / BLOCK_SIZE)
  {
  }

  lemma WriteLive(s: State, a: Aux, s': State, x: int)
    requires Writes(s, a, s') && x in a.ia.live && LiveBlock(s, a, x) && LiveBlock(s, a, WriteBase(s))
    ensures LiveBlock(s', a, x)
  {
    InBlockOf(s.tail + s.producer.j);
  }

  lemma WriteBlocks(s: State, a: Aux, s': State)
    requires Writes(s, a, s') && BlocksOk(s, a)
    ensures BlocksOk(s', a)
  {
    assert LiveBlock(s, a, WriteBase(s));
    forall x | x in a.ia.live ensures LiveBlock(s', a, x) {
      assert LiveBlock(s, a, x);
      WriteLive(s, a, s', x);
    }
    forall x | 0 <= x < a.ia.base && x !in a.ia.live ensures DeadBlock(s', x) {
      assert DeadBlock(s, x);
    }
    forall block | block in s'.blocks ensures BlockOk(s', a, block) {
      assert BlockOk(s, a, block);
    }
  }

  lemma WriteKeepsWritten(s: State, a: Aux, s': State, i: nat)
    requires Writes(s, a, s') && i <= s.producer.j && (i < s.producer.j ==> WrittenAt(s, a, s.producer.items, i))
    requires LiveBlock(s, a, WriteBase(s)) && (i < s.producer.j ==> LiveBlock(s, a, (s.tail + i) / BLOCK_SIZE))
    ensures WrittenAt(s', a, s.producer.items, i)
  {
    InBlockOf(s.tail + s.producer.j);
    InBlockOf(s.tail + i);
  }

  lemma WriteWritten(s: State, a: Aux, s': State)
    requires Writes(s, a, s') && BlocksOk(s, a) && Written(s, a, s.producer.items, s.producer.j)
    ensures Written(s', a, s.producer.items, s.producer.j + 1)
  {
    var items, j := s.producer.items, s.producer.j;
    assert LiveBlock(s, a, WriteBase(s));
    forall i: nat | i < j + 1 ensures WrittenAt(s', a, items, i) {
      assert i < j ==> WrittenAt(s, a, items, i);
      assert i < j ==> LiveBlock(s, a, (s.tail + i) / BLOCK_SIZE);
      WriteKeepsWritten(s, a, s', i);
    }
  }

  lemma WriteProducer(s: State, a: Aux, s': State)
    requires Writes(s, a, s') && BlocksOk(s, a) && ProducerOk(s, a)
    ensures ProducerOk(s', a)
  {
    assert Written(s, a, s.producer.items, s.producer.j);
    WriteWritten(s, a, s');
  }

  lemma KeepWrites(s: State, a: Aux, s': State)
    requires Inv(s, a) && BI.Shape(s.ix) && |a.ia.shift| == |s.ix.headers| && Writes(s, a, s')
    ensures BlocksOk(s', a) && ProducerOk(s', a) && TailBlockOk(s', a) && ConsumersUndisturbed(s, a, s', a)
  {
    hide BlocksOk, ProducerOk;
    WriteBlocks(s, a, s');
    WriteProducer(s, a, s');
    NothingExtends(s, a);
  }

  lemma WriteStep(s: State, a: Aux, choice: Choice)
    requires Inv(s, a) && Writing(s) && ProducerDefined(s, choice)
    ensures Writes(s, a, ProduceStep(s, choice))
  {
    hide ConsumerOk, ProducerOk, TailBlockOk, BlockOk;
    WriteBlockIsIndexed(s, a);
    assert LiveBlock(s, a, WriteBase(s));
  }

  lemma KeepWrite(s: State, a: Aux, choice: Choice)
    requires Good(s, a) && Writing(s) && ProducerDefined(s, choice)
    ensures Good(ProduceStep(s, choice), a)
  {
    var s' := ProduceStep(s, choice);
    WriteStep(s, a, choice);
    KeepWrites(s, a, s');
    KeepProduced(s, a, s', a);
  }

  // ---------- publishing ----------

  ghost predicate Publishes(s: State, a: Aux, s': State, a': Aux) {
    && s.producer.PWrite? && s.producer.j >= |s.producer.items|
    && var items, got := s.producer.items, s.producer.got;
       && s' == s.(tail := s.tail + |items|, tailBlock := if got == [] then s.tailBlock else Some(got[|got| - 1]), producer := PIdle)
       && a' == a.(ia := a.ia.(base := a.ia.next), log := a.log + items)
  }

  lemma PublishLive(s: State, a: Aux, s': State, a': Aux, b: int)
    requires Publishes(s, a, s', a') && ProducerOk(s, a) && b in a.ia.live && LiveBlock(s, a, b)
    ensures LiveBlock(s', a', b)
  {
    var cell := s.blocks[a.ia.live[b].block];
    forall y | BLOCK_SIZE * b <= y < BLOCK_SIZE * b + BLOCK_SIZE && 0 <= y < s'.tail
      ensures cell.elems[y - BLOCK_SIZE * b] == a'.log[y]
    {
      if y >= s.tail {
        assert Written(s, a, s.producer.items, s.producer.j);
        assert WrittenAt(s, a, s.producer.items, y - s.tail);
        InBlock(y, b);
      }
    }
  }

  lemma PublishBlocks(s: State, a: Aux, s': State, a': Aux)
    requires Publishes(s, a, s', a') && ProducerOk(s, a) && BlocksOk(s, a)
    ensures BlocksOk(s', a')
  {
    forall b | b in a'.ia.live ensures LiveBlock(s', a', b) {
      PublishLive(s, a, s', a', b);
    }
    forall b | 0 <= b < a'.ia.base && b !in a'.ia.live ensures DeadBlock(s', b) {
      assert b >= a.ia.base ==> GotAt(a, s.producer.got, b - a.ia.base);
      assert DeadBlock(s, b);
    }
    forall block | block in s'.blocks ensures BlockOk(s', a', block) {
      assert BlockOk(s, a, block);
    }
  }

  lemma PublishTail(s: State, a: Aux, s': State, a': Aux)
    requires Publishes(s, a, s', a') && ProducerOk(s, a) && TailBlockOk(s, a) && a.ia.base == BlocksFor(s.tail)
    ensures a'.ia.base == BlocksFor(s'.tail) && TailBlockOk(s', a') && ProducerOk(s', a')
  {
    var got := s.producer.got;
    assert |got| == Needed(s.tail, |s.producer.items|);
    if got != [] {
      assert GotAt(a, got, |got| - 1);
    }
  }

  /** The whole call takes effect at once. */
  lemma KeepPublish(s: State, a: Aux, choice: Choice) returns (a': Aux)
    requires Good(s, a) && s.producer.PWrite? && s.producer.j >= |s.producer.items| && ProducerDefined(s, choice)
    ensures a'.log == a.log + s.producer.items && Good(ProduceStep(s, choice), a')
  {
    hide BI.KeysOk, BI.SharingOk, BI.ContentOk, BI.PeakOk, BlocksOk, ConsumerOk;
    var s' := ProduceStep(s, choice);
    a' := a.(ia := a.ia.(base := a.ia.next), log := a.log + s.producer.items);
    assert Publishes(s, a, s', a');
    BIS.KeepMode(s.ix, a.ia, a'.ia);
    PublishBlocks(s, a, s', a');
    PublishTail(s, a, s', a');
    NothingExtends(s, a);
    KeepProduced(s, a, s', a');
  }
}
