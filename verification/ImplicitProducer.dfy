/** The producer's steps that insert blocks into the index, or take them out again, keep the invariant. */
module ImplicitProducer {
  import opened ThreadSums
  import BI = BlockIndex
  import BIS = BlockIndexSteps
  import opened ImplicitQueue
  import opened ImplicitQueueInv
  import opened ImplicitConsumers
  import opened ImplicitRelease

  /** A step of the producer, as far as the consumers can tell. */
  ghost predicate ConsumersUndisturbed(s: State, a: Aux, s': State, a': Aux) {
    && s'.consumers == s.consumers && s'.head == s.head <= s.tail <= s'.tail == |a'.log|
    && |a.log| <= |a'.log| && a'.log[..|a.log|] == a.log
    && BI.Shape(s'.ix) && BIS.Extends(s.ix, a.ia, s'.ix, a'.ia)
    && (forall b :: b in a.ia.live && b < a.ia.base ==> b in a'.ia.live && a'.ia.live[b] == a.ia.live[b])
    && (forall block :: block in a.owner && (a.owner[block].Emptying? || a.owner[block].Freeing?) ==>
          block in a'.owner && a'.owner[block] == a.owner[block])
  }

  lemma ConsumerKeeps(s: State, a: Aux, s': State, a': Aux, u: Tid)
    requires Good(s, a) && ConsumersUndisturbed(s, a, s', a') && u in s.consumers
    ensures ConsumerOk(s', a', u)
  {
    hide BI.KeysOk, BI.SharingOk, BI.ContentOk, BI.PeakOk, BI.OpenOk;
    assert ConsumerOk(s, a, u);
    forall b | Uses(s.consumers[u], b) ensures b < a.ia.base {
      if Overlap(s.consumers[u].job.seg, s.consumers[u].job.end, b) > 0 {
        NeededIsLive(s, a, u, b);
      } else {
        var c := ClearIsSafe(s, a, u);
      }
    }
    ConsumerStays(s, a, s', a', u);
  }

  lemma KeepProduced(s: State, a: Aux, s': State, a': Aux)
    requires Good(s, a) && ConsumersUndisturbed(s, a, s', a')
    requires BI.Inv(s'.ix, a'.ia) && a'.ia.base == BlocksFor(s'.tail)
    requires BlocksOk(s', a') && ProducerOk(s', a') && TailBlockOk(s', a')
    ensures Good(s', a')
  {
    forall u | u in s'.consumers ensures ConsumerOk(s', a', u) {
      ConsumerKeeps(s, a, s', a', u);
    }
  }

  // ---------- steps that change the index only ----------

  ghost predicate IndexOnly(s: State, a: Aux, s': State, a': Aux) {
    && s' == s.(ix := s'.ix, producer := s'.producer)
    && a' == a.(ia := a'.ia) && a'.ia.live == a.ia.live && a'.ia.base == a.ia.base
    && BI.Inv(s'.ix, a'.ia) && BIS.Extends(s.ix, a.ia, s'.ix, a'.ia)
    && forall block :: IsMine(s.producer, block) ==> IsMine(s'.producer, block)
  }

  lemma IndexOnlyBlocks(s: State, a: Aux, s': State, a': Aux)
    requires BlocksOk(s, a) && IndexOnly(s, a, s', a')
    ensures BlocksOk(s', a')
  {
    forall b | b in a'.ia.live ensures LiveBlock(s', a', b) {
      assert LiveBlock(s, a, b);
    }
    forall b | 0 <= b < a'.ia.base && b !in a'.ia.live ensures DeadBlock(s', b) {
      assert DeadBlock(s, b);
    }
    forall block | block in s'.blocks ensures BlockOk(s', a', block) {
      assert BlockOk(s, a, block);
    }
  }

  lemma KeepIndexOnly(s: State, a: Aux, s': State, a': Aux)
    requires Good(s, a) && IndexOnly(s, a, s', a') && ProducerOk(s', a')
    ensures Good(s', a')
  {
    hide BlocksOk, ProducerOk, ConsumerOk, BIS.Extends;
    IndexOnlyBlocks(s, a, s', a');
    KeepProduced(s, a, s', a');
  }

  lemma GotMoves(a: Aux, a': Aux, got: seq<Block>, lo: nat)
    requires a'.ia.live == a.ia.live && a'.ia.base == a.ia.base && GotLive(a, got, lo)
    ensures GotLive(a', got, lo)
  {
    forall k: nat | lo <= k < |got| ensures GotAt(a', got, k) {
      assert GotAt(a, got, k);
    }
  }

  /** The producer finds a slot, finds the ring full, gives up, or has all the blocks it needs. */
  lemma KeepInsert(s: State, a: Aux, choice: Choice) returns (a': Aux)
    requires Good(s, a) && s.producer.PInsert? && ProducerDefined(s, choice)
    ensures a'.log == a.log && Good(ProduceStep(s, choice), a')
  {
    hide BI.KeysOk, BI.SharingOk, BI.ContentOk, BI.PeakOk, ConsumerOk, LiveBlock, BlockOk, ProduceStep;
    var e := BI.EntryAt(s.ix, BI.Last(s.ix), BI.NewTail(s.ix));
    if |s.producer.got| >= Needed(s.tail, |s.producer.items|) {
      KeepInserted(s, a, choice);
      a' := a;
    } else if choice.Fail? {
      a' := a.(ia := a.ia.(open := BI.Undoing));
      BIS.KeepMode(s.ix, a.ia, a'.ia);
      KeepTested(s, a, choice, a'.ia);
    } else if BI.Free(s.ix.entries[e]) {
      a' := a.(ia := a.ia.(open := BI.Chosen(e)));
      BIS.KeepMode(s.ix, a.ia, a'.ia);
      KeepTested(s, a, choice, a'.ia);
    } else {
      a' := a.(ia := a.ia.(open := BI.Full));
      BIS.KeepFull(s.ix, a.ia);
      KeepTested(s, a, choice, a'.ia);
    }
  }

  /** The test of the slot behind the tail changes nothing but what the producer is up to. */
  lemma KeepTested(s: State, a: Aux, choice: Choice, ia: BI.Aux)
    requires Good(s, a) && s.producer.PInsert? && ProducerDefined(s, choice)
    requires |s.producer.got| < Needed(s.tail, |s.producer.items|) && BI.Inv(s.ix, ia)
    requires var e := BI.EntryAt(s.ix, BI.Last(s.ix), BI.NewTail(s.ix));
      ia == a.ia.(open := if choice.Fail? then BI.Undoing else if BI.Free(s.ix.entries[e]) then BI.Chosen(e) else BI.Full)
    ensures Good(ProduceStep(s, choice), a.(ia := ia))
  {
    hide BI.KeysOk, BI.SharingOk, BI.ContentOk, BI.PeakOk, ConsumerOk, LiveBlock, BlockOk;
    NothingExtends(s, a);
    GotMoves(a, a.(ia := ia), s.producer.got, 0);
    KeepIndexOnly(s, a, ProduceStep(s, choice), a.(ia := ia));
  }

  lemma KeepInserted(s: State, a: Aux, choice: Choice)
    requires Good(s, a) && s.producer.PInsert? && ProducerDefined(s, choice)
    requires |s.producer.got| >= Needed(s.tail, |s.producer.items|)
    ensures Good(ProduceStep(s, choice), a)
  {
    hide BI.KeysOk, BI.SharingOk, BI.ContentOk, BI.PeakOk, ConsumerOk, LiveBlock, BlockOk;
    NothingExtends(s, a);
    GotMoves(a, a, s.producer.got, 0);
    KeepIndexOnly(s, a, ProduceStep(s, choice), a);
  }

  /** Between the test of the slot and the new header, consumers may have cleared entries. */
  lemma KeepGrow(s: State, a: Aux, choice: Choice) returns (a': Aux)
    requires Good(s, a) && s.producer.PGrow? && ProducerDefined(s, choice)
    ensures a'.log == a.log && Good(ProduceStep(s, choice), a')
  {
    hide BI.KeysOk, BI.SharingOk, BI.ContentOk, BI.PeakOk, ConsumerOk, LiveBlock, BlockOk;
    if choice.Fail? {
      a' := a.(ia := a.ia.(open := BI.Undoing));
      BIS.KeepMode(s.ix, a.ia, a'.ia);
      NothingExtends(s, a);
    } else {
      a' := a.(ia := BIS.GrownAux(s.ix, a.ia));
      BIS.KeepGrow(s.ix, a.ia);
    }
    GotMoves(a, a', s.producer.got, 0);
    KeepIndexOnly(s, a, ProduceStep(s, choice), a');
  }

  lemma KeepKey(s: State, a: Aux, choice: Choice) returns (a': Aux)
    requires Good(s, a) && s.producer.PStoreKey? && ProducerDefined(s, choice)
    ensures a'.log == a.log && Good(ProduceStep(s, choice), a')
  {
    var ia := BIS.KeepStoreKey(s.ix, a.ia);
    a' := a.(ia := ia);
    GotMoves(a, a', s.producer.got, 0);
    KeepIndexOnly(s, a, ProduceStep(s, choice), a');
  }

  lemma KeepTail(s: State, a: Aux, choice: Choice) returns (a': Aux)
    requires Good(s, a) && s.producer.PStoreTail? && ProducerDefined(s, choice)
    ensures a'.log == a.log && Good(ProduceStep(s, choice), a')
  {
    var ia := BIS.KeepStoreTail(s.ix, a.ia);
    a' := a.(ia := ia);
    GotMoves(a, a', s.producer.got, 0);
    KeepIndexOnly(s, a, ProduceStep(s, choice), a');
  }

  lemma KeepNoBlock(s: State, a: Aux)
    requires Good(s, a) && s.producer.PTakeBlock?
    ensures ProducerDefined(s, Fail) && Good(ProduceStep(s, Fail), a)
  {
    NothingExtends(s, a);
    KeepIndexOnly(s, a, ProduceStep(s, Fail), a);
  }

  lemma KeepGiveUp(s: State, a: Aux, choice: Choice) returns (a': Aux)
    requires Good(s, a) && s.producer.PRewind? && ProducerDefined(s, choice)
    ensures a'.log == a.log && Good(ProduceStep(s, choice), a')
  {
    BIS.KeepRewind(s.ix, a.ia);
    a' := a.(ia := BIS.RewoundAux(a.ia));
    GotMoves(a, a', s.producer.got, 0);
    KeepIndexOnly(s, a, ProduceStep(s, choice), a');
  }

  lemma KeepClear(s: State, a: Aux, choice: Choice) returns (a': Aux)
    requires Good(s, a) && s.producer.PClear? && ProducerDefined(s, choice)
    ensures a'.log == a.log && Good(ProduceStep(s, choice), a')
  {
    hide BI.KeysOk, BI.SharingOk, BI.ContentOk, BI.PeakOk, BlocksOk;
    var ia := BIS.KeepClearOwn(s.ix, a.ia);
    a' := a.(ia := ia.(open := BI.Undoing));
    BIS.KeepMode(ProduceStep(s, choice).ix, ia, a'.ia);
    GotMoves(a, a', s.producer.got, 0);
    KeepIndexOnly(s, a, ProduceStep(s, choice), a');
  }

  lemma KeepUndoRewind(s: State, a: Aux, choice: Choice) returns (a': Aux)
    requires Good(s, a) && s.producer.PUndoRewind? && ProducerDefined(s, choice)
    ensures a'.log == a.log && Good(ProduceStep(s, choice), a')
  {
    hide BI.KeysOk, BI.SharingOk, BI.ContentOk, BI.PeakOk, BI.OpenOk, BlocksOk, ConsumerOk;
    BIS.KeepRewind(s.ix, a.ia);
    a' := a.(ia := BIS.RewoundAux(a.ia));
    GotMoves(a, a', s.producer.got, s.producer.k + 1);
    KeepIndexOnly(s, a, ProduceStep(s, choice), a');
  }

  lemma KeepUndone(s: State, a: Aux, choice: Choice) returns (a': Aux)
    requires Good(s, a) && s.producer.PUndoClear? && s.producer.k >= |s.producer.got| && ProducerDefined(s, choice)
    ensures a'.log == a.log && Good(ProduceStep(s, choice), a')
  {
    hide BI.OpenOk, BlocksOk, ConsumerOk;
    forall b | b in a.ia.live ensures b < a.ia.base {
      assert BI.LiveOk(s.ix, a.ia, b);
    }
    var ia := BIS.KeepUndone(s.ix, a.ia);
    a' := a.(ia := ia);
    NothingExtends(s, a);
    KeepIndexOnly(s, a, ProduceStep(s, choice), a');
  }

  lemma KeepFreed(s: State, a: Aux, choice: Choice)
    requires Good(s, a) && s.producer.PUndoFree? && s.producer.k >= |s.producer.got| && ProducerDefined(s, choice)
    ensures Good(ProduceStep(s, choice), a)
  {
    NothingExtends(s, a);
    KeepIndexOnly(s, a, ProduceStep(s, choice), a);
  }
}
