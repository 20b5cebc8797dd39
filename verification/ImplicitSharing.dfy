/** Grants, and what the other producers do to the blocks they share with this one, keep the invariant. */
module ImplicitSharing {
  import opened ThreadSums
  import BI = BlockIndex
  import opened ImplicitQueue
  import opened ImplicitQueueInv
  import opened ImplicitConsumers

  // ---------- grants ----------

  ghost predicate Granting(s: State, t: Tid, n: nat, s': State) {
    && t in s.consumers && s.consumers[t].Idle? && 0 < n && s.head + n <= s.tail
    && s' == s.(head := s.head + n, consumers := s.consumers[t := Busy(Job(s.head, s.head + n, s.head, []), LoadIndex)])
  }

  /** What is granted was not granted before, and is now held. */
  lemma GrantHeld(s: State, t: Tid, n: nat, s': State, b: int)
    requires Granting(s, t, n, s')
    ensures Held(s'.consumers, b) + Ungranted(s'.head, b) == Held(s.consumers, b) + Ungranted(s.head, b)
    ensures BLOCK_SIZE * b + BLOCK_SIZE <= s.head ==> Held(s'.consumers, b) == Held(s.consumers, b)
  {
    HeldChange(s.consumers, t, s'.consumers[t], b);
  }

  lemma GrantBlocks(s: State, a: Aux, t: Tid, n: nat, s': State)
    requires BlocksOk(s, a) && Granting(s, t, n, s')
    ensures BlocksOk(s', a)
  {
    forall b | b in a.ia.live ensures LiveBlock(s', a, b) {
      assert LiveBlock(s, a, b);
      GrantHeld(s, t, n, s', b);
    }
    forall b | 0 <= b < a.ia.base && b !in a.ia.live ensures DeadBlock(s', b) {
      assert DeadBlock(s, b);
      GrantHeld(s, t, n, s', b);
    }
    forall block | block in s'.blocks ensures BlockOk(s', a, block) {
      assert BlockOk(s, a, block);
    }
  }

  lemma SharingDisturbsNobody(s: State, a: Aux, s': State, a': Aux, u: Tid)
    requires Good(s, a) && u in s.consumers && u in s'.consumers && s'.consumers[u] == s.consumers[u]
    requires s'.ix == s.ix && s'.tail == s.tail && s.head <= s'.head <= s.tail && a'.ia == a.ia && a'.log == a.log
    requires forall block :: block in a.owner && OwnedBy(a.owner[block], u) ==> block in a'.owner && a'.owner[block] == a.owner[block]
    ensures Undisturbed(s, a, s', a', u)
  {
    NothingExtends(s, a);
  }

  lemma KeepGrant(s: State, a: Aux, t: Tid, n: nat)
    requires Good(s, a) && Enabled(s, Grant(t, n)) && 0 < n
    ensures Good(Apply(s, Grant(t, n)), a)
  {
    hide BI.KeysOk, BI.SharingOk, BI.ContentOk, BI.PeakOk, BI.OpenOk;
    var s' := Apply(s, Grant(t, n));
    GrantBlocks(s, a, t, n, s');
    forall u | u in s'.consumers && u != t ensures Undisturbed(s, a, s', a, u) {
      SharingDisturbsNobody(s, a, s', a, u);
    }
    assert ConsumerOk(s', a, t);
    KeepRest(s, a, s', a, t);
  }

  // ---------- the other producers ----------

  /** Ownership and content change among the blocks that are not this producer's. */
  ghost predicate Sharing(s: State, a: Aux, s': State, a': Aux) {
    && s' == s.(blocks := s'.blocks, pool := s'.pool, other := s'.other) && a' == a.(owner := a'.owner)
    && (forall block :: block in a'.owner <==> block in a.owner)
    && (forall block :: block in s'.blocks <==> block in s.blocks)
    && (forall block :: block in a.owner ==>
          if a.owner[block].InPool? || a.owner[block].Lent?
          then a'.owner[block].InPool? || a'.owner[block].Lent? else a'.owner[block] == a.owner[block])
    && (forall block :: block in s.blocks && block in a.owner && !a.owner[block].Lent? ==> s'.blocks[block] == s.blocks[block])
    && (forall block :: block in s.blocks ==> |s'.blocks[block].elems| == BLOCK_SIZE)
    && (forall block :: block in s'.pool <==> block in a'.owner && a'.owner[block] == InPool)
    && (forall block :: block in s'.other <==> block in a'.owner && a'.owner[block] == Lent)
  }

  lemma SharingBlocks(s: State, a: Aux, s': State, a': Aux)
    requires BlocksOk(s, a) && Sharing(s, a, s', a')
    ensures BlocksOk(s', a')
  {
    forall b | b in a'.ia.live ensures LiveBlock(s', a', b) {
      assert LiveBlock(s, a, b);
    }
    forall b | 0 <= b < a'.ia.base && b !in a'.ia.live ensures DeadBlock(s', b) {
      assert DeadBlock(s, b);
    }
    forall block | block in s'.blocks ensures BlockOk(s', a', block) {
      assert BlockOk(s, a, block);
    }
  }

  lemma SharingProducer(s: State, a: Aux, s': State, a': Aux)
    requires Inv(s, a) && Sharing(s, a, s', a')
    ensures ProducerUndisturbed(s, a, s', a')
  {
    hide ConsumerOk, OwnerOk;
    forall b | b in a.ia.live
      ensures a.ia.live[b].block in s.blocks && s'.blocks[a.ia.live[b].block] == s.blocks[a.ia.live[b].block]
    {
      assert LiveBlock(s, a, b);
    }
  }

  lemma KeepSharing(s: State, a: Aux, s': State, a': Aux)
    requires Good(s, a) && Sharing(s, a, s', a')
    ensures Good(s', a')
  {
    hide BI.KeysOk, BI.SharingOk, BI.ContentOk, BI.PeakOk, BI.OpenOk, BlocksOk, ProducerOk;
    SharingBlocks(s, a, s', a');
    SharingProducer(s, a, s', a');
    forall u | u in s'.consumers ensures Undisturbed(s, a, s', a', u) && ConsumerOk(s', a', u) {
      SharingDisturbsNobody(s, a, s', a', u);
      assert ConsumerOk(s, a, u);
      ConsumerStays(s, a, s', a', u);
    }
    KeepRest(s, a, s', a', 0);
  }

  /** Another producer allocates a block. */
  lemma ObtainedBlocks(s: State, a: Aux, block: Block, cell: Cell)
    requires BlocksOk(s, a) && block !in s.blocks && |cell.elems| == BLOCK_SIZE
    ensures BlocksOk(Obtained(s, block, cell), a.(owner := a.owner[block := Lent]))
  {
    var s', a' := Obtained(s, block, cell), a.(owner := a.owner[block := Lent]);
    forall b | b in a'.ia.live ensures LiveBlock(s', a', b) {
      assert LiveBlock(s, a, b);
    }
    forall b | 0 <= b < a'.ia.base && b !in a'.ia.live ensures DeadBlock(s', b) {
      assert DeadBlock(s, b);
    }
    forall x | x in s'.blocks ensures BlockOk(s', a', x) {
      assert x != block ==> BlockOk(s, a, x);
    }
  }

  lemma ObtainedProducer(s: State, a: Aux, block: Block, cell: Cell)
    requires Inv(s, a) && block !in s.blocks
    ensures ProducerUndisturbed(s, a, Obtained(s, block, cell), a.(owner := a.owner[block := Lent]))
  {
    hide ConsumerOk, OwnerOk;
    forall b | b in a.ia.live ensures a.ia.live[b].block in s.blocks {
      assert LiveBlock(s, a, b);
    }
  }

  lemma KeepObtain(s: State, a: Aux, block: Block, cell: Cell) returns (a': Aux)
    requires Good(s, a) && Enabled(s, Obtain(block, cell))
    ensures a'.log == a.log && Good(Apply(s, Obtain(block, cell)), a')
  {
    hide BI.KeysOk, BI.SharingOk, BI.ContentOk, BI.PeakOk, BI.OpenOk, ProducerOk;
    var s' := Obtained(s, block, cell);
    a' := a.(owner := a.owner[block := Lent]);
    ObtainedBlocks(s, a, block, cell);
    ObtainedProducer(s, a, block, cell);
    OwnersArePlaces(s, a);
    hide BlocksOk;
    forall u | u in s'.consumers ensures Undisturbed(s, a, s', a', u) && ConsumerOk(s', a', u) {
      SharingDisturbsNobody(s, a, s', a', u);
      assert ConsumerOk(s, a, u);
      ConsumerStays(s, a, s', a', u);
    }
    KeepRest(s, a, s', a', 0);
  }

  lemma KeepBorrow(s: State, a: Aux, block: Block) returns (a': Aux)
    requires Good(s, a) && Enabled(s, Borrow(block))
    ensures a'.log == a.log && Good(Apply(s, Borrow(block)), a')
  {
    hide BI.Inv, Inv;
    OwnersArePlaces(s, a);
    a' := a.(owner := a.owner[block := Lent]);
    KeepSharing(s, a, Apply(s, Borrow(block)), a');
  }

  lemma KeepGiveBack(s: State, a: Aux, block: Block) returns (a': Aux)
    requires Good(s, a) && Enabled(s, GiveBack(block))
    ensures a'.log == a.log && Good(Apply(s, GiveBack(block)), a')
  {
    hide BI.Inv, Inv;
    OwnersArePlaces(s, a);
    a' := a.(owner := a.owner[block := InPool]);
    KeepSharing(s, a, Apply(s, GiveBack(block)), a');
  }

  /** Whatever another producer and its consumers write to a block they have, this producer's do not notice. */
  lemma KeepScribble(s: State, a: Aux, block: Block, cell: Cell)
    requires Good(s, a) && Enabled(s, Scribble(block, cell))
    ensures Good(Apply(s, Scribble(block, cell)), a)
  {
    hide BI.Inv, Inv;
    OwnersArePlaces(s, a);
    KeepSharing(s, a, Apply(s, Scribble(block, cell)), a);
  }

  lemma OwnersArePlaces(s: State, a: Aux)
    requires Inv(s, a)
    ensures forall block :: block in s.pool <==> block in a.owner && a.owner[block] == InPool
    ensures forall block :: block in s.other <==> block in a.owner && a.owner[block] == Lent
    ensures forall block :: block in s.blocks ==> |s.blocks[block].elems| == BLOCK_SIZE
    ensures forall block :: block in a.owner <==> block in s.blocks
  {
    assert forall block :: block in s.blocks ==> BlockOk(s, a, block);
  }
}
