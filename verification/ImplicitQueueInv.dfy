/** The invariant of an implicit producer's sub-queue. */
module ImplicitQueueInv {
  import opened ThreadSums
  import opened Ring
  import BI = BlockIndex
  import opened ImplicitQueue

  /** Who has a block: the shared pool, another producer, the index under a block number, this producer,
      or the consumer that emptied it. */
  datatype Owner = InPool | Lent | Indexed(b: int) | Mine | Emptying(t: Tid, b: int) | Freeing(t: Tid)

  /** What the proof knows beyond the state; `log` is everything ever enqueued. */
  datatype Aux = Aux(ia: BI.Aux, owner: map<Block, Owner>, log: seq<Elem>)

  ghost function HeldWeight(b: int): Consumer -> nat {
    (c: Consumer) => if c.Idle? then 0 else Overlap(c.job.seg, c.job.end, b)
  }

  /** How many indices of block `b` consumers have been granted and not yet counted as dequeued. */
  ghost function Held(consumers: map<Tid, Consumer>, b: int): nat { Sum(consumers, HeldWeight(b)) }

  /** How many indices of block `b` have not been granted yet. */
  function Ungranted(head: nat, b: int): nat {
    if BLOCK_SIZE * b + BLOCK_SIZE < 0 then 0 else Overlap(head, BLOCK_SIZE * b + BLOCK_SIZE, b)
  }

  // ---------- blocks ----------

  ghost predicate IsMine(p: Producer, block: Block) {
    if p.PReset? || p.PStoreBlock? then p.block == block
    else if p.PUndoClear? then p.k <= |p.got| && block in p.got[..p.k]
    else if p.PUndoRewind? then p.k < |p.got| && block in p.got[..p.k + 1]
    else p.PUndoFree? && p.k <= |p.got| && block in p.got[p.k..]
  }

  ghost predicate OwnerOk(s: State, a: Aux, block: Block)
    requires block in s.blocks && block in a.owner
  {
    match a.owner[block]
    case InPool => true
    case Lent => true
    case Indexed(b) => b in a.ia.live && a.ia.live[b].block == block && s.blocks[block].done < BLOCK_SIZE
    case Mine => IsMine(s.producer, block)
    case Emptying(t, b) =>
      && b in a.ia.live && a.ia.live[b].block == block && s.blocks[block].done == BLOCK_SIZE
      && t in s.consumers && s.consumers[t].Busy? && s.consumers[t].at.ClearEntry? && s.consumers[t].at.block == block
      && s.consumers[t].job.seg > 0 && (s.consumers[t].job.seg - 1) / BLOCK_SIZE == b
    case Freeing(t) =>
      t in s.consumers && s.consumers[t].Busy? && s.consumers[t].at.FreeBlock? && s.consumers[t].at.block == block
  }

  ghost predicate BlockOk(s: State, a: Aux, block: Block)
    requires block in s.blocks
  {
    && block in a.owner && |s.blocks[block].elems| == BLOCK_SIZE
    && (block in s.pool <==> a.owner[block] == InPool)
    && (block in s.other <==> a.owner[block] == Lent)
    && OwnerOk(s, a, block)
  }

  ghost predicate ElemsOk(a: Aux, cell: Cell, b: int, tail: nat) {
    && |cell.elems| == BLOCK_SIZE && |a.log| == tail
    && forall y :: BLOCK_SIZE * b <= y < BLOCK_SIZE * b + BLOCK_SIZE && 0 <= y < tail ==> cell.elems[y - BLOCK_SIZE * b] == a.log[y]
  }

  ghost predicate LiveBlock(s: State, a: Aux, b: int)
    requires b in a.ia.live
  {
    var block := a.ia.live[b].block;
    && block in s.blocks && block in a.owner
    && (a.owner[block] == Indexed(b) || (a.owner[block].Emptying? && a.owner[block].b == b))
    && s.blocks[block].done + Held(s.consumers, b) + Ungranted(s.head, b) == BLOCK_SIZE
    && ElemsOk(a, s.blocks[block], b, s.tail)
  }

  ghost predicate DeadBlock(s: State, b: int) {
    BLOCK_SIZE * b + BLOCK_SIZE <= s.head && Held(s.consumers, b) == 0
  }

  ghost predicate BlocksOk(s: State, a: Aux) {
    && (forall block :: block in a.owner ==> block in s.blocks)
    && s.pool <= s.blocks.Keys && s.other <= s.blocks.Keys
    && (forall block :: block in s.blocks ==> BlockOk(s, a, block))
    && (forall b :: b in a.ia.live ==> LiveBlock(s, a, b))
    && (forall b {:trigger DeadBlock(s, b)} :: 0 <= b < a.ia.base && b !in a.ia.live ==> DeadBlock(s, b))
  }

  // ---------- consumers ----------

  ghost predicate JobOk(s: State, a: Aux, job: Job) {
    && job.first <= job.seg <= Pos(job) <= job.end <= s.head <= s.tail == |a.log|
    && job.out == a.log[job.first..Pos(job)]
  }

  /** Header `h` leads to every block the job still needs. */
  ghost predicate Reaches(s: State, a: Aux, h: nat, job: Job) {
    && BI.Shape(s.ix) && h < |s.ix.headers| && |a.ia.shift| == |s.ix.headers|
    && forall b {:trigger BI.Finds(s.ix, a.ia, h, b)} :: Overlap(job.seg, job.end, b) > 0 ==> BI.Finds(s.ix, a.ia, h, b)
  }

  ghost predicate HasBlock(a: Aux, b: int, e: nat, block: Block) {
    b in a.ia.live && a.ia.live[b] == BI.Location(e, block)
  }

  ghost predicate AtOk(s: State, a: Aux, t: Tid, job: Job, at: At) {
    var b := job.seg / BLOCK_SIZE;
    match at
    case LoadIndex => job.seg == Pos(job) == job.first < job.end
    case LoadTail(h) => job.seg == Pos(job) == job.first < job.end && Reaches(s, a, h, job)
    case LoadKey(h, tail) =>
      && job.seg == Pos(job) == job.first < job.end && Reaches(s, a, h, job)
      && 0 <= tail < s.ix.headers[h].capacity && s.ix.entries[BI.EntryAt(s.ix, h, tail)].key.Base?
    case LoadBlock(h, slot) =>
      job.seg == Pos(job) < job.end && Reaches(s, a, h, job) && slot == BI.SlotOf(s.ix, a.ia, h, b)
    case Read(h, slot, e, block) =>
      Pos(job) < SegEnd(job) && Reaches(s, a, h, job) && slot == BI.SlotOf(s.ix, a.ia, h, b) && HasBlock(a, b, e, block)
    case CountDone(h, slot, e, block) =>
      && job.seg < Pos(job) == SegEnd(job) && Reaches(s, a, h, job) && slot == BI.SlotOf(s.ix, a.ia, h, b)
      && HasBlock(a, b, e, block)
    case ClearEntry(h, slot, e, block) =>
      && job.seg == Pos(job) > job.first && Reaches(s, a, h, job) && (job.seg < job.end ==> job.seg % BLOCK_SIZE == 0)
      && slot == BI.SlotOf(s.ix, a.ia, h, (job.seg - 1) / BLOCK_SIZE)
      && HasBlock(a, (job.seg - 1) / BLOCK_SIZE, e, block)
      && block in a.owner && a.owner[block] == Emptying(t, (job.seg - 1) / BLOCK_SIZE)
    case FreeBlock(h, slot, block) =>
      && job.seg == Pos(job) > job.first && Reaches(s, a, h, job) && (job.seg < job.end ==> job.seg % BLOCK_SIZE == 0)
      && slot == BI.SlotOf(s.ix, a.ia, h, (job.seg - 1) / BLOCK_SIZE)
      && block in a.owner && a.owner[block] == Freeing(t)
    case Done => job.seg == Pos(job) == job.end
  }

  ghost predicate ConsumerOk(s: State, a: Aux, t: Tid)
    requires t in s.consumers
  {
    s.consumers[t].Busy? ==> JobOk(s, a, s.consumers[t].job) && AtOk(s, a, t, s.consumers[t].job, s.consumers[t].at)
  }

  // ---------- the producer ----------

  ghost predicate Distinct(got: seq<Block>) { forall i, j :: 0 <= i < j < |got| ==> got[i] != got[j] }

  ghost predicate GotAt(a: Aux, got: seq<Block>, k: nat)
    requires k < |got|
  {
    a.ia.base + k in a.ia.live && a.ia.live[a.ia.base + k].block == got[k]
  }

  /** The blocks from the `lo`-th on are in the index under the next block numbers. */
  ghost predicate GotLive(a: Aux, got: seq<Block>, lo: nat) {
    Distinct(got) && forall k {:trigger GotAt(a, got, k)} :: lo <= k < |got| ==> GotAt(a, got, k)
  }

  /** Inserting: `got` are in the index, and the index is in the given mode for the next block. */
  ghost predicate Inserting(s: State, a: Aux, items: seq<Elem>, got: seq<Block>, next: int, open: BI.Open) {
    && a.ia.open == open && a.ia.next == a.ia.base + next && GotLive(a, got, 0)
    && (|got| < Needed(s.tail, |items|) || (open == BI.Closed && |got| == Needed(s.tail, |items|)))
  }

  ghost predicate GivingUp(a: Aux, got: seq<Block>, next: int, open: BI.Open) {
    a.ia.open == open && a.ia.next == a.ia.base + next && GotLive(a, got, 0)
  }

  /** Undoing: the first `k` blocks are out of the index again. */
  ghost predicate UndoOk(a: Aux, got: seq<Block>, k: nat, next: int) {
    && k <= |got| && a.ia.open.Undoing? && a.ia.next == a.ia.base + next && a.ia.top == a.ia.base + |got|
    && GotLive(a, got, k)
    && (forall b :: b in a.ia.live ==> b < a.ia.base || b >= a.ia.base + k)
    && (forall i :: 0 <= i < k ==> got[i] in a.owner && a.owner[got[i]] == Mine)
  }

  ghost predicate WrittenAt(s: State, a: Aux, items: seq<Elem>, i: nat)
    requires i < |items|
  {
    var b := (s.tail + i) / BLOCK_SIZE;
    && b in a.ia.live && a.ia.live[b].block in s.blocks && |s.blocks[a.ia.live[b].block].elems| == BLOCK_SIZE
    && s.blocks[a.ia.live[b].block].elems[(s.tail + i) % BLOCK_SIZE] == items[i]
  }

  ghost predicate Written(s: State, a: Aux, items: seq<Elem>, j: nat) {
    j <= |items| && forall i {:trigger WrittenAt(s, a, items, i)} :: 0 <= i < j ==> WrittenAt(s, a, items, i)
  }

  ghost predicate ProducerOk(s: State, a: Aux) {
    match s.producer
    case PIdle => a.ia.open.Closed? && a.ia.next == a.ia.base
    case PInsert(items, got) => Inserting(s, a, items, got, |got|, BI.Closed)
    case PGrow(items, got) => Inserting(s, a, items, got, |got|, BI.Full)
    case PStoreKey(items, got, e) => Inserting(s, a, items, got, |got|, BI.Chosen(e))
    case PStoreTail(items, got, e) => Inserting(s, a, items, got, |got|, BI.Keyed(e))
    case PTakeBlock(items, got, e) => Inserting(s, a, items, got, |got| + 1, BI.Placed(e))
    case PReset(items, got, e, block) =>
      Inserting(s, a, items, got, |got| + 1, BI.Placed(e)) && block in a.owner && a.owner[block] == Mine
    case PStoreBlock(items, got, e, block) =>
      && Inserting(s, a, items, got, |got| + 1, BI.Placed(e)) && block in a.owner && a.owner[block] == Mine
      && block in s.blocks && s.blocks[block].done == 0
    case PRewind(got, e) => GivingUp(a, got, |got| + 1, BI.Placed(e))
    case PClear(got, e) => GivingUp(a, got, |got|, BI.Rewound(e))
    case PUndoClear(got, k) => UndoOk(a, got, k, |got| - k)
    case PUndoRewind(got, k) => UndoOk(a, got, k + 1, |got| - k)
    case PUndoFree(got, k) =>
      && k <= |got| && a.ia.open.Closed? && a.ia.next == a.ia.base && Distinct(got)
      && forall i :: k <= i < |got| ==> got[i] in a.owner && a.owner[got[i]] == Mine
    case PWrite(items, got, j) =>
      && Inserting(s, a, items, got, |got|, BI.Closed) && |got| == Needed(s.tail, |items|)
      && Written(s, a, items, j)
  }

  ghost predicate TailBlockOk(s: State, a: Aux) {
    s.tail % BLOCK_SIZE != 0 ==>
      a.ia.base - 1 in a.ia.live && s.tailBlock == Some(a.ia.live[a.ia.base - 1].block)
  }

  // ---------- all of it ----------

  ghost predicate Inv(s: State, a: Aux) {
    && a.ia.base == BlocksFor(s.tail) && s.head <= s.tail == |a.log|
    && BlocksOk(s, a)
    && (forall t :: t in s.consumers ==> ConsumerOk(s, a, t))
    && ProducerOk(s, a)
    && TailBlockOk(s, a)
  }

  ghost predicate Good(s: State, a: Aux) { BI.Inv(s.ix, a.ia) && Inv(s, a) }
}
