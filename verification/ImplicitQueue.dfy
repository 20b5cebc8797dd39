/** An implicit producer's sub-queue: one producer thread enqueues in bulk, any number of consumers
    dequeue what they have been granted, and blocks come from and go back to a pool that other producers
    share.  Each access to shared memory is one step.

    `enqueue` is `enqueue_bulk` of one element and `dequeue` is `dequeue_bulk` of one.  A consumer starts
    with a range of indices granted to it by the ticket protocol, which guarantees that the range starts at
    the head and lies below the tail.  A bulk dequeue with a maximum of zero is granted no indices, and looks its
    block up all the same. */
module ImplicitQueue {
  import opened ThreadSums
  import opened Ring
  import BlockIndex

  type Tid = nat
  type Elem = int
  type Block = nat

  const BLOCK_SIZE: nat := 32

  datatype Option<T> = None | Some(value: T)

  /** A block: its elements and `elementsCompletelyDequeued`. */
  datatype Cell = Cell(elems: seq<Elem>, done: nat)

  /** A dequeue of the indices from `first` to `end`.  `out` has been read so far; `seg` is the first index
      that is not yet counted as completely dequeued. */
  datatype Job = Job(first: nat, end: nat, seg: nat, out: seq<Elem>)

  datatype At =
    | LoadIndex
    | LoadTail(h: nat)
    | LoadKey(h: nat, tail: int)
    | LoadBlock(h: nat, slot: int)
    | Read(h: nat, slot: int, e: nat, block: Block)
    | CountDone(h: nat, slot: int, e: nat, block: Block)
    | ClearEntry(h: nat, slot: int, e: nat, block: Block)
    | FreeBlock(h: nat, slot: int, block: Block)
    | Done

  datatype Consumer = Idle | Busy(job: Job, at: At)

  /** The producer: `got` are the blocks inserted for the current call. */
  datatype Producer =
    | PIdle
    | PInsert(items: seq<Elem>, got: seq<Block>)
    | PGrow(items: seq<Elem>, got: seq<Block>)
    | PStoreKey(items: seq<Elem>, got: seq<Block>, e: nat)
    | PStoreTail(items: seq<Elem>, got: seq<Block>, e: nat)
    | PTakeBlock(items: seq<Elem>, got: seq<Block>, e: nat)
    | PReset(items: seq<Elem>, got: seq<Block>, e: nat, block: Block)
    | PStoreBlock(items: seq<Elem>, got: seq<Block>, e: nat, block: Block)
    | PRewind(got: seq<Block>, e: nat)
    | PClear(got: seq<Block>, e: nat)
    | PUndoClear(got: seq<Block>, k: nat)
    | PUndoRewind(got: seq<Block>, k: nat)
    | PUndoFree(got: seq<Block>, k: nat)
    | PWrite(items: seq<Elem>, got: seq<Block>, j: nat)

  datatype State = State(
    ix: BlockIndex.Index,
    tail: nat, head: nat,
    tailBlock: Option<Block>,
    blocks: map<Block, Cell>,
    pool: set<Block>,
    other: set<Block>,
    consumers: map<Tid, Consumer>,
    producer: Producer)

  /** What the producer meets: room and memory for the index, or not; a block, or none. */
  datatype Choice = Go | Fail | Take(block: Block)

  datatype Step =
    | Enqueue(items: seq<Elem>)
    | Produce(choice: Choice)
    | Grant(t: Tid, n: nat)
    | Consume(t: Tid)
    | Obtain(block: Block, cell: Cell)
    | Borrow(block: Block)
    | Scribble(block: Block, cell: Cell)
    | GiveBack(block: Block)

  // ---------- index arithmetic ----------

  function Max(a: int, b: int): int { if a < b then b else a }
  function Min(a: int, b: int): int { if a < b then a else b }

  /** How many blocks the indices below `n` take up. */
  function BlocksFor(n: nat): nat { (n + BLOCK_SIZE - 1) / BLOCK_SIZE }

  /** How many blocks `enqueue_bulk` has to insert: the difference of two block bases, in blocks. */
  function Needed(tail: nat, count: nat): nat {
    (tail + count - 1) / BLOCK_SIZE - (tail - 1) / BLOCK_SIZE
  }

  /** How many indices of block `b` lie between `lo` and `hi`. */
  function Overlap(lo: nat, hi: nat, b: int): nat {
    var n := Min(hi, BLOCK_SIZE * b + BLOCK_SIZE) - Max(lo, BLOCK_SIZE * b);
    if n < 0 then 0 else n
  }

  function Pos(job: Job): nat { job.first + |job.out| }

  /** Where the current segment ends: at the end of its block or of the job. */
  function SegEnd(job: Job): nat {
    Min(job.end, BLOCK_SIZE * (job.seg / BLOCK_SIZE) + BLOCK_SIZE)
  }

  // ---------- consumers ----------

  function Con(s: State, t: Tid, c: Consumer): State { s.(consumers := s.consumers[t := c]) }

  /** After a segment: the next block's slot, or done. */
  function NextSegment(s: State, job: Job, h: nat, slot: int): Consumer
    requires h < |s.ix.headers| && BlockIndex.Shape(s.ix)
  {
    assert BlockIndex.HeaderOk(s.ix, h);
    if job.seg == job.end then Busy(job, Done)
    else Busy(job, LoadBlock(h, Wrap(slot + 1, s.ix.headers[h].capacity)))
  }

  /** The next access of consumer `t` is to memory that exists. */
  predicate ConsumerDefined(s: State, t: Tid)
    requires t in s.consumers
  {
    && BlockIndex.Shape(s.ix)
    && s.consumers[t].Busy?
    && match s.consumers[t].at
       case LoadIndex => true
       case LoadTail(h) => h < |s.ix.headers|
       case LoadKey(h, tail) =>
         h < |s.ix.headers| && 0 <= tail < s.ix.headers[h].capacity && s.ix.entries[BlockIndex.EntryAt(s.ix, h, tail)].key.Base?
       case LoadBlock(h, slot) =>
         h < |s.ix.headers| && 0 <= slot < s.ix.headers[h].capacity && s.ix.entries[BlockIndex.EntryAt(s.ix, h, slot)].value.Ptr?
       case Read(h, slot, e, block) => block in s.blocks && Pos(s.consumers[t].job) % BLOCK_SIZE < |s.blocks[block].elems|
       case CountDone(h, slot, e, block) => h < |s.ix.headers| && block in s.blocks && s.consumers[t].job.seg <= SegEnd(s.consumers[t].job)
       case ClearEntry(h, slot, e, block) => e < |s.ix.entries|
       case FreeBlock(h, slot, block) => h < |s.ix.headers|
       case Done => true
  }

  function ConsumeStep(s: State, t: Tid): State
    requires t in s.consumers && ConsumerDefined(s, t)
  {
    var job := s.consumers[t].job;
    match s.consumers[t].at
    case LoadIndex => Con(s, t, Busy(job, LoadTail(BlockIndex.Last(s.ix))))
    case LoadTail(h) => Con(s, t, Busy(job, LoadKey(h, s.ix.headers[h].tail)))
    case LoadKey(h, tail) =>
      var key := s.ix.entries[BlockIndex.EntryAt(s.ix, h, tail)].key;
      Con(s, t, Busy(job, LoadBlock(h, BlockIndex.LookupSlot(s.ix, h, tail, key.b, job.first / BLOCK_SIZE))))
    case LoadBlock(h, slot) =>
      var e := BlockIndex.EntryAt(s.ix, h, slot);
      var block := s.ix.entries[e].value.block;
      // A job of no indices has nothing to read.
      Con(s, t, Busy(job, if Pos(job) == SegEnd(job) then CountDone(h, slot, e, block) else Read(h, slot, e, block)))
    case Read(h, slot, e, block) =>
      var job' := job.(out := job.out + [s.blocks[block].elems[Pos(job) % BLOCK_SIZE]]);
      Con(s, t, Busy(job', if Pos(job') == SegEnd(job) then CountDone(h, slot, e, block) else Read(h, slot, e, block)))
    case CountDone(h, slot, e, block) =>
      var cell := s.blocks[block];
      var job' := job.(seg := SegEnd(job));
      var s' := s.(blocks := s.blocks[block := cell.(done := cell.done + (SegEnd(job) - job.seg))]);
      if cell.done + (SegEnd(job) - job.seg) == BLOCK_SIZE then Con(s', t, Busy(job', ClearEntry(h, slot, e, block)))
      else Con(s', t, NextSegment(s, job', h, slot))
    case ClearEntry(h, slot, e, block) =>
      Con(s.(ix := BlockIndex.StoreValue(s.ix, e, BlockIndex.Null)), t, Busy(job, FreeBlock(h, slot, block)))
    case FreeBlock(h, slot, block) =>
      Con(s.(pool := s.pool + {block}), t, NextSegment(s, job, h, slot))
    case Done => Con(s, t, Idle)
  }

  // ---------- the producer ----------

  /** The key at the tail that the producer's own lookup starts from. */
  function TailKey(s: State): BlockIndex.Key
    requires BlockIndex.Shape(s.ix)
  {
    assert BlockIndex.HeaderOk(s.ix, BlockIndex.Last(s.ix));
    s.ix.entries[BlockIndex.EntryAt(s.ix, BlockIndex.Last(s.ix), BlockIndex.Current(s.ix).tail)].key
  }

  /** The entry of the `k`-th block of the call, looked up as consumers do. */
  function UndoEntry(s: State, k: nat): (e: nat)
    requires BlockIndex.Shape(s.ix) && TailKey(s).Base?
    ensures e < |s.ix.entries|
  {
    assert BlockIndex.HeaderOk(s.ix, BlockIndex.Last(s.ix));
    var h := BlockIndex.Last(s.ix);
    BlockIndex.EntryAt(s.ix, h, BlockIndex.LookupSlot(s.ix, h, BlockIndex.Current(s.ix).tail, TailKey(s).b, BlocksFor(s.tail) + k))
  }

  predicate ProducerDefined(s: State, choice: Choice) {
    && BlockIndex.Shape(s.ix)
    && match s.producer
       case PIdle => false
       case PInsert(_, _) => !choice.Take?
       case PGrow(_, _) => !choice.Take?
       case PStoreKey(_, _, e) => e < |s.ix.entries| && choice.Go?
       case PStoreTail(_, _, e) => choice.Go?
       case PTakeBlock(_, _, e) => choice.Fail? || (choice.Take? && (choice.block in s.pool || choice.block !in s.blocks))
       case PReset(_, _, e, block) => block in s.blocks && choice.Go?
       case PStoreBlock(_, _, e, block) => e < |s.ix.entries| && choice.Go?
       case PRewind(_, _) => choice.Go?
       case PClear(_, e) => e < |s.ix.entries| && choice.Go?
       case PUndoClear(got, k) => choice.Go? && (k < |got| ==> TailKey(s).Base?)
       case PUndoRewind(_, _) => choice.Go?
       case PUndoFree(_, _) => choice.Go?
       case PWrite(items, got, j) =>
         && choice.Go?
         && (j < |items| ==> Writable(s, WriteBlock(s, got, s.tail + j)))
  }

  /** The block that index `y` of the current call is written to. */
  function WriteBlock(s: State, got: seq<Block>, y: nat): Option<Block> {
    var k := y / BLOCK_SIZE - BlocksFor(s.tail);
    if k < 0 then s.tailBlock else if k < |got| then Some(got[k]) else None
  }

  predicate Writable(s: State, block: Option<Block>) {
    block.Some? && block.value in s.blocks && |s.blocks[block.value].elems| == BLOCK_SIZE
  }

  /** The producer has been given a block, out of the pool or newly allocated. */
  function Took(s: State, block: Block): State
    requires s.producer.PTakeBlock?
  {
    s.(pool := s.pool - {block},
       blocks := if block in s.blocks then s.blocks else s.blocks[block := Cell(seq(BLOCK_SIZE, _ => 0), 0)],
       producer := PReset(s.producer.items, s.producer.got, s.producer.e, block))
  }

  function ProduceStep(s: State, choice: Choice): State
    requires ProducerDefined(s, choice)
  {
    match s.producer
    case PInsert(items, got) =>
      if |got| >= Needed(s.tail, |items|) then s.(producer := PWrite(items, got, 0))
      else
        var e := BlockIndex.EntryAt(s.ix, BlockIndex.Last(s.ix), BlockIndex.NewTail(s.ix));
        if choice.Fail? then s.(producer := PUndoClear(got, 0))
        else if BlockIndex.Free(s.ix.entries[e]) then s.(producer := PStoreKey(items, got, e))
        else s.(producer := PGrow(items, got))
    case PGrow(items, got) =>
      if choice.Fail? then s.(producer := PUndoClear(got, 0))
      // The slot behind the tail of the new index is its first new entry.
      else s.(ix := BlockIndex.Grow(s.ix), producer := PStoreKey(items, got, |s.ix.entries|))
    case PStoreKey(items, got, e) =>
      s.(ix := BlockIndex.StoreKey(s.ix, e, BlocksFor(s.tail) + |got|), producer := PStoreTail(items, got, e))
    case PStoreTail(items, got, e) =>
      s.(ix := BlockIndex.StoreTail(s.ix, BlockIndex.NewTail(s.ix)), producer := PTakeBlock(items, got, e))
    case PTakeBlock(items, got, e) =>
      if choice.Take? then Took(s, choice.block)
      else s.(producer := PRewind(got, e))
    case PReset(items, got, e, block) =>
      s.(blocks := s.blocks[block := s.blocks[block].(done := 0)], producer := PStoreBlock(items, got, e, block))
    case PStoreBlock(items, got, e, block) =>
      s.(ix := BlockIndex.StoreValue(s.ix, e, BlockIndex.Ptr(block)), producer := PInsert(items, got + [block]))
    case PRewind(got, e) => s.(ix := BlockIndex.Rewind(s.ix), producer := PClear(got, e))
    case PClear(got, e) =>
      s.(ix := BlockIndex.StoreValue(s.ix, e, BlockIndex.Null), producer := PUndoClear(got, 0))
    case PUndoClear(got, k) =>
      if k < |got| then
        s.(ix := BlockIndex.StoreValue(s.ix, UndoEntry(s, k), BlockIndex.Null), producer := PUndoRewind(got, k))
      else s.(producer := PUndoFree(got, 0))
    case PUndoRewind(got, k) => s.(ix := BlockIndex.Rewind(s.ix), producer := PUndoClear(got, k + 1))
    case PUndoFree(got, k) =>
      if k < |got| then s.(pool := s.pool + {got[k]}, producer := PUndoFree(got, k + 1))
      else s.(producer := PIdle)
    case PWrite(items, got, j) =>
      if j < |items| then
        var block := WriteBlock(s, got, s.tail + j).value;
        var cell := s.blocks[block];
        s.(blocks := s.blocks[block := cell.(elems := cell.elems[(s.tail + j) % BLOCK_SIZE := items[j]])],
           producer := PWrite(items, got, j + 1))
      else
        s.(tail := s.tail + |items|, tailBlock := if got == [] then s.tailBlock else Some(got[|got| - 1]), producer := PIdle)
  }

  // ---------- all steps ----------

  predicate Enabled(s: State, step: Step) {
    match step
    case Enqueue(items) => s.producer.PIdle?
    case Produce(choice) => ProducerDefined(s, choice)
    case Grant(t, n) => t in s.consumers && s.consumers[t].Idle? && s.head + n <= s.tail
    case Consume(t) => t in s.consumers && ConsumerDefined(s, t)
    case Obtain(block, cell) => block !in s.blocks && |cell.elems| == BLOCK_SIZE
    case Borrow(block) => block in s.pool
    case Scribble(block, cell) => block in s.other && |cell.elems| == BLOCK_SIZE
    case GiveBack(block) => block in s.other
  }

  /** Consumer `t` has been granted the next `n` indices. */
  function Granted(s: State, t: Tid, n: nat): State {
    Con(s.(head := s.head + n), t, Busy(Job(s.head, s.head + n, s.head, []), LoadIndex))
  }

  /** Another producer has allocated a block, or has been given one out of the pool. */
  function Obtained(s: State, block: Block, cell: Cell): State {
    s.(blocks := s.blocks[block := cell], other := s.other + {block})
  }

  function Borrowed(s: State, block: Block): State { s.(pool := s.pool - {block}, other := s.other + {block}) }

  function Apply(s: State, step: Step): State
    requires Enabled(s, step)
  {
    match step
    case Enqueue(items) => s.(producer := PInsert(items, []))
    case Produce(choice) => ProduceStep(s, choice)
    case Grant(t, n) => Granted(s, t, n)
    case Consume(t) => ConsumeStep(s, t)
    case Obtain(block, cell) => Obtained(s, block, cell)
    case Borrow(block) => Borrowed(s, block)
    case Scribble(block, cell) => s.(blocks := s.blocks[block := cell])
    case GiveBack(block) => s.(pool := s.pool + {block}, other := s.other - {block})
  }

  predicate Init(s: State) {
    && s.ix == BlockIndex.InitIndex() && s.tail == s.head == 0 && s.tailBlock == None
    && s.blocks == map[] && s.pool == {} && s.other == {} && s.producer == PIdle
    && forall t :: t in s.consumers ==> s.consumers[t] == Idle
  }
}
