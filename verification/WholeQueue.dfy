/** A whole implicit sub-queue and the free list behind it: the ticket protocol, the queue, and the lock-free stack
    through which blocks go.

    The pool of `ImplicitQueue` is no longer a set that the machine looks at.  A block that the queue gives back is
    handed to `add`, a block that the producers get is what `try_get` has popped or what has just been allocated, and
    the steps here have no guard that asks where the block is.  Any thread of the free list may run any of the calls,
    and calls of this producer and of the others go on side by side. */
module WholeQueue {
  import S = SubQueue
  import Q = ImplicitQueue
  import F = FreeList

  type Block = nat

  datatype State = State(sub: S.State, list: F.State)

  datatype Step =
    | Plain(step: S.Step)
    | Free(u: F.Tid, giving: Q.Step)
    | StartGet(u: F.Tid)
    | Inside(u: F.Tid)
    | HandOut(u: F.Tid, ours: bool)
    | AllocateOurs(block: Block)
    | AllocateTheirs(block: Block, cell: Q.Cell)

  /** The block that a step of the queue gives back, if any. */
  function Freed(q: Q.State, step: Q.Step): Q.Option<Block> {
    if step.Consume? && step.t in q.consumers && q.consumers[step.t].Busy? && q.consumers[step.t].at.FreeBlock? then
      Q.Some(q.consumers[step.t].at.block)
    else if step.Produce? && q.producer.PUndoFree? && q.producer.k < |q.producer.got| then Q.Some(q.producer.got[q.producer.k])
    else if step.GiveBack? then Q.Some(step.block)
    else Q.None
  }

  /** The step gives one of the producers a block. */
  predicate Gets(q: Q.State, step: Q.Step) {
    (step.Produce? && q.producer.PTakeBlock? && step.choice.Take?) || step.Borrow? || step.Obtain?
  }

  predicate Enabled(s: State, step: Step) {
    match step
    case Plain(step) => S.Enabled(s.sub, step) && (step.Queue? ==> Freed(s.sub.queue, step.step).None? && !Gets(s.sub.queue, step.step))
    case Free(u, giving) =>
      S.Enabled(s.sub, S.Queue(giving)) && Freed(s.sub.queue, giving).Some? && u in s.list.threads && s.list.threads[u].Idle?
    case StartGet(u) => F.Enabled(s.list, F.StartGet(u))
    case Inside(u) => F.Enabled(s.list, F.Advance(u)) && !s.list.threads[u].GetReleaseTwo?
    case HandOut(u, ours) =>
      F.Enabled(s.list, F.Advance(u)) && s.list.threads[u].GetReleaseTwo? && (ours ==> s.sub.queue.producer.PTakeBlock?)
    case AllocateOurs(block) => F.Enabled(s.list, F.Allocate(block)) && s.sub.queue.producer.PTakeBlock?
    case AllocateTheirs(block, cell) => F.Enabled(s.list, F.Allocate(block)) && |cell.elems| == Q.BLOCK_SIZE
  }

  /** Thread `u` of the free list begins to add `n`. */
  function Given(list: F.State, u: F.Tid, n: Block): F.State {
    F.Go(list.(client := list.client - {n}), u, F.AddFlag(n))
  }

  function WithQueue(sub: S.State, q: Q.State): S.State { sub.(queue := q) }

  function Apply(s: State, step: Step): State
    requires Enabled(s, step)
  {
    var q := s.sub.queue;
    match step
    case Plain(step) => s.(sub := S.Apply(s.sub, step))
    case Free(u, giving) => State(S.Apply(s.sub, S.Queue(giving)), Given(s.list, u, Freed(q, giving).value))
    case StartGet(u) => s.(list := F.Apply(s.list, F.StartGet(u)))
    case Inside(u) => s.(list := F.Apply(s.list, F.Advance(u)))
    case HandOut(u, ours) =>
      var n := s.list.threads[u].n;
      State(WithQueue(s.sub, if ours then Q.Took(q, n) else Q.Borrowed(q, n)), F.Apply(s.list, F.Advance(u)))
    case AllocateOurs(block) => State(WithQueue(s.sub, Q.Took(q, block)), F.Apply(s.list, F.Allocate(block)))
    case AllocateTheirs(block, cell) => State(WithQueue(s.sub, Q.Obtained(q, block, cell)), F.Apply(s.list, F.Allocate(block)))
  }

  ghost predicate Init(s: State) { S.Init(s.sub) && F.Init(s.list) }

  predicate Feasible(s: State, steps: seq<Step>)
    decreases |steps|
  {
    steps != [] ==> Enabled(s, steps[0]) && Feasible(Apply(s, steps[0]), steps[1..])
  }

  function Run(s: State, steps: seq<Step>): State
    requires Feasible(s, steps)
    decreases |steps|
  {
    if steps == [] then s else Run(Apply(s, steps[0]), steps[1..])
  }

  /** No dequeue is called with a maximum of zero. */
  predicate Proper(step: Step) { step.Plain? ==> S.Proper(step.step) }

  predicate AllProper(steps: seq<Step>) { forall i :: 0 <= i < |steps| ==> Proper(steps[i]) }

  /** What the step is to the sub-queue, and to the free list. */
  function SubPart(s: State, step: Step): seq<S.Step>
    requires Enabled(s, step)
  {
    match step
    case Plain(step) => [step]
    case Free(u, giving) => [S.Queue(giving)]
    case StartGet(u) => []
    case Inside(u) => []
    case HandOut(u, ours) =>
      var n := s.list.threads[u].n;
      [S.Queue(if ours then Q.Produce(Q.Take(n)) else Q.Borrow(n))]
    case AllocateOurs(block) => [S.Queue(Q.Produce(Q.Take(block)))]
    case AllocateTheirs(block, cell) => [S.Queue(Q.Obtain(block, cell))]
  }

  function ListPart(s: State, step: Step): seq<F.Step>
    requires Enabled(s, step)
  {
    match step
    case Plain(step) => []
    case Free(u, giving) => [F.StartAdd(u, Freed(s.sub.queue, giving).value)]
    case StartGet(u) => [F.StartGet(u)]
    case Inside(u) => [F.Advance(u)]
    case HandOut(u, ours) => [F.Advance(u)]
    case AllocateOurs(block) => [F.Allocate(block)]
    case AllocateTheirs(block, cell) => [F.Allocate(block)]
  }

  function SubSteps(s: State, steps: seq<Step>): seq<S.Step>
    requires Feasible(s, steps)
    decreases |steps|
  {
    if steps == [] then [] else SubPart(s, steps[0]) + SubSteps(Apply(s, steps[0]), steps[1..])
  }

  function ListSteps(s: State, steps: seq<Step>): seq<F.Step>
    requires Feasible(s, steps)
    decreases |steps|
  {
    if steps == [] then [] else ListPart(s, steps[0]) + ListSteps(Apply(s, steps[0]), steps[1..])
  }
}
