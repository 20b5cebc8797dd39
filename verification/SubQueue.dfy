/** A whole implicit sub-queue: the ticket protocol that grants indices, and the queue from which dequeuers then
    take what they have been granted.

    The two share `tailIndex` and `headIndex`.  A dequeuer goes through the ticket protocol; the step that adds to
    the head there is the step at which it gets its indices here, whatever they are.  It is done with the ticket
    protocol when it is done with its elements.  The store that publishes a bulk enqueue moves the tail of both. */
module SubQueue {
  import T = Tickets
  import Q = ImplicitQueue
  import R = ImplicitRuns

  type Tid = nat

  datatype State = State(tickets: T.State, queue: Q.State)

  datatype Step =
    | Start(t: Tid, max: nat)
    | Ticket(t: Tid)
    | Queue(step: Q.Step)

  /** Thread `t` is about to add `actual` to the head. */
  predicate Claims(s: State, t: Tid) { t in s.tickets.threads && s.tickets.threads[t].Claim? }

  predicate Enabled(s: State, step: Step) {
    match step
    case Start(t, max) => T.Enabled(T.Exact, s.tickets, T.Start(t, max))
    case Ticket(t) =>
      && T.Enabled(T.Exact, s.tickets, T.Advance(t)) && !s.tickets.threads[t].Reading?
      && (Claims(s, t) ==> s.tickets.threads[t].actual >= 0 && t in s.queue.consumers && s.queue.consumers[t].Idle?)
    case Queue(step) => !step.Grant? && Q.Enabled(s.queue, step)
  }

  /** The consumer's last step ends its call. */
  predicate Ends(s: State, step: Q.Step) {
    && step.Consume? && step.t in s.queue.consumers && s.queue.consumers[step.t].Busy? && s.queue.consumers[step.t].at.Done?
    && step.t in s.tickets.threads && s.tickets.threads[step.t].Reading?
  }

  function Apply(s: State, step: Step): State
    requires Enabled(s, step)
  {
    match step
    case Start(t, max) => s.(tickets := T.Apply(T.Exact, s.tickets, T.Start(t, max)))
    case Ticket(t) =>
      State(T.Apply(T.Exact, s.tickets, T.Advance(t)),
            if Claims(s, t) then Q.Granted(s.queue, t, s.tickets.threads[t].actual) else s.queue)
    case Queue(step) =>
      State(if Ends(s, step) then T.Apply(T.Exact, s.tickets, T.Advance(step.t))
            else T.Apply(T.Exact, s.tickets, T.Enqueue(|R.Published(s.queue, step)|)),
            Q.Apply(s.queue, step))
  }

  ghost predicate Init(s: State) {
    && T.Init(s.tickets) && Q.Init(s.queue)
    && (forall t :: t in s.tickets.threads <==> t in s.queue.consumers)
  }

  predicate Feasible(s: State, steps: seq<Step>)
    decreases |steps|
  {
    steps != [] ==> Enabled(s, steps[0]) && Feasible(Apply(s, steps[0]), steps[1..])
  }

  function Run(s: State, steps: seq<Step>): State
    requires Feasible(s, steps)
    decreases |steps|
  {
    if steps == [] then s else Run(Apply(s, steps[0]), steps[1..])
  }

  /** No dequeue is called with a maximum of zero. */
  predicate Proper(step: Step) { step.Start? ==> step.max > 0 }

  predicate AllProper(steps: seq<Step>) { forall i :: 0 <= i < |steps| ==> Proper(steps[i]) }

  /** What the run publishes, in order. */
  function Log(s: State, steps: seq<Step>): seq<Q.Elem>
    requires Feasible(s, steps)
    decreases |steps|
  {
    if steps == [] then []
    else (if steps[0].Queue? then R.Published(s.queue, steps[0].step) else []) + Log(Apply(s, steps[0]), steps[1..])
  }

  /** What the run delivers for index `y`. */
  function Received(s: State, steps: seq<Step>, y: nat): seq<Q.Elem>
    requires Feasible(s, steps)
    decreases |steps|
  {
    if steps == [] then []
    else (if steps[0].Queue? then R.Delivered(s.queue, steps[0].step, y) else []) + Received(Apply(s, steps[0]), steps[1..], y)
  }
}
