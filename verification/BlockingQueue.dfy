/** The blocking queue and its lightweight semaphore.

    A producer enqueues into the inner queue and then signals as many permits.  A consumer acquires permits,
    trying first, then spinning, then waiting on a kernel semaphore, perhaps with a time-out, and then
    dequeues from the inner queue until it has as many elements as permits.  Single operations are bulk
    operations with a maximum of one.  Each access to `m_count`, to the kernel semaphore and to the inner
    queue is one step; a dequeue from the inner queue may come back with fewer elements than there are, or
    none, and a timed wait may time out at any moment. */
module BlockingQueue {
  import opened ThreadSums

  type Tid = nat

  const SPINS: nat := 10000

  datatype Mode = Try | Wait | Timed

  /** What a thread is doing; consumers carry the mode and maximum of their call.  `got` permits were acquired
      before the current attempt. */
  datatype Pc =
    | Idle
    | Signal(n: nat)
    | Post(k: nat)
    | TryLoad(mode: Mode, max: nat, got: nat)
    | TryCas(mode: Mode, max: nat, got: nat, seen: int)
    | Spin(mode: Mode, max: nat, left: nat)
    | SpinCas(mode: Mode, max: nat, left: nat, seen: int)
    | Decrement(mode: Mode, max: nat)
    | KernelWait(mode: Mode, max: nat)
    | UndoLoad(mode: Mode, max: nat)
    | UndoTry(mode: Mode, max: nat)
    | UndoCas(mode: Mode, max: nat, seen: int)
    | Dequeue(mode: Mode, max: nat, want: nat, count: nat)
    | Return(mode: Mode, max: nat, count: nat)

  /** `count` is `m_count`, `kernel` the value of the kernel semaphore, `inner` the number of elements in the
      inner queue.  The other counters only record history: elements enqueued and removed, permits issued and
      granted. */
  datatype State = State(
    count: int, kernel: nat, inner: nat,
    enqueued: nat, removed: nat, issued: nat, granted: nat,
    threads: map<Tid, Pc>)

  /** `ok` lets a compare-and-swap that may fail spuriously succeed, or a timed wait not time out; `taken` is
      how many elements a dequeue from the inner queue yields. */
  datatype Step =
    | Enqueue(t: Tid, n: nat)
    | StartDequeue(t: Tid, mode: Mode, max: nat)
    | Advance(t: Tid, ok: bool, taken: nat)

  function Min(a: int, b: int): int { if a < b then a else b }

  function Go(s: State, t: Tid, pc: Pc): State { s.(threads := s.threads[t := pc]) }

  /** How many permits an attempt to acquire up to `max` gets out of `seen`. */
  function Share(seen: int, max: nat): nat
    requires seen > 0
  {
    if seen > max then max else seen
  }

  /** After `tryWaitMany`: wait if nothing was acquired and the call is to wait. */
  function Acquired(mode: Mode, max: nat, total: nat): Pc {
    if total == 0 && !mode.Try? && max > 0 then Spin(mode, max, SPINS) else Dequeue(mode, max, total, 0)
  }

  /** After the slow path has acquired one permit: try for the others. */
  function One(mode: Mode, max: nat): Pc {
    if max > 1 then TryLoad(mode, max, 1) else Dequeue(mode, max, 1, 0)
  }

  predicate Defined(s: State, t: Tid, ok: bool, taken: nat) {
    && t in s.threads && !s.threads[t].Idle?
    && match s.threads[t]
       case Idle => false
       case Signal(n) => true
       case Post(k) => k > 0
       case TryLoad(mode, max, got) => got <= max
       case TryCas(mode, max, got, seen) => got <= max
       case Spin(mode, max, left) => true
       case SpinCas(mode, max, left, seen) => seen > 0 && left > 0
       case Decrement(mode, max) => true
       case KernelWait(mode, max) => s.kernel > 0 || (mode.Timed? && !ok)
       case UndoLoad(mode, max) => true
       case UndoTry(mode, max) => true
       case UndoCas(mode, max, seen) => true
       case Dequeue(mode, max, want, count) => count <= want && taken <= want - count && taken <= s.inner
       case Return(mode, max, count) => true
  }

  function AdvanceThread(s: State, t: Tid, ok: bool, taken: nat): State
    requires Defined(s, t, ok, taken)
  {
    match s.threads[t]
    case Signal(n) =>
      var toRelease := Min(-s.count, n);
      Go(s.(count := s.count + n, issued := s.issued + n), t, if toRelease > 0 then Post(toRelease) else Idle)
    case Post(k) => Go(s.(kernel := s.kernel + 1), t, if k > 1 then Post(k - 1) else Idle)
    case TryLoad(mode, max, got) => Go(s, t, TryCas(mode, max, got, s.count))
    case TryCas(mode, max, got, seen) =>
      if seen <= 0 then Go(s, t, Acquired(mode, max, got))
      else if s.count == seen && ok then
        var share := Share(seen, max - got);
        Go(s.(count := s.count - share, granted := s.granted + share), t, Acquired(mode, max, got + share))
      else Go(s, t, TryCas(mode, max, got, s.count))
    case Spin(mode, max, left) =>
      if left == 0 then Go(s, t, Decrement(mode, max))
      else Go(s, t, if s.count > 0 then SpinCas(mode, max, left, s.count) else Spin(mode, max, left - 1))
    case SpinCas(mode, max, left, seen) =>
      if s.count == seen then
        var share := Share(seen, max);
        Go(s.(count := s.count - share, granted := s.granted + share), t, Dequeue(mode, max, share, 0))
      else Go(s, t, Spin(mode, max, left - 1))
    case Decrement(mode, max) =>
      if s.count > 0 then Go(s.(count := s.count - 1, granted := s.granted + 1), t, One(mode, max))
      else Go(s.(count := s.count - 1), t, KernelWait(mode, max))
    case KernelWait(mode, max) =>
      if mode.Timed? && !ok then Go(s, t, UndoLoad(mode, max))
      else Go(s.(kernel := s.kernel - 1, granted := s.granted + 1), t, One(mode, max))
    case UndoLoad(mode, max) => Go(s, t, if s.count >= 0 then UndoTry(mode, max) else UndoCas(mode, max, s.count))
    case UndoTry(mode, max) =>
      if s.kernel > 0 then Go(s.(kernel := s.kernel - 1, granted := s.granted + 1), t, One(mode, max))
      else Go(s, t, UndoLoad(mode, max))
    case UndoCas(mode, max, seen) =>
      if s.count == seen then Go(s.(count := s.count + 1), t, Dequeue(mode, max, 0, 0))
      else Go(s, t, UndoLoad(mode, max))
    case Dequeue(mode, max, want, count) =>
      if count == want then Go(s, t, Return(mode, max, count))
      else Go(s.(inner := s.inner - taken, removed := s.removed + taken), t, Dequeue(mode, max, want, count + taken))
    case Return(mode, max, count) => Go(s, t, Idle)
  }

  predicate Enabled(s: State, step: Step) {
    match step
    case Enqueue(t, n) => t in s.threads && s.threads[t].Idle?
    case StartDequeue(t, mode, max) => t in s.threads && s.threads[t].Idle?
    case Advance(t, ok, taken) => Defined(s, t, ok, taken)
  }

  function Apply(s: State, step: Step): State
    requires Enabled(s, step)
  {
    match step
    case Enqueue(t, n) => Go(s.(inner := s.inner + n, enqueued := s.enqueued + n), t, Signal(n))
    case StartDequeue(t, mode, max) => Go(s, t, TryLoad(mode, max, 0))
    case Advance(t, ok, taken) => AdvanceThread(s, t, ok, taken)
  }

  predicate Init(s: State) {
    && s.count == s.kernel == s.inner == s.enqueued == s.removed == s.issued == s.granted == 0
    && forall t :: t in s.threads ==> s.threads[t] == Idle
  }

  // ---------- the invariant ----------

  /** Has decremented the count on the slow path and neither been granted a permit nor undone it. */
  function WaiterWeight(): Pc -> nat {
    (pc: Pc) => if pc.KernelWait? || pc.UndoLoad? || pc.UndoTry? || pc.UndoCas? then 1 else 0
  }

  /** Kernel posts that a running signal still owes. */
  function OwedWeight(): Pc -> nat { (pc: Pc) => if pc.Post? then pc.k else 0 }

  /** Elements enqueued whose signal is still to come. */
  function UnsignalledWeight(): Pc -> nat { (pc: Pc) => if pc.Signal? then pc.n else 0 }

  /** Permits for which the thread has not dequeued an element yet. */
  function HeldWeight(): Pc -> nat {
    (pc: Pc) => if pc.TryLoad? || pc.TryCas? then pc.got
                else if pc.Dequeue? && pc.count <= pc.want then pc.want - pc.count else 0
  }

  ghost function Waiters(s: State): nat { Sum(s.threads, WaiterWeight()) }
  ghost function Owed(s: State): nat { Sum(s.threads, OwedWeight()) }
  ghost function Unsignalled(s: State): nat { Sum(s.threads, UnsignalledWeight()) }
  ghost function Held(s: State): nat { Sum(s.threads, HeldWeight()) }

  function Deficit(count: int): nat { if count < 0 then -count else 0 }

  predicate PcOk(pc: Pc) {
    match pc
    case Idle => true
    case Signal(n) => true
    case Post(k) => k > 0
    case TryLoad(mode, max, got) => got <= max
    case TryCas(mode, max, got, seen) => got <= max
    case Spin(mode, max, left) => max > 0 && !mode.Try?
    case SpinCas(mode, max, left, seen) => max > 0 && !mode.Try? && seen > 0 && left > 0
    case Decrement(mode, max) => max > 0 && !mode.Try?
    case KernelWait(mode, max) => max > 0 && !mode.Try?
    case UndoLoad(mode, max) => max > 0 && mode.Timed?
    case UndoTry(mode, max) => max > 0 && mode.Timed?
    case UndoCas(mode, max, seen) => max > 0 && mode.Timed? && seen < 0
    case Dequeue(mode, max, want, count) => count <= want <= max && (mode.Wait? && max > 0 ==> want > 0)
    case Return(mode, max, count) => count <= max && (mode.Wait? && max > 0 ==> count > 0)
  }

  ghost predicate Inv(s: State) {
    && s.count == s.issued - s.granted - Waiters(s)
    && Waiters(s) == s.kernel + Owed(s) + Deficit(s.count)
    && s.enqueued == s.issued + Unsignalled(s)
    && s.enqueued == s.inner + s.removed
    && s.granted == s.removed + Held(s)
    && forall t :: t in s.threads ==> PcOk(s.threads[t])
  }

  function Change(f: Pc -> nat, before: Pc, after: Pc): int { f(after) - f(before) }

  /** Thread `t` goes on to `pc` while the counters change in step with its weights. */
  ghost predicate Balanced(s: State, s': State, t: Tid, pc: Pc) {
    && t in s.threads && s'.threads == s.threads[t := pc] && PcOk(pc)
    && s'.count - s.count
       == s'.issued - s.issued - (s'.granted - s.granted) - Change(WaiterWeight(), s.threads[t], pc)
    && Change(WaiterWeight(), s.threads[t], pc)
       == s'.kernel - s.kernel + Change(OwedWeight(), s.threads[t], pc) + Deficit(s'.count) - Deficit(s.count)
    && s'.enqueued - s.enqueued == s'.issued - s.issued + Change(UnsignalledWeight(), s.threads[t], pc)
    && s'.enqueued - s.enqueued == s'.inner - s.inner + s'.removed - s.removed
    && s'.granted - s.granted == s'.removed - s.removed + Change(HeldWeight(), s.threads[t], pc)
  }

  lemma BalanceKeepsInv(s: State, s': State, t: Tid, pc: Pc)
    requires Inv(s) && Balanced(s, s', t, pc)
    ensures Inv(s')
  {
    SumSet(s.threads, WaiterWeight(), t, pc);
    SumSet(s.threads, OwedWeight(), t, pc);
    SumSet(s.threads, UnsignalledWeight(), t, pc);
    SumSet(s.threads, HeldWeight(), t, pc);
  }

  /** Signalling, and dequeuing from the inner queue. */
  lemma QueueBalances(s: State, t: Tid, ok: bool, taken: nat)
    requires Defined(s, t, ok, taken) && PcOk(s.threads[t])
    requires var pc := s.threads[t]; pc.Signal? || pc.Post? || pc.Dequeue? || pc.Return?
    ensures var s' := AdvanceThread(s, t, ok, taken); Balanced(s, s', t, s'.threads[t])
  {
  }

  /** Trying and spinning. */
  lemma TryBalances(s: State, t: Tid, ok: bool, taken: nat)
    requires Defined(s, t, ok, taken) && PcOk(s.threads[t])
    requires var pc := s.threads[t]; pc.TryLoad? || pc.TryCas? || pc.Spin? || pc.SpinCas?
    ensures var s' := AdvanceThread(s, t, ok, taken); Balanced(s, s', t, s'.threads[t])
  {
  }

  /** The slow path. */
  lemma WaitBalances(s: State, t: Tid, ok: bool, taken: nat)
    requires Defined(s, t, ok, taken) && PcOk(s.threads[t])
    requires var pc := s.threads[t]; pc.Decrement? || pc.KernelWait?
    ensures var s' := AdvanceThread(s, t, ok, taken); Balanced(s, s', t, s'.threads[t])
  {
  }

  /** The undo loop after a time-out. */
  lemma UndoBalances(s: State, t: Tid, ok: bool, taken: nat)
    requires Defined(s, t, ok, taken) && PcOk(s.threads[t])
    requires var pc := s.threads[t]; pc.UndoLoad? || pc.UndoTry? || pc.UndoCas?
    ensures var s' := AdvanceThread(s, t, ok, taken); Balanced(s, s', t, s'.threads[t])
  {
  }

  lemma AdvanceBalances(s: State, t: Tid, ok: bool, taken: nat)
    requires Defined(s, t, ok, taken) && PcOk(s.threads[t])
    ensures var s' := AdvanceThread(s, t, ok, taken); Balanced(s, s', t, s'.threads[t])
  {
    hide Balanced, AdvanceThread, PcOk;
    var pc := s.threads[t];
    if pc.Signal? || pc.Post? || pc.Dequeue? || pc.Return? {
      QueueBalances(s, t, ok, taken);
    } else if pc.TryLoad? || pc.TryCas? || pc.Spin? || pc.SpinCas? {
      TryBalances(s, t, ok, taken);
    } else if pc.Decrement? || pc.KernelWait? {
      WaitBalances(s, t, ok, taken);
    } else {
      UndoBalances(s, t, ok, taken);
    }
  }

  lemma StartBalances(s: State, step: Step)
    requires Enabled(s, step) && !step.Advance?
    ensures Balanced(s, Apply(s, step), step.t, Apply(s, step).threads[step.t])
  {
  }

  lemma StepKeepsInv(s: State, step: Step)
    requires Inv(s) && Enabled(s, step)
    ensures Inv(Apply(s, step))
  {
    hide AdvanceThread, PcOk;
    if step.Advance? {
      AdvanceBalances(s, step.t, step.ok, step.taken);
    } else {
      StartBalances(s, step);
    }
    BalanceKeepsInv(s, Apply(s, step), step.t, Apply(s, step).threads[step.t]);
  }
}
