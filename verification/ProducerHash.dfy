/** The hash that maps a thread to its implicit producer.

    A chain of tables with linear probing, each larger than the one before; table `h` has table `h - 1` as its
    predecessor.  Threads look for their own id from the newest table they know back to the oldest, copy what
    they find in an older table into that newest one, or create a producer and insert it.  Keys are inserted by
    compare-and-swap and never removed.  Each access to shared memory is one step; allocations may fail. */
module ProducerHash {
  import opened Ring

  type Tid = nat
  type Producer = nat

  datatype Option<T> = None | Some(value: T)

  datatype Slot = Slot(key: Option<Tid>, value: Option<Producer>)

  datatype Table = Table(capacity: nat, slots: seq<Slot>)

  /** `n` counts the probes of the current loop; the lookup probes table `h`. */
  datatype Pc =
    | Idle
    | Lookup(main: nat, h: nat, n: nat)
    | Migrate(main: nat, n: nat, value: Option<Producer>)
    | MigrateCas(main: nat, n: nat, value: Option<Producer>)
    | MigrateStore(main: nat, n: nat, value: Option<Producer>)
    | CountUp(main: nat)
    | TestLock(main: nat, newCount: nat)
    | Reload(newCount: nat)
    | Allocate(main: nat, newCount: nat)
    | FailCount
    | FailUnlock
    | Unlock(main: nat, newCount: nat)
    | Check(main: nat, newCount: nat)
    | LoadMain(newCount: nat)
    | Create(main: nat)
    | CreateFail
    | Insert(main: nat, n: nat, producer: Producer)
    | InsertCas(main: nat, n: nat, producer: Producer)
    | InsertStore(main: nat, n: nat, producer: Producer)
    | Done(result: Option<Producer>)

  /** A thread has a fixed hash of its id. */
  datatype Thread = Thread(hash: nat, pc: Pc)

  /** `created` is the number of producers that exist. */
  datatype State = State(tables: seq<Table>, count: nat, lock: bool, created: nat, threads: map<Tid, Thread>)

  /** `ok` says whether an allocation succeeds. */
  datatype Step = Call(t: Tid) | Advance(t: Tid, ok: bool)

  function Half(capacity: nat): nat { capacity / 2 }

  /** Three quarters: `(capacity >> 1) + (capacity >> 2)`. */
  function Limit(capacity: nat): nat { capacity / 2 + capacity / 4 }

  /** The doubling loop that chooses the capacity of a new table. */
  function NewCapacity(capacity: nat, newCount: nat): (r: nat)
    requires capacity > 0
    ensures r >= capacity && newCount < Half(r)
    decreases newCount + 1 - Half(capacity)
  {
    if newCount >= Half(capacity) then
      assert capacity >= 2 ==> Half(2 * capacity) > Half(capacity);
      NewCapacity(2 * capacity, newCount)
    else capacity
  }

  function EmptyTable(capacity: nat): Table { Table(capacity, seq(capacity, _ => Slot(None, None))) }

  function Last(s: State): nat
    requires |s.tables| > 0
  {
    |s.tables| - 1
  }

  // ---------- steps ----------

  predicate Shape(s: State) {
    && |s.tables| > 0
    && forall h :: 0 <= h < |s.tables| ==> s.tables[h].capacity > 0 && |s.tables[h].slots| == s.tables[h].capacity
  }

  /** The position of the `n`-th probe of thread `t` in table `h`: the code masks the index in every round. */
  function Pos(s: State, t: Tid, h: nat, n: nat): (i: int)
    requires Shape(s) && t in s.threads && h < |s.tables|
    ensures 0 <= i < s.tables[h].capacity
  {
    Wrap(s.threads[t].hash + n, s.tables[h].capacity)
  }

  function Probed(s: State, t: Tid, h: nat, n: nat): Slot
    requires Shape(s) && t in s.threads && h < |s.tables|
  {
    s.tables[h].slots[Pos(s, t, h, n)]
  }

  function Go(s: State, t: Tid, pc: Pc): State
    requires t in s.threads
  {
    s.(threads := s.threads[t := Thread(s.threads[t].hash, pc)])
  }

  function Put(s: State, h: nat, i: int, slot: Slot): State
    requires h < |s.tables| && 0 <= i < |s.tables[h].slots|
  {
    s.(tables := s.tables[h := Table(s.tables[h].capacity, s.tables[h].slots[i := slot])])
  }

  predicate Defined(s: State, t: Tid) {
    && Shape(s) && t in s.threads && !s.threads[t].pc.Idle?
    && match s.threads[t].pc
       case Lookup(main, h, n) => h <= main < |s.tables|
       case Migrate(main, n, value) => main < |s.tables|
       case MigrateCas(main, n, value) => main < |s.tables|
       case MigrateStore(main, n, value) => main < |s.tables|
       case CountUp(main) => main < |s.tables|
       case TestLock(main, newCount) => main < |s.tables|
       case Reload(newCount) => true
       case Allocate(main, newCount) => main < |s.tables|
       case FailCount => s.count > 0
       case FailUnlock => true
       case Unlock(main, newCount) => main < |s.tables|
       case Check(main, newCount) => main < |s.tables|
       case LoadMain(newCount) => true
       case Create(main) => main < |s.tables|
       case CreateFail => s.count > 0
       case Insert(main, n, producer) => main < |s.tables|
       case InsertCas(main, n, producer) => main < |s.tables|
       case InsertStore(main, n, producer) => main < |s.tables|
       case Done(result) => true
  }

  predicate Enabled(s: State, step: Step) {
    match step
    case Call(t) => Shape(s) && t in s.threads && s.threads[t].pc.Idle?
    case Advance(t, ok) => Defined(s, t)
  }

  function AdvanceThread(s: State, t: Tid, ok: bool): State
    requires Defined(s, t)
  {
    match s.threads[t].pc
    case Lookup(main, h, n) =>
      var slot := Probed(s, t, h, n);
      if slot.key == Some(t) then Go(s, t, if h != main then Migrate(main, 0, slot.value) else Done(slot.value))
      else if slot.key == None then Go(s, t, if h == 0 then CountUp(main) else Lookup(main, h - 1, 0))
      else Go(s, t, Lookup(main, h, n + 1))
    case Migrate(main, n, value) =>
      Go(s, t, if Probed(s, t, main, n).key == None then MigrateCas(main, n, value) else Migrate(main, n + 1, value))
    case MigrateCas(main, n, value) =>
      if Probed(s, t, main, n).key == None
      then Go(Put(s, main, Pos(s, t, main, n), Probed(s, t, main, n).(key := Some(t))), t, MigrateStore(main, n, value))
      else Go(s, t, Migrate(main, n + 1, value))
    case MigrateStore(main, n, value) =>
      Go(Put(s, main, Pos(s, t, main, n), Probed(s, t, main, n).(value := value)), t, Done(value))
    case CountUp(main) => Go(s.(count := s.count + 1), t, TestLock(main, s.count + 1))
    case TestLock(main, newCount) =>
      if newCount >= Half(s.tables[main].capacity) && !s.lock then Go(s.(lock := true), t, Reload(newCount))
      else Go(s, t, Check(main, newCount))
    case Reload(newCount) =>
      Go(s, t, if newCount >= Half(s.tables[Last(s)].capacity) then Allocate(Last(s), newCount) else Unlock(Last(s), newCount))
    case Allocate(main, newCount) =>
      if ok then
        var capacity := NewCapacity(2 * s.tables[main].capacity, newCount);
        Go(s.(tables := s.tables + [EmptyTable(capacity)]), t, Unlock(|s.tables|, newCount))
      else Go(s, t, FailCount)
    case FailCount => Go(s.(count := s.count - 1), t, FailUnlock)
    case FailUnlock => Go(s.(lock := false), t, Done(None))
    case Unlock(main, newCount) => Go(s.(lock := false), t, Check(main, newCount))
    case Check(main, newCount) =>
      Go(s, t, if newCount < Limit(s.tables[main].capacity) then Create(main) else LoadMain(newCount))
    case LoadMain(newCount) => Go(s, t, TestLock(Last(s), newCount))
    case Create(main) =>
      if ok then Go(s.(created := s.created + 1), t, Insert(main, 0, s.created)) else Go(s, t, CreateFail)
    case CreateFail => Go(s.(count := s.count - 1), t, Done(None))
    case Insert(main, n, producer) =>
      Go(s, t, if Probed(s, t, main, n).key == None then InsertCas(main, n, producer) else Insert(main, n + 1, producer))
    case InsertCas(main, n, producer) =>
      if Probed(s, t, main, n).key == None
      then Go(Put(s, main, Pos(s, t, main, n), Probed(s, t, main, n).(key := Some(t))), t, InsertStore(main, n, producer))
      else Go(s, t, Insert(main, n + 1, producer))
    case InsertStore(main, n, producer) =>
      Go(Put(s, main, Pos(s, t, main, n), Probed(s, t, main, n).(value := Some(producer))), t, Done(Some(producer)))
    case Done(result) => Go(s, t, Idle)
  }

  function Apply(s: State, step: Step): State
    requires Enabled(s, step)
  {
    match step
    case Call(t) => Go(s, t, Lookup(Last(s), Last(s), 0))
    case Advance(t, ok) => AdvanceThread(s, t, ok)
  }

  const INITIAL_SIZE: nat := 32

  predicate Init(s: State) {
    && s.tables == [EmptyTable(INITIAL_SIZE)] && s.count == 0 && !s.lock && s.created == 0
    && forall t :: t in s.threads ==> s.threads[t].pc == Idle
  }

  // ---------- the invariant ----------

  /** What the proof knows beyond the state: each thread's producer, once it is created, and the count with
      which each thread reserved its slot. */
  datatype Aux = Aux(mine: map<Tid, Producer>, reserved: map<Tid, nat>)

  predicate KeyAt(s: State, h: nat, i: int, t: Tid) {
    h < |s.tables| && 0 <= i < |s.tables[h].slots| && s.tables[h].slots[i].key == Some(t)
  }

  ghost predicate InTable(s: State, h: nat, t: Tid) { exists i :: KeyAt(s, h, i, t) }

  /** The first `n` probes of thread `t` in table `h` meet keys only. */
  ghost predicate Packed(s: State, h: nat, t: Tid, n: nat)
    requires Shape(s) && h < |s.tables| && t in s.threads
  {
    forall j {:trigger Probed(s, t, h, j)} :: 0 <= j < n ==> Probed(s, t, h, j).key.Some?
  }

  /** ... of other threads. */
  ghost predicate Missed(s: State, h: nat, t: Tid, n: nat)
    requires Shape(s) && h < |s.tables| && t in s.threads
  {
    forall j {:trigger Probed(s, t, h, j)} :: 0 <= j < n ==> Probed(s, t, h, j).key.Some? && Probed(s, t, h, j).key != Some(t)
  }

  /** Thread `t` finds slot `i` with its `n`-th probe. */
  ghost predicate Reaches(s: State, h: nat, i: int, t: Tid, n: nat)
    requires Shape(s) && h < |s.tables| && t in s.threads
  {
    Pos(s, t, h, n) == i && Packed(s, h, t, n)
  }

  /** Thread `t` has inserted its key at slot `i` but not stored the value yet. */
  predicate Storing(s: State, t: Tid, h: nat, i: int)
    requires Shape(s) && t in s.threads && h < |s.tables|
  {
    var pc := s.threads[t].pc;
    (pc.MigrateStore? || pc.InsertStore?) && pc.main == h && Pos(s, t, h, pc.n) == i
  }

  ghost predicate SlotOk(s: State, a: Aux, h: nat, i: int)
    requires Shape(s) && h < |s.tables| && 0 <= i < s.tables[h].capacity
  {
    var slot := s.tables[h].slots[i];
    slot.key.Some? ==>
      var t := slot.key.value;
      && t in s.threads && t in a.mine && t in a.reserved && a.reserved[t] < Limit(s.tables[h].capacity)
      && (slot.value == Some(a.mine[t]) || Storing(s, t, h, i))
      && (exists n: nat :: Reaches(s, h, i, t, n))
  }

  ghost predicate TableOk(s: State, a: Aux, h: nat)
    requires Shape(s) && h < |s.tables|
  {
    && (forall i {:trigger SlotOk(s, a, h, i)} :: 0 <= i < s.tables[h].capacity ==> SlotOk(s, a, h, i))
    && (forall t, i, j :: KeyAt(s, h, i, t) && KeyAt(s, h, j, t) ==> i == j)
    && (h + 1 < |s.tables| ==> s.tables[h].capacity < s.tables[h + 1].capacity)
  }

  /** In some table up to `h`. */
  ghost predicate Placed(s: State, t: Tid, h: nat) { exists g: nat :: g <= h && InTable(s, g, t) }

  /** Thread `t` has its producer and can find it, or has none. */
  ghost predicate Settled(s: State, a: Aux, t: Tid, h: nat) {
    (t in a.mine ==> Placed(s, t, h)) && (t in a.mine <==> t in a.reserved)
  }

  ghost predicate HasReserved(s: State, a: Aux, t: Tid, newCount: nat) {
    t !in a.mine && t in a.reserved && a.reserved[t] == newCount
  }

  /** Thread `t` has its producer and is about to put it into table `main`, where there is room for it. */
  ghost predicate Inserting(s: State, a: Aux, t: Tid, main: nat, n: nat, value: Option<Producer>)
    requires Shape(s) && t in s.threads
  {
    && main < |s.tables| && t in a.mine && value == Some(a.mine[t])
    && t in a.reserved && a.reserved[t] < Limit(s.tables[main].capacity)
    && !InTable(s, main, t) && Packed(s, main, t, n)
  }

  ghost predicate Stored(s: State, a: Aux, t: Tid, main: nat, n: nat, value: Option<Producer>)
    requires Shape(s) && t in s.threads
  {
    && main < |s.tables| && t in a.mine && value == Some(a.mine[t]) && t in a.reserved
    && KeyAt(s, main, Pos(s, t, main, n), t)
  }

  ghost predicate ThreadOk(s: State, a: Aux, t: Tid)
    requires Shape(s) && t in s.threads
  {
    match s.threads[t].pc
    case Idle => Settled(s, a, t, Last(s))
    case Lookup(main, h, n) =>
      && h <= main < |s.tables| && Settled(s, a, t, h) && Missed(s, h, t, n)
      && forall g :: h < g <= main ==> !InTable(s, g, t)
    case Migrate(main, n, value) => Inserting(s, a, t, main, n, value) && Placed(s, t, main)
    case MigrateCas(main, n, value) => Inserting(s, a, t, main, n, value) && Placed(s, t, main)
    case MigrateStore(main, n, value) => Stored(s, a, t, main, n, value)
    case CountUp(main) => main < |s.tables| && t !in a.mine && t !in a.reserved
    case TestLock(main, newCount) => main < |s.tables| && HasReserved(s, a, t, newCount)
    case Reload(newCount) => HasReserved(s, a, t, newCount)
    case Allocate(main, newCount) => main == Last(s) && HasReserved(s, a, t, newCount)
    case FailCount => t !in a.mine && t in a.reserved
    case FailUnlock => t !in a.mine && t !in a.reserved
    case Unlock(main, newCount) => main < |s.tables| && HasReserved(s, a, t, newCount)
    case Check(main, newCount) => main < |s.tables| && HasReserved(s, a, t, newCount)
    case LoadMain(newCount) => HasReserved(s, a, t, newCount)
    case Create(main) =>
      main < |s.tables| && t !in a.mine && t in a.reserved && a.reserved[t] < Limit(s.tables[main].capacity)
    case CreateFail => t !in a.mine && t in a.reserved
    case Insert(main, n, producer) => Inserting(s, a, t, main, n, Some(producer))
    case InsertCas(main, n, producer) => Inserting(s, a, t, main, n, Some(producer))
    case InsertStore(main, n, producer) => Stored(s, a, t, main, n, Some(producer))
    case Done(result) => Settled(s, a, t, Last(s)) && (result.Some? ==> t in a.mine && result.value == a.mine[t])
  }

  /** The thread holds the resize lock. */
  predicate InLock(pc: Pc) { pc.Reload? || pc.Allocate? || pc.FailCount? || pc.FailUnlock? || pc.Unlock? }

  ghost predicate LockOk(s: State) {
    && (forall t :: t in s.threads && InLock(s.threads[t].pc) ==> s.lock)
    && (forall t, u :: t in s.threads && u in s.threads && InLock(s.threads[t].pc) && InLock(s.threads[u].pc) ==> t == u)
  }

  function Below(reserved: map<Tid, nat>, m: int): set<Tid> { set t | t in reserved && reserved[t] <= m }

  /** At most `m` threads have reserved with a count of at most `m`. */
  ghost predicate CountOk(s: State, a: Aux) {
    && s.count == |a.reserved|
    && forall m: nat {:trigger Below(a.reserved, m)} :: |Below(a.reserved, m)| <= m
  }

  ghost predicate MineOk(s: State, a: Aux) {
    && (forall t :: t in a.mine ==> t in s.threads && a.mine[t] < s.created)
    && (forall t :: t in a.reserved ==> t in s.threads)
    && (forall t, u :: t in a.mine && u in a.mine && a.mine[t] == a.mine[u] ==> t == u)
  }

  ghost predicate Inv(s: State, a: Aux) {
    && Shape(s)
    && (forall h {:trigger TableOk(s, a, h)} :: 0 <= h < |s.tables| ==> TableOk(s, a, h))
    && (forall t :: t in s.threads ==> ThreadOk(s, a, t))
    && LockOk(s) && CountOk(s, a) && MineOk(s, a)
  }
}
