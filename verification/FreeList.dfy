/** The lock-free free list: a stack of nodes with a reference count in every node.

    Any number of threads run `add` and `try_get` concurrently.  Each access to a shared atomic
    variable is one step; a thread's program counter holds the local variables that are live at
    that point.  Reference words are 32-bit words that wrap around. */
module FreeList {
  import opened ThreadSums

  type Tid = nat
  type Node = nat

  /** Bit 31 of a reference word: the node should be on the free list. */
  const SHOULD_BE_ON_FREELIST: nat := 0x8000_0000
  const WORD: nat := 0x1_0000_0000
  type Word = w: nat | w < WORD
  /** With more threads than this, the count could carry into bit 31. */
  const MAX_THREADS: nat := 0x7FFF_FFFC

  datatype Link = Null | To(node: Node)

  datatype Cell = Cell(refs: Word, next: Link)

  /** Where `add_knowing_refcount_is_zero` returns to: the end of `add`, or the loop of `try_get`,
      whose local `head` is then the given link. */
  datatype Return = ToAdd | ToGet(head: Link)

  datatype Pc =
    | Idle
    | AddFlag(n: Node)
    | InsertLoadHead(n: Node, ret: Return)
    | InsertStoreNext(n: Node, head: Link, ret: Return)
    | InsertStoreRefs(n: Node, head: Link, ret: Return)
    | InsertCasHead(n: Node, head: Link, ret: Return)
    | InsertUndo(n: Node, head: Link, ret: Return)
    | GetLoadHead
    | GetLoadRefs(head: Link)
    | GetCasRefs(n: Node, refs: Word)
    | GetLoadNext(n: Node)
    | GetCasHead(n: Node, next: Link)
    | GetReleaseTwo(n: Node)
    | GetReleaseOne(n: Node, head: Link)

  /** `client` holds the nodes that the callers of the free list own at the moment. */
  datatype State = State(head: Link, nodes: map<Node, Cell>, client: set<Node>, threads: map<Tid, Pc>)

  datatype Step = Allocate(n: Node) | StartAdd(t: Tid, n: Node) | StartGet(t: Tid) | Advance(t: Tid)

  // ---------- reference words ----------

  predicate Flag(w: Word) { w >= SHOULD_BE_ON_FREELIST }

  /** The lower 31 bits. */
  function Count(w: Word): (c: nat)
    ensures c == w % SHOULD_BE_ON_FREELIST
  {
    if Flag(w) then w - SHOULD_BE_ON_FREELIST else w
  }

  function FetchAdd(w: Word, d: Word): (v: Word)
    ensures v == (w + d) % WORD
  {
    if w + d < WORD then w + d else w + d - WORD
  }

  function FetchSub(w: Word, d: Word): (v: Word)
    ensures v == (w - d) % WORD
  {
    if d <= w then w - d else w - d + WORD
  }

  // ---------- the steps ----------

  function Go(s: State, t: Tid, pc: Pc): State { s.(threads := s.threads[t := pc]) }

  function SetRefs(s: State, n: Node, w: Word): State
    requires n in s.nodes
  {
    s.(nodes := s.nodes[n := s.nodes[n].(refs := w)])
  }

  function AfterInsert(ret: Return): Pc {
    match ret
    case ToAdd => Idle
    case ToGet(head) => GetLoadRefs(head)
  }

  predicate InInsert(pc: Pc) {
    pc.InsertLoadHead? || pc.InsertStoreNext? || pc.InsertStoreRefs? || pc.InsertCasHead? || pc.InsertUndo?
  }

  predicate InGet(pc: Pc) {
    pc.GetLoadHead? || pc.GetLoadRefs? || pc.GetCasRefs? || pc.GetLoadNext? || pc.GetCasHead?
    || pc.GetReleaseTwo? || pc.GetReleaseOne?
  }

  /** The node that a thread's next access touches, if any, is allocated. */
  predicate Defined(s: State, pc: Pc) {
    if pc.Idle? || pc.GetLoadHead? then true
    else if pc.GetLoadRefs? then pc.head.To? ==> pc.head.node in s.nodes
    else pc.n in s.nodes
  }

  function AdvanceInsert(s: State, t: Tid): State
    requires t in s.threads && Defined(s, s.threads[t]) && InInsert(s.threads[t])
  {
    match s.threads[t]
    case InsertLoadHead(n, ret) =>
      Go(s, t, InsertStoreNext(n, s.head, ret))
    case InsertStoreNext(n, head, ret) =>
      Go(s.(nodes := s.nodes[n := s.nodes[n].(next := head)]), t, InsertStoreRefs(n, head, ret))
    case InsertStoreRefs(n, head, ret) =>
      Go(SetRefs(s, n, 1), t, InsertCasHead(n, head, ret))
    case InsertCasHead(n, head, ret) =>
      if s.head == head then Go(s.(head := To(n)), t, AfterInsert(ret))
      else Go(s, t, InsertUndo(n, s.head, ret))
    case InsertUndo(n, head, ret) =>
      var was := s.nodes[n].refs;
      var s' := SetRefs(s, n, FetchAdd(was, SHOULD_BE_ON_FREELIST - 1));
      if was == 1 then Go(s', t, InsertStoreNext(n, head, ret)) else Go(s', t, AfterInsert(ret))
  }

  function AdvanceAdd(s: State, t: Tid): State
    requires t in s.threads && Defined(s, s.threads[t]) && s.threads[t].AddFlag?
  {
    var n := s.threads[t].n;
    var was := s.nodes[n].refs;
    var s' := SetRefs(s, n, FetchAdd(was, SHOULD_BE_ON_FREELIST));
    Go(s', t, if was == 0 then InsertLoadHead(n, ToAdd) else Idle)
  }

  function AdvanceGet(s: State, t: Tid): State
    requires t in s.threads && Defined(s, s.threads[t]) && InGet(s.threads[t])
  {
    match s.threads[t]
    case GetLoadHead =>
      Go(s, t, GetLoadRefs(s.head))
    case GetLoadRefs(head) =>
      if head.Null? then Go(s, t, Idle)
      else
        var refs := s.nodes[head.node].refs;
        Go(s, t, if Count(refs) == 0 then GetLoadHead else GetCasRefs(head.node, refs))
    case GetCasRefs(n, refs) =>
      if s.nodes[n].refs == refs then Go(SetRefs(s, n, FetchAdd(refs, 1)), t, GetLoadNext(n))
      else Go(s, t, GetLoadHead)
    case GetLoadNext(n) =>
      Go(s, t, GetCasHead(n, s.nodes[n].next))
    case GetCasHead(n, next) =>
      if s.head == To(n) then Go(s.(head := next), t, GetReleaseTwo(n))
      else Go(s, t, GetReleaseOne(n, s.head))
    case GetReleaseTwo(n) =>
      var s' := SetRefs(s, n, FetchSub(s.nodes[n].refs, 2));
      Go(s'.(client := s.client + {n}), t, Idle)
    case GetReleaseOne(n, head) =>
      var was := s.nodes[n].refs;
      var s' := SetRefs(s, n, FetchSub(was, 1));
      Go(s', t, if was == SHOULD_BE_ON_FREELIST + 1 then InsertLoadHead(n, ToGet(head)) else GetLoadRefs(head))
  }

  predicate Enabled(s: State, step: Step) {
    match step
    case Allocate(n) => n !in s.nodes
    case StartAdd(t, n) => t in s.threads && s.threads[t].Idle? && n in s.client
    case StartGet(t) => t in s.threads && s.threads[t].Idle?
    case Advance(t) => t in s.threads && !s.threads[t].Idle? && Defined(s, s.threads[t])
  }

  /** A caller may only add a node it owns, and gives the node up by starting the call. */
  function Apply(s: State, step: Step): State
    requires Enabled(s, step)
  {
    match step
    case Allocate(n) => s.(nodes := s.nodes[n := Cell(0, Null)], client := s.client + {n})
    case StartAdd(t, n) => Go(s.(client := s.client - {n}), t, AddFlag(n))
    case StartGet(t) => Go(s, t, GetLoadHead)
    case Advance(t) =>
      var pc := s.threads[t];
      if pc.AddFlag? then AdvanceAdd(s, t) else if InInsert(pc) then AdvanceInsert(s, t) else AdvanceGet(s, t)
  }

  predicate Init(s: State) {
    && s.head == Null && s.nodes == map[] && s.client == {}
    && |s.threads| <= MAX_THREADS
    && forall t :: t in s.threads ==> s.threads[t] == Idle
  }

  // ---------- the invariant ----------

  /** Where a node is.  `OnList(i)` counts from the bottom of the stack. */
  datatype Place = Client | Adding(t: Tid) | OnList(i: nat) | Inserting(t: Tid) | Popped(t: Tid) | Waiting

  /** What the proof knows beyond the state: each node's place, and the stack, bottom first. */
  datatype Aux = Aux(place: map<Node, Place>, stack: seq<Node>)

  predicate Holding(pc: Pc, n: Node) {
    (pc.GetLoadNext? || pc.GetCasHead? || pc.GetReleaseOne?) && pc.n == n
  }

  predicate Unpublished(pc: Pc, n: Node) {
    (pc.InsertLoadHead? || pc.InsertStoreNext? || pc.InsertStoreRefs?) && pc.n == n
  }

  predicate Published(pc: Pc, n: Node) {
    (pc.InsertCasHead? || pc.InsertUndo?) && pc.n == n
  }

  ghost function HoldingWeight(n: Node): Pc -> nat {
    (pc: Pc) => if Holding(pc, n) then 1 else 0
  }

  /** The number of threads that hold a reference to `n` taken by `try_get`. */
  ghost function Holders(threads: map<Tid, Pc>, n: Node): nat { Sum(threads, HoldingWeight(n)) }

  /** References that are not held by a reader: the list's own one, plus the popper's. */
  ghost function ListRefs(s: State, place: Place, n: Node): nat {
    match place
    case OnList(_) => 1
    case Inserting(t) => if t in s.threads && Published(s.threads[t], n) then 1 else 0
    case Popped(_) => 2
    case _ => 0
  }

  ghost predicate LinkOk(s: State, l: Link) { l.To? ==> l.node in s.nodes }

  /** What the node at height `i` must point to; at the full height, what the head must be. */
  ghost function Below(stack: seq<Node>, i: nat): Link
    requires i <= |stack|
  {
    if i == 0 then Null else To(stack[i - 1])
  }

  ghost predicate StackAt(s: State, a: Aux, i: nat)
    requires i < |a.stack|
  {
    var n := a.stack[i];
    n in s.nodes && n in a.place && a.place[n] == OnList(i) && s.nodes[n].next == Below(a.stack, i)
  }

  ghost predicate StackOk(s: State, a: Aux) {
    && (forall n :: n in a.place <==> n in s.nodes)
    && (forall i {:trigger StackAt(s, a, i)} :: 0 <= i < |a.stack| ==> StackAt(s, a, i))
    && s.head == Below(a.stack, |a.stack|)
  }

  ghost predicate ReturnOk(s: State, ret: Return) { ret.ToGet? ==> LinkOk(s, ret.head) }

  ghost predicate InsertOk(s: State, a: Aux, t: Tid, n: Node, ret: Return, flagged: bool) {
    && n in s.nodes && n in a.place && a.place[n] == Inserting(t) && ReturnOk(s, ret)
    && if flagged then s.nodes[n].refs == SHOULD_BE_ON_FREELIST else !Flag(s.nodes[n].refs)
  }

  ghost predicate ThreadOk(s: State, a: Aux, t: Tid)
    requires t in s.threads
  {
    match s.threads[t]
    case Idle => true
    case AddFlag(n) => n in s.nodes && n in a.place && a.place[n] == Adding(t)
    case InsertLoadHead(n, ret) => InsertOk(s, a, t, n, ret, true)
    case InsertStoreNext(n, head, ret) => InsertOk(s, a, t, n, ret, true)
    case InsertStoreRefs(n, head, ret) => InsertOk(s, a, t, n, ret, true) && s.nodes[n].next == head
    case InsertCasHead(n, head, ret) => InsertOk(s, a, t, n, ret, false) && s.nodes[n].next == head
    case InsertUndo(n, head, ret) => InsertOk(s, a, t, n, ret, false)
    case GetLoadHead => true
    case GetLoadRefs(head) => LinkOk(s, head)
    case GetCasRefs(n, refs) => n in s.nodes && Count(refs) != 0
    case GetLoadNext(n) => n in s.nodes
    case GetCasHead(n, next) => n in s.nodes && s.nodes[n].next == next
    case GetReleaseTwo(n) => n in s.nodes && n in a.place && a.place[n] == Popped(t)
    case GetReleaseOne(n, head) => n in s.nodes && LinkOk(s, head)
  }

  /** The link between a node's place, its reference word and the threads. */
  ghost predicate NodeOk(s: State, a: Aux, n: Node)
    requires n in s.nodes
  {
    && n in a.place
    && var refs, place := s.nodes[n].refs, a.place[n];
    && Count(refs) == Holders(s.threads, n) + ListRefs(s, place, n)
    && (n in s.client <==> place == Client)
    && match place
       case Client => !Flag(refs)
       case Adding(t) => !Flag(refs) && t in s.threads && s.threads[t] == AddFlag(n)
       case OnList(i) => !Flag(refs) && i < |a.stack| && a.stack[i] == n
       case Inserting(t) =>
         t in s.threads && (if Flag(refs) then Unpublished(s.threads[t], n) && Count(refs) == 0 else Published(s.threads[t], n))
       case Popped(t) => !Flag(refs) && t in s.threads && s.threads[t] == GetReleaseTwo(n)
       case Waiting => Flag(refs) && Count(refs) > 0
  }

  ghost predicate Inv(s: State, a: Aux) {
    && |s.threads| <= MAX_THREADS
    && StackOk(s, a)
    && s.client <= s.nodes.Keys
    && (forall t :: t in s.threads ==> ThreadOk(s, a, t))
    && (forall n :: n in s.nodes ==> NodeOk(s, a, n))
  }

  // ---------- every step keeps the invariant ----------

  lemma HoldersChange(s: State, t: Tid, pc: Pc, n: Node)
    requires t in s.threads
    ensures Holders(s.threads[t := pc], n) + (if Holding(s.threads[t], n) then 1 else 0)
         == Holders(s.threads, n) + (if Holding(pc, n) then 1 else 0)
  {
    SumSet(s.threads, HoldingWeight(n), t, pc);
  }

  lemma HoldersBound(threads: map<Tid, Pc>, n: Node)
    ensures Holders(threads, n) <= |threads|
    ensures forall t :: t in threads && Holding(threads[t], n) ==> Holders(threads, n) > 0
  {
    SumAtMostThreads(threads, HoldingWeight(n));
    SumZero(threads, HoldingWeight(n));
  }

  /** `t` takes a step that concerns node `n` only, and the invariant holds again for both. */
  ghost predicate LocalStep(s: State, a: Aux, t: Tid, n: Node, s': State, a': Aux)
  {
    && t in s.threads && t in s'.threads && s'.threads == s.threads[t := s'.threads[t]]
    && n in s.nodes && n in s'.nodes && s'.nodes == s.nodes[n := s'.nodes[n]]
    && n in a.place && n in a'.place && a'.place == a.place[n := a'.place[n]]
    && s'.client - {n} == s.client - {n}
    && StaysOn(a.stack, a'.stack, n)
    && (HasNode(s.threads[t]) ==> s.threads[t].n == n)
    && (HasNode(s'.threads[t]) ==> s'.threads[t].n == n)
    && (s'.nodes[n].next == s.nodes[n].next || Holders(s.threads, n) == 0)
    && (OwnedByOther(a.place[n], t) ==>
          && a'.place[n] == a.place[n] && s'.nodes[n].next == s.nodes[n].next
          && (s'.nodes[n] == s.nodes[n] || (!Flag(s.nodes[n].refs) && !Flag(s'.nodes[n].refs))))
    && StackOk(s', a') && ThreadOk(s', a', t) && NodeOk(s', a', n)
  }

  ghost predicate OwnedByOther(place: Place, t: Tid) {
    (place.Adding? || place.Inserting? || place.Popped?) && place.t != t
  }

  ghost predicate StaysOn(stack: seq<Node>, stack': seq<Node>, n: Node) {
    forall i :: 0 <= i < |stack| && stack[i] != n ==> i < |stack'| && stack'[i] == stack[i]
  }

  predicate HasNode(pc: Pc) { !pc.Idle? && !pc.GetLoadHead? && !pc.GetLoadRefs? }

  /** The other threads do not notice a local step. */
  lemma OtherThreads(s: State, a: Aux, t: Tid, n: Node, s': State, a': Aux)
    requires Inv(s, a) && LocalStep(s, a, t, n, s', a')
    ensures forall u :: u in s'.threads && u != t ==> ThreadOk(s', a', u)
  {
    SumZero(s.threads, HoldingWeight(n));
    forall u | u in s'.threads && u != t ensures ThreadOk(s', a', u) {
      assert ThreadOk(s, a, u) && HoldingWeight(n)(s.threads[u]) >= 0;
      assert NodeOk(s, a, n);
    }
  }

  /** The other nodes do not notice a local step. */
  lemma OtherNode(s: State, a: Aux, t: Tid, n: Node, s': State, a': Aux, m: Node)
    requires m in s.nodes && m in a.place && NodeOk(s, a, m) && m != n
    requires LocalStep(s, a, t, n, s', a')
    ensures NodeOk(s', a', m)
  {
    HoldersChange(s, t, s'.threads[t], m);
    assert m in s.client <==> m in s.client - {n};
    assert m in s'.client <==> m in s'.client - {n};
  }

  lemma LocalStepKeepsInv(s: State, a: Aux, t: Tid, n: Node, s': State, a': Aux)
    requires Inv(s, a) && LocalStep(s, a, t, n, s', a')
    ensures Inv(s', a')
  {
    OtherThreads(s, a, t, n, s', a');
    forall m | m in s'.nodes && m != n ensures NodeOk(s', a', m) {
      OtherNode(s, a, t, n, s', a', m);
    }
    assert s'.threads.Keys == s.threads.Keys;
    assert |s'.threads| == |s'.threads.Keys| && |s.threads| == |s.threads.Keys|;
    forall m | m in s'.client ensures m in s'.nodes {
      assert m == n || m in s.client - {n};
    }
  }

  ghost predicate Local(s: State, a: Aux, t: Tid, n: Node) {
    && |s.threads| <= MAX_THREADS
    && StackOk(s, a)
    && t in s.threads && ThreadOk(s, a, t)
    && n in s.nodes && NodeOk(s, a, n)
  }

  lemma HeadOk(s: State, a: Aux)
    requires StackOk(s, a)
    ensures LinkOk(s, s.head)
  {
    assert a.stack != [] ==> StackAt(s, a, |a.stack| - 1);
  }

  /** A step that leaves the head and the listed nodes alone. */
  lemma StackUntouched(s: State, a: Aux, n: Node, s': State, a': Aux)
    requires StackOk(s, a) && n in s.nodes && n in s'.nodes && s'.nodes == s.nodes[n := s'.nodes[n]]
    requires n in a'.place && a' == a.(place := a.place[n := a'.place[n]]) && s'.head == s.head
    requires !a.place[n].OnList? || (a'.place[n] == a.place[n] && s'.nodes[n].next == s.nodes[n].next)
    ensures StackOk(s', a')
  {
    forall i: nat | i < |a'.stack| ensures StackAt(s', a', i) {
      assert StackAt(s, a, i);
    }
  }

  lemma StackPushed(s: State, a: Aux, n: Node, s': State, a': Aux)
    requires StackOk(s, a) && n in s.nodes && !a.place[n].OnList? && s'.nodes == s.nodes
    requires s.nodes[n].next == s.head && s'.head == To(n)
    requires a' == Aux(a.place[n := OnList(|a.stack|)], a.stack + [n])
    ensures StackOk(s', a')
  {
    forall i: nat | i < |a'.stack| ensures StackAt(s', a', i) {
      if i < |a.stack| {
        assert StackAt(s, a, i);
      }
    }
  }

  lemma StackPopped(s: State, a: Aux, n: Node, s': State, p: Place)
    requires StackOk(s, a) && s.head == To(n) && n in s.nodes && s'.nodes == s.nodes && s'.head == s.nodes[n].next
    requires !p.OnList?
    ensures a.stack != [] && a.stack[|a.stack| - 1] == n && a.place[n] == OnList(|a.stack| - 1)
    ensures StackOk(s', Aux(a.place[n := p], a.stack[..|a.stack| - 1]))
  {
    assert StackAt(s, a, |a.stack| - 1);
    var a' := Aux(a.place[n := p], a.stack[..|a.stack| - 1]);
    forall i: nat | i < |a'.stack| ensures StackAt(s', a', i) {
      assert StackAt(s, a, i);
    }
  }

  lemma KeepAddFlag(s: State, a: Aux, t: Tid) returns (a': Aux)
    requires t in s.threads && s.threads[t].AddFlag? && Local(s, a, t, s.threads[t].n)
    ensures LocalStep(s, a, t, s.threads[t].n, AdvanceAdd(s, t), a')
  {
    var n, s' := s.threads[t].n, AdvanceAdd(s, t);
    HoldersChange(s, t, s'.threads[t], n);
    HoldersBound(s.threads, n);
    a' := a.(place := a.place[n := if s.nodes[n].refs == 0 then Inserting(t) else Waiting]);
    StackUntouched(s, a, n, s', a');
  }

  lemma KeepLoadHead(s: State, a: Aux, t: Tid)
    requires t in s.threads && s.threads[t].InsertLoadHead? && Local(s, a, t, s.threads[t].n)
    ensures LocalStep(s, a, t, s.threads[t].n, AdvanceInsert(s, t), a)
  {
    var n, s' := s.threads[t].n, AdvanceInsert(s, t);
    HoldersChange(s, t, s'.threads[t], n);
    HoldersBound(s.threads, n);
    StackUntouched(s, a, n, s', a);
  }

  lemma KeepStoreNext(s: State, a: Aux, t: Tid)
    requires t in s.threads && s.threads[t].InsertStoreNext? && Local(s, a, t, s.threads[t].n)
    ensures LocalStep(s, a, t, s.threads[t].n, AdvanceInsert(s, t), a)
  {
    var n, s' := s.threads[t].n, AdvanceInsert(s, t);
    HoldersChange(s, t, s'.threads[t], n);
    HoldersBound(s.threads, n);
    StackUntouched(s, a, n, s', a);
  }

  lemma KeepStoreRefs(s: State, a: Aux, t: Tid)
    requires t in s.threads && s.threads[t].InsertStoreRefs? && Local(s, a, t, s.threads[t].n)
    ensures LocalStep(s, a, t, s.threads[t].n, AdvanceInsert(s, t), a)
  {
    var n, s' := s.threads[t].n, AdvanceInsert(s, t);
    HoldersChange(s, t, s'.threads[t], n);
    HoldersBound(s.threads, n);
    StackUntouched(s, a, n, s', a);
  }

  lemma KeepInsertCasHead(s: State, a: Aux, t: Tid) returns (a': Aux)
    requires t in s.threads && s.threads[t].InsertCasHead? && Local(s, a, t, s.threads[t].n)
    ensures LocalStep(s, a, t, s.threads[t].n, AdvanceInsert(s, t), a')
  {
    var n, s' := s.threads[t].n, AdvanceInsert(s, t);
    HoldersChange(s, t, s'.threads[t], n);
    HoldersBound(s.threads, n);
    if s.head == s.threads[t].head {
      a' := Aux(a.place[n := OnList(|a.stack|)], a.stack + [n]);
      StackPushed(s, a, n, s', a');
    } else {
      a' := a;
      StackUntouched(s, a, n, s', a');
    }
  }

  lemma KeepUndo(s: State, a: Aux, t: Tid) returns (a': Aux)
    requires t in s.threads && s.threads[t].InsertUndo? && Local(s, a, t, s.threads[t].n)
    ensures LocalStep(s, a, t, s.threads[t].n, AdvanceInsert(s, t), a')
  {
    var n, s' := s.threads[t].n, AdvanceInsert(s, t);
    HoldersChange(s, t, s'.threads[t], n);
    HoldersBound(s.threads, n);
    a' := a.(place := a.place[n := if s.nodes[n].refs == 1 then Inserting(t) else Waiting]);
    StackUntouched(s, a, n, s', a');
  }

  lemma KeepGetCasRefs(s: State, a: Aux, t: Tid)
    requires t in s.threads && s.threads[t].GetCasRefs? && Local(s, a, t, s.threads[t].n)
    ensures LocalStep(s, a, t, s.threads[t].n, AdvanceGet(s, t), a)
  {
    var n, s' := s.threads[t].n, AdvanceGet(s, t);
    HoldersChange(s, t, s'.threads[t], n);
    HoldersBound(s.threads, n);
    StackUntouched(s, a, n, s', a);
  }

  lemma KeepGetLoadNext(s: State, a: Aux, t: Tid)
    requires t in s.threads && s.threads[t].GetLoadNext? && Local(s, a, t, s.threads[t].n)
    ensures LocalStep(s, a, t, s.threads[t].n, AdvanceGet(s, t), a)
  {
    var n, s' := s.threads[t].n, AdvanceGet(s, t);
    HoldersChange(s, t, s'.threads[t], n);
    HoldersBound(s.threads, n);
    StackUntouched(s, a, n, s', a);
  }

  lemma KeepGetCasHead(s: State, a: Aux, t: Tid) returns (a': Aux)
    requires t in s.threads && s.threads[t].GetCasHead? && Local(s, a, t, s.threads[t].n)
    ensures LocalStep(s, a, t, s.threads[t].n, AdvanceGet(s, t), a')
  {
    var n, s' := s.threads[t].n, AdvanceGet(s, t);
    HoldersChange(s, t, s'.threads[t], n);
    HoldersBound(s.threads, n);
    if s.head == To(n) {
      StackPopped(s, a, n, s', Popped(t));
      a' := Aux(a.place[n := Popped(t)], a.stack[..|a.stack| - 1]);
    } else {
      a' := a;
      HeadOk(s, a);
      StackUntouched(s, a, n, s', a');
    }
  }

  lemma KeepReleaseTwo(s: State, a: Aux, t: Tid) returns (a': Aux)
    requires t in s.threads && s.threads[t].GetReleaseTwo? && Local(s, a, t, s.threads[t].n)
    ensures LocalStep(s, a, t, s.threads[t].n, AdvanceGet(s, t), a')
  {
    var n, s' := s.threads[t].n, AdvanceGet(s, t);
    HoldersChange(s, t, s'.threads[t], n);
    HoldersBound(s.threads, n);
    a' := a.(place := a.place[n := Client]);
    StackUntouched(s, a, n, s', a');
  }

  lemma KeepReleaseOne(s: State, a: Aux, t: Tid) returns (a': Aux)
    requires t in s.threads && s.threads[t].GetReleaseOne? && Local(s, a, t, s.threads[t].n)
    ensures LocalStep(s, a, t, s.threads[t].n, AdvanceGet(s, t), a')
  {
    var n, s' := s.threads[t].n, AdvanceGet(s, t);
    HoldersChange(s, t, s'.threads[t], n);
    HoldersBound(s.threads, n);
    a' := a.(place := a.place[n := if s.nodes[n].refs == SHOULD_BE_ON_FREELIST + 1 then Inserting(t) else a.place[n]]);
    StackUntouched(s, a, n, s', a');
  }

  /** A program counter at which a thread neither holds a reference nor works on a node. */
  predicate Passive(pc: Pc) { pc.Idle? || pc.GetLoadHead? || pc.GetLoadRefs? || pc.GetCasRefs? }

  /** Steps that only read. */
  lemma KeepPassive(s: State, a: Aux, t: Tid, pc: Pc)
    requires Inv(s, a) && t in s.threads && Passive(s.threads[t]) && Passive(pc)
    requires ThreadOk(Go(s, t, pc), a, t)
    ensures Inv(Go(s, t, pc), a)
  {
    var s' := Go(s, t, pc);
    forall u | u in s'.threads ensures ThreadOk(s', a, u) {
      assert u != t ==> ThreadOk(s, a, u);
    }
    forall m | m in s'.nodes ensures NodeOk(s', a, m) {
      KeepNodeOk(s, a, t, pc, m);
    }
    StackUntouchedByThreads(s, a, s');
    assert s'.threads.Keys == s.threads.Keys && |s'.threads| == |s'.threads.Keys|;
  }

  lemma KeepNodeOk(s: State, a: Aux, t: Tid, pc: Pc, m: Node)
    requires t in s.threads && m in s.nodes && NodeOk(s, a, m) && Passive(s.threads[t]) && Passive(pc)
    ensures NodeOk(Go(s, t, pc), a, m)
  {
    HoldersChange(s, t, pc, m);
  }

  lemma StackUntouchedByThreads(s: State, a: Aux, s': State)
    requires StackOk(s, a) && s'.nodes == s.nodes && s'.head == s.head
    ensures StackOk(s', a)
  {
    forall i: nat | i < |a.stack| ensures StackAt(s', a, i) {
      assert StackAt(s, a, i);
    }
  }

  lemma KeepAllocate(s: State, a: Aux, n: Node) returns (a': Aux)
    requires Inv(s, a) && n !in s.nodes
    ensures Inv(Apply(s, Allocate(n)), a')
  {
    var s' := Apply(s, Allocate(n));
    a' := a.(place := a.place[n := Client]);
    forall u | u in s'.threads ensures ThreadOk(s', a', u) && !Holding(s.threads[u], n) {
      assert ThreadOk(s, a, u);
    }
    SumZero(s.threads, HoldingWeight(n));
    forall m | m in s'.nodes ensures NodeOk(s', a', m) {
      assert m != n ==> NodeOk(s, a, m);
    }
    forall i: nat | i < |a.stack| ensures StackAt(s', a', i) {
      assert StackAt(s, a, i);
    }
  }

  lemma KeepStartAdd(s: State, a: Aux, t: Tid, n: Node) returns (a': Aux)
    requires Enabled(s, StartAdd(t, n)) && Local(s, a, t, n)
    ensures LocalStep(s, a, t, n, Apply(s, StartAdd(t, n)), a')
  {
    var s' := Apply(s, StartAdd(t, n));
    HoldersChange(s, t, s'.threads[t], n);
    a' := a.(place := a.place[n := Adding(t)]);
    StackUntouched(s, a, n, s', a');
  }

  lemma KeepInsert(s: State, a: Aux, t: Tid) returns (a': Aux)
    requires t in s.threads && InInsert(s.threads[t]) && Local(s, a, t, s.threads[t].n)
    ensures LocalStep(s, a, t, s.threads[t].n, AdvanceInsert(s, t), a')
  {
    a' := a;
    match s.threads[t]
    case InsertLoadHead(_, _) => KeepLoadHead(s, a, t);
    case InsertStoreNext(_, _, _) => KeepStoreNext(s, a, t);
    case InsertStoreRefs(_, _, _) => KeepStoreRefs(s, a, t);
    case InsertCasHead(_, _, _) => a' := KeepInsertCasHead(s, a, t);
    case InsertUndo(_, _, _) => a' := KeepUndo(s, a, t);
  }

  lemma KeepGet(s: State, a: Aux, t: Tid) returns (a': Aux)
    requires t in s.threads && InGet(s.threads[t]) && HasNode(s.threads[t]) && Local(s, a, t, s.threads[t].n)
    ensures LocalStep(s, a, t, s.threads[t].n, AdvanceGet(s, t), a')
  {
    a' := a;
    match s.threads[t]
    case GetCasRefs(_, _) => KeepGetCasRefs(s, a, t);
    case GetLoadNext(_) => KeepGetLoadNext(s, a, t);
    case GetCasHead(_, _) => a' := KeepGetCasHead(s, a, t);
    case GetReleaseTwo(_) => a' := KeepReleaseTwo(s, a, t);
    case GetReleaseOne(_, _) => a' := KeepReleaseOne(s, a, t);
  }

  lemma KeepGetLoadRefs(s: State, a: Aux, t: Tid)
    requires Inv(s, a) && t in s.threads && s.threads[t].GetLoadRefs?
    ensures Defined(s, s.threads[t]) && Inv(AdvanceGet(s, t), a)
  {
    assert ThreadOk(s, a, t);
    KeepPassive(s, a, t, AdvanceGet(s, t).threads[t]);
  }

  /** Every step of every thread keeps the invariant. */
  lemma StepKeepsInv(s: State, a: Aux, step: Step) returns (a': Aux)
    requires Inv(s, a) && Enabled(s, step)
    ensures Inv(Apply(s, step), a')
  {
    match step
    case Allocate(n) => a' := KeepAllocate(s, a, n);
    case StartAdd(t, n) =>
      a' := KeepStartAdd(s, a, t, n);
      LocalStepKeepsInv(s, a, t, n, Apply(s, step), a');
    case StartGet(t) =>
      a' := a;
      KeepPassive(s, a, t, GetLoadHead);
    case Advance(t) =>
      a' := a;
      var pc := s.threads[t];
      assert ThreadOk(s, a, t);
      if pc.GetLoadHead? {
        HeadOk(s, a);
        KeepPassive(s, a, t, GetLoadRefs(s.head));
      } else if pc.GetLoadRefs? {
        KeepGetLoadRefs(s, a, t);
      } else {
        assert NodeOk(s, a, pc.n);
        if pc.AddFlag? {
          a' := KeepAddFlag(s, a, t);
        } else if InInsert(pc) {
          a' := KeepInsert(s, a, t);
        } else {
          a' := KeepGet(s, a, t);
        }
        LocalStepKeepsInv(s, a, t, pc.n, Apply(s, step), a');
      }
  }
}
