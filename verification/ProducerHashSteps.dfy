/** Every step keeps the invariant of the producer hash. */
module ProducerHashSteps {
  import opened Ring
  import opened ProducerHash

  // ---------- linear probing ----------

  /** Every slot of a table is met by one of the first `capacity` probes. */
  lemma ProbesCover(s: State, t: Tid, h: nat, i: int) returns (n: nat)
    requires Shape(s) && t in s.threads && h < |s.tables| && 0 <= i < s.tables[h].capacity
    ensures n < s.tables[h].capacity && Pos(s, t, h, n) == i
  {
    var hash, cap := s.threads[t].hash, s.tables[h].capacity;
    n := Wrap(i - hash, cap);
    WrapAdd(i - hash, hash, cap);
    assert Wrap(i, cap) == i;
  }

  /** Thread `t`'s probes lead to its key. */
  lemma KeyIsReached(s: State, a: Aux, t: Tid, h: nat, i: int) returns (m: nat)
    requires Shape(s) && t in s.threads && h < |s.tables| && TableOk(s, a, h) && KeyAt(s, h, i, t)
    ensures Packed(s, h, t, m) && Probed(s, t, h, m).key == Some(t)
  {
    assert SlotOk(s, a, h, i);
    m :| Reaches(s, h, i, t, m);
  }

  /** So a thread that meets an empty slot before its key has no key in the table. */
  lemma EmptyMeansMissing(s: State, a: Aux, t: Tid, h: nat, n: nat)
    requires Shape(s) && t in s.threads && h < |s.tables| && TableOk(s, a, h)
    requires Missed(s, h, t, n) && Probed(s, t, h, n).key == None
    ensures !InTable(s, h, t)
  {
    forall i ensures !KeyAt(s, h, i, t) {
      if KeyAt(s, h, i, t) {
        var m := KeyIsReached(s, a, t, h, i);
      }
    }
  }

  // ---------- capacity ----------

  /** The keys of a table. */
  function Keys(slots: seq<Slot>): set<Tid> { set slot | slot in slots && slot.key.Some? :: slot.key.value }

  function Used(slots: seq<Slot>): nat {
    if slots == [] then 0 else Used(slots[1..]) + if slots[0].key.Some? then 1 else 0
  }

  predicate DistinctKeys(slots: seq<Slot>) {
    forall i, j :: 0 <= i < |slots| && 0 <= j < |slots| && slots[i].key.Some? && slots[i].key == slots[j].key ==> i == j
  }

  lemma {:induction false} UsedIsKeys(slots: seq<Slot>)
    requires DistinctKeys(slots)
    ensures Used(slots) == |Keys(slots)|
  {
    if slots != [] {
      var rest := slots[1..];
      UsedIsKeys(rest);
      assert slots == [slots[0]] + rest;
      if slots[0].key.Some? {
        assert slots[0].key.value !in Keys(rest);
        assert Keys(slots) == Keys(rest) + {slots[0].key.value};
      } else {
        assert Keys(slots) == Keys(rest);
      }
    }
  }

  lemma {:induction false} UsedFull(slots: seq<Slot>)
    requires forall i :: 0 <= i < |slots| ==> slots[i].key.Some?
    ensures Used(slots) == |slots|
  {
    if slots != [] {
      UsedFull(slots[1..]);
    }
  }

  lemma {:induction false} SubsetSize<T>(a: set<T>, b: set<T>)
    requires a <= b
    ensures |a| <= |b|
  {
    if a != {} {
      var x :| x in a;
      SubsetSize(a - {x}, b - {x});
    }
  }

  /** Fewer than three quarters of a table's slots are ever used. */
  lemma TableHasRoom(s: State, a: Aux, h: nat)
    requires Shape(s) && h < |s.tables| && TableOk(s, a, h) && CountOk(s, a)
    ensures Used(s.tables[h].slots) == 0 || Used(s.tables[h].slots) < Limit(s.tables[h].capacity)
    ensures Used(s.tables[h].slots) < s.tables[h].capacity
  {
    var slots := s.tables[h].slots;
    var limit: int := Limit(s.tables[h].capacity);
    forall i, j | 0 <= i < |slots| && 0 <= j < |slots| && slots[i].key.Some? && slots[i].key == slots[j].key ensures i == j {
      assert KeyAt(s, h, i, slots[i].key.value) && KeyAt(s, h, j, slots[i].key.value);
    }
    UsedIsKeys(slots);
    forall x | x in Keys(slots) ensures x in Below(a.reserved, limit - 1) {
      var i :| 0 <= i < |slots| && slots[i].key == Some(x);
      assert SlotOk(s, a, h, i);
    }
    SubsetSize(Keys(slots), Below(a.reserved, limit - 1));
    if limit > 0 {
      assert |Below(a.reserved, limit - 1)| <= limit - 1;
    } else {
      assert Below(a.reserved, limit - 1) == {};
    }
  }

  /** So every probing loop ends before it has gone round the table. */
  lemma ProbesEnd(s: State, a: Aux, t: Tid, h: nat, n: nat)
    requires Shape(s) && t in s.threads && h < |s.tables| && TableOk(s, a, h) && CountOk(s, a) && Packed(s, h, t, n)
    ensures n < s.tables[h].capacity
  {
    TableHasRoom(s, a, h);
    var slots := s.tables[h].slots;
    if n >= s.tables[h].capacity {
      forall i | 0 <= i < |slots| ensures slots[i].key.Some? {
        var j := ProbesCover(s, t, h, i);
        assert Probed(s, t, h, j).key.Some?;
      }
      UsedFull(slots);
    }
  }

  // ---------- what a step of one thread leaves alone ----------

  ghost predicate SlotKeeps(old0: Slot, new0: Slot, t: Tid) {
    && (old0.key.Some? ==> new0.key == old0.key)
    && (old0.key.None? ==> new0.key.None? || new0.key == Some(t))
    && (new0.key != Some(t) ==> new0.value == old0.value)
  }

  ghost predicate TablesKeep(s: State, s': State, t: Tid) {
    && |s.tables| <= |s'.tables|
    && (forall h :: 0 <= h < |s.tables| ==> s'.tables[h].capacity == s.tables[h].capacity && |s'.tables[h].slots| == |s.tables[h].slots|)
    && (forall h, i {:trigger s'.tables[h].slots[i]} :: 0 <= h < |s.tables| && 0 <= i < |s.tables[h].slots| ==>
          SlotKeeps(s.tables[h].slots[i], s'.tables[h].slots[i], t))
  }

  ghost predicate Evolves(s: State, a: Aux, s': State, a': Aux, t: Tid) {
    && Shape(s) && Shape(s') && TablesKeep(s, s', t)
    && t in s.threads && t in s'.threads && s'.threads[t].hash == s.threads[t].hash
    && (forall u :: u in s'.threads <==> u in s.threads)
    && (forall u :: u in s.threads && u != t ==> s'.threads[u] == s.threads[u])
    && (|s.tables| < |s'.tables| ==> InLock(s.threads[t].pc))
    && (forall h :: |s.tables| <= h < |s'.tables| ==> forall i :: 0 <= i < |s'.tables[h].slots| ==> s'.tables[h].slots[i].key.None?)
    && (forall u :: u != t ==> (u in a'.mine <==> u in a.mine) && (u in a'.reserved <==> u in a.reserved))
    && (forall u :: u != t && u in a.mine ==> a'.mine[u] == a.mine[u])
    && (forall u :: u != t && u in a.reserved ==> a'.reserved[u] == a.reserved[u])
  }

  /** Keys stay where they are, and thread `t`'s steps insert no other keys. */
  lemma KeysStay(s: State, a: Aux, s': State, a': Aux, t: Tid, u: Tid)
    requires Evolves(s, a, s', a', t)
    ensures forall h: nat, i :: KeyAt(s, h, i, u) ==> KeyAt(s', h, i, u)
    ensures forall h: nat :: InTable(s, h, u) ==> InTable(s', h, u)
    ensures u != t ==> forall h: nat, i :: KeyAt(s', h, i, u) ==> KeyAt(s, h, i, u)
    ensures u != t ==> forall h: nat :: InTable(s', h, u) ==> InTable(s, h, u)
  {
    forall h: nat, i | KeyAt(s, h, i, u) ensures KeyAt(s', h, i, u) {
      assert SlotKeeps(s.tables[h].slots[i], s'.tables[h].slots[i], t);
    }
    if u != t {
      forall h: nat, i | KeyAt(s', h, i, u) ensures KeyAt(s, h, i, u) {
        if h < |s.tables| {
          assert SlotKeeps(s.tables[h].slots[i], s'.tables[h].slots[i], t);
        }
      }
      forall h: nat | InTable(s', h, u) ensures InTable(s, h, u) {
        var i :| KeyAt(s', h, i, u);
      }
    }
    forall h: nat | InTable(s, h, u) ensures InTable(s', h, u) {
      var i :| KeyAt(s, h, i, u);
    }
  }

  lemma ProbesStay(s: State, a: Aux, s': State, a': Aux, t: Tid, u: Tid, h: nat, n: nat)
    requires Evolves(s, a, s', a', t) && u in s.threads && h < |s.tables|
    ensures Pos(s', u, h, n) == Pos(s, u, h, n)
    ensures Packed(s, h, u, n) ==> Packed(s', h, u, n)
    ensures u != t && Missed(s, h, u, n) ==> Missed(s', h, u, n)
  {
    forall j: nat | j < n
      ensures Probed(s, u, h, j).key.Some? ==> Probed(s', u, h, j).key == Probed(s, u, h, j).key
    {
      var i := Pos(s, u, h, j);
      assert Pos(s', u, h, j) == i;
      assert SlotKeeps(s.tables[h].slots[i], s'.tables[h].slots[i], t);
    }
  }

  lemma PlacedStays(s: State, a: Aux, s': State, a': Aux, t: Tid, u: Tid, h: nat, h': nat)
    requires Evolves(s, a, s', a', t) && Placed(s, u, h) && h <= h'
    ensures Placed(s', u, h')
  {
    KeysStay(s, a, s', a', t, u);
    var g: nat :| g <= h && InTable(s, g, u);
    assert InTable(s', g, u);
  }

  /** The other threads stay right. */
  lemma OthersStay(s: State, a: Aux, s': State, a': Aux, t: Tid, u: Tid)
    requires Evolves(s, a, s', a', t) && u in s.threads && u != t && ThreadOk(s, a, u)
    requires InLock(s.threads[t].pc) ==> !InLock(s.threads[u].pc)
    ensures ThreadOk(s', a', u)
  {
    KeysStay(s, a, s', a', t, u);
    var pc := s.threads[u].pc;
    if pc.Lookup? {
      ProbesStay(s, a, s', a', t, u, pc.h, pc.n);
      if u in a.mine {
        PlacedStays(s, a, s', a', t, u, pc.h, pc.h);
      }
    } else if pc.Migrate? || pc.MigrateCas? {
      ProbesStay(s, a, s', a', t, u, pc.main, pc.n);
      PlacedStays(s, a, s', a', t, u, pc.main, pc.main);
    } else if pc.MigrateStore? || pc.Insert? || pc.InsertCas? || pc.InsertStore? {
      ProbesStay(s, a, s', a', t, u, pc.main, pc.n);
    } else if pc.Idle? || pc.Done? {
      if u in a.mine {
        PlacedStays(s, a, s', a', t, u, Last(s), Last(s'));
      }
    }
  }

  // ---------- the slots ----------

  /** A slot that is not thread `t`'s, or that thread `t` leaves alone. */
  lemma SlotStays(s: State, a: Aux, s': State, a': Aux, t: Tid, h: nat, i: int)
    requires Evolves(s, a, s', a', t) && h < |s.tables| && 0 <= i < s.tables[h].capacity && SlotOk(s, a, h, i)
    requires s'.tables[h].slots[i] == s.tables[h].slots[i]
    requires s.tables[h].slots[i].key == Some(t) ==>
      && t in a'.mine && t in a'.reserved && (t in a.mine ==> a'.mine[t] == a.mine[t])
      && (t in a.reserved ==> a'.reserved[t] == a.reserved[t])
      && (Storing(s, t, h, i) ==> Storing(s', t, h, i) || s.tables[h].slots[i].value == Some(a'.mine[t]))
    ensures SlotOk(s', a', h, i)
  {
    var slot := s.tables[h].slots[i];
    if slot.key.Some? {
      var u := slot.key.value;
      var n: nat :| Reaches(s, h, i, u, n);
      ProbesStay(s, a, s', a', t, u, h, n);
      assert Reaches(s', h, i, u, n);
    }
  }

  // ---------- putting a step together ----------

  lemma KeepStep(s: State, a: Aux, s': State, a': Aux, t: Tid)
    requires Inv(s, a) && Evolves(s, a, s', a', t)
    requires forall h {:trigger TableOk(s', a', h)} :: 0 <= h < |s'.tables| ==> TableOk(s', a', h)
    requires ThreadOk(s', a', t) && LockOk(s') && CountOk(s', a') && MineOk(s', a')
    ensures Inv(s', a')
  {
    forall u | u in s'.threads ensures ThreadOk(s', a', u) {
      if u != t {
        OthersStay(s, a, s', a', t, u);
      }
    }
  }

  predicate Storer(pc: Pc) { pc.MigrateStore? || pc.InsertStore? }

  /** The tables are as they were. */
  lemma TablesSame(s: State, a: Aux, s': State, a': Aux, t: Tid)
    requires Inv(s, a) && Evolves(s, a, s', a', t) && s'.tables == s.tables && !Storer(s.threads[t].pc)
    requires t in a.mine ==> t in a'.mine && a'.mine[t] == a.mine[t]
    requires t in a.mine && t in a.reserved ==> t in a'.reserved && a'.reserved[t] == a.reserved[t]
    ensures forall h {:trigger TableOk(s', a', h)} :: 0 <= h < |s'.tables| ==> TableOk(s', a', h)
  {
    forall h: nat | h < |s'.tables| ensures TableOk(s', a', h) {
      assert TableOk(s, a, h);
      SameKeys(s, s');
      forall i | 0 <= i < s'.tables[h].capacity ensures SlotOk(s', a', h, i) {
        assert SlotOk(s, a, h, i);
        SlotStays(s, a, s', a', t, h, i);
      }
    }
  }

  lemma SameKeys(s: State, s': State)
    requires s'.tables == s.tables
    ensures forall h: nat, i, u :: KeyAt(s', h, i, u) <==> KeyAt(s, h, i, u)
    ensures forall h: nat, u :: InTable(s', h, u) <==> InTable(s, h, u)
    ensures forall u, h: nat :: Placed(s', u, h) <==> Placed(s, u, h)
  {
    forall h: nat, u ensures InTable(s', h, u) <==> InTable(s, h, u) {
      assert forall i :: KeyAt(s', h, i, u) <==> KeyAt(s, h, i, u);
    }
  }

  /** A thread without a producer has no key anywhere. */
  lemma NoKey(s: State, a: Aux, t: Tid, h: nat)
    requires Inv(s, a) && t !in a.mine && h < |s.tables|
    ensures !InTable(s, h, t)
  {
    assert TableOk(s, a, h);
    forall i | 0 <= i < s.tables[h].capacity ensures s.tables[h].slots[i].key != Some(t) {
      assert SlotOk(s, a, h, i);
    }
  }

  /** Thread `t` moves on; only the resize lock may change. */
  ghost predicate Moves(s: State, s': State, t: Tid, pc: Pc) {
    && t in s.threads && !Storer(s.threads[t].pc)
    && s' == s.(lock := s'.lock, threads := s.threads[t := Thread(s.threads[t].hash, pc)])
    && (InLock(pc) ==> s'.lock && (InLock(s.threads[t].pc) || !s.lock))
    && (s'.lock == s.lock || InLock(pc) || InLock(s.threads[t].pc)) && (s.lock && !s'.lock ==> InLock(s.threads[t].pc))
  }

  lemma LockMoves(s: State, s': State, t: Tid, pc: Pc)
    requires Moves(s, s', t, pc) && LockOk(s)
    ensures LockOk(s')
  {
    forall u | u in s'.threads && InLock(s'.threads[u].pc) ensures s'.lock {
    }
  }

  lemma KeepMove(s: State, a: Aux, s': State, t: Tid, pc: Pc)
    requires Inv(s, a) && Moves(s, s', t, pc) && Shape(s') && ThreadOk(s', a, t)
    ensures Inv(s', a)
  {
    LockMoves(s, s', t, pc);
    TablesSame(s, a, s', a, t);
    KeepStep(s, a, s', a, t);
  }

  // ---------- looking up ----------

  lemma KeepCall(s: State, a: Aux, t: Tid)
    requires Inv(s, a) && Enabled(s, Call(t))
    ensures Inv(Apply(s, Call(t)), a)
  {
    var pc := Lookup(Last(s), Last(s), 0);
    var s' := Go(s, t, pc);
    MovedKeys(s, s', t);
    KeepMove(s, a, s', t, pc);
  }

  /** Moving changes no table. */
  lemma MovedKeys(s: State, s': State, t: Tid)
    requires Shape(s) && t in s.threads && t in s'.threads && s'.threads[t].hash == s.threads[t].hash && s'.tables == s.tables
    ensures Shape(s')
    ensures forall h: nat, u :: InTable(s', h, u) <==> InTable(s, h, u)
    ensures forall u, h: nat :: Placed(s', u, h) <==> Placed(s, u, h)
    ensures forall h: nat, n: nat {:trigger Packed(s', h, t, n)} :: h < |s.tables| ==> (Packed(s', h, t, n) <==> Packed(s, h, t, n))
    ensures forall h: nat, n: nat {:trigger Missed(s', h, t, n)} :: h < |s.tables| ==> (Missed(s', h, t, n) <==> Missed(s, h, t, n))
  {
    SameKeys(s, s');
    forall h: nat, n: nat | h < |s.tables| ensures Probed(s', t, h, n) == Probed(s, t, h, n) {
    }
  }

  /** In a lookup, thread `t` goes on to `pc'`. */
  ghost predicate LooksUp(s: State, a: Aux, t: Tid, ok: bool, pc': Pc)
    requires Defined(s, t)
  {
    var s' := Go(s, t, pc');
    AdvanceThread(s, t, ok) == s' && Shape(s') && ThreadOk(s', a, t) && !InLock(pc')
  }

  lemma FoundOk(s: State, a: Aux, t: Tid, ok: bool, pc': Pc)
    requires Defined(s, t) && ThreadOk(s, a, t) && s.threads[t].pc.Lookup? && t in a.mine
    requires var pc := s.threads[t].pc;
      && Probed(s, t, pc.h, pc.n).key == Some(t) && Probed(s, t, pc.h, pc.n).value == Some(a.mine[t]) && InTable(s, pc.h, t)
      && t in a.reserved && a.reserved[t] < Limit(s.tables[pc.main].capacity)
      && pc' == (if pc.h != pc.main then Migrate(pc.main, 0, Some(a.mine[t])) else Done(Some(a.mine[t])))
    ensures LooksUp(s, a, t, ok, pc')
  {
    MovedKeys(s, Go(s, t, pc'), t);
    assert Placed(s, t, s.threads[t].pc.h);
  }

  lemma LookupFound(s: State, a: Aux, t: Tid, ok: bool) returns (pc': Pc)
    requires Inv(s, a) && Defined(s, t) && s.threads[t].pc.Lookup?
    requires var pc := s.threads[t].pc; Probed(s, t, pc.h, pc.n).key == Some(t)
    ensures LooksUp(s, a, t, ok, pc')
  {
    assert ThreadOk(s, a, t);
    var pc := s.threads[t].pc;
    FoundSlot(s, a, t, pc.h, pc.n);
    CapacitiesGrow(s, a, pc.h, pc.main);
    pc' := if pc.h != pc.main then Migrate(pc.main, 0, Some(a.mine[t])) else Done(Some(a.mine[t]));
    FoundOk(s, a, t, ok, pc');
  }

  lemma LookupEmpty(s: State, a: Aux, t: Tid, ok: bool) returns (pc': Pc)
    requires Defined(s, t) && ThreadOk(s, a, t) && s.threads[t].pc.Lookup?
    requires var pc := s.threads[t].pc; TableOk(s, a, pc.h) && Probed(s, t, pc.h, pc.n).key == None
    ensures LooksUp(s, a, t, ok, pc')
  {
    var pc := s.threads[t].pc;
    EmptyMeansMissing(s, a, t, pc.h, pc.n);
    MissingBelow(s, a, t, pc.h);
    pc' := if pc.h == 0 then CountUp(pc.main) else Lookup(pc.main, pc.h - 1, 0);
    MovedKeys(s, Go(s, t, pc'), t);
  }

  lemma MissedMore(s: State, h: nat, t: Tid, n: nat)
    requires Shape(s) && h < |s.tables| && t in s.threads && Missed(s, h, t, n)
    requires Probed(s, t, h, n).key.Some? && Probed(s, t, h, n).key != Some(t)
    ensures Missed(s, h, t, n + 1)
  {
  }

  lemma LookupOther(s: State, a: Aux, t: Tid, ok: bool) returns (pc': Pc)
    requires Defined(s, t) && ThreadOk(s, a, t) && s.threads[t].pc.Lookup?
    requires var pc := s.threads[t].pc; Probed(s, t, pc.h, pc.n).key.Some? && Probed(s, t, pc.h, pc.n).key != Some(t)
    ensures LooksUp(s, a, t, ok, pc')
  {
    var pc := s.threads[t].pc;
    MissedMore(s, pc.h, t, pc.n);
    pc' := Lookup(pc.main, pc.h, pc.n + 1);
    MovedKeys(s, Go(s, t, pc'), t);
  }

  lemma KeepLookup(s: State, a: Aux, t: Tid, ok: bool)
    requires Inv(s, a) && Defined(s, t) && s.threads[t].pc.Lookup?
    ensures Inv(AdvanceThread(s, t, ok), a)
  {
    var pc := s.threads[t].pc;
    assert ThreadOk(s, a, t) && TableOk(s, a, pc.h);
    var slot, pc' := Probed(s, t, pc.h, pc.n), Idle;
    if slot.key == Some(t) {
      pc' := LookupFound(s, a, t, ok);
    } else if slot.key == None {
      pc' := LookupEmpty(s, a, t, ok);
    } else {
      pc' := LookupOther(s, a, t, ok);
    }
    KeepMove(s, a, Go(s, t, pc'), t, pc');
  }

  /** The key a thread finds leads to its own producer. */
  lemma FoundSlot(s: State, a: Aux, t: Tid, h: nat, n: nat)
    requires Inv(s, a) && t in s.threads && h < |s.tables| && Probed(s, t, h, n).key == Some(t) && !Storer(s.threads[t].pc)
    ensures t in a.mine && Probed(s, t, h, n).value == Some(a.mine[t]) && InTable(s, h, t)
    ensures t in a.reserved && a.reserved[t] < Limit(s.tables[h].capacity)
  {
    assert TableOk(s, a, h);
    assert SlotOk(s, a, h, Pos(s, t, h, n));
    assert KeyAt(s, h, Pos(s, t, h, n), t);
  }

  lemma {:induction false} CapacitiesGrow(s: State, a: Aux, g: nat, h: nat)
    requires Inv(s, a) && g <= h < |s.tables|
    ensures s.tables[g].capacity <= s.tables[h].capacity && Limit(s.tables[g].capacity) <= Limit(s.tables[h].capacity)
    decreases h - g
  {
    if g < h {
      assert TableOk(s, a, g);
      CapacitiesGrow(s, a, g + 1, h);
    }
  }

  lemma MissingBelow(s: State, a: Aux, t: Tid, h: nat)
    requires h < |s.tables| && Settled(s, a, t, h) && !InTable(s, h, t)
    ensures h == 0 ==> t !in a.mine
    ensures h > 0 ==> Settled(s, a, t, h - 1)
  {
    if t in a.mine {
      var g: nat :| g <= h && InTable(s, g, t);
      assert g != h;
      assert h > 0 ==> Placed(s, t, h - 1);
    }
  }

  // ---------- probing for a free slot ----------

  /** One more probe that met a key. */
  lemma PackedMore(s: State, h: nat, t: Tid, n: nat)
    requires Shape(s) && h < |s.tables| && t in s.threads && Packed(s, h, t, n) && Probed(s, t, h, n).key.Some?
    ensures Packed(s, h, t, n + 1)
  {
  }

  predicate Probing(s: State, t: Tid)
    requires Defined(s, t)
  {
    var pc := s.threads[t].pc;
    pc.Migrate? || pc.Insert? || ((pc.MigrateCas? || pc.InsertCas?) && Probed(s, t, pc.main, pc.n).key.Some?)
  }

  lemma ProbeOk(s: State, a: Aux, t: Tid, ok: bool)
    requires Defined(s, t) && ThreadOk(s, a, t) && Probing(s, t)
    ensures var s' := AdvanceThread(s, t, ok); Shape(s') && ThreadOk(s', a, t) && Moves(s, s', t, s'.threads[t].pc)
  {
    var s', pc := AdvanceThread(s, t, ok), s.threads[t].pc;
    MovedKeys(s, s', t);
    if Probed(s, t, pc.main, pc.n).key.Some? {
      PackedMore(s, pc.main, t, pc.n);
    }
  }

  lemma KeepProbe(s: State, a: Aux, t: Tid, ok: bool)
    requires Inv(s, a) && Defined(s, t) && Probing(s, t)
    ensures Inv(AdvanceThread(s, t, ok), a)
  {
    ProbeOk(s, a, t, ok);
    KeepMove(s, a, AdvanceThread(s, t, ok), t, AdvanceThread(s, t, ok).threads[t].pc);
  }

  // ---------- counting, the resize lock ----------

  predicate Quiet(pc: Pc, ok: bool) {
    || pc.TestLock? || pc.Reload? || pc.Unlock? || pc.Check? || pc.LoadMain? || pc.FailUnlock? || pc.Done?
    || (pc.Allocate? && !ok) || (pc.Create? && !ok)
  }

  lemma QuietOk(s: State, a: Aux, t: Tid, ok: bool)
    requires Defined(s, t) && ThreadOk(s, a, t) && Quiet(s.threads[t].pc, ok) && (InLock(s.threads[t].pc) ==> s.lock)
    ensures var s' := AdvanceThread(s, t, ok); Shape(s') && ThreadOk(s', a, t) && Moves(s, s', t, s'.threads[t].pc)
  {
    MovedKeys(s, AdvanceThread(s, t, ok), t);
  }

  lemma KeepQuiet(s: State, a: Aux, t: Tid, ok: bool)
    requires Inv(s, a) && Defined(s, t) && Quiet(s.threads[t].pc, ok)
    ensures Inv(AdvanceThread(s, t, ok), a)
  {
    QuietOk(s, a, t, ok);
    KeepMove(s, a, AdvanceThread(s, t, ok), t, AdvanceThread(s, t, ok).threads[t].pc);
  }

  /** Reserving a slot: the count has become the number of reservations. */
  lemma CountUpOk(reserved: map<Tid, nat>, t: Tid)
    requires t !in reserved && forall m: nat {:trigger Below(reserved, m)} :: |Below(reserved, m)| <= m
    ensures var reserved' := reserved[t := |reserved| + 1];
      |reserved'| == |reserved| + 1 && forall m: nat {:trigger Below(reserved', m)} :: |Below(reserved', m)| <= m
  {
    var reserved' := reserved[t := |reserved| + 1];
    assert reserved'.Keys == reserved.Keys + {t};
    forall m: nat ensures |Below(reserved', m)| <= m {
      if m >= |reserved| + 1 {
        SubsetSize(Below(reserved', m), reserved'.Keys);
      } else {
        assert Below(reserved', m) == Below(reserved, m);
      }
    }
  }

  lemma CountDownOk(reserved: map<Tid, nat>, t: Tid)
    requires t in reserved && forall m: nat {:trigger Below(reserved, m)} :: |Below(reserved, m)| <= m
    ensures var reserved' := reserved - {t};
      |reserved'| == |reserved| - 1 && forall m: nat {:trigger Below(reserved', m)} :: |Below(reserved', m)| <= m
  {
    var reserved' := reserved - {t};
    assert reserved'.Keys == reserved.Keys - {t};
    forall m: nat ensures |Below(reserved', m)| <= m {
      SubsetSize(Below(reserved', m), Below(reserved, m));
    }
  }

  /** A step that changes a thread's own reservation or producer, but no table. */
  lemma KeepOwn(s: State, a: Aux, s': State, a': Aux, t: Tid)
    requires Inv(s, a) && Evolves(s, a, s', a', t) && s'.tables == s.tables && t !in a.mine && !Storer(s.threads[t].pc)
    requires InLock(s'.threads[t].pc) == InLock(s.threads[t].pc) && s'.lock == s.lock
    requires ThreadOk(s', a', t) && CountOk(s', a') && MineOk(s', a')
    ensures Inv(s', a')
  {
    TablesSame(s, a, s', a', t);
    KeepStep(s, a, s', a', t);
  }

  /** Thread `t` changes its own reservation or producer, and moves on. */
  ghost predicate Owns(s: State, a: Aux, s': State, a': Aux, t: Tid) {
    && Shape(s) && t in s.threads && t in s'.threads && t !in a.mine && !Storer(s.threads[t].pc)
    && s' == Go(s.(count := s'.count, created := s'.created), t, s'.threads[t].pc)
    && InLock(s'.threads[t].pc) == InLock(s.threads[t].pc)
    && (a'.mine == a.mine || (t in a'.mine && a'.mine == a.mine[t := a'.mine[t]]))
    && (a'.reserved == a.reserved || a'.reserved == a.reserved - {t} || (t in a'.reserved && a'.reserved == a.reserved[t := a'.reserved[t]]))
  }

  lemma OwnEvolves(s: State, a: Aux, s': State, a': Aux, t: Tid)
    requires Owns(s, a, s', a', t)
    ensures Evolves(s, a, s', a', t)
  {
  }

  lemma KeepCountUp(s: State, a: Aux, t: Tid, ok: bool) returns (a': Aux)
    requires Inv(s, a) && Defined(s, t) && s.threads[t].pc.CountUp?
    ensures a' == a.(reserved := a.reserved[t := s.count + 1]) && Inv(AdvanceThread(s, t, ok), a')
  {
    assert ThreadOk(s, a, t);
    a' := a.(reserved := a.reserved[t := s.count + 1]);
    CountUpOk(a.reserved, t);
    OwnEvolves(s, a, AdvanceThread(s, t, ok), a', t);
    KeepOwn(s, a, AdvanceThread(s, t, ok), a', t);
  }

  lemma KeepCountDown(s: State, a: Aux, t: Tid, ok: bool) returns (a': Aux)
    requires Inv(s, a) && Defined(s, t) && (s.threads[t].pc.FailCount? || s.threads[t].pc.CreateFail?)
    ensures a' == a.(reserved := a.reserved - {t}) && Inv(AdvanceThread(s, t, ok), a')
  {
    assert ThreadOk(s, a, t);
    a' := a.(reserved := a.reserved - {t});
    CountDownOk(a.reserved, t);
    OwnEvolves(s, a, AdvanceThread(s, t, ok), a', t);
    KeepOwn(s, a, AdvanceThread(s, t, ok), a', t);
  }

  lemma CreateOk(s: State, a: Aux, t: Tid)
    requires Defined(s, t) && ThreadOk(s, a, t) && s.threads[t].pc.Create? && !InTable(s, s.threads[t].pc.main, t)
    ensures Shape(AdvanceThread(s, t, true)) && ThreadOk(AdvanceThread(s, t, true), a.(mine := a.mine[t := s.created]), t)
  {
    MovedKeys(s, AdvanceThread(s, t, true), t);
  }

  lemma KeepCreate(s: State, a: Aux, t: Tid) returns (a': Aux)
    requires Inv(s, a) && Defined(s, t) && s.threads[t].pc.Create?
    ensures a' == a.(mine := a.mine[t := s.created]) && Inv(AdvanceThread(s, t, true), a')
  {
    assert ThreadOk(s, a, t);
    a' := a.(mine := a.mine[t := s.created]);
    NoKey(s, a, t, s.threads[t].pc.main);
    CreateOk(s, a, t);
    var s' := AdvanceThread(s, t, true);
    OwnEvolves(s, a, s', a', t);
    KeepOwn(s, a, s', a', t);
  }

  // ---------- a new table ----------

  lemma EmptyTableOk(s: State, a: Aux, h: nat)
    requires Shape(s) && h == Last(s) && forall i :: 0 <= i < s.tables[h].capacity ==> s.tables[h].slots[i].key.None?
    ensures TableOk(s, a, h)
  {
    assert forall t, i :: !KeyAt(s, h, i, t);
  }

  lemma OldTableOk(s: State, a: Aux, s': State, t: Tid, h: nat)
    requires Inv(s, a) && Evolves(s, a, s', a, t) && h < |s.tables| && !Storer(s.threads[t].pc)
    requires s'.tables[h] == s.tables[h] && (h + 1 < |s'.tables| ==> s.tables[h].capacity < s'.tables[h + 1].capacity)
    ensures TableOk(s', a, h)
  {
    assert TableOk(s, a, h);
    assert forall i, u :: KeyAt(s', h, i, u) <==> KeyAt(s, h, i, u);
    forall i | 0 <= i < s'.tables[h].capacity ensures SlotOk(s', a, h, i) {
      assert SlotOk(s, a, h, i);
      SlotStays(s, a, s', a, t, h, i);
    }
  }

  ghost predicate Grows(s: State, s': State, t: Tid, capacity: nat, pc: Pc) {
    Shape(s) && t in s.threads && capacity > 0 && s' == Go(s.(tables := s.tables + [EmptyTable(capacity)]), t, pc)
  }

  lemma GrowEvolves(s: State, a: Aux, s': State, t: Tid, capacity: nat, pc: Pc)
    requires Grows(s, s', t, capacity, pc) && InLock(s.threads[t].pc)
    ensures Evolves(s, a, s', a, t)
  {
  }

  /** Only the thread with the lock adds a table, and the table it adds is larger than the newest one. */
  lemma KeepGrow(s: State, a: Aux, t: Tid)
    requires Inv(s, a) && Defined(s, t) && s.threads[t].pc.Allocate?
    ensures Inv(AdvanceThread(s, t, true), a)
  {
    assert ThreadOk(s, a, t);
    var s' := AdvanceThread(s, t, true);
    GrowEvolves(s, a, s', t, s'.tables[Last(s')].capacity, s'.threads[t].pc);
    forall h: nat | h < |s'.tables| ensures TableOk(s', a, h) {
      if h == Last(s') {
        EmptyTableOk(s', a, h);
      } else {
        assert TableOk(s, a, h);
        OldTableOk(s, a, s', t, h);
      }
    }
    KeepStep(s, a, s', a, t);
  }

  // ---------- inserting ----------

  /** Thread `t` writes the slot of its `n`-th probe in table `main` and goes on to `pc`. */
  ghost predicate Writes(s: State, s': State, t: Tid, main: nat, n: nat, slot: Slot, pc: Pc) {
    && Shape(s) && t in s.threads && main < |s.tables| && slot.key == Some(t)
    && (Probed(s, t, main, n).key.None? || Probed(s, t, main, n).key == Some(t))
    && s' == Go(Put(s, main, Pos(s, t, main, n), slot), t, pc)
  }

  lemma WriteEvolves(s: State, a: Aux, s': State, t: Tid, main: nat, n: nat, slot: Slot, pc: Pc)
    requires Writes(s, s', t, main, n, slot, pc)
    ensures Evolves(s, a, s', a, t)
    ensures Pos(s', t, main, n) == Pos(s, t, main, n) && KeyAt(s', main, Pos(s', t, main, n), t)
    ensures forall h: nat :: h < |s.tables| && h != main ==> s'.tables[h] == s.tables[h]
  {
  }

  lemma CasOk(s: State, a: Aux, t: Tid, ok: bool)
    requires Defined(s, t) && ThreadOk(s, a, t) && (s.threads[t].pc.MigrateCas? || s.threads[t].pc.InsertCas?)
    requires var pc := s.threads[t].pc; Probed(s, t, pc.main, pc.n).key.None?
    ensures var pc, s' := s.threads[t].pc, AdvanceThread(s, t, ok);
      && t in a.mine && Inserting(s, a, t, pc.main, pc.n, Some(a.mine[t]))
      && Writes(s, s', t, pc.main, pc.n, Slot(Some(t), Probed(s, t, pc.main, pc.n).value), s'.threads[t].pc)
      && Storer(s'.threads[t].pc) && s'.threads[t].pc.main == pc.main && s'.threads[t].pc.n == pc.n
      && Shape(s') && ThreadOk(s', a, t)
  {
    var pc, s' := s.threads[t].pc, AdvanceThread(s, t, ok);
    WriteEvolves(s, a, s', t, pc.main, pc.n, Slot(Some(t), Probed(s, t, pc.main, pc.n).value), s'.threads[t].pc);
  }

  lemma KeepCas(s: State, a: Aux, t: Tid, ok: bool)
    requires Inv(s, a) && Defined(s, t) && (s.threads[t].pc.MigrateCas? || s.threads[t].pc.InsertCas?)
    requires var pc := s.threads[t].pc; Probed(s, t, pc.main, pc.n).key.None?
    ensures Inv(AdvanceThread(s, t, ok), a)
  {
    CasOk(s, a, t, ok);
    CasKeeps(s, a, AdvanceThread(s, t, ok), t, s.threads[t].pc.main, s.threads[t].pc.n);
  }

  lemma CasKeeps(s: State, a: Aux, s': State, t: Tid, main: nat, n: nat)
    requires Inv(s, a) && t in s.threads && !Storer(s.threads[t].pc) && !InLock(s.threads[t].pc)
    requires t in a.mine && Inserting(s, a, t, main, n, Some(a.mine[t])) && t in s'.threads && Shape(s') && ThreadOk(s', a, t)
    requires Probed(s, t, main, n).key.None?
    requires Writes(s, s', t, main, n, Slot(Some(t), Probed(s, t, main, n).value), s'.threads[t].pc)
    requires Storer(s'.threads[t].pc) && s'.threads[t].pc.main == main && s'.threads[t].pc.n == n
    ensures Inv(s', a)
  {
    hide ThreadOk;
    WriteEvolves(s, a, s', t, main, n, Slot(Some(t), Probed(s, t, main, n).value), s'.threads[t].pc);
    forall h: nat | h < |s'.tables| ensures TableOk(s', a, h) {
      assert TableOk(s, a, h);
      if h == main {
        CasTable(s, a, s', t, main, n);
      } else {
        OldTableOk(s, a, s', t, h);
      }
    }
    KeepStep(s, a, s', a, t);
  }

  /** The new key is the only one of its thread in the table, and its thread's probes lead to it. */
  lemma CasTable(s: State, a: Aux, s': State, t: Tid, main: nat, n: nat)
    requires Shape(s) && Evolves(s, a, s', a, t) && main < |s.tables| && TableOk(s, a, main)
    requires !Storer(s.threads[t].pc) && t in a.mine && Inserting(s, a, t, main, n, Some(a.mine[t]))
    requires Writes(s, s', t, main, n, Slot(Some(t), Probed(s, t, main, n).value), s'.threads[t].pc)
    requires Storing(s', t, main, Pos(s, t, main, n)) && Probed(s, t, main, n).key.None?
    ensures TableOk(s', a, main)
  {
    var p := Pos(s, t, main, n);
    forall i | 0 <= i < s'.tables[main].capacity ensures SlotOk(s', a, main, i) {
      assert SlotOk(s, a, main, i);
      if i == p {
        ProbesStay(s, a, s', a, t, t, main, n);
        assert Reaches(s', main, p, t, n);
      } else {
        SlotStays(s, a, s', a, t, main, i);
      }
    }
    forall u, i, j | KeyAt(s', main, i, u) && KeyAt(s', main, j, u) ensures i == j {
      assert i != p ==> KeyAt(s, main, i, u);
      assert j != p ==> KeyAt(s, main, j, u);
    }
  }

  lemma StoreOk(s: State, a: Aux, t: Tid, ok: bool)
    requires Defined(s, t) && ThreadOk(s, a, t) && Storer(s.threads[t].pc)
    ensures var pc, s' := s.threads[t].pc, AdvanceThread(s, t, ok);
      && t in a.mine && Stored(s, a, t, pc.main, pc.n, Some(a.mine[t]))
      && Writes(s, s', t, pc.main, pc.n, Slot(Some(t), Some(a.mine[t])), s'.threads[t].pc)
      && s'.threads[t].pc == Done(Some(a.mine[t])) && Shape(s') && ThreadOk(s', a, t)
  {
    var pc, s' := s.threads[t].pc, AdvanceThread(s, t, ok);
    WriteEvolves(s, a, s', t, pc.main, pc.n, Slot(Some(t), Some(a.mine[t])), s'.threads[t].pc);
    assert InTable(s', pc.main, t);
    assert Placed(s', t, Last(s'));
  }

  lemma KeepStore(s: State, a: Aux, t: Tid, ok: bool)
    requires Inv(s, a) && Defined(s, t) && Storer(s.threads[t].pc)
    ensures Inv(AdvanceThread(s, t, ok), a)
  {
    hide TableOk, ThreadOk;
    var s', main, n := AdvanceThread(s, t, ok), s.threads[t].pc.main, s.threads[t].pc.n;
    StoreOk(s, a, t, ok);
    WriteEvolves(s, a, s', t, main, n, Slot(Some(t), Some(a.mine[t])), s'.threads[t].pc);
    forall h: nat | h < |s'.tables| ensures TableOk(s', a, h) {
      assert TableOk(s, a, h);
      StoreTable(s, a, s', t, main, n, h);
    }
    KeepStep(s, a, s', a, t);
  }

  lemma StoreTable(s: State, a: Aux, s': State, t: Tid, main: nat, n: nat, h: nat)
    requires Shape(s) && Evolves(s, a, s', a, t) && Storer(s.threads[t].pc) && s.threads[t].pc.main == main && s.threads[t].pc.n == n
    requires t in a.mine && Stored(s, a, t, main, n, Some(a.mine[t])) && h < |s.tables| && TableOk(s, a, h)
    requires Writes(s, s', t, main, n, Slot(Some(t), Some(a.mine[t])), s'.threads[t].pc)
    ensures TableOk(s', a, h)
  {
    var p := Pos(s, t, main, n);
    forall i, u ensures KeyAt(s', h, i, u) <==> KeyAt(s, h, i, u) {
    }
    forall i | 0 <= i < s'.tables[h].capacity ensures SlotOk(s', a, h, i) {
      assert SlotOk(s, a, h, i);
      if h == main && i == p {
        var m: nat :| Reaches(s, h, i, t, m);
        ProbesStay(s, a, s', a, t, t, h, m);
        assert Reaches(s', h, i, t, m);
      } else {
        SlotStays(s, a, s', a, t, h, i);
      }
    }
  }
}
