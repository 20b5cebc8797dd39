/** Every operation on the block index keeps its invariant. */
module BlockIndexSteps {
  import opened Ring
  import opened BlockIndex

  /** Later states keep the shape of old headers, and keys stay bases. */
  ghost predicate Extends(ix: Index, a: Aux, ix': Index, a': Aux) {
    && |a.shift| == |ix.headers| <= |ix'.headers| == |a'.shift|
    && (forall h :: 0 <= h < |ix.headers| ==>
          && ix'.headers[h].capacity == ix.headers[h].capacity && ix'.headers[h].index == ix.headers[h].index
          && a'.shift[h] == a.shift[h])
    && |ix.entries| <= |ix'.entries|
    && forall e :: 0 <= e < |ix.entries| && ix.entries[e].key.Base? ==> ix'.entries[e].key.Base?
  }

  /** So a header that leads to a live block keeps leading to it. */
  lemma FindsStays(ix: Index, a: Aux, ix': Index, a': Aux, h: nat, b: int)
    requires Finds(ix, a, h, b) && Shape(ix') && Extends(ix, a, ix', a')
    requires b in a'.live && a'.live[b] == a.live[b]
    ensures Finds(ix', a', h, b)
  {
    assert HeaderOk(ix, h) && HeaderOk(ix', h);
  }

  /** Positions that agree in the ring of a later header agree in that of an earlier one. */
  lemma {:induction false} WrapDown(ix: Index, g: nat, h: nat, x: int, y: int)
    requires Shape(ix) && g <= h < |ix.headers|
    requires HeaderOk(ix, h) && Wrap(x, ix.headers[h].capacity) == Wrap(y, ix.headers[h].capacity)
    ensures HeaderOk(ix, g) && Wrap(x, ix.headers[g].capacity) == Wrap(y, ix.headers[g].capacity)
    decreases h - g
  {
    assert HeaderOk(ix, g);
    if g < h {
      assert HeaderOk(ix, h - 1);
      WrapHalf(x, ix.headers[h - 1].capacity);
      WrapHalf(y, ix.headers[h - 1].capacity);
      WrapDown(ix, g, h - 1, x, y);
    }
  }

  /** The next block belongs at the slot behind the tail. */
  lemma ChosenSlot(ix: Index, a: Aux)
    requires Inv(ix, a)
    ensures SlotOf(ix, a, Last(ix), a.next) == NewTail(ix)
    ensures forall b :: b in a.live && SlotOf(ix, a, Last(ix), b) == NewTail(ix) ==>
      ix.entries[EntryAt(ix, Last(ix), NewTail(ix))].value.Ptr?
  {
    forall b | b in a.live && SlotOf(ix, a, Last(ix), b) == NewTail(ix)
      ensures ix.entries[EntryAt(ix, Last(ix), NewTail(ix))].value.Ptr?
    {
      assert LiveOk(ix, a, b);
    }
  }

  // ---------- storing the key ----------

  /** In every header, the entry behind the tail is at the slot of the next block. */
  lemma NextSlotEverywhere(ix: Index, a: Aux, h: nat, q: int)
    requires Inv(ix, a) && h < |ix.headers| && 0 <= q < ix.headers[h].capacity
    requires EntryAt(ix, h, q) == EntryAt(ix, Last(ix), NewTail(ix))
    ensures SlotOf(ix, a, h, a.next) == q
  {
    var p, last := NewTail(ix), Last(ix);
    assert SharedOk(ix, a, h, q, p) && HeaderOk(ix, last);
    assert Wrap(p, ix.headers[last].capacity) == p;
    WrapDown(ix, h, last, p, a.next - a.shift[last]);
    WrapTogether(p, a.next - a.shift[last], a.shift[last] - a.shift[h], ix.headers[h].capacity);
  }

  /** Fewer than a full turn of blocks has been inserted since the commit, so the next one stays within a turn. */
  lemma RoomForNext(ix: Index, a: Aux)
    requires Inv(ix, a) && a.open.Chosen?
    ensures a.next < a.base + Current(ix).capacity
  {
    var capacity := Current(ix).capacity;
    assert HeaderOk(ix, Last(ix));
    WrapTurn(a.base - a.shift[Last(ix)], capacity);
    ChosenSlot(ix, a);
    assert a.next == a.base + capacity ==> a.base in a.live;
  }

  lemma KeepStoreKey(ix: Index, a: Aux) returns (a': Aux)
    requires Inv(ix, a) && a.open.Chosen?
    ensures a' == a.(open := Keyed(a.open.e), peak := if a.next < a.peak then a.peak else a.next + 1)
    ensures Inv(StoreKey(ix, a.open.e, a.next), a')
    ensures Extends(ix, a, StoreKey(ix, a.open.e, a.next), a')
  {
    var e := a.open.e;
    var ix' := StoreKey(ix, e, a.next);
    a' := a.(open := Keyed(e), peak := if a.next < a.peak then a.peak else a.next + 1);
    SameHeaders(ix, ix');
    RoomForNext(ix, a);
    forall h, p | 0 <= h < |ix'.headers| && 0 <= p < ix'.headers[h].capacity ensures KeyOk(ix', a', h, p) {
      assert KeyOk(ix, a, h, p);
      if EntryAt(ix, h, p) == e {
        NextSlotEverywhere(ix, a, h, p);
      }
    }
    forall h, q, p | 0 <= h < |ix'.headers| && 0 <= q < ix'.headers[h].capacity && 0 <= p < Current(ix').capacity
      ensures SharedOk(ix', a', h, q, p)
    {
      assert SharedOk(ix, a, h, q, p);
    }
    StoreKeyContent(ix, a, a');
    StoreKeyPeak(ix, a, a');
  }

  lemma SameHeaders(ix: Index, ix': Index)
    requires Shape(ix) && ix'.headers == ix.headers && |ix'.entries| == |ix.entries|
    ensures Shape(ix')
  {
    forall h: nat | h < |ix'.headers| ensures HeaderOk(ix', h) {
      assert HeaderOk(ix, h);
    }
  }

  lemma StoreKeyContent(ix: Index, a: Aux, a': Aux)
    requires Inv(ix, a) && a.open.Chosen? && Shape(StoreKey(ix, a.open.e, a.next))
    requires a' == a.(open := Keyed(a.open.e), peak := a'.peak)
    ensures ContentOk(StoreKey(ix, a.open.e, a.next), a')
  {
    var ix' := StoreKey(ix, a.open.e, a.next);
    forall b | b in a'.live ensures LiveOk(ix', a', b) {
      assert LiveOk(ix, a, b);
    }
    forall f | 0 <= f < |ix'.entries| ensures EntryOk(ix', a', f) {
      assert EntryOk(ix, a, f);
    }
  }

  lemma StoreKeyPeak(ix: Index, a: Aux, a': Aux)
    requires Inv(ix, a) && a.open.Chosen? && Shape(StoreKey(ix, a.open.e, a.next))
    requires a' == a.(open := Keyed(a.open.e), peak := if a.next < a.peak then a.peak else a.next + 1)
    requires a.next < a.base + Current(ix).capacity
    ensures PeakOk(StoreKey(ix, a.open.e, a.next), a')
  {
    var ix' := StoreKey(ix, a.open.e, a.next);
    var last, cap := Last(ix), Current(ix).capacity;
    forall b | a'.shift[last] <= b && a'.peak - cap <= b < a'.peak
      ensures ix'.entries[EntryAt(ix', last, SlotOf(ix', a', last, b))].key == Base(b)
    {
      var p := SlotOf(ix, a, last, b);
      if EntryAt(ix, last, p) == a.open.e {
        assert SharedOk(ix, a, last, p, NewTail(ix));
        assert NewTail(ix) == Wrap(NewTail(ix), cap) == p;
        WrapTogether(b - a.shift[last], a.next - a.shift[last], a.shift[last], cap);
        WrapNear(b, a.next, cap);
      } else if b == a.next {
        assert false;
      }
    }
  }

  // ---------- moving the tail ----------

  /** Storing the tail moves no entry and no key. */
  lemma TailOnly(ix: Index, a: Aux, t: int, a': Aux)
    requires Inv(ix, a) && 0 <= t < Current(ix).capacity && a'.shift == a.shift
    ensures var ix' := StoreTail(ix, t);
      && Shape(ix') && Extends(ix, a, ix', a')
      && Current(ix').capacity == Current(ix).capacity && Current(ix').tail == t
      && (forall h, p {:trigger EntryAt(ix', h, p)} :: 0 <= h < |ix.headers| && 0 <= p < ix.headers[h].capacity ==>
            EntryAt(ix', h, p) == EntryAt(ix, h, p))
      && KeysOk(ix', a') && SharingOk(ix', a')
  {
    var ix' := StoreTail(ix, t);
    forall h: nat | h < |ix'.headers| ensures HeaderOk(ix', h) {
      assert HeaderOk(ix, h);
      assert h + 1 < |ix.headers| ==> HeaderOk(ix, h + 1);
    }
    forall h, p | 0 <= h < |ix'.headers| && 0 <= p < ix'.headers[h].capacity ensures KeyOk(ix', a', h, p) {
      assert KeyOk(ix, a, h, p);
    }
    forall h, q, p | 0 <= h < |ix'.headers| && 0 <= q < ix'.headers[h].capacity && 0 <= p < Current(ix').capacity
      ensures SharedOk(ix', a', h, q, p)
    {
      assert SharedOk(ix, a, h, q, p);
    }
  }

  lemma KeepStoreTail(ix: Index, a: Aux) returns (a': Aux)
    requires Inv(ix, a) && a.open.Keyed?
    ensures a' == a.(open := Placed(a.open.e), next := a.next + 1, top := a.top + 1)
    ensures Inv(StoreTail(ix, NewTail(ix)), a') && Extends(ix, a, StoreTail(ix, NewTail(ix)), a')
  {
    hide SharingOk;
    var t, last, cap := NewTail(ix), Last(ix), Current(ix).capacity;
    var ix' := StoreTail(ix, t);
    a' := a.(open := Placed(a.open.e), next := a.next + 1, top := a.top + 1);
    TailOnly(ix, a, t, a');
    ChosenSlot(ix, a);
    assert Wrap(t, cap) == t;
    WrapTogether(a.next - a.shift[last], t, 1, cap);
    WrapTurn(a.next - cap - a.shift[last], cap);
    assert a.next - cap !in a.live;
    forall b | b in a'.live ensures LiveOk(ix', a', b) {
      assert LiveOk(ix, a, b);
    }
    forall f | 0 <= f < |ix'.entries| ensures EntryOk(ix', a', f) {
      assert EntryOk(ix, a, f);
    }
    PeakStays(ix, a, ix', a');
  }

  /** The keys up to the peak, for a step that changes neither keys nor entries. */
  lemma PeakStays(ix: Index, a: Aux, ix': Index, a': Aux)
    requires Shape(ix) && |a.shift| == |ix.headers| && PeakOk(ix, a)
    requires Shape(ix') && |ix'.headers| == |ix.headers| && a'.shift == a.shift
    requires |ix'.entries| == |ix.entries| && forall e :: 0 <= e < |ix.entries| ==> ix'.entries[e].key == ix.entries[e].key
    requires Current(ix').capacity == Current(ix).capacity && Current(ix').index == Current(ix).index
    requires a'.peak == a.peak && a.base <= a'.base <= a'.next <= a'.top <= a'.peak
    ensures PeakOk(ix', a')
  {
    var last := Last(ix);
    forall b | a'.shift[last] <= b && a'.peak - Current(ix').capacity <= b < a'.peak
      ensures ix'.entries[EntryAt(ix', last, SlotOf(ix', a', last, b))].key == Base(b)
    {
      assert SlotOf(ix', a', last, b) == SlotOf(ix, a, last, b);
    }
  }

  lemma PlacedIsNotLive(ix: Index, a: Aux)
    requires Inv(ix, a) && a.open.Placed?
    ensures a.next - 1 !in a.live
  {
    assert forall b :: b in a.live ==> LiveOk(ix, a, b);
  }

  function RewoundAux(a: Aux): Aux {
    if a.open.Placed? then a.(open := Rewound(a.open.e), next := a.next - 1, top := a.top - 1)
    else a.(next := a.next - 1)
  }

  lemma RewindContent(ix: Index, a: Aux, ix': Index)
    requires Inv(ix, a) && (a.open.Placed? || a.open.Undoing?) && a.base < a.next
    requires Shape(ix') && ix'.entries == ix.entries && |ix'.headers| == |ix.headers| && Current(ix').capacity == Current(ix).capacity
    requires Current(ix').index == Current(ix).index
    ensures ContentOk(ix', RewoundAux(a))
  {
    var a' := RewoundAux(a);
    if a.open.Placed? {
      PlacedIsNotLive(ix, a);
    }
    forall b | b in a'.live ensures LiveOk(ix', a', b) {
      assert LiveOk(ix, a, b);
    }
    forall f | 0 <= f < |ix'.entries| ensures EntryOk(ix', a', f) {
      assert EntryOk(ix, a, f);
    }
  }

  lemma RewindSlot(x: int, tail: int, cap: int)
    requires cap > 0 && Wrap(x, cap) == Wrap(tail + 1, cap)
    ensures Wrap(x - 1, cap) == Wrap(Wrap(tail - 1, cap) + 1, cap)
  {
    WrapAdd(tail - 1, 1, cap);
    WrapTogether(x, tail + 1, -1, cap);
  }

  lemma RewindOpen(ix: Index, a: Aux)
    requires Inv(ix, a) && (a.open.Placed? || a.open.Undoing?) && a.base < a.next && Shape(Rewind(ix))
    ensures OpenOk(Rewind(ix), RewoundAux(a))
  {
  }

  /** Taking the tail back by one, for a block that is not live any more. */
  lemma KeepRewind(ix: Index, a: Aux)
    requires Inv(ix, a) && (a.open.Placed? || a.open.Undoing?) && a.base < a.next
    ensures Inv(Rewind(ix), RewoundAux(a)) && Extends(ix, a, Rewind(ix), RewoundAux(a))
  {
    hide ContentOk, SharingOk, KeysOk, OpenOk, EntryAt;
    var last, cap := Last(ix), Current(ix).capacity;
    assert HeaderOk(ix, last);
    var a' := RewoundAux(a);
    TailOnly(ix, a, Wrap(Current(ix).tail - 1, cap), a');
    RewindSlot(a.next - a.shift[last], Current(ix).tail, cap);
    RewindContent(ix, a, Rewind(ix));
    RewindOpen(ix, a);
    PeakStays(ix, a, Rewind(ix), a');
  }

  // ---------- storing the value ----------

  /** Storing a value moves no entry and no key. */
  lemma ValueOnly(ix: Index, a: Aux, e: nat, v: Value, a': Aux)
    requires Inv(ix, a) && e < |ix.entries| && a'.shift == a.shift
    requires a'.base == a.base && a'.next == a.next && a'.top == a.top && a'.peak == a.peak
    ensures var ix' := StoreValue(ix, e, v);
      && Shape(ix') && Extends(ix, a, ix', a')
      && SlotOf(ix', a', Last(ix'), a'.next) == NewTail(ix')
      && KeysOk(ix', a') && SharingOk(ix', a') && PeakOk(ix', a')
  {
    var ix' := StoreValue(ix, e, v);
    SameHeaders(ix, ix');
    forall h, p | 0 <= h < |ix'.headers| && 0 <= p < ix'.headers[h].capacity ensures KeyOk(ix', a', h, p) {
      assert KeyOk(ix, a, h, p);
    }
    forall h, q, p | 0 <= h < |ix'.headers| && 0 <= q < ix'.headers[h].capacity && 0 <= p < Current(ix').capacity
      ensures SharedOk(ix', a', h, q, p)
    {
      assert SharedOk(ix, a, h, q, p);
    }
    PeakStays(ix, a, ix', a');
  }

  lemma KeepStoreBlock(ix: Index, a: Aux, block: nat) returns (a': Aux)
    requires Inv(ix, a) && a.open.Placed?
    ensures a' == a.(open := Closed, live := a.live[a.next - 1 := Location(a.open.e, block)])
    ensures a.next - 1 !in a.live
    ensures Inv(StoreValue(ix, a.open.e, Ptr(block)), a') && Extends(ix, a, StoreValue(ix, a.open.e, Ptr(block)), a')
  {
    var e := a.open.e;
    var ix' := StoreValue(ix, e, Ptr(block));
    a' := a.(open := Closed, live := a.live[a.next - 1 := Location(e, block)]);
    ValueOnly(ix, a, e, Ptr(block), a');
    PlacedIsNotLive(ix, a);
    StoreBlockContent(ix, a, block);
  }

  lemma StoreBlockContent(ix: Index, a: Aux, block: nat)
    requires Inv(ix, a) && a.open.Placed? && a.next - 1 !in a.live
    requires Shape(StoreValue(ix, a.open.e, Ptr(block)))
    ensures ContentOk(StoreValue(ix, a.open.e, Ptr(block)),
                      a.(open := Closed, live := a.live[a.next - 1 := Location(a.open.e, block)]))
  {
    var ix' := StoreValue(ix, a.open.e, Ptr(block));
    var a' := a.(open := Closed, live := a.live[a.next - 1 := Location(a.open.e, block)]);
    forall b | b in a'.live ensures LiveOk(ix', a', b) {
      assert b in a.live ==> LiveOk(ix, a, b);
    }
    forall f | 0 <= f < |ix'.entries| ensures EntryOk(ix', a', f) {
      assert EntryOk(ix, a, f);
    }
  }

  /** The producer clears the entry of the block it gave up. */
  lemma KeepClearOwn(ix: Index, a: Aux) returns (a': Aux)
    requires Inv(ix, a) && a.open.Rewound?
    ensures a' == a.(open := Closed)
    ensures Inv(StoreValue(ix, a.open.e, Null), a') && Extends(ix, a, StoreValue(ix, a.open.e, Null), a')
  {
    var ix' := StoreValue(ix, a.open.e, Null);
    a' := a.(open := Closed);
    ValueOnly(ix, a, a.open.e, Null, a');
    forall b | b in a'.live ensures LiveOk(ix', a', b) {
      assert LiveOk(ix, a, b);
    }
    forall f | 0 <= f < |ix'.entries| ensures EntryOk(ix', a', f) {
      assert EntryOk(ix, a, f);
    }
  }

  /** A consumer clears the entry of a committed block, or the producer that of a block it is undoing. */
  lemma KeepClearLive(ix: Index, a: Aux, b: int) returns (a': Aux)
    requires Inv(ix, a) && b in a.live && (b < a.base || a.open.Undoing?)
    ensures a' == a.(live := a.live - {b}) && a.live[b].entry < |ix.entries|
    ensures Inv(StoreValue(ix, a.live[b].entry, Null), a') && Extends(ix, a, StoreValue(ix, a.live[b].entry, Null), a')
  {
    assert LiveOk(ix, a, b);
    a' := a.(live := a.live - {b});
    ValueOnly(ix, a, a.live[b].entry, Null, a');
    ClearContent(ix, a, b);
  }

  lemma ClearContent(ix: Index, a: Aux, b: int)
    requires Inv(ix, a) && b in a.live && LiveOk(ix, a, b) && Shape(StoreValue(ix, a.live[b].entry, Null))
    ensures ContentOk(StoreValue(ix, a.live[b].entry, Null), a.(live := a.live - {b}))
  {
    var ix', a' := StoreValue(ix, a.live[b].entry, Null), a.(live := a.live - {b});
    forall c | c in a'.live ensures LiveOk(ix', a', c) {
      assert LiveOk(ix, a, c);
    }
    forall f | 0 <= f < |ix'.entries| ensures EntryOk(ix', a', f) {
      assert EntryOk(ix, a, f);
    }
  }

  // ---------- bookkeeping without a step ----------

  /** The producer turns to the slot behind the tail, or to undoing, or is done. */
  lemma KeepMode(ix: Index, a: Aux, a': Aux)
    requires Inv(ix, a) && (a.open.Closed? || (a.open.Full? && a' == a.(open := Undoing)))
    requires || (a' == a.(open := Chosen(EntryAt(ix, Last(ix), NewTail(ix))))
                  && Free(ix.entries[EntryAt(ix, Last(ix), NewTail(ix))]))
             || a' == a.(open := Undoing)
             || a' == a.(base := a.next)
    ensures Inv(ix, a')
  {
    assert EntryOk(ix, a, EntryAt(ix, Last(ix), NewTail(ix)));
    forall h, p | 0 <= h < |ix.headers| && 0 <= p < ix.headers[h].capacity ensures KeyOk(ix, a', h, p) {
      assert KeyOk(ix, a, h, p);
    }
    forall h, q, p | 0 <= h < |ix.headers| && 0 <= q < ix.headers[h].capacity && 0 <= p < Current(ix).capacity
      ensures SharedOk(ix, a', h, q, p)
    {
      assert SharedOk(ix, a, h, q, p);
    }
    forall b | b in a'.live ensures LiveOk(ix, a', b) {
      assert LiveOk(ix, a, b);
    }
    forall f | 0 <= f < |ix.entries| ensures EntryOk(ix, a', f) {
      assert EntryOk(ix, a, f);
    }
    PeakStays(ix, a, ix, a');
  }

  lemma KeepUndone(ix: Index, a: Aux) returns (a': Aux)
    requires Inv(ix, a) && a.open.Undoing? && a.next == a.base && forall b :: b in a.live ==> b < a.base
    ensures a' == a.(open := Closed, top := a.base) && Inv(ix, a')
  {
    a' := a.(open := Closed, top := a.base);
    forall h, p | 0 <= h < |ix.headers| && 0 <= p < ix.headers[h].capacity ensures KeyOk(ix, a', h, p) {
      assert KeyOk(ix, a, h, p);
    }
    forall h, q, p | 0 <= h < |ix.headers| && 0 <= q < ix.headers[h].capacity && 0 <= p < Current(ix).capacity
      ensures SharedOk(ix, a', h, q, p)
    {
      assert SharedOk(ix, a, h, q, p);
    }
    forall b | b in a'.live ensures LiveOk(ix, a', b) {
      assert LiveOk(ix, a, b);
    }
    forall f | 0 <= f < |ix.entries| ensures EntryOk(ix, a', f) {
      assert EntryOk(ix, a, f);
    }
    PeakStays(ix, a, ix, a');
  }

  // ---------- growing ----------

  /** The slot behind the tail is taken: the ring is full of blocks, and every key is up to date.  Consumers may
      clear entries from now on, but this stays so. */
  lemma FullRing(ix: Index, a: Aux)
    requires Inv(ix, a) && a.open.Closed? && !Free(ix.entries[EntryAt(ix, Last(ix), NewTail(ix))])
    ensures a.peak == a.top == a.next
    ensures a.shift[Last(ix)] <= a.top - Current(ix).capacity <= a.base
  {
    var last, cap, p := Last(ix), Current(ix).capacity, NewTail(ix);
    assert HeaderOk(ix, last);
    var e := EntryAt(ix, last, p);
    assert EntryOk(ix, a, e) && KeyOk(ix, a, last, p);
    var b := ix.entries[e].key.b;
    assert LiveOk(ix, a, b);
    assert SlotOf(ix, a, last, b) == p;
    WrapTogether(b - a.shift[last], a.next - a.shift[last], a.shift[last], cap);
    WrapTurn(b, cap);
    WrapNear(b + cap, a.next, cap) by { assert b < a.next; }
    assert SlotOf(ix, a, last, a.next) == p;
  }

  /** The producer finds the ring full. */
  lemma KeepFull(ix: Index, a: Aux)
    requires Inv(ix, a) && a.open.Closed? && !Free(ix.entries[EntryAt(ix, Last(ix), NewTail(ix))])
    ensures Inv(ix, a.(open := Full))
  {
    var a' := a.(open := Full);
    FullRing(ix, a);
    forall h, p | 0 <= h < |ix.headers| && 0 <= p < ix.headers[h].capacity ensures KeyOk(ix, a', h, p) {
      assert KeyOk(ix, a, h, p);
    }
    forall h, q, p | 0 <= h < |ix.headers| && 0 <= q < ix.headers[h].capacity && 0 <= p < Current(ix).capacity
      ensures SharedOk(ix, a', h, q, p)
    {
      assert SharedOk(ix, a, h, q, p);
    }
    forall b | b in a'.live ensures LiveOk(ix, a', b) {
      assert LiveOk(ix, a, b);
    }
    forall f | 0 <= f < |ix.entries| ensures EntryOk(ix, a', f) {
      assert EntryOk(ix, a, f);
    }
    PeakStays(ix, a, ix, a');
  }

  ghost function GrownAux(ix: Index, a: Aux): Aux
    requires Shape(ix)
  {
    a.(shift := a.shift + [a.top - Current(ix).capacity], open := Chosen(|ix.entries|))
  }

  lemma GrownShape(ix: Index)
    requires Shape(ix)
    ensures var ix', cap := Grow(ix), Current(ix).capacity;
      && Shape(ix') && |ix'.headers| == |ix.headers| + 1 && Current(ix').capacity == 2 * cap
      && NewTail(ix') == cap
      && (forall h, p {:trigger EntryAt(ix', h, p)} :: 0 <= h < |ix.headers| && 0 <= p < ix.headers[h].capacity ==>
            EntryAt(ix', h, p) == EntryAt(ix, h, p))
      && (forall p {:trigger EntryAt(ix', Last(ix'), p)} :: 0 <= p < 2 * cap ==> EntryAt(ix', Last(ix'), p) == GrownSlot(ix, p))
  {
    var ix' := Grow(ix);
    assert HeaderOk(ix, Last(ix));
    forall h: nat | h < |ix'.headers| ensures HeaderOk(ix', h) {
      assert h < |ix.headers| ==> HeaderOk(ix, h);
    }
  }

  /** Position `p` of the new ring holds the entry of block `top - capacity + p`. */
  lemma GrownPlace(ix: Index, a: Aux, p: int)
    requires Inv(ix, a) && a.next == a.top && 0 <= p < Current(ix).capacity
    ensures var b := a.top - Current(ix).capacity + p;
      GrownSlot(ix, p) == EntryAt(ix, Last(ix), SlotOf(ix, a, Last(ix), b))
    ensures Wrap(a.top - Current(ix).capacity + p - a.shift[Last(ix)], Current(ix).capacity)
         == Wrap(Current(ix).tail + 1 + p, Current(ix).capacity)
  {
    var last, cap := Last(ix), Current(ix).capacity;
    WrapTogether(a.next - a.shift[last], Current(ix).tail + 1, p, cap);
    WrapTurn(a.top - cap + p - a.shift[last], cap);
  }

  lemma GrownKey(ix: Index, a: Aux, h: nat, p: int)
    requires Inv(ix, a) && a.open.Full?
    requires Shape(Grow(ix)) && h < |Grow(ix).headers| && 0 <= p < Grow(ix).headers[h].capacity
    ensures KeyOk(Grow(ix), GrownAux(ix, a), h, p)
  {
    GrownShape(ix);
    if h < |ix.headers| {
      assert KeyOk(ix, a, h, p);
      GrownOldKeys(ix, a, h, p);
    } else if p < Current(ix).capacity {
      GrownPlace(ix, a, p);
    }
  }

  /** Every key of the full ring is a base. */
  lemma GrownOldKeys(ix: Index, a: Aux, h: nat, p: int)
    requires Inv(ix, a) && a.open.Full?
    requires h < |ix.headers| && 0 <= p < ix.headers[h].capacity
    ensures ix.entries[EntryAt(ix, h, p)].key.Base?
  {
    assert KeyOk(ix, a, h, p);
    if h == Last(ix) {
      // The block of the last turn whose slot is `p`.
      var shift, cap := a.shift[h], Current(ix).capacity;
      var b := a.top - cap + Wrap(p - (a.top - cap - shift), cap);
      WrapAdd(p - (a.top - cap - shift), a.top - cap - shift, cap);
      assert b - shift == Wrap(p - (a.top - cap - shift), cap) + (a.top - cap - shift);
      assert SlotOf(ix, a, h, b) == Wrap(p, cap) == p;
    }
  }

  /** An old header and the new one that share an entry agree on its block. */
  lemma GrownSharedOld(ix: Index, a: Aux, h: nat, q: int, p: int)
    requires Inv(ix, a) && a.next == a.top
    requires h < |ix.headers| && 0 <= q < ix.headers[h].capacity && 0 <= p < Current(ix).capacity
    requires EntryAt(ix, h, q) == GrownSlot(ix, p)
    ensures SlotOf(ix, a, h, a.top - Current(ix).capacity + p) == q
  {
    hide ContentOk, OpenOk, PeakOk, EntryAt;
    var last, b := Last(ix), a.top - Current(ix).capacity + p;
    assert HeaderOk(ix, h) && HeaderOk(ix, last);
    GrownPlace(ix, a, p);
    var P := SlotOf(ix, a, last, b);
    assert SharedOk(ix, a, h, q, P);
    assert Wrap(P, Current(ix).capacity) == P;
    WrapDown(ix, h, last, P, b - a.shift[last]);
    WrapTogether(P, b - a.shift[last], a.shift[last] - a.shift[h], ix.headers[h].capacity);
  }

  lemma GrownShared(ix: Index, a: Aux, h: nat, q: int, p: int)
    requires Inv(ix, a) && a.open.Full?
    requires Shape(Grow(ix)) && h < |Grow(ix).headers|
    requires 0 <= q < Grow(ix).headers[h].capacity && 0 <= p < Current(Grow(ix)).capacity
    ensures SharedOk(Grow(ix), GrownAux(ix, a), h, q, p)
  {
    GrownShape(ix);
    if EntryAt(Grow(ix), h, q) == EntryAt(Grow(ix), |ix.headers|, p) {
      if h < |ix.headers| {
        assert HeaderOk(ix, h);
        GrownSharedOld(ix, a, h, q, p);
      } else {
        GrownDistinct(ix, a, q, p);
      }
    }
  }

  /** Positions of the last turn of blocks are distinct. */
  lemma TurnDistinct(first: int, shift: int, p: int, q: int, cap: int)
    requires 0 <= p < cap && 0 <= q < cap && Wrap(first + p - shift, cap) == Wrap(first + q - shift, cap)
    ensures p == q
  {
    WrapTogether(first + p - shift, first + q - shift, shift - first, cap);
    WrapNear(p, q, cap);
  }

  /** No entry is twice in a header. */
  lemma EntriesDistinct(ix: Index, a: Aux, P: int, Q: int)
    requires Inv(ix, a) && 0 <= P < Current(ix).capacity && 0 <= Q < Current(ix).capacity
    requires EntryAt(ix, Last(ix), P) == EntryAt(ix, Last(ix), Q)
    ensures P == Q
  {
    assert HeaderOk(ix, Last(ix));
    assert SharedOk(ix, a, Last(ix), Q, P);
    assert Wrap(P, Current(ix).capacity) == P;
  }

  /** Nor in the new ring. */
  lemma GrownDistinct(ix: Index, a: Aux, q: int, p: int)
    requires Inv(ix, a) && a.next == a.top && 0 <= p < 2 * Current(ix).capacity && 0 <= q < 2 * Current(ix).capacity
    requires GrownSlot(ix, q) == GrownSlot(ix, p)
    ensures q == p
  {
    hide ContentOk, OpenOk, PeakOk;
    var last, cap := Last(ix), Current(ix).capacity;
    assert HeaderOk(ix, last);
    if p < cap && q < cap {
      GrownPlace(ix, a, p);
      GrownPlace(ix, a, q);
      EntriesDistinct(ix, a, SlotOf(ix, a, last, a.top - cap + p), SlotOf(ix, a, last, a.top - cap + q));
      TurnDistinct(a.top - cap, a.shift[last], p, q, cap);
    }
  }

  lemma GrownContent(ix: Index, a: Aux)
    requires Inv(ix, a) && a.open.Full?
    requires Shape(Grow(ix))
    ensures ContentOk(Grow(ix), GrownAux(ix, a))
  {
    var ix', a' := Grow(ix), GrownAux(ix, a);
    GrownShape(ix);
    forall b | b in a'.live ensures LiveOk(ix', a', b) {
      assert LiveOk(ix, a, b);
      GrownPlace(ix, a, b - a.top + Current(ix).capacity);
      assert SlotOf(ix', a', Last(ix'), b) == b - a.top + Current(ix).capacity;
    }
    forall f | 0 <= f < |ix'.entries| ensures EntryOk(ix', a', f) {
      assert f < |ix.entries| ==> EntryOk(ix, a, f);
    }
  }

  /** Growing keeps the invariant, whatever has been cleared since the ring was found full, and the slot behind the tail
      of the new ring has never been used, as the code asserts. */
  lemma KeepGrow(ix: Index, a: Aux)
    requires Inv(ix, a) && a.open.Full?
    ensures Inv(Grow(ix), GrownAux(ix, a)) && Extends(ix, a, Grow(ix), GrownAux(ix, a))
    ensures EntryAt(Grow(ix), Last(Grow(ix)), NewTail(Grow(ix))) == |ix.entries|
    ensures Grow(ix).entries[|ix.entries|].key.Invalid?
  {
    var ix', a' := Grow(ix), GrownAux(ix, a);
    GrownShape(ix);
    forall h, p | 0 <= h < |ix'.headers| && 0 <= p < ix'.headers[h].capacity ensures KeyOk(ix', a', h, p) {
      GrownKey(ix, a, h, p);
    }
    forall h, q, p | 0 <= h < |ix'.headers| && 0 <= q < ix'.headers[h].capacity && 0 <= p < Current(ix').capacity
      ensures SharedOk(ix', a', h, q, p)
    {
      GrownShared(ix, a, h, q, p);
    }
    GrownContent(ix, a);
    GrownPeak(ix, a);
  }

  lemma GrownPeak(ix: Index, a: Aux)
    requires Inv(ix, a) && a.open.Full?
    requires Shape(Grow(ix))
    ensures PeakOk(Grow(ix), GrownAux(ix, a))
  {
    var ix', a' := Grow(ix), GrownAux(ix, a);
    GrownShape(ix);
    forall b | a'.shift[Last(ix')] <= b && a'.peak - Current(ix').capacity <= b < a'.peak
      ensures ix'.entries[EntryAt(ix', Last(ix'), SlotOf(ix', a', Last(ix'), b))].key == Base(b)
    {
      GrownPlace(ix, a, b - a.top + Current(ix).capacity);
      assert SlotOf(ix', a', Last(ix'), b) == b - a.top + Current(ix).capacity;
    }
  }

  lemma InitKeeps()
    ensures Inv(InitIndex(), Aux([0], map[], 0, 0, 0, 0, Closed))
  {
    var ix, a := InitIndex(), Aux([0], map[], 0, 0, 0, 0, Closed);
    assert HeaderOk(ix, 0);
    forall h, q, p | 0 <= h < |ix.headers| && 0 <= q < ix.headers[h].capacity && 0 <= p < Current(ix).capacity
      ensures SharedOk(ix, a, h, q, p)
    {
      assert SlotOf(ix, a, 0, p) == p;
    }
    assert Wrap(INITIAL_SIZE, INITIAL_SIZE) == Wrap(0, INITIAL_SIZE) == 0;
  }
}
