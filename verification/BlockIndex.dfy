/** The block index of an implicit producer.

    A header is a ring of pointers to entries; an entry maps the base of a block to the block.  When the
    ring is full the producer publishes a header of twice the size, which shares the entries of the old
    one.  Consumers look blocks up through whatever header and tail they loaded, however stale.  Block
    bases are counted in blocks. */
module BlockIndex {
  import opened Ring

  const INITIAL_SIZE: nat := 32

  datatype Key = Invalid | Base(b: int)

  /** An entry's value is not initialised when its key is invalid. */
  datatype Value = Garbage | Null | Ptr(block: nat)

  datatype Entry = Entry(key: Key, value: Value)

  datatype Header = Header(capacity: nat, index: seq<nat>, tail: int)

  /** All headers ever published, the current one last, and all entries. */
  datatype Index = Index(headers: seq<Header>, entries: seq<Entry>)

  // ---------- the operations, one for each access ----------

  function InitIndex(): Index {
    Index([Header(INITIAL_SIZE, seq(INITIAL_SIZE, i => i), INITIAL_SIZE - 1)],
          seq(INITIAL_SIZE, _ => Entry(Invalid, Garbage)))
  }

  predicate Shape(ix: Index) {
    && |ix.headers| > 0
    && forall h :: 0 <= h < |ix.headers| ==> HeaderOk(ix, h)
  }

  predicate HeaderOk(ix: Index, h: nat)
    requires h < |ix.headers|
  {
    var hd := ix.headers[h];
    && hd.capacity > 0 && |hd.index| == hd.capacity && 0 <= hd.tail < hd.capacity
    && (forall p :: 0 <= p < hd.capacity ==> hd.index[p] < |ix.entries|)
    && (h + 1 < |ix.headers| ==> ix.headers[h + 1].capacity == 2 * hd.capacity)
  }

  function Last(ix: Index): nat
    requires |ix.headers| > 0
  {
    |ix.headers| - 1
  }

  function Current(ix: Index): Header
    requires |ix.headers| > 0
  {
    ix.headers[|ix.headers| - 1]
  }

  /** The slot that `insert_block_index_entry` tries. */
  function NewTail(ix: Index): (p: int)
    requires Shape(ix)
    ensures 0 <= p < Current(ix).capacity
  {
    assert HeaderOk(ix, |ix.headers| - 1);
    Wrap(Current(ix).tail + 1, Current(ix).capacity)
  }

  function EntryAt(ix: Index, h: nat, p: int): (e: nat)
    requires Shape(ix) && h < |ix.headers| && 0 <= p < ix.headers[h].capacity
    ensures e < |ix.entries|
  {
    assert HeaderOk(ix, h);
    ix.headers[h].index[p]
  }

  predicate Free(entry: Entry) { entry.key.Invalid? || entry.value.Null? }

  function StoreKey(ix: Index, e: nat, b: int): Index
    requires e < |ix.entries|
  {
    ix.(entries := ix.entries[e := ix.entries[e].(key := Base(b))])
  }

  function StoreValue(ix: Index, e: nat, v: Value): Index
    requires e < |ix.entries|
  {
    ix.(entries := ix.entries[e := ix.entries[e].(value := v)])
  }

  function StoreTail(ix: Index, tail: int): Index
    requires |ix.headers| > 0
  {
    ix.(headers := ix.headers[|ix.headers| - 1 := Current(ix).(tail := tail)])
  }

  /** `rewind_block_index_tail` */
  function Rewind(ix: Index): Index
    requires Shape(ix)
  {
    assert HeaderOk(ix, |ix.headers| - 1);
    StoreTail(ix, Wrap(Current(ix).tail - 1, Current(ix).capacity))
  }

  /** `new_block_index`: the old entries in ring order, starting behind the tail, then as many new ones. */
  function GrownSlot(ix: Index, i: nat): nat
    requires Shape(ix)
  {
    assert HeaderOk(ix, |ix.headers| - 1);
    var cur := Current(ix);
    if i < cur.capacity then cur.index[Wrap(cur.tail + 1 + i, cur.capacity)] else |ix.entries| + (i - cur.capacity)
  }

  function Grow(ix: Index): Index
    requires Shape(ix)
  {
    var size := 2 * Current(ix).capacity;
    Index(ix.headers + [Header(size, seq(size, i requires 0 <= i < size => GrownSlot(ix, i)), Current(ix).capacity - 1)],
          ix.entries + seq(Current(ix).capacity, _ => Entry(Invalid, Garbage)))
  }

  /** The slot that a consumer computes from a tail it loaded and the key it found there. */
  function LookupSlot(ix: Index, h: nat, tail: int, tailKey: int, b: int): (p: int)
    requires Shape(ix) && h < |ix.headers|
    ensures 0 <= p < ix.headers[h].capacity
  {
    assert HeaderOk(ix, h);
    Wrap(tail + (b - tailKey), ix.headers[h].capacity)
  }

  // ---------- the invariant ----------

  /** What the producer is doing to the index: nothing, inserting the next block through entry `e`, having
      given up that block, or undoing the blocks inserted since the last commit.  With `Full` it has found the ring
      full, which consumers may have changed since. */
  datatype Open = Closed | Full | Chosen(e: nat) | Keyed(e: nat) | Placed(e: nat) | Rewound(e: nat) | Undoing

  datatype Location = Location(entry: nat, block: nat)

  /** What the proof knows beyond the index.  Block `b` belongs at position `b - shift[h]` of header `h`.
      `live` are the blocks whose entry points to them.  Blocks below `base` are committed, `next` is the
      block the tail is ready for, `top` is one more than the highest block that may be live, and `peak` one
      more than the highest block that ever had its base stored as a key. */
  datatype Aux = Aux(shift: seq<int>, live: map<int, Location>, base: int, next: int, top: int, peak: int, open: Open)

  function SlotOf(ix: Index, a: Aux, h: nat, b: int): (p: int)
    requires Shape(ix) && h < |ix.headers| && |a.shift| == |ix.headers|
    ensures 0 <= p < ix.headers[h].capacity
  {
    assert HeaderOk(ix, h);
    Wrap(b - a.shift[h], ix.headers[h].capacity)
  }

  ghost predicate KeyOk(ix: Index, a: Aux, h: nat, p: int)
    requires Shape(ix) && h < |ix.headers| && |a.shift| == |ix.headers| && 0 <= p < ix.headers[h].capacity
  {
    var key := ix.entries[EntryAt(ix, h, p)].key;
    && (key.Base? ==> SlotOf(ix, a, h, key.b) == p)
    && (h < Last(ix) ==> key.Base?)
  }

  /** Slot `q` of header `h` and slot `p` of the current header, if they share an entry, are the places of
      the same blocks. */
  ghost predicate SharedOk(ix: Index, a: Aux, h: nat, q: int, p: int)
    requires Shape(ix) && h < |ix.headers| && |a.shift| == |ix.headers|
    requires 0 <= q < ix.headers[h].capacity && 0 <= p < Current(ix).capacity
  {
    EntryAt(ix, h, q) == EntryAt(ix, Last(ix), p) ==> SlotOf(ix, a, h, p + a.shift[Last(ix)]) == q
  }

  ghost predicate LiveOk(ix: Index, a: Aux, b: int)
    requires Shape(ix) && |a.shift| == |ix.headers| && b in a.live
  {
    var loc := a.live[b];
    && loc.entry < |ix.entries|
    && ix.entries[loc.entry] == Entry(Base(b), Ptr(loc.block))
    && EntryAt(ix, Last(ix), SlotOf(ix, a, Last(ix), b)) == loc.entry
    && a.top - Current(ix).capacity <= b < a.top && a.shift[Last(ix)] <= b
  }

  ghost predicate EntryOk(ix: Index, a: Aux, e: nat)
    requires e < |ix.entries|
  {
    var entry := ix.entries[e];
    && (entry.value.Ptr? ==> entry.key.Base? && entry.key.b in a.live && a.live[entry.key.b] == Location(e, entry.value.block))
    && (entry.value.Garbage? && entry.key.Base? ==> (a.open.Keyed? || a.open.Placed? || a.open.Rewound?) && a.open.e == e)
  }

  /** Which blocks the producer has inserted since the last commit. */
  ghost predicate OpenOk(ix: Index, a: Aux)
    requires Shape(ix) && |a.shift| == |ix.headers|
  {
    && (a.open.Undoing? || a.next == a.top)
    && (!a.open.Undoing? ==>
          forall b :: a.base <= b < (if a.open.Placed? then a.next - 1 else a.next) ==> b in a.live)
    && (a.open.Full? ==> a.peak == a.top == a.next && a.shift[Last(ix)] <= a.top - Current(ix).capacity <= a.base)
    && (!a.open.Closed? && !a.open.Full? && !a.open.Undoing? ==> a.open.e < |ix.entries| && !ix.entries[a.open.e].value.Ptr?)
    && (a.open.Chosen? ==> a.open.e == EntryAt(ix, Last(ix), NewTail(ix)))
    && (a.open.Keyed? ==>
          && a.open.e == EntryAt(ix, Last(ix), NewTail(ix))
          && ix.entries[a.open.e].key == Base(a.next) && a.next < a.peak)
    && (a.open.Placed? ==>
          && a.open.e == EntryAt(ix, Last(ix), SlotOf(ix, a, Last(ix), a.next - 1))
          && ix.entries[a.open.e].key == Base(a.next - 1) && a.base < a.next)
  }

  /** The keys of the current header are those of the last blocks up to the peak, without gaps. */
  ghost predicate PeakOk(ix: Index, a: Aux)
    requires Shape(ix) && |a.shift| == |ix.headers|
  {
    && a.shift[Last(ix)] <= a.base <= a.next <= a.top <= a.peak <= a.base + Current(ix).capacity
    && forall b {:trigger SlotOf(ix, a, Last(ix), b)} ::
         a.shift[Last(ix)] <= b && a.peak - Current(ix).capacity <= b < a.peak ==>
           ix.entries[EntryAt(ix, Last(ix), SlotOf(ix, a, Last(ix), b))].key == Base(b)
  }

  ghost predicate KeysOk(ix: Index, a: Aux)
    requires Shape(ix) && |a.shift| == |ix.headers|
  {
    forall h, p {:trigger KeyOk(ix, a, h, p)} ::
      0 <= h < |ix.headers| && 0 <= p < ix.headers[h].capacity ==> KeyOk(ix, a, h, p)
  }

  ghost predicate SharingOk(ix: Index, a: Aux)
    requires Shape(ix) && |a.shift| == |ix.headers|
  {
    forall h, q, p {:trigger SharedOk(ix, a, h, q, p)} ::
      0 <= h < |ix.headers| && 0 <= q < ix.headers[h].capacity && 0 <= p < Current(ix).capacity ==>
        SharedOk(ix, a, h, q, p)
  }

  ghost predicate ContentOk(ix: Index, a: Aux)
    requires Shape(ix) && |a.shift| == |ix.headers|
  {
    && (forall b :: b in a.live ==> LiveOk(ix, a, b))
    && (forall e {:trigger EntryOk(ix, a, e)} :: 0 <= e < |ix.entries| ==> EntryOk(ix, a, e))
  }

  ghost predicate Inv(ix: Index, a: Aux) {
    && Shape(ix) && |a.shift| == |ix.headers|
    && SlotOf(ix, a, Last(ix), a.next) == NewTail(ix)
    && KeysOk(ix, a) && SharingOk(ix, a) && ContentOk(ix, a) && OpenOk(ix, a) && PeakOk(ix, a)
  }

  /** Consumers hold on to this while block `b` is live: header `h` leads to its entry. */
  ghost predicate Finds(ix: Index, a: Aux, h: nat, b: int) {
    && Shape(ix) && h < |ix.headers| && |a.shift| == |ix.headers| && b in a.live
    && EntryAt(ix, h, SlotOf(ix, a, h, b)) == a.live[b].entry
  }

  // ---------- the lookup ----------

  /** The current header leads to every live block. */
  lemma CurrentFinds(ix: Index, a: Aux, b: int)
    requires Inv(ix, a) && b in a.live
    ensures Finds(ix, a, Last(ix), b)
  {
    assert LiveOk(ix, a, b);
  }

  /** The key at the tail of any header is a base, while a committed block is live. */
  lemma TailKeyIsBase(ix: Index, a: Aux, h: nat, b: int)
    requires Inv(ix, a) && h < |ix.headers| && b in a.live && b < a.base
    ensures 0 <= ix.headers[h].tail < ix.headers[h].capacity
    ensures ix.entries[EntryAt(ix, h, ix.headers[h].tail)].key.Base?
  {
    assert HeaderOk(ix, h);
    assert KeyOk(ix, a, h, ix.headers[h].tail);
    if h == Last(ix) {
      assert LiveOk(ix, a, b);
      var shift, cap, tail := a.shift[h], ix.headers[h].capacity, ix.headers[h].tail;
      WrapTogether(a.next - shift, tail + 1, -1, cap);
      assert Wrap(tail, cap) == tail == SlotOf(ix, a, h, a.next - 1);
      WrapTurn(a.next - 1 - shift, cap);
      assert SlotOf(ix, a, h, a.next - 1 + cap) == tail;
    }
  }

  /** However old the header and the tail: the computed slot is the block's slot, its entry has the block's
      base as its key, and its value is the block. */
  lemma LookupIsRight(ix: Index, a: Aux, h: nat, tail: int, b: int)
    requires Inv(ix, a) && Finds(ix, a, h, b) && 0 <= tail < ix.headers[h].capacity
    requires ix.entries[EntryAt(ix, h, tail)].key.Base?
    ensures var p := LookupSlot(ix, h, tail, ix.entries[EntryAt(ix, h, tail)].key.b, b);
      p == SlotOf(ix, a, h, b) && ix.entries[EntryAt(ix, h, p)] == Entry(Base(b), Ptr(a.live[b].block))
  {
    assert KeyOk(ix, a, h, tail) && LiveOk(ix, a, b);
    var shift, cap := a.shift[h], ix.headers[h].capacity;
    var key := ix.entries[EntryAt(ix, h, tail)].key.b;
    assert Wrap(tail, cap) == tail;
    WrapTogether(key - shift, tail, b - key, cap);
  }
}
