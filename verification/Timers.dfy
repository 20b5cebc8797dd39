/** Timers kept in a binary heap whose entries point at timer objects, which store their own place in it. */
module Timers {

  datatype TimerType = Once | Circle

  datatype HeapEntry = HeapEntry(time: nat, timer: Timer)

  /** What `DetectTimers` returns when there is no timer; the poller ignores its result. */
  const DEFAULT_WAIT: int := 10

  // ---------- heap order ----------

  function Parent(i: nat): nat
    requires i > 0
  {
    (i - 1) / 2
  }

  /** The entry is not before its parent. */
  predicate Follows(h: seq<HeapEntry>, i: nat)
    requires 0 < i < |h|
  {
    h[Parent(i)].time <= h[i].time
  }

  predicate Ordered(h: seq<HeapEntry>) {
    forall i {:trigger Follows(h, i)} :: 0 < i < |h| ==> Follows(h, i)
  }

  /** The entries below `x` are not before the one above `x`. */
  predicate Spans(h: seq<HeapEntry>, x: nat) {
    forall c {:trigger h[c]} :: 0 < c < |h| && Parent(c) == x && 0 < x < |h| ==> h[Parent(x)].time <= h[c].time
  }

  /** Ordered but that the entry at `x` may be before its parent. */
  predicate OrderedAbove(h: seq<HeapEntry>, x: nat) {
    (forall i {:trigger Follows(h, i)} :: 0 < i < |h| && i != x ==> Follows(h, i)) && Spans(h, x)
  }

  /** Ordered but that the entries below `x` may be before it. */
  predicate OrderedBelow(h: seq<HeapEntry>, x: nat) {
    (forall i {:trigger Follows(h, i)} :: 0 < i < |h| && Parent(i) != x ==> Follows(h, i)) && Spans(h, x)
  }

  /** The entries, in no order. */
  function Entries(h: seq<HeapEntry>): multiset<HeapEntry> { multiset(h) }

  function Swapped(h: seq<HeapEntry>, i: nat, j: nat): (r: seq<HeapEntry>)
    requires i < |h| && j < |h|
    ensures |r| == |h| && r[j] == h[i]
  {
    h[i := h[j]][j := h[i]]
  }

  lemma SwapKeepsEntries(h: seq<HeapEntry>, i: nat, j: nat)
    requires i < |h| && j < |h|
    ensures Entries(Swapped(h, i, j)) == Entries(h)
  {
  }

  /** One step up: the disorder moves to the parent. */
  lemma UpStep(h: seq<HeapEntry>, x: nat)
    requires 0 < x < |h| && OrderedAbove(h, x) && h[x].time < h[Parent(x)].time
    ensures OrderedAbove(Swapped(h, x, Parent(x)), Parent(x))
  {
    var h', p := Swapped(h, x, Parent(x)), Parent(x);
    forall i: nat | 0 < i < |h'| && i != p ensures Follows(h', i) {
      assert i != x ==> Follows(h, i);
    }
    forall c | 0 < c < |h'| && Parent(c) == p && 0 < p < |h'| ensures h'[Parent(p)].time <= h'[c].time {
      assert Follows(h, p);
      assert c != x ==> Follows(h, c);
    }
  }

  /** The earlier of the entries below `x`; of two equal ones the second. */
  function MinChild(h: seq<HeapEntry>, x: nat): (c: nat)
    requires 2 * x + 1 < |h|
    ensures 0 < c < |h| && Parent(c) == x
    ensures forall d {:trigger h[d]} :: 0 < d < |h| && Parent(d) == x ==> h[c].time <= h[d].time
  {
    var child := 2 * x + 1;
    if child + 1 == |h| || h[child].time < h[child + 1].time then child else child + 1
  }

  /** One step down: the disorder moves to the earlier child. */
  lemma DownStep(h: seq<HeapEntry>, x: nat)
    requires 2 * x + 1 < |h| && OrderedBelow(h, x) && h[MinChild(h, x)].time <= h[x].time
    ensures OrderedBelow(Swapped(h, x, MinChild(h, x)), MinChild(h, x))
  {
    var h', m := Swapped(h, x, MinChild(h, x)), MinChild(h, x);
    forall i: nat | 0 < i < |h'| && Parent(i) != m ensures Follows(h', i) {
      assert Parent(i) != x ==> Follows(h, i);
      assert h[m].time <= h[i].time || Parent(i) != x;
    }
    forall c | 0 < c < |h'| && Parent(c) == m && 0 < m < |h'| ensures h'[Parent(m)].time <= h'[c].time {
      assert Follows(h, c);
    }
  }

  lemma DownEnds(h: seq<HeapEntry>, x: nat)
    requires OrderedBelow(h, x) && (2 * x + 1 < |h| ==> h[x].time < h[MinChild(h, x)].time)
    ensures Ordered(h)
  {
    forall i: nat | 0 < i < |h| ensures Follows(h, i) {
      assert Parent(i) != x ==> Follows(h, i);
      assert Parent(i) == x ==> h[MinChild(h, x)].time <= h[i].time;
    }
  }

  lemma UpEnds(h: seq<HeapEntry>, x: nat)
    requires OrderedAbove(h, x) && (0 < x < |h| ==> Follows(h, x))
    ensures Ordered(h)
  {
  }

  lemma PrefixOrdered(h: seq<HeapEntry>)
    requires Ordered(h) && h != []
    ensures Ordered(h[..|h| - 1])
  {
    var prefix := h[..|h| - 1];
    forall i: nat | 0 < i < |prefix| ensures Follows(prefix, i) {
      assert Follows(h, i);
    }
  }

  /** The first entry of an ordered heap is the earliest. */
  lemma {:induction false} FirstIsEarliest(h: seq<HeapEntry>, i: nat)
    requires Ordered(h) && i < |h|
    ensures h[0].time <= h[i].time
  {
    if i > 0 {
      assert Follows(h, i);
      FirstIsEarliest(h, Parent(i));
    }
  }

  /** Ordered but for the entry at `x`. */
  predicate Broken(h: seq<HeapEntry>, x: nat)
    requires x < |h|
  {
    if x > 0 && h[x].time < h[Parent(x)].time then OrderedAbove(h, x) else OrderedBelow(h, x)
  }

  /** The last entry put in the place of entry `x`, before the heap is repaired. */
  lemma ReplacedByLast(h: seq<HeapEntry>, x: nat)
    requires Ordered(h) && x < |h| - 1
    ensures Broken(Swapped(h, x, |h| - 1)[..|h| - 1], x)
  {
    var h' := Swapped(h, x, |h| - 1)[..|h| - 1];
    forall c | 0 < c < |h'| && Parent(c) == x && 0 < x < |h'| ensures h'[Parent(x)].time <= h'[c].time {
      assert Follows(h, x) && Follows(h, c);
    }
    forall i: nat | 0 < i < |h'| && i != x && Parent(i) != x ensures Follows(h', i) {
      assert Follows(h, i);
    }
  }

  lemma EarliestEntry(h: seq<HeapEntry>)
    requires Ordered(h) && h != []
    ensures forall e :: e in Entries(h) ==> h[0].time <= e.time
  {
    forall e | e in Entries(h) ensures h[0].time <= e.time {
      var i: nat :| i < |h| && h[i] == e;
      FirstIsEarliest(h, i);
    }
  }

  lemma AllEntries(h: seq<HeapEntry>)
    ensures forall i :: 0 <= i < |h| ==> h[i] in Entries(h)
  {
  }

  lemma SameTimes(h: seq<HeapEntry>, last: HeapEntry)
    requires Ordered(h)
    ensures OrderedAbove(h + [last], |h|)
  {
    forall i: nat | 0 < i < |h + [last]| && i != |h| ensures Follows(h + [last], i) {
      assert Follows(h, i);
    }
  }

  /** The distance as the `int` that is returned: right exactly if it fits. */
  function ToInt(x: nat): (r: int)
    ensures r == x <==> x < 0x8000_0000
    ensures 0x8000_0000 <= x < 0x1_0000_0000 ==> r == x - 0x1_0000_0000
  {
    var low := x % 0x1_0000_0000;
    if low < 0x8000_0000 then low else low - 0x1_0000_0000
  }

  /** What a timer was like at some moment. */
  datatype Snap = Snap(timerType: TimerType, interval: nat, expires: nat, queued: bool)

  /** When the last of these was due. */
  function LastTime(fired: seq<HeapEntry>): nat { if fired == [] then 0 else fired[|fired| - 1].time }

  // ---------- timers ----------

  class Timer {
    const manager: TimerManager
    var timerType: TimerType
    var interval: nat
    var expires: nat
    var heapIndex: int

    constructor (manager: TimerManager)
      requires manager.Valid()
      modifies manager`timers
      ensures this.manager == manager && manager.Valid() && heapIndex == -1
      ensures manager.timers == old(manager.timers) + {this}
    {
      this.manager := manager;
      timerType := Circle;
      interval, expires := 0, 0;
      heapIndex := -1;
      new;
      ghost var before := manager.timers;
      manager.timers := manager.timers + {this};
      forall i: nat | i < |manager.heap| ensures manager.EntryOk(i) {
        assert old(manager.EntryOk(i));
      }
      forall t | t in before ensures manager.TimerOk(t) {
        assert old(manager.TimerOk(t));
      }
    }

    /** Takes the timer out of the heap if it is in it. */
    method Stop()
      requires manager.Valid() && this in manager.timers
      modifies manager`heap, manager.timers`heapIndex
      ensures manager.Valid() && heapIndex == -1 && manager.OthersQueued(this)
      ensures old(Entries(manager.heap)) == Entries(manager.heap) +
        (if old(heapIndex) == -1 then multiset{} else multiset{HeapEntry(expires, this)})
    {
      if heapIndex != -1 {
        manager.RemoveTimer(this);
        label removed:
        heapIndex := -1;
        forall i: nat | i < |manager.heap| ensures manager.EntryOk(i) {
          assert old@removed(manager.EntryOk(i));
        }
        forall t | t in manager.timers ensures manager.TimerOk(t) {
          assert t != this ==> old@removed(manager.TimerOk(t));
        }
      }
    }

    /** Starts the timer afresh, `interval` after `now`. */
    method Start(interval: nat, timerType: TimerType, now: nat)
      requires manager.Valid() && this in manager.timers
      modifies manager`heap, manager.timers`heapIndex, this
      ensures manager.Valid() && heapIndex != -1 && manager.OthersQueued(this)
      ensures this.interval == interval && this.timerType == timerType && expires == interval + now
      ensures Entries(manager.heap) + (if old(heapIndex) == -1 then multiset{} else multiset{HeapEntry(old(expires), this)})
           == old(Entries(manager.heap)) + multiset{HeapEntry(interval + now, this)}
    {
      Stop();
      label stopped:
      this.interval := interval;
      this.timerType := timerType;
      expires := interval + now;
      forall i: nat | i < |manager.heap| ensures manager.EntryOk(i) && manager.heap[i].timer != this {
        assert old@stopped(manager.EntryOk(i));
      }
      forall t | t in manager.timers ensures manager.TimerOk(t) {
        assert old@stopped(manager.TimerOk(t));
      }
      manager.AddTimer(this);
    }

    /** The timer is due and out of the heap: a circular one goes back into it.  (Then its function is called.) */
    method OnTimer(now: nat)
      requires manager.Indexed({this}) && Ordered(manager.heap) && this in manager.timers
      modifies manager`heap, manager.timers`heapIndex, this`expires
      ensures manager.Valid() && manager.OthersQueued(this)
      ensures if timerType.Circle?
              then heapIndex != -1 && expires == interval + now
                   && Entries(manager.heap) == old(Entries(manager.heap)) + multiset{HeapEntry(interval + now, this)}
              else heapIndex == -1 && expires == old(expires) && Entries(manager.heap) == old(Entries(manager.heap))
    {
      if timerType.Circle? {
        expires := interval + now;
        forall i: nat | i < |manager.heap| ensures manager.EntryOk(i) && manager.heap[i].timer != this {
          assert old(manager.EntryOk(i));
        }
        forall t | t in manager.timers && t != this ensures manager.TimerOk(t) {
          assert old(manager.TimerOk(t));
        }
        manager.AddTimer(this);
      } else {
        heapIndex := -1;
        forall i: nat | i < |manager.heap| ensures manager.EntryOk(i) {
          assert old(manager.EntryOk(i));
        }
        forall t | t in manager.timers ensures manager.TimerOk(t) {
          assert t != this ==> old(manager.TimerOk(t));
        }
      }
    }
  }

  class TimerManager {
    var heap: seq<HeapEntry>

    /** All timers of this manager. */
    ghost var timers: set<Timer>

    constructor ()
      ensures Valid() && heap == [] && timers == {}
    {
      heap := [];
      timers := {};
    }

    ghost predicate EntryOk(i: nat)
      requires i < |heap|
      reads this, timers
    {
      heap[i].timer in timers && heap[i].timer.heapIndex == i && heap[i].time == heap[i].timer.expires
    }

    /** A timer knows its place in the heap, or that it is not in it. */
    ghost predicate TimerOk(t: Timer)
      reads this, t
    {
      && (t.heapIndex == -1 || (0 <= t.heapIndex < |heap| && heap[t.heapIndex].timer == t))
    }

    /** All entries, and all timers but those in `but`, are right; those are not in the heap. */
    ghost predicate Indexed(but: set<Timer>)
      reads this, timers
    {
      && (forall i {:trigger EntryOk(i)} :: 0 <= i < |heap| ==> EntryOk(i) && heap[i].timer !in but)
      && (forall t {:trigger TimerOk(t)} :: t in timers && t !in but ==> TimerOk(t))
      && (forall t :: t in timers ==> t.manager == this)
    }

    ghost predicate Valid()
      reads this, timers
    {
      Indexed({}) && Ordered(heap)
    }

    /** A timer is in the heap exactly if it has a place there. */
    lemma QueuedMeans(but: set<Timer>)
      requires Indexed(but)
      ensures forall t :: t in timers && t !in but ==> (t.heapIndex != -1 <==> HeapEntry(t.expires, t) in Entries(heap))
      ensures forall e :: e in Entries(heap) ==> e.timer in timers && e.time == e.timer.expires && e.timer.heapIndex != -1
    {
      forall e | e in Entries(heap) ensures e.timer in timers && e.time == e.timer.expires && e.timer.heapIndex != -1 {
        var i: nat :| i < |heap| && heap[i] == e;
        assert EntryOk(i);
      }
      forall t | t in timers && t !in but && t.heapIndex != -1 ensures HeapEntry(t.expires, t) in Entries(heap) {
        assert TimerOk(t) && EntryOk(t.heapIndex);
        assert heap[t.heapIndex] in heap;
      }
    }

    /** No other timer has come into the heap or gone from it. */
    twostate predicate OthersQueued(timer: Timer)
      reads this, timers
    {
      forall t :: t in timers && t in old(timers) && t != timer ==> (t.heapIndex == -1) == old(t.heapIndex == -1)
    }

    // ---------- the heap ----------

    /** Exchanges two entries and tells their timers. */
    method SwapHeap(i: nat, j: nat, ghost but: set<Timer>)
      requires i < |heap| && j < |heap| && Indexed(but)
      modifies this`heap, timers`heapIndex
      ensures Indexed(but) && heap == Swapped(old(heap), i, j)
    {
      assert EntryOk(i) && EntryOk(j);
      var tmp := heap[i];
      heap := heap[i := heap[j]];
      heap := heap[j := tmp];
      heap[i].timer.heapIndex := i;
      heap[j].timer.heapIndex := j;
      forall k: nat | k < |heap| ensures EntryOk(k) && heap[k].timer !in but {
        assert old(EntryOk(k));
      }
      forall t | t in timers && t !in but ensures TimerOk(t) {
        assert old(TimerOk(t));
      }
    }

    method UpHeap(start: nat, ghost but: set<Timer>)
      requires start < |heap| && Indexed(but) && OrderedAbove(heap, start)
      modifies this`heap, timers`heapIndex
      ensures Indexed(but) && Ordered(heap) && Entries(heap) == old(Entries(heap))
    {
      var index: nat := start;
      while index > 0 && heap[index].time < heap[Parent(index)].time
        invariant index < |heap| && Indexed(but) && OrderedAbove(heap, index)
        invariant Entries(heap) == old(Entries(heap))
      {
        UpStep(heap, index);
        SwapKeepsEntries(heap, index, Parent(index));
        SwapHeap(index, Parent(index), but);
        index := Parent(index);
      }
      UpEnds(heap, index);
    }

    method DownHeap(start: nat, ghost but: set<Timer>)
      requires start < |heap| && Indexed(but) && OrderedBelow(heap, start)
      modifies this`heap, timers`heapIndex
      ensures Indexed(but) && Ordered(heap) && Entries(heap) == old(Entries(heap))
    {
      hide Entries, OrderedBelow;
      var index: nat := start;
      var child: nat := index * 2 + 1;
      while child < |heap|
        invariant index < |heap| && child == index * 2 + 1 && Indexed(but) && OrderedBelow(heap, index)
        invariant Entries(heap) == old(Entries(heap))
        decreases |heap| - index
      {
        var minChild: nat := if child + 1 == |heap| || heap[child].time < heap[child + 1].time then child else child + 1;
        assert minChild == MinChild(heap, index);
        if heap[index].time < heap[minChild].time {
          break;
        }
        DownStep(heap, index);
        SwapKeepsEntries(heap, index, minChild);
        SwapHeap(index, minChild, but);
        index := minChild;
        child := index * 2 + 1;
      }
      DownEnds(heap, index);
    }

    /** Puts a timer that is not in the heap into it, at its time. */
    method AddTimer(timer: Timer)
      requires Indexed({timer}) && Ordered(heap) && timer in timers
      modifies this`heap, timers`heapIndex
      ensures Valid() && Entries(heap) == old(Entries(heap)) + multiset{HeapEntry(timer.expires, timer)}
      ensures timer.heapIndex != -1 && OthersQueued(timer)
    {
      QueuedMeans({timer});
      timer.heapIndex := |heap|;
      SameTimes(heap, HeapEntry(timer.expires, timer));
      heap := heap + [HeapEntry(timer.expires, timer)];
      forall k: nat | k < |heap| ensures EntryOk(k) {
        assert k < |old(heap)| ==> old(EntryOk(k));
      }
      forall t | t in timers ensures TimerOk(t) {
        assert t != timer ==> old(TimerOk(t));
      }
      UpHeap(|heap| - 1, {});
      QueuedMeans({});
    }

    /** Takes the last entry off, which is that of the given timer. */
    method PopBack(ghost timer: Timer)
      requires Indexed({}) && heap != [] && heap[|heap| - 1].timer == timer
      modifies this`heap
      ensures heap == old(heap)[..|old(heap)| - 1] && Indexed({timer})
      ensures old(Entries(heap)) == Entries(heap) + multiset{HeapEntry(timer.expires, timer)}
    {
      assert EntryOk(|heap| - 1);
      assert heap == heap[..|heap| - 1] + [heap[|heap| - 1]];
      heap := heap[..|heap| - 1];
      forall k: nat | k < |heap| ensures EntryOk(k) && heap[k].timer != timer {
        assert old(EntryOk(k));
      }
      forall t | t in timers && t != timer ensures TimerOk(t) {
        assert old(TimerOk(t));
      }
    }

    /** Moves a replaced entry up or down to where it belongs. */
    method Repair(index: nat, ghost but: set<Timer>)
      requires index < |heap| && Indexed(but) && Broken(heap, index)
      modifies this`heap, timers`heapIndex
      ensures Indexed(but) && Ordered(heap) && Entries(heap) == old(Entries(heap))
    {
      var parent := if index > 0 then Parent(index) else 0;
      if index > 0 && heap[index].time < heap[parent].time {
        UpHeap(index, but);
      } else {
        DownHeap(index, but);
      }
    }

    /** Puts the last entry in the place of another one, which goes. */
    method ReplaceByLast(index: nat, ghost timer: Timer)
      requires Valid() && index < |heap| - 1 && heap[index] == HeapEntry(timer.expires, timer)
      modifies this`heap, timers`heapIndex
      ensures Indexed({timer}) && index < |heap| && Broken(heap, index)
      ensures old(Entries(heap)) == Entries(heap) + multiset{HeapEntry(timer.expires, timer)}
    {
      hide Ordered, Broken, Follows, Indexed, Entries, Swapped;
      ReplacedByLast(heap, index);
      SwapKeepsEntries(heap, index, |heap| - 1);
      SwapHeap(index, |heap| - 1, {});
      PopBack(timer);
    }

    /** Takes the entry at a timer's place out of the heap. */
    method RemoveEntry(timer: Timer)
      requires Valid() && timer in timers && 0 <= timer.heapIndex < |heap|
      requires heap[timer.heapIndex] == HeapEntry(timer.expires, timer)
      modifies this`heap, timers`heapIndex
      ensures Indexed({timer}) && Ordered(heap)
      ensures old(Entries(heap)) == Entries(heap) + multiset{HeapEntry(timer.expires, timer)}
    {
      hide Ordered, Broken, Follows, Indexed, Entries;
      var index: nat := timer.heapIndex;
      if heap != [] && index < |heap| {
        if index == |heap| - 1 {
          PrefixOrdered(heap);
          PopBack(timer);
        } else {
          ReplaceByLast(index, timer);
          Repair(index, {timer});
        }
      }
    }

    /** Takes a timer's entry out of the heap.  The timer itself still has its old place. */
    method RemoveTimer(timer: Timer)
      requires Valid() && timer in timers && timer.heapIndex != -1
      modifies this`heap, timers`heapIndex
      ensures Indexed({timer}) && Ordered(heap)
      ensures old(Entries(heap)) == Entries(heap) + multiset{HeapEntry(timer.expires, timer)}
      ensures OthersQueued(timer)
    {
      assert TimerOk(timer) && EntryOk(timer.heapIndex);
      QueuedMeans({});
      RemoveEntry(timer);
      hide Ordered, Indexed, Entries;
      QueuedMeans({timer});
    }

    // ---------- firing ----------

    /** How a timer stands after it was due at `now`, or was not. */
    twostate predicate Detected(t: Timer, now: nat, due: bool)
      reads t
    {
      && t.timerType == old(t.timerType) && t.interval == old(t.interval)
      && (if due then
            if t.timerType.Circle? then t.heapIndex != -1 && t.expires == now + t.interval
            else t.heapIndex == -1 && t.expires == old(t.expires)
          else t.expires == old(t.expires) && (t.heapIndex == -1) == old(t.heapIndex == -1))
    }

    /** The timers that are due. */
    ghost function Due(now: nat): set<Timer>
      reads this, timers
    {
      set t | t in timers && t.heapIndex != -1 && t.expires <= now
    }

    /** Fires the first timer of the heap, which is due.  It stays due exactly if it is circular with interval
        zero, and then the loop of `DetectTimers` would not end. */
    method FireFirst(now: nat) returns (entry: HeapEntry)
      requires Valid() && heap != [] && heap[0].time <= now
      modifies this`heap, timers`heapIndex, timers`expires
      ensures Valid() && entry == old(heap[0]) && entry.timer in timers
      ensures old(entry.timer.heapIndex) != -1 && entry.time == old(entry.timer.expires)
      ensures forall t :: t in timers ==> Detected(t, now, t == entry.timer)
      ensures forall i :: 0 <= i < |heap| ==> entry.time <= heap[i].time
      ensures entry.timer in Due(now) <==> entry.timer.timerType.Circle? && entry.timer.interval == 0
    {
      assert EntryOk(0);
      entry := heap[0];
      EarliestEntry(heap);
      hide Entries, Ordered, Indexed;
      RemoveTimer(entry.timer);
      entry.timer.OnTimer(now);
      AllEntries(heap);
    }

    /** As long as a circular timer with interval 0 is due, the loop of `DetectTimers` goes on: whatever number
        of firings there have been, the timer is still due, and so is the first entry. */
    method FireMany(now: nat, count: nat, ghost timer: Timer)
      requires Valid() && timer in Due(now) && timer.timerType.Circle? && timer.interval == 0
      modifies this`heap, timers`heapIndex, timers`expires
      ensures Valid() && timer in Due(now) && heap != [] && heap[0].time <= now
    {
      hide Ordered, Indexed;
      FirstIsDue(now, timer);
      var i := 0;
      while i < count
        invariant i <= count && Valid() && timer in Due(now) && timer.timerType.Circle? && timer.interval == 0
        invariant heap != [] && heap[0].time <= now
      {
        var entry := FireFirst(now);
        FirstIsDue(now, timer);
        i := i + 1;
      }
    }

    /** While any timer is due, the first entry is. */
    lemma FirstIsDue(now: nat, timer: Timer)
      requires Valid() && timer in Due(now)
      ensures heap != [] && heap[0].time <= now
    {
      assert TimerOk(timer) && EntryOk(timer.heapIndex);
      FirstIsEarliest(heap, timer.heapIndex);
    }

    /** When the first entry is not due, nothing is. */
    lemma NothingDue(now: nat)
      requires Valid() && (heap != [] ==> now < heap[0].time)
      ensures forall i :: 0 <= i < |heap| ==> now < heap[i].time && heap[0].time <= heap[i].time
      ensures forall t :: t in timers && t.heapIndex != -1 ==> now < t.expires
    {
      forall i | 0 <= i < |heap| ensures now < heap[i].time && heap[0].time <= heap[i].time {
        FirstIsEarliest(heap, i);
      }
      forall t | t in timers && t.heapIndex != -1 ensures now < t.expires {
        assert TimerOk(t) && EntryOk(t.heapIndex);
      }
    }

    lemma FirstOk()
      requires Valid() && heap != []
      ensures EntryOk(0)
    {
    }

    /** The timers as they were when the loop began. */
    ghost function Snapshot(): map<Timer, Snap>
      reads this, timers
    {
      map t | t in timers :: Snap(t.timerType, t.interval, t.expires, t.heapIndex != -1)
    }

    /** The entry is of a timer that was due. */
    ghost predicate WasDue(now: nat, before: map<Timer, Snap>, e: HeapEntry)
      reads this
    {
      && e.timer in timers && e.timer in before && before[e.timer].queued
      && e.time == before[e.timer].expires && e.time <= now
    }

    /** How a timer stands now, compared to when the loop began. */
    ghost predicate Stands(now: nat, was: Snap, t: Timer, due: bool)
      reads t
    {
      && t.timerType == was.timerType && t.interval == was.interval
      && (if due then
            if t.timerType.Circle? then t.heapIndex != -1 && t.expires == now + t.interval
            else t.heapIndex == -1 && t.expires == was.expires
          else t.expires == was.expires && (t.heapIndex != -1 <==> was.queued))
    }

    /** Between two rounds: `fired` have been fired, in order, before everything that is still in the heap. */
    ghost predicate Progress(now: nat, before: map<Timer, Snap>, fired: seq<HeapEntry>)
      reads this, timers
    {
      && (forall e :: e in fired ==> WasDue(now, before, e))
      && (forall i, j :: 0 <= i < j < |fired| ==> fired[i].timer != fired[j].timer && fired[i].time <= fired[j].time)
      && (forall t :: t in timers ==>
            t in before && Stands(now, before[t], t, HeapEntry(before[t].expires, t) in fired))
      && (forall i :: 0 <= i < |heap| ==> LastTime(fired) <= heap[i].time)
      && (forall i :: 0 <= i < |fired| ==> fired[i].time <= LastTime(fired))
    }

    lemma StartOfProgress(now: nat)
      requires Valid()
      ensures Progress(now, Snapshot(), [])
    {
    }

    /** A timer in the heap that is due has not been fired yet, unless it is circular with interval 0. */
    lemma NotYetFired(now: nat, before: map<Timer, Snap>, fired: seq<HeapEntry>, t: Timer)
      requires Progress(now, before, fired) && t in Due(now) && (t.timerType.Circle? ==> t.interval > 0)
      ensures t in before && before[t].queued && before[t].expires == t.expires
      ensures HeapEntry(t.expires, t) !in fired && forall e :: e in fired ==> e.timer != t
    {
      forall e | e in fired ensures e.timer != t {
        assert WasDue(now, before, e);
      }
    }

    /** Fires the first timer, which is due. */
    method FireNext(now: nat, ghost before: map<Timer, Snap>, ghost fired: seq<HeapEntry>) returns (entry: HeapEntry)
      requires Valid() && Progress(now, before, fired) && heap != [] && heap[0].time <= now
      requires forall t :: t in Due(now) && t.timerType.Circle? ==> t.interval > 0
      modifies this`heap, timers`heapIndex, timers`expires
      ensures Valid() && Progress(now, before, fired + [entry])
      ensures entry.timer in old(Due(now)) && entry.timer !in Due(now) && Due(now) <= old(Due(now))
      ensures forall t :: t in Due(now) && t.timerType.Circle? ==> t.interval > 0
    {
      hide Ordered, Indexed;
      FirstOk();
      NotYetFired(now, before, fired, heap[0].timer);
      assert LastTime(fired) <= heap[0].time;
      entry := FireFirst(now);
      forall t | t in timers
        ensures t in before && Stands(now, before[t], t, HeapEntry(before[t].expires, t) in fired + [entry])
      {
        assert old(Stands(now, before[t], t, HeapEntry(before[t].expires, t) in fired));
        assert Detected(t, now, t == entry.timer);
      }
      assert forall e :: e in fired ==> old(WasDue(now, before, e));
    }

    lemma EndOfProgress(now: nat, before: map<Timer, Snap>, fired: seq<HeapEntry>)
      requires Progress(now, before, fired) && forall t :: t in timers && t.heapIndex != -1 ==> now < t.expires
      ensures forall i, j :: 0 <= i < j < |fired| ==> fired[i].timer != fired[j].timer && fired[i].time <= fired[j].time
      ensures forall e :: e in fired ==> WasDue(now, before, e)
      ensures forall t :: t in timers ==> t in before
      ensures forall t :: t in timers ==> (HeapEntry(before[t].expires, t) in fired <==> before[t].queued && before[t].expires <= now)
      ensures forall t :: t in timers ==> Stands(now, before[t], t, before[t].queued && before[t].expires <= now)
    {
      forall t | t in timers
        ensures t in before && (HeapEntry(before[t].expires, t) in fired <==> before[t].queued && before[t].expires <= now)
      {
        assert Stands(now, before[t], t, HeapEntry(before[t].expires, t) in fired);
        assert HeapEntry(before[t].expires, t) in fired ==> WasDue(now, before, HeapEntry(before[t].expires, t));
      }
    }

    /** Calls the functions of all timers that are due, and returns how long the poller may wait.  `fired` are
        the entries whose functions are called, in the order of the calls, which leave the timers alone. */
    method DetectTimers(now: nat) returns (wait: int, fired: seq<HeapEntry>)
      requires Valid()
      requires forall t :: t in Due(now) && t.timerType.Circle? ==> t.interval > 0
      modifies this`heap, timers`heapIndex, timers`expires
      ensures Valid()
      ensures forall e :: e in fired <==>
        e.timer in timers && old(e.timer.heapIndex) != -1 && e.time == old(e.timer.expires) && e.time <= now
      ensures forall i, j :: 0 <= i < j < |fired| ==> fired[i].timer != fired[j].timer && fired[i].time <= fired[j].time
      ensures forall t :: t in timers ==> Detected(t, now, old(t.heapIndex) != -1 && old(t.expires) <= now)
      ensures forall i :: 0 <= i < |heap| ==> now < heap[i].time && heap[0].time <= heap[i].time
      ensures wait == if heap == [] then DEFAULT_WAIT else ToInt(heap[0].time - now)
      ensures heap != [] ==> (wait == heap[0].time - now <==> heap[0].time - now < 0x8000_0000)
    {
      hide Ordered, Indexed, Progress;
      fired, wait := [], DEFAULT_WAIT;
      ghost var before := Snapshot();
      StartOfProgress(now);
      while heap != []
        invariant Valid() && Progress(now, before, fired) && wait == DEFAULT_WAIT
        invariant forall t :: t in Due(now) && t.timerType.Circle? ==> t.interval > 0
        decreases Due(now)
      {
        if heap[0].time <= now {
          ghost var due := Due(now);
          var entry := FireNext(now, before, fired);
          fired := fired + [entry];
          assert entry.timer in due && entry.timer !in Due(now);
        } else {
          wait := ToInt(heap[0].time - now);
          break;
        }
      }
      NothingDue(now);
      EndOfProgress(now, before, fired);
    }
  }

  /** A circular timer started with interval 0 keeps the loop busy: after any number of rounds it is due again. */
  method EndlessTimer(now: nat, count: nat) returns (manager: TimerManager)
    ensures manager.heap != [] && manager.heap[0].time <= now
  {
    manager := new TimerManager();
    var timer := new Timer(manager);
    timer.Start(0, Circle, now);
    manager.FireMany(now, count, timer);
  }

  /** A timer that is due in 2^31 milliseconds makes the result negative. */
  method LateTimer(now: nat) returns (wait: int)
    ensures wait == -0x8000_0000
  {
    hide Ordered;
    var manager := new TimerManager();
    var timer := new Timer(manager);
    timer.Start(0x8000_0000, Once, now);
    var fired;
    wait, fired := manager.DetectTimers(now);
    assert manager.TimerOk(timer);
    assert manager.EntryOk(0);
  }
}
