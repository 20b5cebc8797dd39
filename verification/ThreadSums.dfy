/** Sums of a per-thread weight over a finite table of threads.  The interleaving models use
    them to count, for example, the references or permits that all threads hold together. */
module ThreadSums {

  /** The sum of `f` over all entries of `m`. */
  ghost function Sum<P(!new)>(m: map<nat, P>, f: P -> nat): nat
  {
    if m == map[] then 0 else
      var t :| t in m;
      f(m[t]) + Sum(m - {t}, f)
  }

  /** Any thread may be taken out of the sum first. */
  lemma {:induction false} SumRemove<P(!new)>(m: map<nat, P>, f: P -> nat, t: nat)
    requires t in m
    ensures Sum(m, f) == f(m[t]) + Sum(m - {t}, f)
    decreases |m|
  {
    var u :| u in m && Sum(m, f) == f(m[u]) + Sum(m - {u}, f);
    if u != t {
      assert |m - {u}| < |m| && |m - {t}| < |m| by {
        assert (m - {u}).Keys == m.Keys - {u} && (m - {t}).Keys == m.Keys - {t};
      }
      SumRemove(m - {u}, f, t);
      SumRemove(m - {t}, f, u);
      assert m - {u} - {t} == m - {t} - {u};
    }
  }

  /** Changing one thread's state changes the sum by the difference of its two weights. */
  lemma SumSet<P(!new)>(m: map<nat, P>, f: P -> nat, t: nat, p: P)
    requires t in m
    ensures Sum(m[t := p], f) + f(m[t]) == Sum(m, f) + f(p)
  {
    SumRemove(m, f, t);
    SumRemove(m[t := p], f, t);
    assert m[t := p] - {t} == m - {t};
  }

  /** A thread's weight is part of the sum. */
  lemma SumAtLeast<P(!new)>(m: map<nat, P>, f: P -> nat, t: nat)
    requires t in m
    ensures f(m[t]) <= Sum(m, f)
  {
    SumRemove(m, f, t);
  }

  /** The sum is zero exactly when every thread's weight is. */
  lemma {:induction false} SumZero<P(!new)>(m: map<nat, P>, f: P -> nat)
    ensures Sum(m, f) == 0 <==> forall t :: t in m ==> f(m[t]) == 0
    decreases |m|
  {
    if m != map[] {
      var u :| u in m && Sum(m, f) == f(m[u]) + Sum(m - {u}, f);
      assert (m - {u}).Keys == m.Keys - {u};
      SumZero(m - {u}, f);
      assert forall t :: t in m ==> t == u || (t in m - {u} && (m - {u})[t] == m[t]);
    }
  }

  /** With weights at most one the sum is at most the number of threads. */
  lemma {:induction false} SumAtMostThreads<P(!new)>(m: map<nat, P>, f: P -> nat)
    requires forall t :: t in m ==> f(m[t]) <= 1
    ensures Sum(m, f) <= |m|
    decreases |m|
  {
    if m != map[] {
      var u :| u in m && Sum(m, f) == f(m[u]) + Sum(m - {u}, f);
      assert (m - {u}).Keys == m.Keys - {u};
      SumAtMostThreads(m - {u}, f);
    }
  }
}
