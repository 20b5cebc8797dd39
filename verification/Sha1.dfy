/** The server's SHA-1, with a message schedule of sixteen words that is overwritten in place (the alternate
    method of section 6.1.3 of FIPS 180-4), and with its own padding. */
module Sha1 {
  import opened Sha1Spec
  import opened WordNumbers

  // ---------- the simplified functions ----------

  function Choose(b: Word, c: Word, d: Word): Word { d ^ (b & (c ^ d)) }
  function Majority(b: Word, c: Word, d: Word): Word { (b & c) | (d & (b | c)) }

  lemma ChooseBits(b: Word, c: Word, d: Word)
    ensures d ^ (b & (c ^ d)) == (b & c) ^ (!b & d)
  {
  }

  lemma ChooseIsCh(b: Word, c: Word, d: Word)
    ensures Choose(b, c, d) == Ch(b, c, d)
  {
    ChooseBits(b, c, d);
  }

  lemma MajorityBits(b: Word, c: Word, d: Word)
    ensures (b & c) | (d & (b | c)) == (b & c) ^ (b & d) ^ (c & d)
  {
  }

  lemma MajorityIsMaj(b: Word, c: Word, d: Word)
    ensures Majority(b, c, d) == Maj(b, c, d)
  {
    MajorityBits(b, c, d);
  }

  /** Sums of words do not depend on the order, because those of numbers do not. */
  lemma SumOrder(a: Word, f: Word, e: Word, k: Word, w: Word)
    ensures Sum5(f, k, a, e, w) == Sum5(a, f, e, k, w)
  {
    hide Sum5, Number;
    Sum5Number(f, k, a, e, w);
    Sum5Number(a, f, e, k, w);
    NumberOne(Sum5(f, k, a, e, w), Sum5(a, f, e, k, w));
  }

  // ---------- the rounds ----------

  /** `mix`, for the value `f` of the round function. */
  function Mix(v: Vars, f: Word, k: Word, w: Word): Vars {
    Vars(Sum5(f, k, Rotl5(v.a), v.e, w), v.a, Rotl30(v.b), v.c, v.d)
  }

  lemma MixIsRound(v: Vars, t: nat, f: Word, w: Word)
    requires f == F(t, v.b, v.c, v.d)
    ensures Mix(v, f, K(t), w) == Round(v, t, w)
  {
    hide Sum5, Rotl5, Rotl30, F, K;
    SumOrder(Rotl5(v.a), f, v.e, K(t), w);
  }

  lemma ChooseRound(v: Vars, t: nat, w: Word)
    requires t < 20
    ensures Mix(v, Choose(v.b, v.c, v.d), 0x5a827999, w) == Round(v, t, w)
  {
    hide Sum5, Rotl5, Rotl30, Ch, Choose;
    ChooseIsCh(v.b, v.c, v.d);
    MixIsRound(v, t, Choose(v.b, v.c, v.d), w);
  }

  lemma ParityRound(v: Vars, t: nat, w: Word)
    requires 20 <= t < 40 || 60 <= t
    ensures Mix(v, Parity(v.b, v.c, v.d), if t < 40 then 0x6ed9eba1 else 0xca62c1d6, w) == Round(v, t, w)
  {
    hide Sum5, Rotl5, Rotl30, Parity;
    MixIsRound(v, t, Parity(v.b, v.c, v.d), w);
  }

  lemma MajorityRound(v: Vars, t: nat, w: Word)
    requires 40 <= t < 60
    ensures Mix(v, Majority(v.b, v.c, v.d), 0x8f1bbcdc, w) == Round(v, t, w)
  {
    hide Sum5, Rotl5, Rotl30, Maj, Majority;
    MajorityIsMaj(v.b, v.c, v.d);
    MixIsRound(v, t, Majority(v.b, v.c, v.d), w);
  }

  lemma NoRounds(h: Vars, m: seq<Word>)
    requires |m| == 16
    ensures Rounds(h, m, 0) == h
  {
  }

  lemma NextRound(h: Vars, m: seq<Word>, t: nat)
    requires |m| == 16
    ensures Rounds(h, m, t + 1) == Round(Rounds(h, m, t), t, W(m, t))
  {
  }

  /** The sixteen words before `t`, each in its place. */
  ghost predicate Holds(w: seq<Word>, m: seq<Word>, t: nat)
    requires |w| == |m| == 16
  {
    forall j {:trigger W(m, j)} :: t - 16 <= j < t && 0 <= j ==> w[j % 16] == W(m, j)
  }

  lemma MessageWord(m: seq<Word>, t: nat)
    requires |m| == 16 && t < 16
    ensures W(m, t) == m[t]
  {
  }

  lemma MessageHolds(m: seq<Word>)
    requires |m| == 16
    ensures Holds(m, m, 16)
  {
  }

  lemma NextWord(m: seq<Word>, t: nat)
    requires |m| == 16 && t >= 16
    ensures W(m, t) == Rotl1(Xor4(W(m, t - 3), W(m, t - 8), W(m, t - 14), W(m, t - 16)))
  {
  }

  /** The words that the next one is made from are in these places. */
  lemma WordsBefore(w: seq<Word>, m: seq<Word>, t: nat)
    requires |w| == |m| == 16 && t >= 16 && Holds(w, m, t)
    ensures w[(t + 13) % 16] == W(m, t - 3) && w[(t + 8) % 16] == W(m, t - 8)
    ensures w[(t + 2) % 16] == W(m, t - 14) && w[t % 16] == W(m, t - 16)
  {
    hide W;
    assert (t + 13) % 16 == (t - 3) % 16 && (t + 8) % 16 == (t - 8) % 16;
    assert (t + 2) % 16 == (t - 14) % 16 && t % 16 == (t - 16) % 16;
  }

  lemma NextHolds(w: seq<Word>, m: seq<Word>, t: nat)
    requires |w| == |m| == 16 && t >= 16 && Holds(w, m, t)
    ensures Holds(w[t % 16 := W(m, t)], m, t + 1)
  {
    hide W;
    var after := w[t % 16 := W(m, t)];
    forall j: nat | t + 1 - 16 <= j < t + 1 ensures after[j % 16] == W(m, j) {
      if j < t {
        assert w[j % 16] == W(m, j) && j % 16 != t % 16;
      }
    }
  }

  /** `w[t & 0xf] = rol(...)` */
  method Schedule(w: array<Word>, t: nat, ghost m: seq<Word>)
    requires w.Length == 16 && |m| == 16 && t >= 16 && Holds(w[..], m, t)
    modifies w
    ensures Holds(w[..], m, t + 1) && w[t % 16] == W(m, t)
  {
    hide Rotl1, Xor4, W, Holds;
    NextWord(m, t);
    WordsBefore(w[..], m, t);
    NextHolds(w[..], m, t);
    ghost var before := w[..];
    w[t % 16] := Rotl1(Xor4(w[(t + 13) % 16], w[(t + 8) % 16], w[(t + 2) % 16], w[t % 16]));
    assert w[..] == before[t % 16 := W(m, t)];
  }

  /** One round with the schedule: `f` and `k` are the values of the round function and constant. */
  method ScheduledRound(w: array<Word>, t: nat, v: Vars, f: Word, k: Word, ghost h: Vars, ghost m: seq<Word>) returns (v': Vars)
    requires w.Length == 16 && |m| == 16 && t >= 16 && Holds(w[..], m, t) && v == Rounds(h, m, t)
    requires Mix(v, f, k, W(m, t)) == Round(v, t, W(m, t))
    modifies w
    ensures Holds(w[..], m, t + 1) && v' == Rounds(h, m, t + 1)
  {
    hide Mix, Round, Rounds, W, Holds;
    Schedule(w, t, m);
    NextRound(h, m, t);
    v' := Mix(v, f, k, w[t % 16]);
  }

  method Sha1Mix(r: array<Word>, w: array<Word>)
    requires r.Length == 5 && w.Length == 16 && r != w
    modifies r, w
    ensures Vars(r[0], r[1], r[2], r[3], r[4]) == Compress(Vars(old(r[0]), old(r[1]), old(r[2]), old(r[3]), old(r[4])), old(w[..]))
  {
    hide Rounds, Holds;
    ghost var m, h := w[..], Vars(r[0], r[1], r[2], r[3], r[4]);
    var v := MixMessage(r, w);
    MessageHolds(m);
    v := ChooseRounds(w, v, h, m);
    v := ParityRounds(w, 20, v, h, m);
    v := MajorityRounds(w, v, h, m);
    v := ParityRounds(w, 60, v, h, m);
    AddTo(r, v);
  }

  /** The rest of the rounds with the choice function. */
  method ChooseRounds(w: array<Word>, v: Vars, ghost h: Vars, ghost m: seq<Word>) returns (v': Vars)
    requires w.Length == 16 && |m| == 16 && Holds(w[..], m, 16) && v == Rounds(h, m, 16)
    modifies w
    ensures Holds(w[..], m, 20) && v' == Rounds(h, m, 20)
  {
    hide Mix, Round, Rounds, Choose, W, Holds;
    v' := v;
    var i := 16;
    while i < 20
      invariant 16 <= i <= 20 && Holds(w[..], m, i) && v' == Rounds(h, m, i)
      modifies w
    {
      ChooseRound(v', i, W(m, i));
      v' := ScheduledRound(w, i, v', Choose(v'.b, v'.c, v'.d), 0x5a827999, h, m);
      i := i + 1;
    }
  }

  /** The twenty rounds with the parity function from round `start` on. */
  method ParityRounds(w: array<Word>, start: nat, v: Vars, ghost h: Vars, ghost m: seq<Word>) returns (v': Vars)
    requires start == 20 || start == 60
    requires w.Length == 16 && |m| == 16 && Holds(w[..], m, start) && v == Rounds(h, m, start)
    modifies w
    ensures Holds(w[..], m, start + 20) && v' == Rounds(h, m, start + 20)
  {
    hide Mix, Round, Rounds, Parity, W, Holds;
    v' := v;
    var i := start;
    while i < start + 20
      invariant start <= i <= start + 20 && Holds(w[..], m, i) && v' == Rounds(h, m, i)
      modifies w
    {
      ParityRound(v', i, W(m, i));
      v' := ScheduledRound(w, i, v', Parity(v'.b, v'.c, v'.d), if i < 40 then 0x6ed9eba1 else 0xca62c1d6, h, m);
      i := i + 1;
    }
  }

  method MajorityRounds(w: array<Word>, v: Vars, ghost h: Vars, ghost m: seq<Word>) returns (v': Vars)
    requires w.Length == 16 && |m| == 16 && Holds(w[..], m, 40) && v == Rounds(h, m, 40)
    modifies w
    ensures Holds(w[..], m, 60) && v' == Rounds(h, m, 60)
  {
    hide Mix, Round, Rounds, Majority, W, Holds;
    v' := v;
    var i := 40;
    while i < 60
      invariant 40 <= i <= 60 && Holds(w[..], m, i) && v' == Rounds(h, m, i)
      modifies w
    {
      MajorityRound(v', i, W(m, i));
      v' := ScheduledRound(w, i, v', Majority(v'.b, v'.c, v'.d), 0x8f1bbcdc, h, m);
      i := i + 1;
    }
  }

  /** The first sixteen rounds, which take the message words as they are. */
  method MixMessage(r: array<Word>, w: array<Word>) returns (v: Vars)
    requires r.Length == 5 && w.Length == 16
    ensures v == Rounds(Vars(r[0], r[1], r[2], r[3], r[4]), w[..], 16)
  {
    hide Mix, Round, Rounds, Choose, W;
    ghost var m, h := w[..], Vars(r[0], r[1], r[2], r[3], r[4]);
    v := Vars(r[0], r[1], r[2], r[3], r[4]);
    NoRounds(h, m);
    var i := 0;
    while i < 16
      invariant 0 <= i <= 16 && v == Rounds(h, m, i)
    {
      ChooseRound(v, i, w[i]);
      MessageWord(m, i);
      NextRound(h, m, i);
      v := Mix(v, Choose(v.b, v.c, v.d), 0x5a827999, w[i % 16]);
      i := i + 1;
    }
  }

  /** `r[0] += a` and so on. */
  method AddTo(r: array<Word>, v: Vars)
    requires r.Length == 5
    modifies r
    ensures Vars(r[0], r[1], r[2], r[3], r[4]) == Plus(v, Vars(old(r[0]), old(r[1]), old(r[2]), old(r[3]), old(r[4])))
  {
    hide Add;
    r[0] := Add(v.a, r[0]);
    r[1] := Add(v.b, r[1]);
    r[2] := Add(v.c, r[2]);
    r[3] := Add(v.d, r[3]);
    r[4] := Add(v.e, r[4]);
  }
}
