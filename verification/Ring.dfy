/** Positions in a ring of slots. */
module Ring {
  import opened Wraparound

  /** `x & (size - 1)` for a power of two `size`: the position of `x` in a ring of `size` slots.  Written
      by repeated subtraction, so that ring positions of variable size need no remainders. */
  function Wrap(x: int, size: int): (r: int)
    requires size > 0
    ensures 0 <= r < size
    decreases if x < 0 then -x + size else x
  {
    if x < 0 then Wrap(x + size, size) else if x < size then x else Wrap(x - size, size)
  }

  lemma {:induction false} WrapIsRemainder(x: int, size: int)
    requires size > 0
    ensures Wrap(x, size) == x % size
    decreases if x < 0 then -x + size else x
  {
    if x < 0 {
      WrapIsRemainder(x + size, size);
      ModShift(x, 1, size);
    } else if x >= size {
      WrapIsRemainder(x - size, size);
      ModShift(x, -1, size);
    } else {
      DivModUnique(x, 0, x, size);
    }
  }

  /** Adding to a position or to the number itself is the same. */
  lemma {:induction false} WrapAdd(x: int, d: int, size: int)
    requires size > 0
    ensures Wrap(Wrap(x, size) + d, size) == Wrap(x + d, size)
    decreases if x < 0 then -x + size else x
  {
    if x < 0 {
      WrapAdd(x + size, d, size);
      WrapTurn(x + d, size);
    } else if x >= size {
      WrapAdd(x - size, d, size);
      WrapTurn(x + d - size, size);
    }
  }

  /** A full turn changes nothing. */
  lemma WrapTurn(x: int, size: int)
    requires size > 0
    ensures Wrap(x + size, size) == Wrap(x, size)
  {
  }

  /** Numbers at the same position stay together when both move. */
  lemma WrapTogether(x: int, y: int, d: int, size: int)
    requires size > 0 && Wrap(x, size) == Wrap(y, size)
    ensures Wrap(x + d, size) == Wrap(y + d, size)
  {
    WrapAdd(x, d, size);
    WrapAdd(y, d, size);
  }

  /** Numbers less than the size apart share a position only if they are equal. */
  lemma WrapNear(x: int, y: int, size: int)
    requires size > 0 && Wrap(x, size) == Wrap(y, size) && -size < x - y < size
    ensures x == y
  {
    WrapTogether(x, y, -y, size);
    assert Wrap(0, size) == 0;
  }

  /** A position in a ring determines the position in a ring of half the size. */
  lemma {:induction false} WrapHalf(x: int, size: int)
    requires size > 0
    ensures Wrap(Wrap(x, 2 * size), size) == Wrap(x, size)
    decreases if x < 0 then -x + 2 * size else x
  {
    if x < 0 {
      WrapHalf(x + 2 * size, size);
      WrapTurn(x, size);
      WrapTurn(x + size, size);
    } else if x >= 2 * size {
      WrapHalf(x - 2 * size, size);
      WrapTurn(x - size, size);
      WrapTurn(x - 2 * size, size);
    }
  }
}
