/** The 32-bit cell shared by every model: an unsigned number with explicit wrap-around.
    A C expression that only tests the sign of a bitwise combination is modelled by the
    same combination of sign bits. */
module Word32 {

  const TWO32: int := 0x1_0000_0000
  const MSB: int := 0x8000_0000

  type Word = x: int | 0 <= x < 0x1_0000_0000

  type Byte = x: int | 0 <= x < 256

  /** Truncation of an unbounded result to a cell. */
  function Wrap(x: int): Word {
    x % TWO32
  }

  /** The sign bit of a cell. */
  predicate Neg(x: Word) {
    x >= MSB
  }

  /** The two's complement reading of a cell. */
  function Signed(x: Word): (r: int)
    ensures -MSB <= r < MSB
    ensures Wrap(r) == x
  {
    if Neg(x) then x - TWO32 else x
  }

  /** One's complement. */
  function Not(x: Word): Word {
    TWO32 - 1 - x
  }

  function Plus(x: Word, y: Word): Word {
    Wrap(x + y)
  }

  function Minus(x: Word, y: Word): Word {
    Wrap(x - y)
  }

  lemma WrapSigned(x: int)
    requires -MSB <= x < MSB
    ensures Signed(Wrap(x)) == x
  {
  }

  // Wrapping, without division

  lemma {:induction false} WrapIs(x: int, r: Word, k: int)
    requires x == r + TWO32 * k
    ensures Wrap(x) == r
  {
  }

  lemma {:induction false} WrapShift(a: int, b: int, t: int)
    requires Wrap(a) == Wrap(b)
    ensures Wrap(a + t) == Wrap(b + t)
  {
    var k := a / TWO32 - b / TWO32;
    assert a == b + TWO32 * k;
    WrapMultiple(b + t, k);
  }

  lemma {:induction false} WrapMultiple(a: int, k: int)
    ensures Wrap(a + TWO32 * k) == Wrap(a)
  {
  }

  lemma {:induction false} WrapPlus(a: int, b: int)
    ensures Wrap(Wrap(a) + b) == Wrap(a + b)
  {
    assert a == Wrap(a) + TWO32 * (a / TWO32);
    WrapMultiple(Wrap(a) + b, a / TWO32);
  }

  /** Equal cells are a multiple of 2^32 apart. */
  lemma {:induction false} WrapApart(a: int, b: int)
    requires Wrap(a) == Wrap(b)
    ensures a - b == TWO32 * (a / TWO32 - b / TWO32)
  {
  }

  datatype Option<T> = None | Some(value: T) {
    predicate IsFailure() {
      None?
    }

    function PropagateFailure<U>(): Option<U>
      requires None?
    {
      None
    }

    function Extract(): T
      requires Some?
    {
      value
    }
  }

  function Max(a: int, b: int): int {
    if a < b then b else a
  }
}
