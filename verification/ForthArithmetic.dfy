/** Double-cell arithmetic and the two divisions of ANSI X3.215-1994: what the primitives and the
    words above them compute. */
module ForthArithmetic {
  import opened Word32
  import opened Powers
  import opened Bits
  import opened Division

  /** An unsigned double cell. */
  function Double(high: Word, low: Word): int {
    high * TWO32 + low
  }

  /** A signed double cell. */
  function SignedDouble(high: Word, low: Word): int {
    Signed(high) * TWO32 + low
  }

  const TWO64: int := 0x1_0000_0000_0000_0000

  function Wrap2(x: int): int {
    x % TWO64
  }

  // Truth values

  /** A truth value on the stack: all bits or none. */
  function Truth(b: bool): Word {
    if b then TWO32 - 1 else 0
  }

  /** A flag and a cell: the cell or zero. */
  lemma {:induction false} AndFlag(flag: bool, y: Word)
    ensures And(Truth(flag), y) == if flag then y else 0
  {
    Pow2At32();
    AndOnesBits(y, 32);
  }

  // Carries

  /** The carry out of a sum, found from the signs alone. */
  predicate Carry(a: Word, b: Word, sum: Word) {
    (Neg(a) && Neg(b)) || (!Neg(sum) && (Neg(a) || Neg(b)))
  }

  lemma {:induction false} CarryIs(a: Word, b: Word)
    ensures a + b == Plus(a, b) + (if Carry(a, b, Plus(a, b)) then TWO32 else 0)
  {
  }

  // Division

  /** The largest integer not above the quotient. */
  function FloorQuotient(d: int, n: int): int
    requires n != 0
  {
    if n > 0 then d / n else (-d) / (-n)
  }

  function FloorRemainder(d: int, n: int): int
    requires n != 0
  {
    d - n * FloorQuotient(d, n)
  }

  /** The quotient rounded toward zero. */
  function TruncatedQuotient(d: int, n: int): int
    requires n != 0
  {
    var q := (if d < 0 then -d else d) / (if n < 0 then -n else n);
    if (d < 0) != (n < 0) then -q else q
  }

  function TruncatedRemainder(d: int, n: int): int
    requires n != 0
  {
    d - n * TruncatedQuotient(d, n)
  }

  function AbsInt(x: int): (r: nat) {
    if x < 0 then -x else x
  }

  /** Floored division is the one whose remainder has the sign of the divisor, and symmetric division
      the one whose remainder has the sign of the dividend; both are below the divisor in size. */
  lemma {:induction false} DivisionsDefined(d: int, n: int)
    requires n != 0
    ensures if n > 0 then 0 <= FloorRemainder(d, n) < n else n < FloorRemainder(d, n) <= 0
    ensures AbsInt(TruncatedRemainder(d, n)) < AbsInt(n)
    ensures if d >= 0 then TruncatedRemainder(d, n) >= 0 else TruncatedRemainder(d, n) <= 0
  {
    hide FloorRemainder, FloorQuotient, TruncatedRemainder, TruncatedQuotient;
    var q, r := SizeDivision(AbsInt(d), AbsInt(n));
    FlooredBySize(d, n, q, r);
    TruncatedBySize(d, n, q);
  }

  lemma {:induction false} SizeDivision(a: nat, b: nat) returns (q: nat, r: nat)
    requires b > 0
    ensures a == b * q + r && r < b && q == a / b
  {
    q, r := a / b, a % b;
  }

  lemma {:induction false} TruncatedBySize(d: int, n: int, q: int)
    requires n != 0 && q == AbsInt(d) / AbsInt(n)
    ensures TruncatedQuotient(d, n) == if (d < 0) != (n < 0) then -q else q
    ensures var r := AbsInt(d) - AbsInt(n) * q; TruncatedRemainder(d, n) == (if d < 0 then -r else r) && 0 <= r < AbsInt(n)
  {
    var b := AbsInt(n);
    assert AbsInt(d) == b * q + AbsInt(d) % b;
    if (d < 0) != (n < 0) {
      assert n * -q == if n < 0 then b * q else -(b * q);
    } else {
      assert n * q == if n < 0 then -(b * q) else b * q;
    }
  }

  /** Floored division from the sizes: with different signs and a remainder, one further down. */
  lemma {:induction false} FlooredBySize(d: int, n: int, q: int, r: int)
    requires n != 0 && AbsInt(d) == AbsInt(n) * q + r && 0 <= r < AbsInt(n) && q >= 0
    ensures var differ := (d < 0) != (n < 0);
            var adjust := differ && r != 0;
            var r1 := if n < 0 then -r else r;
            && FloorQuotient(d, n) == (if !differ then q else if adjust then -q - 1 else -q)
            && FloorRemainder(d, n) == (if adjust then n - r1 else r1)
  {
    var b := AbsInt(n);
    var differ := (d < 0) != (n < 0);
    var e := if n > 0 then d else -d;
    if !differ || d == 0 {
      QuotientIs(e, b, q, r);
    } else if r == 0 {
      QuotientIs(e, b, -q, 0);
    } else {
      QuotientIs(e, b, -q - 1, b - r);
    }
    assert FloorQuotient(d, n) == e / b;
    FloorRemainderIs(d, n, e / b, e % b);
  }

  lemma {:induction false} FloorRemainderIs(d: int, n: int, k: int, m: int)
    requires n != 0 && k == FloorQuotient(d, n) && m == (if n > 0 then d else -d) % AbsInt(n)
    ensures FloorRemainder(d, n) == if n > 0 then m else -m
  {
    var e := if n > 0 then d else -d;
    assert e == AbsInt(n) * (e / AbsInt(n)) + m;
  }

  // The words on cells

  /** The size of a signed double cell. */
  function AbsDouble(high: Word, low: Word): (r: nat)
    ensures r <= TWO64 / 2
  {
    AbsInt(SignedDouble(high, low))
  }

  /** Two's complement negation. */
  function Negated(x: Word): Word {
    Wrap(0 - x)
  }

  /** Negation of a size fits the sign. */
  lemma {:induction false} NegateSigned(x: Word)
    requires x <= MSB
    ensures Signed(Negated(x)) == 0 - x && (x < MSB ==> Signed(x) == x) && (Negated(x) == 0 <==> x == 0)
  {
    WrapIs(0 - x, if x == 0 then 0 else TWO32 - x, if x == 0 then 0 else -1);
  }

  /** Symmetric division of cells: sizes divided, then the signs put back. */
  lemma {:induction false} SymmetricOfSizes(dh: Word, dl: Word, n: Word, q: Word, r: Word)
    requires n != 0 && AbsDouble(dh, dl) == AbsInt(Signed(n)) * q + r && r < AbsInt(Signed(n))
    ensures var d := SignedDouble(dh, dl);
            && (if Neg(dh) != Neg(n) then Negated(q) else q) == Wrap(TruncatedQuotient(d, Signed(n)))
            && Signed(if Neg(dh) then Negated(r) else r) == TruncatedRemainder(d, Signed(n))
  {
    var d := SignedDouble(dh, dl);
    QuotientIs(AbsInt(d), AbsInt(Signed(n)), q, r);
    TruncatedBySize(d, Signed(n), q);
    NegateSigned(r);
    assert d < 0 <==> Neg(dh);
  }

  /** Floored division of cells: sizes divided, then the signs put back; with different signs and a
      remainder one is taken from the quotient and the remainder from the divisor. */
  lemma {:induction false} FlooredOfSizes(dh: Word, dl: Word, n: Word, q: Word, r: Word)
    requires n != 0 && AbsDouble(dh, dl) == AbsInt(Signed(n)) * q + r && r < AbsInt(Signed(n))
    ensures var d := SignedDouble(dh, dl);
            var differ := Neg(dh) != Neg(n);
            var q1 := if differ then Negated(q) else q;
            var r1 := if Neg(n) then Negated(r) else r;
            && (differ && r1 != 0 ==> Wrap(q1 - 1) == Wrap(FloorQuotient(d, Signed(n)))
                                      && Signed(Wrap(n - r1)) == FloorRemainder(d, Signed(n)))
            && (!(differ && r1 != 0) ==> q1 == Wrap(FloorQuotient(d, Signed(n)))
                                         && Signed(r1) == FloorRemainder(d, Signed(n)))
  {
    var d, k := SignedDouble(dh, dl), Signed(n);
    assert d < 0 <==> Neg(dh);
    assert k < 0 <==> Neg(n);
    FlooredBySize(d, k, q, r);
    NegateSigned(r);
    WrapIs(q, q, 0);
    hide FloorQuotient, FloorRemainder, SignedDouble;
    AdjustedQuotient(q);
    if r != 0 {
      AdjustedRemainder(n, r);
    }
  }

  lemma {:induction false} AdjustedQuotient(q: Word)
    ensures Wrap(Negated(q) - 1) == Wrap(0 - q - 1)
  {
    WrapPlus(0 - q, -1);
  }

  lemma {:induction false} AdjustedRemainder(n: Word, r: Word)
    requires n != 0 && 0 < r < AbsInt(Signed(n))
    ensures var r1 := if Neg(n) then Negated(r) else r;
            Signed(Wrap(n - r1)) == Signed(n) - Signed(r1)
  {
    NegateSigned(r);
    var r1 := if Neg(n) then Negated(r) else r;
    var x := Signed(n) - Signed(r1);
    WrapSigned(x);
    WrapMultiple(x, 1);
    assert n - r1 == x;
  }

  /** A quotient that fits a cell is one that the word can compute, and reads back exactly. */
  lemma {:induction false} FittingQuotient(d: int, n: int, q: int)
    requires n != 0 && -MSB <= q < MSB && AbsInt(d - n * q) < AbsInt(n)
    ensures AbsInt(d) < TWO32 * AbsInt(n) && Signed(Wrap(q)) == q
  {
    AtLeast(AbsInt(n), MSB, AbsInt(q));
    assert AbsInt(n * q) == AbsInt(n) * AbsInt(q);
    WrapSigned(q);
  }

  lemma {:induction false} FittingFloor(d: int, n: int)
    requires n != 0 && -MSB <= FloorQuotient(d, n) < MSB
    ensures AbsInt(d) < TWO32 * AbsInt(n) && Signed(Wrap(FloorQuotient(d, n))) == FloorQuotient(d, n)
  {
    DivisionsDefined(d, n);
    assert FloorRemainder(d, n) == d - n * FloorQuotient(d, n);
    hide FloorQuotient, FloorRemainder;
    FittingQuotient(d, n, FloorQuotient(d, n));
  }

  lemma {:induction false} FittingTruncated(d: int, n: int)
    requires n != 0 && -MSB <= TruncatedQuotient(d, n) < MSB
    ensures AbsInt(d) < TWO32 * AbsInt(n) && Signed(Wrap(TruncatedQuotient(d, n))) == TruncatedQuotient(d, n)
  {
    DivisionsDefined(d, n);
    assert TruncatedRemainder(d, n) == d - n * TruncatedQuotient(d, n);
    hide TruncatedQuotient, TruncatedRemainder;
    FittingQuotient(d, n, TruncatedQuotient(d, n));
  }
}
