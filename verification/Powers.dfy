/** Powers of two, and a number shifted left through a cell one bit at a time. */
module Powers {
  import opened Word32

  function Pow2(n: nat): (p: int)
    ensures p >= 1
  {
    if n == 0 then 1 else 2 * Pow2(n - 1)
  }

  lemma {:induction false} Pow2Split(m: nat, n: nat)
    ensures Pow2(m) * Pow2(n) == Pow2(m + n)
  {
    if m > 0 {
      Pow2Split(m - 1, n);
    }
  }

  lemma Pow2At32()
    ensures Pow2(32) == TWO32
  {
    assert Pow2(8) == 0x100;
    assert Pow2(16) == 0x1_0000 by { Pow2Split(8, 8); }
    Pow2Split(16, 16);
  }

  lemma Pow2Around(n: nat)
    requires 0 < n <= 32
    ensures Pow2(n - 1) * Pow2(32 - n) == MSB
    ensures Pow2(33 - n) == 2 * Pow2(32 - n) && Pow2(n) == 2 * Pow2(n - 1)
  {
    Pow2Split(n - 1, 32 - n);
    Pow2At32();
  }

  function Join(high: int, unit: int, low: int): int {
    high * unit + low
  }

  /** The top bit of a cell that holds `low` above `q`. */
  lemma TopBit(y: Word, low: int, P: int, q: int, Q: int)
    requires Q * P == MSB && Q >= 1 && y == low * P + q && 0 <= low < 2 * Q && 0 <= q < P
    ensures Neg(y) <==> low >= Q
  {
    if low >= Q {
      assert low * P >= Q * P;
    } else {
      assert (low + 1) * P <= Q * P;
    }
  }

  /** The cell shifted left by one, without its top bit. */
  lemma DropBit(low: int, Q: int, b: int, P: int, q: int, T: int)
    requires Q * P == MSB && T == 2 * P
    ensures (low - Q * b) * T + 2 * q == 2 * (low * P + q) - TWO32 * b
  {
    calc {
      (low - Q * b) * T + 2 * q;
      (low - Q * b) * (2 * P) + 2 * q;
      2 * (low * P + q) - 2 * ((Q * P) * b);
    }
  }

  lemma SameDividend(num: int, b: int, Q: int, low: int, T: int)
    requires T == 2 * Q
    ensures Join(2 * num + b, Q, low - Q * b) == Join(num, T, low)
  {
  }
}
