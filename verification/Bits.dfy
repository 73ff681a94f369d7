/** Bitwise operations on cells, bit by bit from the bottom. */
module Bits {
  import opened Word32
  import opened Powers

  /** The low n bits of the exclusive or. */
  function XorBits(x: nat, y: nat, n: nat): nat {
    if n == 0 then 0 else 2 * XorBits(x / 2, y / 2, n - 1) + (if x % 2 != y % 2 then 1 else 0)
  }

  function AndBits(x: nat, y: nat, n: nat): nat {
    if n == 0 then 0 else 2 * AndBits(x / 2, y / 2, n - 1) + (if x % 2 == 1 && y % 2 == 1 then 1 else 0)
  }

  function OrBits(x: nat, y: nat, n: nat): nat {
    if n == 0 then 0 else 2 * OrBits(x / 2, y / 2, n - 1) + (if x % 2 == 1 || y % 2 == 1 then 1 else 0)
  }

  lemma {:induction false} BitsFit(x: nat, y: nat, n: nat)
    ensures XorBits(x, y, n) < Pow2(n) && AndBits(x, y, n) < Pow2(n) && OrBits(x, y, n) < Pow2(n)
  {
    if n > 0 {
      BitsFit(x / 2, y / 2, n - 1);
    }
  }

  function Xor(x: Word, y: Word): Word {
    BitsFit(x, y, 32);
    Pow2At32();
    XorBits(x, y, 32)
  }

  function And(x: Word, y: Word): Word {
    BitsFit(x, y, 32);
    Pow2At32();
    AndBits(x, y, 32)
  }

  function Or(x: Word, y: Word): Word {
    BitsFit(x, y, 32);
    Pow2At32();
    OrBits(x, y, 32)
  }

  /** The top bit of an exclusive or. */
  lemma {:induction false} XorTop(x: nat, y: nat, n: nat)
    requires 0 < n && x < Pow2(n) && y < Pow2(n)
    ensures XorBits(x, y, n) >= Pow2(n - 1) <==> (x >= Pow2(n - 1)) != (y >= Pow2(n - 1))
  {
    if n == 1 {
      assert Pow2(1) == 2 && Pow2(0) == 1;
      assert XorBits(x / 2, y / 2, 0) == 0;
    } else {
      XorTop(x / 2, y / 2, n - 1);
    }
  }

  /** `xor` tells whether the signs of two cells differ. */
  lemma {:induction false} XorSign(x: Word, y: Word)
    ensures Neg(Xor(x, y)) <==> Neg(x) != Neg(y)
  {
    Pow2At32();
    Pow2Around(32);
    assert Pow2(0) == 1;
    XorTop(x, y, 32);
  }

  lemma {:induction false} AndOnesBits(y: nat, n: nat)
    requires y < Pow2(n)
    ensures AndBits(Pow2(n) - 1, y, n) == y && AndBits(0, y, n) == 0
  {
    if n > 0 {
      assert (Pow2(n) - 1) / 2 == Pow2(n - 1) - 1 && (Pow2(n) - 1) % 2 == 1;
      AndOnesBits(y / 2, n - 1);
    }
  }

  lemma {:induction false} OrZeroBits(x: nat, y: nat, n: nat)
    requires x < Pow2(n) && y < Pow2(n)
    ensures OrBits(x, y, n) == 0 <==> x == 0 && y == 0
  {
    if n > 0 {
      OrZeroBits(x / 2, y / 2, n - 1);
    }
  }

  /** `or` of two cells is zero exactly if both are. */
  lemma {:induction false} OrZero(x: Word, y: Word)
    ensures Or(x, y) == 0 <==> x == 0 && y == 0
  {
    Pow2At32();
    OrZeroBits(x, y, 32);
  }

  lemma {:induction false} BitsSwap(x: nat, y: nat, n: nat)
    ensures AndBits(x, y, n) == AndBits(y, x, n) && OrBits(x, y, n) == OrBits(y, x, n)
  {
    if n > 0 {
      BitsSwap(x / 2, y / 2, n - 1);
    }
  }

  lemma {:induction false} OrSwaps(x: Word, y: Word)
    ensures Or(x, y) == Or(y, x)
  {
    BitsSwap(x, y, 32);
  }

  lemma {:induction false} AndSwaps(x: Word, y: Word)
    ensures And(x, y) == And(y, x)
  {
    BitsSwap(x, y, 32);
  }

  // Single bits

  predicate Bit(x: nat, k: nat) {
    if k == 0 then x % 2 == 1 else Bit(x / 2, k - 1)
  }

  lemma {:induction false} AndOneBit(x: nat, k: nat, n: nat)
    requires k < n
    ensures AndBits(x, Pow2(k), n) == 0 <==> !Bit(x, k)
  {
    if k == 0 {
      NoBits(x / 2, n - 1);
    } else {
      assert Pow2(k) / 2 == Pow2(k - 1) && Pow2(k) % 2 == 0;
      AndOneBit(x / 2, k - 1, n - 1);
    }
  }

  lemma {:induction false} NoBits(x: nat, n: nat)
    ensures AndBits(x, 0, n) == 0
  {
    if n > 0 {
      NoBits(x / 2, n - 1);
    }
  }

  lemma {:induction false} OrOneBit(x: nat, k: nat, n: nat, j: nat)
    requires k < n && j < n
    ensures Bit(OrBits(x, Pow2(k), n), j) <==> Bit(x, j) || j == k
  {
    var r := OrBits(x, Pow2(k), n);
    if k > 0 {
      assert Pow2(k) / 2 == Pow2(k - 1) && Pow2(k) % 2 == 0;
      assert r / 2 == OrBits(x / 2, Pow2(k - 1), n - 1);
      if j > 0 {
        OrOneBit(x / 2, k - 1, n - 1, j - 1);
      }
    } else {
      assert Pow2(0) == 1;
      assert r / 2 == OrBits(x / 2, 0, n - 1) && r % 2 == 1;
      if j > 0 {
        OrNoBits(x / 2, n - 1, j - 1);
      }
    }
  }

  lemma {:induction false} OrNoBits(x: nat, n: nat, j: nat)
    requires j < n
    ensures Bit(OrBits(x, 0, n), j) == Bit(x, j)
  {
    if j > 0 {
      OrNoBits(x / 2, n - 1, j - 1);
    }
  }

  lemma {:induction false} ZeroHasNoBit(j: nat)
    ensures !Bit(0, j)
  {
    if j > 0 {
      ZeroHasNoBit(j - 1);
    }
  }

  /** The bits of a cell that are set. */
  function Members(v: Word): set<nat> {
    set k: nat | k < 32 && Bit(v, k)
  }

  lemma {:induction false} Pow2Fits(k: nat)
    requires k < 32
    ensures Pow2(k) < TWO32
  {
    Pow2Split(k, 32 - k);
    Pow2At32();
    assert Pow2(32 - k) == 2 * Pow2(31 - k);
    Product(Pow2(k), Pow2(31 - k));
  }

  lemma {:induction false} Product(a: int, b: int)
    requires a >= 1 && b >= 1
    ensures a * (2 * b) >= 2 * a
  {
  }

  /** The cell 1<<k. */
  function OneBit(k: nat): Word
    requires k < 32
  {
    Pow2Fits(k);
    Pow2(k)
  }

  lemma {:induction false} TestBit(v: Word, k: nat)
    requires k < 32
    ensures And(v, OneBit(k)) == 0 <==> k !in Members(v)
  {
    AndOneBit(v, k, 32);
  }

  lemma {:induction false} SetBit(v: Word, k: nat)
    requires k < 32
    ensures Members(Or(v, OneBit(k))) == Members(v) + {k}
  {
    forall j: nat | j < 32
      ensures Bit(Or(v, OneBit(k)), j) <==> Bit(v, j) || j == k
    {
      OrOneBit(v, k, 32, j);
    }
  }

  lemma {:induction false} NoMembers()
    ensures Members(0) == {}
  {
    forall j: nat
      ensures !Bit(0, j)
    {
      ZeroHasNoBit(j);
    }
  }
}
