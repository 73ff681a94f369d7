/** The arithmetic words of the Forth system: primitives that change the stacks, and the threaded
    words above them, cell by cell. The top of a stack comes first. */
module ForthWords {
  import opened Word32
  import opened Powers
  import opened Bits
  import opened Division
  import opened ForthArithmetic

  class Words {
    var ds: seq<Word>
    var rs: seq<Word>

    constructor ()
      ensures ds == [] && rs == []
    {
      ds, rs := [], [];
    }

    // Stack words

    method Literal(v: Word)
      modifies this`ds
      ensures ds == [v] + old(ds)
    {
      ds := [v] + ds;
    }

    method Dup()
      requires |ds| >= 1
      modifies this`ds
      ensures ds == [old(ds)[0]] + old(ds)
    {
      ds := [ds[0]] + ds;
    }

    method Over()
      requires |ds| >= 2
      modifies this`ds
      ensures ds == [old(ds)[1]] + old(ds)
    {
      ds := [ds[1]] + ds;
    }

    method TwoDup()
      requires |ds| >= 2
      modifies this`ds
      ensures ds == [old(ds)[0], old(ds)[1]] + old(ds)
    {
      ds := [ds[0], ds[1]] + ds;
    }

    method Drop()
      requires |ds| >= 1
      modifies this`ds
      ensures ds == old(ds)[1..]
    {
      ds := ds[1..];
    }

    method Swap()
      requires |ds| >= 2
      modifies this`ds
      ensures ds == [old(ds)[1], old(ds)[0]] + old(ds)[2..]
    {
      ds := [ds[1], ds[0]] + ds[2..];
    }

    method Rot()
      requires |ds| >= 3
      modifies this`ds
      ensures ds == [old(ds)[2], old(ds)[0], old(ds)[1]] + old(ds)[3..]
    {
      ds := [ds[2], ds[0], ds[1]] + ds[3..];
    }

    method ToR()
      requires |ds| >= 1
      modifies this`ds, this`rs
      ensures ds == old(ds)[1..] && rs == [old(ds)[0]] + old(rs)
    {
      rs := [ds[0]] + rs;
      ds := ds[1..];
    }

    method RFrom()
      requires |rs| >= 1
      modifies this`ds, this`rs
      ensures ds == [old(rs)[0]] + old(ds) && rs == old(rs)[1..]
    {
      ds := [rs[0]] + ds;
      rs := rs[1..];
    }

    method RFetch()
      requires |rs| >= 1
      modifies this`ds
      ensures ds == [rs[0]] + old(ds)
    {
      ds := [rs[0]] + ds;
    }

    /** The word after a conditional branch: its flag goes. */
    method Flag() returns (f: Word)
      requires |ds| >= 1
      modifies this`ds
      ensures f == old(ds)[0] && ds == old(ds)[1..]
    {
      f := ds[0];
      ds := ds[1..];
    }

    // Single-cell arithmetic

    method Add()
      requires |ds| >= 2
      modifies this`ds
      ensures ds == [Plus(old(ds)[1], old(ds)[0])] + old(ds)[2..]
    {
      ds := [Plus(ds[1], ds[0])] + ds[2..];
    }

    method OnePlus()
      requires |ds| >= 1
      modifies this`ds
      ensures ds == [Plus(old(ds)[0], 1)] + old(ds)[1..]
    {
      ds := [Plus(ds[0], 1)] + ds[1..];
    }

    method OneMinus()
      requires |ds| >= 1
      modifies this`ds
      ensures ds == [Minus(old(ds)[0], 1)] + old(ds)[1..]
    {
      ds := [Minus(ds[0], 1)] + ds[1..];
    }

    method Negate()
      requires |ds| >= 1
      modifies this`ds
      ensures ds == [Negated(old(ds)[0])] + old(ds)[1..]
    {
      ds := [Negated(ds[0])] + ds[1..];
    }

    method ZeroLess()
      requires |ds| >= 1
      modifies this`ds
      ensures ds == [Truth(Neg(old(ds)[0]))] + old(ds)[1..]
    {
      ds := [Truth(Neg(ds[0]))] + ds[1..];
    }

    method Less()
      requires |ds| >= 2
      modifies this`ds
      ensures ds == [Truth(Signed(old(ds)[1]) < Signed(old(ds)[0]))] + old(ds)[2..]
    {
      ds := [Truth(Signed(ds[1]) < Signed(ds[0]))] + ds[2..];
    }

    method Greater()
      requires |ds| >= 2
      modifies this`ds
      ensures ds == [Truth(Signed(old(ds)[1]) > Signed(old(ds)[0]))] + old(ds)[2..]
    {
      ds := [Truth(Signed(ds[1]) > Signed(ds[0]))] + ds[2..];
    }

    method UGreater()
      requires |ds| >= 2
      modifies this`ds
      ensures ds == [Truth(old(ds)[1] > old(ds)[0])] + old(ds)[2..]
    {
      ds := [Truth(ds[1] > ds[0])] + ds[2..];
    }

    method ZeroEquals()
      requires |ds| >= 1
      modifies this`ds
      ensures ds == [Truth(old(ds)[0] == 0)] + old(ds)[1..]
    {
      ds := [Truth(ds[0] == 0)] + ds[1..];
    }

    method OrWord()
      requires |ds| >= 2
      modifies this`ds
      ensures ds == [Or(old(ds)[1], old(ds)[0])] + old(ds)[2..]
    {
      ds := [Or(ds[1], ds[0])] + ds[2..];
    }

    method Sub()
      requires |ds| >= 2
      modifies this`ds
      ensures ds == [Minus(old(ds)[1], old(ds)[0])] + old(ds)[2..]
    {
      ds := [Minus(ds[1], ds[0])] + ds[2..];
    }

    method XorWord()
      requires |ds| >= 2
      modifies this`ds
      ensures ds == [Xor(old(ds)[1], old(ds)[0])] + old(ds)[2..]
    {
      ds := [Xor(ds[1], ds[0])] + ds[2..];
    }

    method AndWord()
      requires |ds| >= 2
      modifies this`ds
      ensures ds == [And(old(ds)[1], old(ds)[0])] + old(ds)[2..]
    {
      ds := [And(ds[1], ds[0])] + ds[2..];
    }

    // Double-cell primitives

    /** The exact product, from products of half cells and carries found by sign. */
    method UmStar()
      requires |ds| >= 2
      modifies this`ds
      ensures |ds| == old(|ds|) && ds[2..] == old(ds)[2..]
      ensures Double(ds[0], ds[1]) == (old(ds)[1] as int) * old(ds)[0]
    {
      var high, low := Product(ds[1], ds[0]);
      ds := [high, low] + ds[2..];
    }

    static method Product(x: Word, y: Word) returns (high: Word, low: Word)
      ensures Double(high, low) == x * y
    {
      var a, b := x / 0x1_0000, x % 0x1_0000;
      var c, d := y / 0x1_0000, y % 0x1_0000;
      Halves(x, y, a, b, c, d);
      var ac: Word, bd: Word, ad: Word, bc: Word := a * c, b * d, a * d, b * c;
      high, low := AddShifted(ac, bd, ad);
      high, low := AddShifted(high, low, bc);
    }

    /** Adds a half-shifted product to a double cell. */
    static method AddShifted(ac: Word, bd: Word, x: Word) returns (high: Word, low: Word)
      requires Double(ac, bd) + x * 0x1_0000 < TWO64
      ensures Double(high, low) == Double(ac, bd) + x * 0x1_0000
    {
      var xlow, xhigh := Wrap(x * 0x1_0000), x / 0x1_0000;
      ShiftedParts(x);
      low := Wrap(bd + xlow);
      CarryIs(bd, xlow);
      high := Wrap(ac + if Carry(bd, xlow, low) then xhigh + 1 else xhigh);
      assert ac + (if Carry(bd, xlow, low) then xhigh + 1 else xhigh) < TWO32;
      WrapIs(ac + (if Carry(bd, xlow, low) then xhigh + 1 else xhigh),
             ac + (if Carry(bd, xlow, low) then xhigh + 1 else xhigh), 0);
    }

    /** Shift-and-subtract division of a double cell by a cell; exact when the quotient fits. */
    method UmSlashMod()
      requires |ds| >= 3
      modifies this`ds
      ensures |ds| == old(|ds|) - 1 && ds[2..] == old(ds)[3..]
      ensures var div, num := old(ds)[0], Double(old(ds)[1], old(ds)[2]);
              old(ds)[1] < div ==> num == (div as int) * ds[0] + ds[1] && ds[1] < div
    {
      var div: Word, ppms: Word, ppls: Word := ds[0], ds[1], ds[2];
      ghost var all, num, low, q := Double(ppms, ppls), ppms as int, ppls as int, 0;
      ghost var fits := ppms < div;
      Pow2At32();
      assert Pow2(0) == 1;
      var i := 32;
      while i > 0
        invariant 0 <= i <= 32 && ds == old(ds)
        invariant fits ==> PartDivided(i, div, ppms, ppls, all, num, low, q)
        decreases i
      {
        ghost var ppms0, ppls0 := ppms, ppls;
        var ppmsnew := ShiftLeft(ppms);
        if Neg(ppls) {
          ppmsnew := ppmsnew + 1;
        }
        ppls := ShiftLeft(ppls);
        if Neg(ppms) || ppmsnew >= div {
          ppls := ppls + 1;
          ppms := Minus(ppmsnew, div);
        } else {
          ppms := ppmsnew;
        }
        if fits {
          DividingStep(i, div, ppms0, ppls0, all, num, low, q, ppms, ppls);
        }
        ghost var parts := NextParts(i, div, ppms0, ppls0, num, low, q);
        num, low, q := parts.0, parts.1, parts.2;
        i := i - 1;
      }
      ds := [ppls, ppms] + ds[3..];
      if fits {
        DivisionDone(div, ppms, ppls, all, num, low, q);
      }
    }

    /** The sum of two double cells, modulo 2^64. */
    method DPlus()
      requires |ds| >= 4
      modifies this`ds
      ensures |ds| == old(|ds|) - 2 && ds[2..] == old(ds)[4..]
      ensures Double(ds[0], ds[1]) == Wrap2(Double(old(ds)[0], old(ds)[1]) + Double(old(ds)[2], old(ds)[3]))
    {
      var ms1, ls1, ms2, ls2 := ds[0], ds[1], ds[2], ds[3];
      var newls := Plus(ls1, ls2);
      CarryIs(ls1, ls2);
      var ms := Plus(ms2, if Carry(ls1, ls2, newls) then Plus(ms1, 1) else ms1);
      DoubleSum(ms1, ls1, ms2, ls2, ms, newls);
      ds := [ms, newls] + ds[4..];
    }

    /** The negation of a double cell, modulo 2^64. */
    method DNegate()
      requires |ds| >= 2
      modifies this`ds
      ensures |ds| == old(|ds|) && ds[2..] == old(ds)[2..]
      ensures Double(ds[0], ds[1]) == Wrap2(0 - Double(old(ds)[0], old(ds)[1]))
    {
      var ms, ls := Not(ds[0]), Not(ds[1]);
      var newls := Plus(ls, 1);
      var newms := if !Neg(newls) && Neg(ls) then Plus(ms, 1) else ms;
      DoubleNegation(ds[0], ds[1], newms, newls);
      ds := [newms, newls] + ds[2..];
    }

    // Threaded words

    /** `+-`: ( n1 n2 -- n3 ) negates n1 if n2 is negative. */
    method PlusMinus()
      requires |ds| >= 2
      modifies this`ds
      ensures ds == [if Neg(old(ds)[0]) then Negated(old(ds)[1]) else old(ds)[1]] + old(ds)[2..]
    {
      ZeroLess();
      var flag := Flag();
      if flag != 0 {
        Negate();
      }
    }

    /** `d+-`: ( d1 n -- d2 ) */
    method DPlusMinus()
      requires |ds| >= 3
      modifies this`ds
      ensures |ds| == old(|ds|) - 1 && ds[2..] == old(ds)[3..]
      ensures Double(ds[0], ds[1])
              == if Neg(old(ds)[0]) then Wrap2(0 - Double(old(ds)[1], old(ds)[2])) else Double(old(ds)[1], old(ds)[2])
    {
      ZeroLess();
      var flag := Flag();
      if flag != 0 {
        DNegate();
      }
    }

    method Abs()
      requires |ds| >= 1
      modifies this`ds
      ensures ds == [AbsInt(Signed(old(ds)[0]))] + old(ds)[1..]
    {
      ghost var n := ds[0];
      Dup();
      PlusMinus();
      SizeOfCell(n);
    }

    method DAbs()
      requires |ds| >= 2
      modifies this`ds
      ensures |ds| == old(|ds|) && ds[2..] == old(ds)[2..]
      ensures Double(ds[0], ds[1]) == AbsDouble(old(ds)[0], old(ds)[1])
    {
      ghost var high, low := ds[0], ds[1];
      Dup();
      DPlusMinus();
      SizeOfDouble(high, low);
    }

    /** `um*m`: ( ud u -- ud' ) the product modulo 2^64. */
    method UmStarM()
      requires |ds| >= 3
      modifies this
      ensures rs == old(rs) && |ds| == old(|ds|) - 1 && ds[2..] == old(ds)[3..]
      ensures Double(ds[0], ds[1]) == Wrap2(Double(old(ds)[1], old(ds)[2]) * old(ds)[0])
    {
      ghost var u, h, l, rest := ds[0], ds[1], ds[2], ds[3..];
      assert ds == [u, h, l] + rest;
      hide Wrap2, Double;
      ghost var hi, lo := HighProduct(u, h, l, rest);
      ghost var hi2, lo2 := LowProduct(u, l, lo, rest, old(rs));
      DPlus();
      DoubleTimesCell(h, l, u, hi, lo, hi2, lo2);
    }

    /** The product with the low cell, and above it what was put away as a high cell. */
    method LowProduct(ghost u: Word, ghost l: Word, ghost lo: Word, ghost rest: seq<Word>, ghost rs0: seq<Word>)
      returns (ghost hi2: Word, ghost lo2: Word)
      requires ds == [u, l] + rest && rs == [lo] + rs0
      modifies this
      ensures ds == [lo, 0, hi2, lo2] + rest && rs == rs0 && Double(hi2, lo2) == l * u
    {
      hide Double;
      UmStar();
      hi2, lo2 := ds[0], ds[1];
      assert ds == [hi2, lo2] + rest;
      Literal(0);
      assert ds == [0, hi2, lo2] + rest;
      RFrom();
    }

    /** The product with the high cell, whose own high cell is dropped and the low one put away. */
    method HighProduct(ghost u: Word, ghost h: Word, ghost l: Word, ghost rest: seq<Word>) returns (ghost hi: Word, ghost lo: Word)
      requires ds == [u, h, l] + rest
      modifies this
      ensures ds == [u, l] + rest && rs == [lo] + old(rs) && Double(hi, lo) == h * u
    {
      hide Double;
      Swap();
      assert ds == [h, u, l] + rest;
      Over();
      assert ds == [u, h, u, l] + rest;
      UmStar();
      hi, lo := ds[0], ds[1];
      assert ds == [hi, lo, u, l] + rest;
      Drop();
      assert ds == [lo, u, l] + rest;
      ToR();
    }

    /** `m/mmod`: ( ud u -- rem udquot ) exact for every non-zero divisor. */
    method MSlashMMod()
      requires |ds| >= 3
      modifies this
      ensures rs == old(rs) && |ds| == old(|ds|) && ds[3..] == old(ds)[3..]
      ensures var u := old(ds)[0];
              u != 0 ==> Double(old(ds)[1], old(ds)[2]) == u * Double(ds[0], ds[1]) + ds[2] && ds[2] < u
    {
      ghost var u, h, l, rest := ds[0], ds[1], ds[2], ds[3..];
      hide Double;
      assert ds == [u, h, l] + rest;
      ghost var qh, rh := DivideHigh(u, h, l, rest);
      UmSlashMod();
      ghost var ql, r := ds[0], ds[1];
      assert ds == [ql, r] + rest;
      RFrom();
      assert ds == [qh, ql, r] + rest && rs == old(rs);
      if u != 0 {
        LongDivision(h, l, u, qh, rh, ql, r);
      }
    }

    /** The high cell divided; the quotient is put away, and the remainder stays above the low cell. */
    method DivideHigh(ghost u: Word, ghost h: Word, ghost l: Word, ghost rest: seq<Word>) returns (ghost qh: Word, ghost rh: Word)
      requires ds == [u, h, l] + rest
      modifies this
      ensures ds == [u, rh, l] + rest && rs == [qh] + old(rs) && (u != 0 ==> h == u * qh + rh && rh < u)
    {
      ToR();
      assert ds == [h, l] + rest;
      Literal(0);
      assert ds == [0, h, l] + rest && rs == [u] + old(rs);
      RFetch();
      assert ds == [u, 0, h, l] + rest;
      ZeroDouble(h);
      hide Double;
      UmSlashMod();
      qh, rh := ds[0], ds[1];
      assert ds == [qh, rh, l] + rest;
      PutAway(u, qh, rh, [l] + rest, old(rs));
    }

    method PutAway(ghost u: Word, ghost qh: Word, ghost rh: Word, ghost rest: seq<Word>, ghost rs0: seq<Word>)
      requires ds == [qh, rh] + rest && rs == [u] + rs0
      modifies this
      ensures ds == [u, rh] + rest && rs == [qh] + rs0
    {
      RFrom();
      assert ds == [u, qh, rh] + rest;
      Swap();
      assert ds == [qh, u, rh] + rest;
      ToR();
    }

    /** `sm/rem`: ( d n -- rem quot ) symmetric division. The quotient is exact modulo 2^32 whenever
        the size of d is below 2^32 times that of n, and exact whenever it fits a cell. */
    method SmSlashRem()
      requires |ds| >= 3
      modifies this
      ensures rs == old(rs) && |ds| == old(|ds|) - 1 && ds[2..] == old(ds)[3..]
      ensures var n, d := Signed(old(ds)[0]), SignedDouble(old(ds)[1], old(ds)[2]);
              && (n != 0 && AbsInt(d) < TWO32 * AbsInt(n)
                  ==> ds[0] == Wrap(TruncatedQuotient(d, n)) && Signed(ds[1]) == TruncatedRemainder(d, n))
              && (n != 0 && -MSB <= TruncatedQuotient(d, n) < MSB
                  ==> Signed(ds[0]) == TruncatedQuotient(d, n) && Signed(ds[1]) == TruncatedRemainder(d, n))
    {
      ghost var n, dh, dl, rest, rs0 := ds[0], ds[1], ds[2], ds[3..], rs;
      assert ds == [n, dh, dl] + rest;
      Over();
      ToR();
      assert ds == [n, dh, dl] + rest && rs == [dh] + rs0;
      ghost var ah, al := DivideSizes(n, dh, dl, rest);
      ghost var q, r := ds[0], ds[1];
      assert ds == [q, r] + rest && rs == [Xor(dh, n), dh] + rs0;
      ghost var q1, r1 := SymmetricSigns(q, r, Xor(dh, n), dh, rest, rs0);
      SymmetricDone(dh, dl, n, ah, al, q, r, q1, r1);
    }

    /** The sign of the quotient, and the dividend's for the remainder. */
    method SymmetricSigns(ghost q: Word, ghost r: Word, ghost x: Word, ghost dh: Word, ghost rest: seq<Word>, ghost rs0: seq<Word>)
      returns (ghost q1: Word, ghost r1: Word)
      requires ds == [q, r] + rest && rs == [x, dh] + rs0
      modifies this
      ensures ds == [q1, r1] + rest && rs == rs0
      ensures q1 == (if Neg(x) then Negated(q) else q) && r1 == if Neg(dh) then Negated(r) else r
    {
      RFrom();
      PlusMinus();
      q1 := ds[0];
      assert ds == [q1, r] + rest && rs == [dh] + rs0;
      Swap();
      RFrom();
      PlusMinus();
      r1 := ds[0];
      assert ds == [r1, q1] + rest && rs == rs0;
      Swap();
    }

    /** What both divisions do once they have saved the sign of the remainder: save the sign of the
        quotient and divide the sizes. */
    method DivideSizes(ghost n: Word, ghost dh: Word, ghost dl: Word, ghost rest: seq<Word>) returns (ghost ah: Word, ghost al: Word)
      requires ds == [n, dh, dl] + rest
      modifies this
      ensures |ds| == |rest| + 2 && ds[2..] == rest && rs == [Xor(dh, n)] + old(rs)
      ensures Double(ah, al) == AbsDouble(dh, dl)
      ensures var an := AbsInt(Signed(n)); ah < an ==> Double(ah, al) == an * ds[0] + ds[1] && ds[1] < an
    {
      hide Double, AbsDouble, Xor, AbsInt, Signed;
      ghost var rs0, x := rs, Xor(dh, n);
      SaveSign(n, dh, dl, rest);
      DAbs();
      ah, al := ds[0], ds[1];
      assert ds == [ah, al] + rest;
      RFrom();
      assert ds == [n, ah, al] + rest;
      Abs();
      assert ds == [AbsInt(Signed(n)), ah, al] + rest && rs == [x] + rs0;
      UmSlashMod();
    }

    method SaveSign(ghost n: Word, ghost dh: Word, ghost dl: Word, ghost rest: seq<Word>)
      requires ds == [n, dh, dl] + rest
      modifies this
      ensures ds == [dh, dl] + rest && rs == [n, Xor(dh, n)] + old(rs)
    {
      hide Xor;
      ghost var rs0, x := rs, Xor(dh, n);
      TwoDup();
      assert ds == [n, dh, n, dh, dl] + rest;
      XorWord();
      assert ds == [x, n, dh, dl] + rest;
      ToR();
      assert ds == [n, dh, dl] + rest;
      ToR();
    }

    /** `fm/mod`: ( d n -- rem quot ) floored division, exact under the same conditions. */
    method FmSlashMod()
      requires |ds| >= 3
      modifies this
      ensures rs == old(rs) && |ds| == old(|ds|) - 1 && ds[2..] == old(ds)[3..]
      ensures var n, d := Signed(old(ds)[0]), SignedDouble(old(ds)[1], old(ds)[2]);
              && (n != 0 && AbsInt(d) < TWO32 * AbsInt(n)
                  ==> ds[0] == Wrap(FloorQuotient(d, n)) && Signed(ds[1]) == FloorRemainder(d, n))
              && (n != 0 && -MSB <= FloorQuotient(d, n) < MSB
                  ==> Signed(ds[0]) == FloorQuotient(d, n) && Signed(ds[1]) == FloorRemainder(d, n))
    {
      ghost var n, dh, dl, rest, rs0 := ds[0], ds[1], ds[2], ds[3..], rs;
      assert ds == [n, dh, dl] + rest;
      Dup();
      ToR();
      assert ds == [n, dh, dl] + rest && rs == [n] + rs0;
      ghost var ah, al := DivideSizes(n, dh, dl, rest);
      ghost var q, r, x := ds[0], ds[1], Xor(dh, n);
      assert ds == [q, r] + rest && rs == [x, n] + rs0;
      ghost var q1, r1 := SignResults(n, x, q, r, rest, rs0);
      FloorAdjust(n, x, q1, r1, rest, rs0);
      FlooredDone(dh, dl, n, ah, al, q, r, q1, r1, ds[0], ds[1]);
    }

    /** The middle of `fm/mod`: quotient and remainder get the sign of the divisor first. */
    method SignResults(ghost n: Word, ghost x: Word, ghost q: Word, ghost r: Word, ghost rest: seq<Word>, ghost rs0: seq<Word>)
      returns (ghost q1: Word, ghost r1: Word)
      requires ds == [q, r] + rest && rs == [x, n] + rs0
      modifies this
      ensures ds == [r1, x, q1] + rest && rs == [n] + rs0
      ensures q1 == (if Neg(x) then Negated(q) else q) && r1 == if Neg(n) then Negated(r) else r
    {
      q1 := Resigned(x, q, [r] + rest, [n] + rs0);
      assert ds == [q1, r] + rest;
      RFrom();
      assert ds == [x, q1, r] + rest;
      Rot();
      assert ds == [r, x, q1] + rest && rs == [n] + rs0;
      r1 := Resigned(n, r, [x, q1] + rest, rs0);
    }

    /** The top of the stack gets the sign of what is put away. */
    method Resigned(ghost x: Word, ghost q: Word, ghost rest: seq<Word>, ghost rs0: seq<Word>) returns (ghost q1: Word)
      requires ds == [q] + rest && rs == [x] + rs0
      modifies this`ds
      ensures ds == [q1] + rest && q1 == if Neg(x) then Negated(q) else q
    {
      hide Neg, Negated;
      RFetch();
      assert ds == [x, q] + rest;
      PlusMinus();
      q1 := ds[0];
    }

    /** The remainder if the signs differ, or zero, above the remainder. */
    method RemainderUnder(ghost x: Word, ghost q1: Word, ghost r1: Word, ghost rest: seq<Word>)
      requires ds == [r1, x, q1] + rest
      modifies this
      ensures ds == [if Neg(x) then r1 else 0, r1, q1] + rest && rs == old(rs)
    {
      hide And, Neg;
      Swap();
      assert ds == [x, r1, q1] + rest;
      ZeroLess();
      assert ds == [Truth(Neg(x)), r1, q1] + rest;
      Over();
      assert ds == [r1, Truth(Neg(x)), r1, q1] + rest;
      AndWord();
      AndFlag(Neg(x), r1);
      AndSwaps(Truth(Neg(x)), r1);
    }

    /** The end of `fm/mod`: with different signs and a remainder, one down. */
    method FloorAdjust(ghost n: Word, ghost x: Word, ghost q1: Word, ghost r1: Word, ghost rest: seq<Word>,
                       ghost rs0: seq<Word>)
      requires ds == [r1, x, q1] + rest && rs == [n] + rs0
      modifies this
      ensures rs == rs0 && |ds| == |rest| + 2 && ds[2..] == rest
      ensures ds == (if Neg(x) && r1 != 0 then [Minus(q1, 1), Plus(Negated(r1), n)] else [q1, r1]) + rest
    {
      RemainderUnder(x, q1, r1, rest);
      var flag := Flag();
      assert ds == [r1, q1] + rest;
      if flag != 0 {
        Negate();
        RFrom();
        assert ds == [n, Negated(r1), q1] + rest && rs == rs0;
        Add();
        Swap();
        assert ds == [q1, Plus(Negated(r1), n)] + rest;
        OneMinus();
      } else {
        RFrom();
        Drop();
        Swap();
        assert ds == [q1, r1] + rest && rs == rs0;
      }
    }
  }

  function ShiftLeft(x: Word): Word {
    Wrap(2 * x)
  }

  // The arithmetic of the primitives

  /** A product from its half cells. */
  lemma {:induction false} Halves(x: Word, y: Word, a: int, b: int, c: int, d: int)
    requires a == x / 0x1_0000 && b == x % 0x1_0000 && c == y / 0x1_0000 && d == y % 0x1_0000
    ensures 0 <= a * c < TWO32 && 0 <= b * d < TWO32 && 0 <= a * d < TWO32 && 0 <= b * c < TWO32
    ensures x * y == (a * c) * TWO32 + (a * d) * 0x1_0000 + (b * c) * 0x1_0000 + b * d
    ensures x * y < TWO64
  {
    BoundedProduct(a, c, 0xFFFF);
    BoundedProduct(b, d, 0xFFFF);
    BoundedProduct(a, d, 0xFFFF);
    BoundedProduct(b, c, 0xFFFF);
    BoundedProduct(x, y, TWO32 - 1);
    HalvesProduct(a, b, c, d);
    assert x == a * 0x1_0000 + b && y == c * 0x1_0000 + d;
  }

  lemma {:induction false} BoundedProduct(a: int, b: int, m: int)
    requires 0 <= a <= m && 0 <= b <= m
    ensures 0 <= a * b <= m * m
  {
    AtLeast(a, m, b);
    AtLeast(m, m, a);
    AtLeast(a, b, 0);
  }

  lemma {:induction false} HalvesProduct(a: int, b: int, c: int, d: int)
    ensures (a * 0x1_0000 + b) * (c * 0x1_0000 + d)
            == (a * c) * TWO32 + (a * d) * 0x1_0000 + (b * c) * 0x1_0000 + b * d
  {
  }

  lemma {:induction false} ShiftedParts(x: Word)
    ensures x * 0x1_0000 == (x / 0x1_0000) * TWO32 + Wrap(x * 0x1_0000)
  {
    var h, l := x / 0x1_0000, x % 0x1_0000;
    assert x * 0x1_0000 == h * TWO32 + l * 0x1_0000;
    WrapIs(x * 0x1_0000, l * 0x1_0000, h);
  }

  /** With i steps to go: `low` are the unread bits of the dividend, above the quotient bits `q`;
      what has been read, `num`, is divisor times q plus the partial remainder. */
  ghost predicate PartDivided(i: nat, div: Word, ppms: Word, ppls: Word, all: int, num: int, low: int, q: int)
    requires i <= 32
  {
    && 0 <= low < Pow2(i) && 0 <= q < Pow2(32 - i) && ppls == low * Pow2(32 - i) + q
    && ppms < div && num == div * q + ppms && all == Join(num, Pow2(i), low)
  }

  function StepBit(div: Word, ppms: Word, ppls: Word): int {
    if Neg(ppms) || Wrap(2 * ppms) + (if Neg(ppls) then 1 else 0) >= div then 1 else 0
  }

  function NextParts(i: nat, div: Word, ppms: Word, ppls: Word, num: int, low: int, q: int): (int, int, int)
    requires i > 0
  {
    var b := if Neg(ppls) then 1 else 0;
    (2 * num + b, low - Pow2(i - 1) * b, 2 * q + StepBit(div, ppms, ppls))
  }

  lemma {:induction false} DividingStep(i: nat, div: Word, ppms: Word, ppls: Word, all: int, num: int, low: int, q: int,
                                        ppms1: Word, ppls1: Word)
    requires 0 < i <= 32 && PartDivided(i, div, ppms, ppls, all, num, low, q)
    requires var b := if Neg(ppls) then 1 else 0;
             var bit := StepBit(div, ppms, ppls);
             && ppls1 == Wrap(2 * ppls) + bit
             && ppms1 == (if bit == 1 then Wrap(Wrap(2 * ppms) + b - div) else Wrap(2 * ppms) + b)
    ensures var (num1, low1, q1) := NextParts(i, div, ppms, ppls, num, low, q);
            PartDivided(i - 1, div, ppms1, ppls1, all, num1, low1, q1)
  {
    var b, bit := if Neg(ppls) then 1 else 0, StepBit(div, ppms, ppls);
    var P, Q := Pow2(32 - i), Pow2(i - 1);
    Remainder(div, ppms, ppls, ppms1);
    Pow2Around(i);
    hide Pow2, StepBit, Join;
    TopBit(ppls, low, P, q, Q);
    DropBit(low, Q, b, P, q, Pow2(33 - i));
    WrapIs(2 * ppls, 2 * ppls - TWO32 * b, b);
    SameDividend(num, b, Q, low, Pow2(i));
    Distribute(div, q, bit);
  }

  lemma {:induction false} Distribute(div: int, q: int, bit: int)
    ensures div * (2 * q + bit) == 2 * (div * q) + div * bit
  {
  }

  /** One step doubles the partial remainder, takes in a bit, and subtracts the divisor if it can. */
  lemma {:induction false} Remainder(div: Word, ppms: Word, ppls: Word, ppms1: Word)
    requires ppms < div
    requires var b := if Neg(ppls) then 1 else 0;
             ppms1 == (if StepBit(div, ppms, ppls) == 1 then Wrap(Wrap(2 * ppms) + b - div) else Wrap(2 * ppms) + b)
    ensures var b := if Neg(ppls) then 1 else 0;
            ppms1 == 2 * ppms + b - div * StepBit(div, ppms, ppls) && ppms1 < div
            && (StepBit(div, ppms, ppls) == 0 || StepBit(div, ppms, ppls) == 1)
  {
    var b, top := if Neg(ppls) then 1 else 0, if Neg(ppms) then 1 else 0;
    WrapIs(2 * ppms, 2 * ppms - TWO32 * top, top);
    if StepBit(div, ppms, ppls) == 1 {
      WrapIs(Wrap(2 * ppms) + b - div, 2 * ppms + b - div, -top);
    }
  }

  lemma {:induction false} DivisionDone(div: Word, ppms: Word, ppls: Word, all: int, num: int, low: int, q: int)
    requires PartDivided(0, div, ppms, ppls, all, num, low, q)
    ensures all == div * ppls + ppms && ppms < div
  {
    assert Pow2(0) == 1;
    hide Pow2;
    assert low == 0 && ppls == q && all == num;
  }

  lemma {:induction false} DoubleSum(ms1: Word, ls1: Word, ms2: Word, ls2: Word, ms: Word, ls: Word)
    requires ls == Plus(ls1, ls2)
    requires ms == Plus(ms2, if Carry(ls1, ls2, ls) then Plus(ms1, 1) else ms1)
    ensures Double(ms, ls) == Wrap2(Double(ms1, ls1) + Double(ms2, ls2))
  {
    CarryIs(ls1, ls2);
    var c := if Carry(ls1, ls2, ls) then 1 else 0;
    WrapPlus(ms1 + 1, ms2);
    assert ms == Wrap(ms1 + ms2 + c);
    hide Carry;
    var k := (ms1 + ms2 + c) / TWO32;
    assert ms1 + ms2 + c == ms + TWO32 * k;
    Wrap2Is(Double(ms1, ls1) + Double(ms2, ls2), Double(ms, ls), k);
  }

  lemma {:induction false} Wrap2Is(x: int, r: int, k: int)
    requires x == r + TWO64 * k && 0 <= r < TWO64
    ensures Wrap2(x) == r
  {
  }

  lemma {:induction false} DoubleNegation(ms: Word, ls: Word, newms: Word, newls: Word)
    requires newls == Plus(Not(ls), 1)
    requires newms == if !Neg(newls) && Neg(Not(ls)) then Plus(Not(ms), 1) else Not(ms)
    ensures Double(newms, newls) == Wrap2(0 - Double(ms, ls))
  {
    WrapIs(Not(ls) + 1, if ls == 0 then 0 else TWO32 - ls, if ls == 0 then 1 else 0);
    WrapIs(Not(ms) + 1, if ms == 0 then 0 else TWO32 - ms, if ms == 0 then 1 else 0);
    Wrap2Is(0 - Double(ms, ls), Double(newms, newls), if ms == 0 && ls == 0 then 0 else -1);
  }

  lemma {:induction false} SizeOfCell(n: Word)
    ensures AbsInt(Signed(n)) == if Neg(n) then Negated(n) else n
  {
    if Neg(n) {
      WrapIs(0 - n, TWO32 - n, -1);
    }
  }

  lemma {:induction false} SizeOfDouble(high: Word, low: Word)
    ensures AbsDouble(high, low) == if Neg(high) then Wrap2(0 - Double(high, low)) else Double(high, low)
  {
    if Neg(high) {
      Wrap2Is(0 - Double(high, low), TWO64 - Double(high, low), -1);
    }
  }

  lemma {:induction false} DoubleTimesCell(h: Word, l: Word, u: Word, hi: Word, lo: Word, hi2: Word, lo2: Word)
    requires Double(hi, lo) == h * u && Double(hi2, lo2) == l * u
    ensures Wrap2(Double(lo, 0) + Double(hi2, lo2)) == Wrap2(Double(h, l) * u)
  {
    Spread(h, l, u);
    Wrap2Multiple(Double(lo, 0) + Double(hi2, lo2), hi);
  }

  lemma {:induction false} Spread(h: int, l: int, u: int)
    ensures (h * TWO32 + l) * u == (h * u) * TWO32 + l * u
  {
  }

  lemma {:induction false} Wrap2Multiple(x: int, k: int)
    ensures Wrap2(x + TWO64 * k) == Wrap2(x)
  {
  }

  lemma {:induction false} ZeroDouble(x: Word)
    ensures Double(0, x) == x
  {
  }

  lemma {:induction false} LongDivision(h: Word, l: Word, u: Word, qh: Word, rh: Word, ql: Word, r: Word)
    requires h == u * qh + rh && rh < u && Double(rh, l) == u * ql + r
    ensures Double(h, l) == u * Double(qh, ql) + r
  {
    assert u * Double(qh, ql) == (u * qh) * TWO32 + u * ql;
  }

  /** A size is below 2^32 times the divisor's exactly if its high cell is below the divisor. */
  lemma {:induction false} HighBelow(ah: Word, al: Word, an: Word)
    ensures ah < an <==> Double(ah, al) < TWO32 * an
  {
  }

  lemma {:induction false} SymmetricDone(dh: Word, dl: Word, n: Word, ah: Word, al: Word, q: Word, r: Word, q1: Word, r1: Word)
    requires Double(ah, al) == AbsDouble(dh, dl)
    requires var an := AbsInt(Signed(n)); ah < an ==> Double(ah, al) == an * q + r && r < an
    requires q1 == (if Neg(Xor(dh, n)) then Negated(q) else q) && r1 == if Neg(dh) then Negated(r) else r
    ensures var k, d := Signed(n), SignedDouble(dh, dl);
            && (k != 0 && AbsInt(d) < TWO32 * AbsInt(k)
                ==> q1 == Wrap(TruncatedQuotient(d, k)) && Signed(r1) == TruncatedRemainder(d, k))
            && (k != 0 && -MSB <= TruncatedQuotient(d, k) < MSB
                ==> Signed(q1) == TruncatedQuotient(d, k) && Signed(r1) == TruncatedRemainder(d, k))
  {
    hide *;
    var k, d := Signed(n), SignedDouble(dh, dl);
    XorSign(dh, n);
    SizesAre(dh, dl, n, ah, al);
    if k != 0 {
      if -MSB <= TruncatedQuotient(d, k) < MSB {
        FittingTruncated(d, k);
      }
      if AbsInt(d) < TWO32 * AbsInt(k) {
        SymmetricOfSizes(dh, dl, n, q, r);
      }
    }
  }

  lemma {:induction false} SizesAre(dh: Word, dl: Word, n: Word, ah: Word, al: Word)
    requires Double(ah, al) == AbsDouble(dh, dl)
    ensures AbsDouble(dh, dl) == AbsInt(SignedDouble(dh, dl)) && (n != 0 <==> Signed(n) != 0)
    ensures ah < AbsInt(Signed(n)) <==> AbsInt(SignedDouble(dh, dl)) < TWO32 * AbsInt(Signed(n))
  {
    SizeOfCell(n);
    HighBelow(ah, al, AbsInt(Signed(n)));
  }

  lemma {:induction false} AdjustedAre(q1: Word, r1: Word, n: Word)
    ensures Minus(q1, 1) == Wrap(q1 - 1) && Plus(Negated(r1), n) == Wrap(n - r1)
  {
    WrapPlus(0 - r1, n);
  }

  lemma {:induction false} FlooredDone(dh: Word, dl: Word, n: Word, ah: Word, al: Word, q: Word, r: Word, q1: Word, r1: Word,
                                       q2: Word, r2: Word)
    requires Double(ah, al) == AbsDouble(dh, dl)
    requires var an := AbsInt(Signed(n)); ah < an ==> Double(ah, al) == an * q + r && r < an
    requires q1 == (if Neg(Xor(dh, n)) then Negated(q) else q) && r1 == if Neg(n) then Negated(r) else r
    requires if Neg(Xor(dh, n)) && r1 != 0 then q2 == Minus(q1, 1) && r2 == Plus(Negated(r1), n) else q2 == q1 && r2 == r1
    ensures var k, d := Signed(n), SignedDouble(dh, dl);
            && (k != 0 && AbsInt(d) < TWO32 * AbsInt(k)
                ==> q2 == Wrap(FloorQuotient(d, k)) && Signed(r2) == FloorRemainder(d, k))
            && (k != 0 && -MSB <= FloorQuotient(d, k) < MSB
                ==> Signed(q2) == FloorQuotient(d, k) && Signed(r2) == FloorRemainder(d, k))
  {
    hide *;
    var k, d := Signed(n), SignedDouble(dh, dl);
    XorSign(dh, n);
    SizesAre(dh, dl, n, ah, al);
    AdjustedAre(q1, r1, n);
    if k != 0 {
      if -MSB <= FloorQuotient(d, k) < MSB {
        FittingFloor(d, k);
      }
      if AbsInt(d) < TWO32 * AbsInt(k) {
        FlooredOfSizes(dh, dl, n, q, r);
      }
    }
  }
}
