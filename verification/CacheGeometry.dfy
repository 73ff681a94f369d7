/** The geometry of the direct-mapped cache simulators: how an address falls into a line of the
    cache, a cell of the line and a tag. Lines and caches are powers of two. */
module CacheGeometry {
  import opened Word32
  import opened Powers
  import opened Bits
  import opened Division

  /** 2^linebits cells in a line, 2^indexbits lines. */
  datatype Geo = Geo(linebits: nat, indexbits: nat) {
    function Linesize(): (r: int)
      ensures r >= 1
    {
      Pow2(linebits)
    }

    function Lines(): (r: int)
      ensures r >= 1
    {
      Pow2(indexbits)
    }

    function Size(): (r: int)
      ensures r >= 1
    {
      Pow2(linebits + indexbits)
    }

    function Doubled(): Geo {
      this.(indexbits := indexbits + 1)
    }

    /** The line an address falls in, the cell within the line, and the tag. */
    function Index(x: nat): (i: nat)
      ensures i < Lines()
    {
      IndexFits(x, linebits, indexbits);
      Over(Rest(x, Size()), Linesize())
    }

    function Subindex(x: nat): (i: nat)
      ensures i < Linesize()
    {
      Rest(x, Linesize())
    }

    function Tag(x: nat): nat {
      x - Rest(x, Size())
    }
  }

  function Over(x: nat, d: int): (q: nat)
    requires d >= 1
  {
    NotBelowZero(x, d);
    x / d
  }

  function Rest(x: nat, d: int): (r: nat)
    requires d >= 1
    ensures r < d && r <= x
  {
    NotBelowZero(x, d);
    x % d
  }

  lemma {:induction false} NotBelowZero(x: nat, d: int)
    requires d >= 1
    ensures x / d >= 0 && x % d <= x && x == d * (x / d) + x % d
  {
    if x / d <= -1 {
      AtLeast(d, -1, x / d);
    }
    AtLeast(d, x / d, 0);
  }

  lemma {:induction false} Divided(x: nat, d: int)
    requires d >= 1
    ensures x == d * Over(x, d) + Rest(x, d)
  {
  }

  lemma {:induction false} DividedAs(x: nat, d: int, q: nat, r: int)
    requires d >= 1 && x == d * q + r && 0 <= r < d
    ensures Over(x, d) == q && Rest(x, d) == r
  {
    QuotientIs(x, d, q, r);
  }

  lemma {:induction false} Below(l: int, n: int, m: int, r: int)
    requires 0 <= r < l && 0 <= m < n
    ensures 0 <= l * m + r < n * l
  {
    AtLeast(l, m, 0);
    AtLeast(l, n - 1, m);
  }

  lemma {:induction false} Regrouped(l: int, n: int, k: int, m: int, r: int)
    ensures l * (n * k + m) + r == (n * l) * k + (l * m + r)
  {
  }

  lemma {:induction false} Split(x: nat, l: int, n: int) returns (q: nat, k: nat, r: nat, m: nat)
    requires l >= 1 && n >= 1 && n * l >= 1
    ensures q == Over(x, l) && r == Rest(x, l) && k == Over(q, n) && m == Rest(q, n)
    ensures x == l * q + r && q == n * k + m && x == (n * l) * k + (l * m + r)
    ensures 0 <= l * m + r && Rest(x, n * l) == l * m + r && Over(l * m + r, l) == m
  {
    q, r := Over(x, l), Rest(x, l);
    k, m := Over(q, n), Rest(q, n);
    Divided(x, l);
    Divided(q, n);
    hide Over, Rest;
    Regrouped(l, n, k, m, r);
    Below(l, n, m, r);
    DividedAs(x, n * l, k, l * m + r);
    DividedAs(l * m + r, l, m, r);
  }

  lemma {:induction false} IndexFits(x: nat, linebits: nat, indexbits: nat)
    ensures Over(Rest(x, Pow2(linebits + indexbits)), Pow2(linebits)) < Pow2(indexbits)
  {
    Pow2Split(indexbits, linebits);
    var _, _, _, _ := Split(x, Pow2(linebits), Pow2(indexbits));
  }

  /** The parts of an address, by line number: index and tag are its remainder and quotient. */
  lemma {:induction false} Parts(g: Geo, x: nat) returns (q: nat, k: nat)
    ensures q == Over(x, g.Linesize()) && k == Over(q, g.Lines())
    ensures q == g.Lines() * k + g.Index(x)
    ensures x == g.Linesize() * q + g.Subindex(x)
    ensures x == g.Size() * k + Rest(x, g.Size()) && g.Tag(x) == g.Size() * k
    ensures x == g.Tag(x) + g.Linesize() * g.Index(x) + g.Subindex(x)
  {
    Pow2Split(g.indexbits, g.linebits);
    var l, n, s := g.Linesize(), g.Lines(), g.Size();
    assert n * l == s;
    var r, m;
    q, k, r, m := Split(x, l, n);
    assert g.Index(x) == m && g.Subindex(x) == r && g.Tag(x) == s * k by {
      assert Rest(x, s) == l * m + r;
    }
  }

  lemma {:induction false} GeoParts(g: Geo, x: nat)
    ensures g.Linesize() == Pow2(g.linebits) && g.Size() == Pow2(g.linebits + g.indexbits)
    ensures g.Size() == g.Lines() * g.Linesize()
    ensures g.Index(x) == Over(Rest(x, g.Size()), g.Linesize())
    ensures g.Subindex(x) == Rest(x, g.Linesize()) && g.Tag(x) == x - Rest(x, g.Size())
  {
    hide Rest, Over, Pow2;
    Pow2Split(g.indexbits, g.linebits);
  }

  lemma {:induction false} LineStart(g: Geo, x: nat, k: nat, i: nat)
    requires i < g.Lines() && x == g.Size() * k + g.Linesize() * i
    ensures g.Index(x) == i && g.Tag(x) == g.Size() * k && g.Subindex(x) == 0
  {
    hide *;
    var l, n, s := g.Linesize(), g.Lines(), g.Size();
    GeoParts(g, x);
    Below(l, n, i, 0);
    DividedAs(x, s, k, l * i);
    DividedAs(l * i, l, i, 0);
    Regrouped(l, n, k, i, 0);
    DividedAs(x, l, n * k + i, 0);
  }

  /** Addresses of one line: the same index and tag. */
  predicate SameLine(g: Geo, x: nat, y: nat) {
    g.Index(x) == g.Index(y) && g.Tag(x) == g.Tag(y)
  }

  /** An address is its index, its tag and its cell. */
  lemma {:induction false} SameCell(g: Geo, x: nat, y: nat)
    requires SameLine(g, x, y) && g.Subindex(x) == g.Subindex(y)
    ensures x == y
  {
    var _, _ := Parts(g, x);
    var _, _ := Parts(g, y);
  }

  lemma {:induction false} SameLineIs(g: Geo, x: nat, y: nat)
    ensures SameLine(g, x, y) <==> Over(x, g.Linesize()) == Over(y, g.Linesize())
  {
    var p, j := Parts(g, x);
    var q, k := Parts(g, y);
    var s, i, i' := g.Size(), g.Index(x), g.Index(y);
    assert SameLine(g, x, y) <==> i == i' && s * j == s * k;
    hide *;
    if s * j == s * k {
      Cancel(j, k, s);
    }
    SameNumber(g.Lines(), j, k, i, i');
  }

  lemma {:induction false} SameNumber(n: int, j: nat, k: nat, i: int, i': int)
    requires n >= 1 && 0 <= i < n && 0 <= i' < n
    ensures n * j + i == n * k + i' <==> i == i' && j == k
  {
    if j < k {
      AtLeast(n, k, j + 1);
    } else if k < j {
      AtLeast(n, j, k + 1);
    }
  }

  lemma {:induction false} Cancel(a: int, b: int, s: int)
    requires s >= 1 && s * a == s * b
    ensures a == b
  {
    if a < b {
      AtLeast(s, b, a + 1);
    } else if b < a {
      AtLeast(s, a, b + 1);
    }
  }

  /** Twice as many lines: the same lines, and addresses that share an index shared one before. */
  lemma {:induction false} DoubledParts(g: Geo, x: nat, y: nat)
    ensures SameLine(g.Doubled(), x, y) <==> SameLine(g, x, y)
    ensures g.Doubled().Index(x) == g.Doubled().Index(y) ==> g.Index(x) == g.Index(y)
  {
    SameLineIs(g, x, y);
    SameLineIs(g.Doubled(), x, y);
    HalvedIndex(g, x);
    HalvedIndex(g, y);
    assert g.Doubled().Linesize() == g.Linesize();
  }

  /** The smaller cache's index of an address, from the larger one's. */
  lemma {:induction false} HalvedIndex(g: Geo, x: nat)
    ensures g.Index(x) == Rest(g.Doubled().Index(x), g.Lines())
  {
    var q, k := Parts(g, x);
    var q', k' := Parts(g.Doubled(), x);
    var n, i, i' := g.Lines(), g.Index(x), g.Doubled().Index(x);
    assert g.Doubled().Lines() == 2 * n && g.Doubled().Linesize() == g.Linesize();
    hide *;
    Divided(i', n);
    var c, r := Over(i', n), Rest(i', n);
    HalvedNumber(n, k, i, k', c, r);
  }

  lemma {:induction false} HalvedNumber(n: int, k: nat, i: int, k': nat, c: nat, r: int)
    requires n >= 1 && n * k + i == (2 * n) * k' + (n * c + r) && 0 <= i < n && 0 <= r < n
    ensures i == r
  {
    assert n * (2 * k' + c) == (2 * n) * k' + n * c;
    SameNumber(n, k, 2 * k' + c, i, r);
  }

  // The masks of the programs

  /** The remainder by twice a number. */
  lemma {:induction false} RestOfHalf(x: nat, p: int)
    requires p >= 1
    ensures Rest(x, 2 * p) == 2 * Rest(x / 2, p) + x % 2
  {
    var c, r := Over(x / 2, p), Rest(x / 2, p);
    Divided(x / 2, p);
    hide *;
    assert (2 * p) * c == 2 * (p * c);
    DividedAs(x, 2 * p, c, 2 * r + x % 2);
  }

  /** Bits l up to s of a number, and all below. */
  lemma {:induction false} MaskBits(x: nat, l: nat, s: nat, n: nat)
    requires l <= s <= n
    ensures Pow2(l) <= Pow2(s)
    ensures AndBits(x, Pow2(s) - Pow2(l), n) == Rest(x, Pow2(s)) - Rest(x, Pow2(l))
  {
    hide *;
    Pow2Next(l);
    Pow2Next(s);
    if l > 0 {
      MaskBits(x / 2, l - 1, s - 1, n - 1);
      RestOfHalf(x, Pow2(s - 1));
      RestOfHalf(x, Pow2(l - 1));
      AndEven(x, Pow2(s - 1) - Pow2(l - 1), n);
    } else if s > 0 {
      MaskBits(x / 2, 0, s - 1, n - 1);
      Pow2Next(0);
      RestOfHalf(x, Pow2(s - 1));
      RestOfOne(x);
      RestOfOne(x / 2);
      AndOdd(x, Pow2(s - 1) - 1, n);
    } else {
      AndNothing(x, n);
    }
  }

  lemma {:induction false} Pow2Next(k: nat)
    ensures Pow2(k) == (if k == 0 then 1 else 2 * Pow2(k - 1)) && Pow2(k) >= 1
  {
  }

  lemma {:induction false} AndNothing(x: nat, n: nat)
    ensures AndBits(x, 0, n) == 0
  {
    if n > 0 {
      AndNothing(x / 2, n - 1);
    }
  }

  lemma {:induction false} AndEven(x: nat, k: nat, n: nat)
    requires n > 0
    ensures AndBits(x, 2 * k, n) == 2 * AndBits(x / 2, k, n - 1)
  {
  }

  lemma {:induction false} AndOdd(x: nat, k: nat, n: nat)
    requires n > 0
    ensures AndBits(x, 2 * k + 1, n) == 2 * AndBits(x / 2, k, n - 1) + x % 2
  {
  }

  lemma {:induction false} RestOfOne(x: nat)
    ensures Rest(x, 1) == 0
  {
  }

  lemma {:induction false} MaskDifference(l: nat, s: nat, n: nat)
    requires l <= s <= n
    ensures Pow2(l) <= Pow2(s)
    ensures XorBits(Pow2(s) - 1, Pow2(l) - 1, n) == Pow2(s) - Pow2(l)
  {
    if l > 0 {
      MaskDifference(l - 1, s - 1, n - 1);
    } else if s > 0 {
      MaskDifference(0, s - 1, n - 1);
    } else if n > 0 {
      MaskDifference(0, 0, n - 1);
    }
  }

  lemma {:induction false} MaskedCell(x: Word, l: nat, s: nat)
    requires l <= s <= 32
    ensures 1 <= Pow2(l) <= Pow2(s) <= TWO32
    ensures And(x, Pow2(s) - Pow2(l)) == Rest(x, Pow2(s)) - Rest(x, Pow2(l))
  {
    hide AndBits, Pow2, Rest;
    Pow2At32();
    MaskBits(x, s, 32, 32);
    MaskBits(x, l, s, 32);
  }

  lemma {:induction false} SetMask(l: nat, s: nat)
    requires l <= s <= 32
    ensures 1 <= Pow2(l) <= Pow2(s) <= TWO32
    ensures Xor(Pow2(s) - 1, Pow2(l) - 1) == Pow2(s) - Pow2(l)
  {
    hide XorBits, Pow2;
    Pow2At32();
    MaskDifference(s, 32, 32);
    MaskDifference(l, s, 32);
  }

  lemma {:induction false} WholeCell(x: Word)
    ensures Rest(x, Pow2(32)) == x && Rest(x, Pow2(0)) == 0 && Pow2(0) == 1 && Pow2(32) == TWO32
  {
    Pow2At32();
    RestOfOne(x);
    DividedAs(x, TWO32, 0, x);
  }

  lemma {:induction false} NotMask(s: nat)
    requires s <= 32
    ensures 1 <= Pow2(s) <= TWO32 && Not(Pow2(s) - 1) == TWO32 - Pow2(s)
  {
    hide Pow2;
    SetMask(s, s);
  }

  /** What the programs compute with masks: `tagmask` is ~(size-1), `submask` is linesize-1 and
      `setmask` is (size-1) ^ (linesize-1), whose bits are shifted down by `linebits`. */
  lemma {:induction false} Masked(g: Geo, x: Word)
    requires g.linebits + g.indexbits <= 32
    ensures g.Linesize() <= g.Size() <= TWO32
    ensures And(x, Not(g.Size() - 1)) == g.Tag(x)
    ensures And(x, g.Linesize() - 1) == g.Subindex(x)
    ensures Over(And(x, Xor(g.Size() - 1, g.Linesize() - 1)), g.Linesize()) == g.Index(x)
  {
    hide *;
    var s := g.linebits + g.indexbits;
    GeoParts(g, x);
    WholeCell(x);
    NotMask(s);
    SetMask(g.linebits, s);
    MaskedCell(x, g.linebits, s);
    MaskedCell(x, s, 32);
    MaskedCell(x, 0, g.linebits);
    IndexOfParts(g, x);
  }

  lemma {:induction false} IndexOfParts(g: Geo, x: nat)
    ensures Rest(x, g.Size()) >= Rest(x, g.Linesize())
    ensures Over(Rest(x, g.Size()) - Rest(x, g.Linesize()), g.Linesize()) == g.Index(x)
  {
    hide *;
    var q, k := Parts(g, x);
    GeoParts(g, x);
    AtLeast(g.Linesize(), g.Index(x), 0);
    DividedAs(Rest(x, g.Size()) - Rest(x, g.Linesize()), g.Linesize(), g.Index(x), 0);
  }
}
