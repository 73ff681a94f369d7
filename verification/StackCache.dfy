/** A 16-entry circular stack cache and the part of the stack it has spilled to memory. */
module StackCache {
  import opened Word32
  import opened Registers
  import opened MainMemory

  const SIZE := 16

  type Slot = i: int | 0 <= i < 16

  function Inc(i: Slot): Slot {
    if i == SIZE - 1 then 0 else i + 1
  }

  function Dec(i: Slot): Slot {
    if i == 0 then SIZE - 1 else i - 1
  }

  /** The buffer with its top, overflow and underflow markers and the external pointer. */
  datatype Stk = Stk(buf: seq<Word>, top: Slot, over: Slot, under: Slot, ext: Word) {

    predicate Valid() {
      |buf| == SIZE && under == (if over < 12 then over + 4 else over - 12)
    }

    /** The buffer index of the entry `k` below the top. */
    function At(k: int): Slot
      requires 0 <= k <= SIZE
    {
      if k <= top then top - k else top + SIZE - k
    }

    function Get(k: int): Word
      requires Valid() && 0 <= k < SIZE
    {
      buf[At(k)]
    }

    function Put(k: int, v: Word): (s: Stk)
      requires Valid() && 0 <= k < SIZE
      ensures s.Valid()
    {
      this.(buf := buf[At(k) := v])
    }

    function PushTop(): Stk {
      this.(top := Inc(top))
    }

    function PopTop(): Stk {
      this.(top := Dec(top))
    }

    /** The number of cached entries, over+1..top; the markers meet only when it is full. */
    function Count(): (n: int)
      ensures 1 <= n <= SIZE
      ensures n == SIZE <==> top == over
    {
      if top > over then top - over else top + SIZE - over
    }

    /** The topmost `n` entries of the buffer, top first. */
    function Cached(n: nat): (s: seq<Word>)
      requires Valid() && n <= SIZE
      ensures |s| == n
    {
      seq(n, i requires 0 <= i < n => Get(i))
    }
  }

  /** What an instruction does to a stack pointer. */
  function StackMove(s: Stk, op: StackOp): Stk {
    match op
    case Keep => s
    case Push => s.PushTop()
    case Pop => s.PopTop()
  }

  /** The memory reserved for the spilled part: `cap` cells below address `base`. */
  datatype Area = Area(base: int, cap: nat) {
    predicate Valid(m: Main) {
      && m.Valid() && base % 4 == 0 && 0 <= base - 4 * cap && base < TWO32
      && forall a: Word | base - 4 * cap <= a < base :: m.Covers(a)
    }

    predicate Contains(a: Word) {
      base - 4 * cap <= a < base
    }
  }

  /** The number of spilled entries. */
  function Depth(s: Stk, area: Area): int {
    (area.base - s.ext) / 4
  }

  /** The external pointer lies on a cell of the area. */
  predicate Placed(s: Stk, area: Area) {
    && s.Valid()
    && s.ext == area.base - 4 * Depth(s, area) && 0 <= Depth(s, area) <= area.cap
  }

  /** `n` cells of memory from address `a` upward. */
  function Cells(m: Main, a: int, n: nat): (s: seq<Word>)
    requires m.Valid() && 0 <= a && a + 4 * n <= TWO32
    requires forall x: Word | a <= x < a + 4 * n :: m.Covers(x)
    ensures |s| == n
    ensures forall i | 0 <= i < n :: s[i] == m.Fetch(a + 4 * i)
    decreases n
  {
    if n == 0 then [] else [m.Fetch(a)] + Cells(m, a + 4, n - 1)
  }

  /** The whole stack, top first: the cached entries, then the spilled ones from the external
      pointer upward. */
  function Logical(s: Stk, m: Main, area: Area): (l: seq<Word>)
    requires area.Valid(m) && Placed(s, area)
    ensures |l| == s.Count() + Depth(s, area)
  {
    s.Cached(s.Count()) + Cells(m, s.ext, Depth(s, area))
  }

  lemma ReadIsLogical(s: Stk, m: Main, area: Area, k: int)
    requires area.Valid(m) && Placed(s, area) && 0 <= k < s.Count() && k < SIZE
    ensures s.Get(k) == Logical(s, m, area)[k]
  {
  }

  // The cached entries alone

  lemma PushCached(s: Stk)
    requires s.Valid() && s.Count() < SIZE
    ensures s.PushTop().Count() == s.Count() + 1
    ensures s.PushTop().Cached(s.Count() + 1) == [s.PushTop().Get(0)] + s.Cached(s.Count())
  {
    var n := s.Count();
    forall i | 0 <= i < n
      ensures s.PushTop().Get(i + 1) == s.Get(i)
    {
      assert s.PushTop().At(i + 1) == s.At(i);
    }
  }

  lemma PopCached(s: Stk)
    requires s.Valid() && s.Count() > 1
    ensures s.PopTop().Count() == s.Count() - 1
    ensures s.PopTop().Cached(s.Count() - 1) == s.Cached(s.Count())[1..]
  {
    var n := s.Count();
    forall i | 0 <= i < n - 1
      ensures s.PopTop().Get(i) == s.Get(i + 1)
    {
      assert s.PopTop().At(i) == s.At(i + 1);
    }
  }

  lemma PutCached(s: Stk, k: int, v: Word)
    requires s.Valid() && 0 <= k < s.Count() && k < SIZE
    ensures s.Put(k, v).Count() == s.Count() && s.Put(k, v).Cached(s.Count()) == s.Cached(s.Count())[k := v]
  {
    forall i | 0 <= i < s.Count()
      ensures s.Put(k, v).Get(i) == if i == k then v else s.Get(i)
    {
    }
  }

  /** Of a full buffer the oldest entry is the one above the top. */
  lemma FullCached(s: Stk)
    requires s.Valid()
    ensures s.Cached(16) == s.Cached(15) + [s.buf[Inc(s.top)]]
  {
    assert s.At(15) == Inc(s.top);
  }

  /** Moving the top up exposes one more entry, whatever the buffer held there. */
  lemma PushIsLogical(s: Stk, m: Main, area: Area)
    requires area.Valid(m) && Placed(s, area) && s.Count() < SIZE
    ensures Placed(s.PushTop(), area) && s.PushTop().Count() == s.Count() + 1
    ensures Logical(s.PushTop(), m, area) == [s.PushTop().Get(0)] + Logical(s, m, area)
  {
    PushCached(s);
  }

  lemma PopIsLogical(s: Stk, m: Main, area: Area)
    requires area.Valid(m) && Placed(s, area) && s.Count() > 1
    ensures Placed(s.PopTop(), area) && s.PopTop().Count() == s.Count() - 1
    ensures Logical(s.PopTop(), m, area) == Logical(s, m, area)[1..]
  {
    PopCached(s);
  }

  lemma WriteIsLogical(s: Stk, m: Main, area: Area, k: int, v: Word)
    requires area.Valid(m) && Placed(s, area) && 0 <= k < s.Count() && k < SIZE
    ensures Placed(s.Put(k, v), area) && s.Put(k, v).Count() == s.Count()
    ensures Logical(s.Put(k, v), m, area) == Logical(s, m, area)[k := v]
  {
    PutCached(s, k, v);
  }

  /** The stack after both spill cycles: the overflow marker steps over the oldest entry, which
      goes to the cell below the external pointer. */
  function Spilled(s: Stk): Stk
    requires s.Valid() && s.ext >= 4
  {
    s.(over := Inc(s.over), under := Inc(s.under), ext := s.ext - 4)
  }

  /** Memories of the same extent have the same areas. */
  lemma AreaKept(area: Area, m: Main, m1: Main)
    requires area.Valid(m) && m1.Valid() && m1.lowtop == m.lowtop && m1.highbottom == m.highbottom
    ensures area.Valid(m1)
  {
    forall a: Word | area.base - 4 * area.cap <= a < area.base
      ensures m1.Covers(a)
    {
      assert m.Covers(a);
    }
  }

  /** Cells that a store does not touch. */
  lemma {:induction false} CellsKept(m: Main, a: int, n: nat, x: Word, v: Word, m1: Main)
    requires m.Valid() && 0 <= a && a + 4 * n < TWO32 && a % 4 == 0 && m.Covers(x) && m1 == m.Store(x, v)
    requires forall y: Word | a <= y < a + 4 * n :: m.Covers(y) && m1.Covers(y)
    requires x < a || x >= a + 4 * n
    ensures Cells(m1, a, n) == Cells(m, a, n)
    decreases n
  {
    hide Main.Store, Main.Fetch;
    if n > 0 {
      FetchStore(m, x, v, a);
      CellsKept(m, a + 4, n - 1, x, v, m1);
    }
  }

  lemma SpillKeepsLogical(s: Stk, m: Main, area: Area)
    requires area.Valid(m) && Placed(s, area) && s.top == s.over && Depth(s, area) < area.cap
    ensures s.ext >= 4 && m.Covers(s.ext - 4) && area.Contains(s.ext - 4)
    ensures Placed(Spilled(s), area) && Spilled(s).Count() == SIZE - 1
    ensures area.Valid(m.Store(s.ext - 4, s.buf[Inc(s.top)]))
    ensures Logical(Spilled(s), m.Store(s.ext - 4, s.buf[Inc(s.top)]), area) == Logical(s, m, area)
  {
    hide Main.Store, Main.Fetch;
    var n := Depth(s, area);
    assert Depth(Spilled(s), area) == n + 1;
    var v := s.buf[Inc(s.top)];
    var m1 := m.Store(s.ext - 4, v);
    AreaKept(area, m, m1);
    CellsKept(m, s.ext, n, s.ext - 4, v, m1);
    FetchStore(m, s.ext - 4, v, s.ext - 4);
    assert Cells(m1, s.ext - 4, n + 1) == [v] + Cells(m, s.ext, n);
    SpillCached(s);
  }

  lemma SpillCached(s: Stk)
    requires s.Valid() && s.top == s.over && s.ext >= 4
    ensures s.Cached(16) == Spilled(s).Cached(15) + [s.buf[Inc(s.top)]]
  {
    FullCached(s);
    assert Spilled(s).Cached(15) == s.Cached(15);
  }

  /** The stack after both fill cycles and their write-back: the spilled entry nearest the
      buffer comes back below the four that were left. */
  function Filled(s: Stk, v: Word): Stk
    requires s.Valid() && s.ext + 4 < TWO32
  {
    s.(over := Dec(s.over), under := Dec(s.under), ext := s.ext + 4, buf := s.buf[s.At(4) := v])
  }

  lemma FillCached(s: Stk, v: Word)
    requires s.Valid() && s.top == s.under && s.ext + 4 < TWO32
    ensures s.Count() == 4 && Filled(s, v).Count() == 5
    ensures Filled(s, v).Cached(5) == s.Cached(4) + [v]
  {
  }

  lemma FillKeepsLogical(s: Stk, m: Main, area: Area)
    requires area.Valid(m) && Placed(s, area) && s.top == s.under && Depth(s, area) > 0
    ensures m.Covers(s.ext) && s.ext + 4 < TWO32
    ensures Placed(Filled(s, m.Fetch(s.ext)), area) && Filled(s, m.Fetch(s.ext)).Count() == 5
    ensures Logical(Filled(s, m.Fetch(s.ext)), m, area) == Logical(s, m, area)
  {
    hide Main.Fetch;
    var n := Depth(s, area);
    var f := Filled(s, m.Fetch(s.ext));
    assert Depth(f, area) == n - 1;
    FillCached(s, m.Fetch(s.ext));
    assert Cells(m, s.ext, n) == [m.Fetch(s.ext)] + Cells(m, s.ext + 4, n - 1);
  }

  /** A store outside the area leaves the stack as it is. */
  lemma StoreKeepsLogical(s: Stk, m: Main, area: Area, a: Word, v: Word)
    requires area.Valid(m) && Placed(s, area) && m.Covers(a) && !area.Contains(a)
    ensures area.Valid(m.Store(a, v)) && Logical(s, m.Store(a, v), area) == Logical(s, m, area)
  {
    hide Main.Store, Main.Fetch;
    AreaKept(area, m, m.Store(a, v));
    CellsKept(m, s.ext, Depth(s, area), a, v, m.Store(a, v));
  }
}
