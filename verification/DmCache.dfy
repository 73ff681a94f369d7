/** The direct-mapped cache simulator: whole lines are filled. */
module DmCache {
  import opened Word32
  import opened CacheGeometry

  /** A trace word: two flag bits above a cell address. */
  predicate Instr(t: Word) {
    t < 0x8000_0000
  }

  predicate Read(t: Word) {
    t % 0x8000_0000 < 0x4000_0000
  }

  type Address = x: nat | x < 0x4000_0000

  function Addr(t: Word): Address {
    t % 0x4000_0000
  }

  datatype Policy = InstructionsOnly | AlwaysAlloc | MissAlloc | NeverAlloc

  datatype Stats = Stats(cpucycle: nat, cachestall: nat, miss: nat, externalread: nat, externalwrite: nat)

  const NOSTATS := Stats(0, 0, 0, 0, 0)

  datatype Dm = Dm(tagram: seq<Word>, valid: seq<bool>, stats: Stats) {
    predicate Fits(g: Geo) {
      |tagram| == |valid| == g.Lines()
    }
  }

  predicate Hit(g: Geo, c: Dm, x: Address)
    requires c.Fits(g)
  {
    c.valid[g.Index(x)] && c.tagram[g.Index(x)] == g.Tag(x)
  }

  function Cached(g: Geo, c: Dm, x: Address): (c': Dm)
    requires c.Fits(g)
    ensures c'.Fits(g) && c'.stats == c.stats
  {
    c.(tagram := c.tagram[g.Index(x) := g.Tag(x)], valid := c.valid[g.Index(x) := true])
  }

  /** Which accesses allocate a line, in a cache that hits or misses. */
  predicate Allocates(p: Policy, t: Word, hit: bool) {
    match p
    case InstructionsOnly => Instr(t) && !hit
    case AlwaysAlloc => !hit || !Read(t)
    case MissAlloc => !hit
    case NeverAlloc => !hit && Read(t)
  }

  /** Which accesses count as misses. */
  predicate Misses(p: Policy, t: Word, hit: bool) {
    !hit || (p.InstructionsOnly? && !Instr(t))
  }

  function Count(g: Geo, p: Policy, t: Word, hit: bool, s: Stats): (s': Stats)
    ensures s'.miss == s.miss + if Misses(p, t, hit) then 1 else 0
  {
    var l := g.Linesize();
    var s1 := s.(cpucycle := s.cpucycle + 1, miss := s.miss + if Misses(p, t, hit) then 1 else 0);
    match p
    case InstructionsOnly =>
      if Instr(t) then s1.(externalread := s.externalread + if !hit && Read(t) then l else 0)
      else if Read(t) then s1.(externalread := s.externalread + 1)
      else s1.(externalwrite := s.externalwrite + 1)
    case AlwaysAlloc =>
      if Read(t) then s1.(externalread := s.externalread + if !hit then l else 0)
      else s1.(externalwrite := s.externalwrite + 1, externalread := s.externalread + (l - 1))
    case MissAlloc =>
      if Read(t) then s1.(externalread := s.externalread + if !hit then l else 0)
      else s1.(externalwrite := s.externalwrite + 1, cachestall := s.cachestall + 1,
               externalread := s.externalread + if !hit then l - 1 else 0)
    case NeverAlloc =>
      if Read(t) then s1.(externalread := s.externalread + if !hit then l else 0)
      else s1.(externalwrite := s.externalwrite + 1)
  }

  function Filled(g: Geo, p: Policy, c: Dm, t: Word): (c': Dm)
    requires c.Fits(g)
    ensures c'.Fits(g) && c'.stats == c.stats
  {
    if Allocates(p, t, Hit(g, c, Addr(t))) then Cached(g, c, Addr(t)) else c
  }

  /** One access. */
  function Access(g: Geo, p: Policy, c: Dm, t: Word): (c': Dm)
    requires c.Fits(g)
    ensures c'.Fits(g)
  {
    Filled(g, p, c, t).(stats := Count(g, p, t, Hit(g, c, Addr(t)), c.stats))
  }

  function Simulate(g: Geo, p: Policy, c: Dm, ts: seq<Word>): (c': Dm)
    requires c.Fits(g)
    ensures c'.Fits(g)
    decreases |ts|
  {
    if ts == [] then c else Simulate(g, p, Access(g, p, c, ts[0]), ts[1..])
  }

  /** A cold run, and then the run that is measured. */
  function Report(g: Geo, p: Policy, c: Dm, cold: seq<Word>, ts: seq<Word>): (c': Dm)
    requires c.Fits(g)
    ensures c'.Fits(g)
  {
    Simulate(g, p, Simulate(g, p, c.(stats := NOSTATS), cold).(stats := NOSTATS), ts)
  }

  predicate Empty(c: Dm) {
    forall i | 0 <= i < |c.valid| :: !c.valid[i]
  }

  lemma {:induction false} HitCached(g: Geo, c: Dm, x: Address, y: Address)
    requires c.Fits(g)
    ensures Hit(g, Cached(g, c, x), y) <==> if g.Index(y) == g.Index(x) then SameLine(g, x, y) else Hit(g, c, y)
  {
  }

  lemma {:induction false} HitSameLine(g: Geo, c: Dm, x: Address, y: Address)
    requires c.Fits(g) && SameLine(g, x, y)
    ensures Hit(g, c, x) == Hit(g, c, y)
  {
  }

  /** Only tags and valid bits matter to a hit. */
  lemma {:induction false} HitStats(g: Geo, c: Dm, s: Stats, x: Address)
    requires c.Fits(g)
    ensures Hit(g, c.(stats := s), x) == Hit(g, c, x)
  {
  }

  /** What is in the cache after an access: the line itself if allocated or hit, and anything at
      another index that was there. */
  lemma {:induction false} HitAfter(g: Geo, p: Policy, c: Dm, t: Word, y: Address)
    requires c.Fits(g)
    ensures var x, hit := Addr(t), Hit(g, c, Addr(t));
            Hit(g, Access(g, p, c, t), y)
            <==> if Allocates(p, t, hit) && g.Index(y) == g.Index(x) then SameLine(g, x, y) else Hit(g, c, y)
  {
    hide Addr, Read, Instr, Cached;
    HitCached(g, c, Addr(t), y);
    HitStats(g, Filled(g, p, c, t), Access(g, p, c, t).stats, y);
  }

  // Twice the size

  /** Everything that the smaller cache has, the larger one has. */
  ghost predicate Included(g: Geo, a: Dm, b: Dm)
    requires a.Fits(g) && b.Fits(g.Doubled())
  {
    forall x: Address :: Hit(g, a, x) ==> Hit(g.Doubled(), b, x)
  }

  lemma {:induction false} AccessIncluded(g: Geo, p: Policy, a: Dm, b: Dm, t: Word)
    requires a.Fits(g) && b.Fits(g.Doubled()) && Included(g, a, b) && a.stats.miss >= b.stats.miss
    ensures Included(g, Access(g, p, a, t), Access(g.Doubled(), p, b, t))
    ensures Access(g, p, a, t).stats.miss >= Access(g.Doubled(), p, b, t).stats.miss
  {
    hide Addr, Read, Instr, Hit;
    var x := Addr(t);
    var hitA, hitB := Hit(g, a, x), Hit(g.Doubled(), b, x);
    assert hitA ==> hitB;
    forall y: Address | Hit(g, Access(g, p, a, t), y)
      ensures Hit(g.Doubled(), Access(g.Doubled(), p, b, t), y)
    {
      StillIncluded(g, p, a, b, t, y);
    }
  }

  lemma {:induction false} StillIncluded(g: Geo, p: Policy, a: Dm, b: Dm, t: Word, y: Address)
    requires a.Fits(g) && b.Fits(g.Doubled())
    requires Hit(g, a, Addr(t)) ==> Hit(g.Doubled(), b, Addr(t))
    requires Hit(g, a, y) ==> Hit(g.Doubled(), b, y)
    requires Hit(g, Access(g, p, a, t), y)
    ensures Hit(g.Doubled(), Access(g.Doubled(), p, b, t), y)
  {
    hide Addr, Read, Instr;
    HitAfter(g, p, a, t, y);
    HitAfter(g.Doubled(), p, b, t, y);
    DoubledParts(g, Addr(t), y);
    if SameLine(g, Addr(t), y) {
      HitSameLine(g.Doubled(), b, Addr(t), y);
      HitSameLine(g, a, Addr(t), y);
    }
    hide Hit, Access;
  }

  lemma {:induction false} SimulateIncluded(g: Geo, p: Policy, a: Dm, b: Dm, ts: seq<Word>)
    requires a.Fits(g) && b.Fits(g.Doubled()) && Included(g, a, b) && a.stats.miss >= b.stats.miss
    ensures Included(g, Simulate(g, p, a, ts), Simulate(g.Doubled(), p, b, ts))
    ensures Simulate(g, p, a, ts).stats.miss >= Simulate(g.Doubled(), p, b, ts).stats.miss
    decreases |ts|
  {
    hide Access, Included;
    if ts != [] {
      AccessIncluded(g, p, a, b, ts[0]);
      SimulateIncluded(g, p, Access(g, p, a, ts[0]), Access(g.Doubled(), p, b, ts[0]), ts[1..]);
    }
  }

  lemma {:induction false} EmptyIncluded(g: Geo, a: Dm, b: Dm)
    requires a.Fits(g) && b.Fits(g.Doubled()) && Empty(a)
    ensures Included(g, a, b)
  {
  }

  lemma {:induction false} IncludedStats(g: Geo, a: Dm, b: Dm, s: Stats)
    requires a.Fits(g) && b.Fits(g.Doubled()) && Included(g, a, b)
    ensures Included(g, a.(stats := s), b.(stats := s))
  {
    forall x: Address | Hit(g, a.(stats := s), x)
      ensures Hit(g.Doubled(), b.(stats := s), x)
    {
      HitStats(g, a, s, x);
      HitStats(g.Doubled(), b, s, x);
    }
  }

  /** Under every policy, whatever junk the tag RAMs hold to begin with, after every cold run and on
      every trace, the cache of twice the size has no more misses. */
  lemma {:induction false} DoublingNeverAddsMisses(g: Geo, p: Policy, a: Dm, b: Dm, cold: seq<Word>, ts: seq<Word>)
    requires a.Fits(g) && b.Fits(g.Doubled()) && Empty(a)
    ensures Report(g, p, a, cold, ts).stats.miss >= Report(g.Doubled(), p, b, cold, ts).stats.miss
  {
    EmptyIncluded(g, a, b);
    hide Included, Simulate;
    IncludedStats(g, a, b, NOSTATS);
    var a0, b0 := a.(stats := NOSTATS), b.(stats := NOSTATS);
    SimulateIncluded(g, p, a0, b0, cold);
    var a1, b1 := Simulate(g, p, a0, cold), Simulate(g.Doubled(), p, b0, cold);
    IncludedStats(g, a1, b1, NOSTATS);
    SimulateIncluded(g, p, a1.(stats := NOSTATS), b1.(stats := NOSTATS), ts);
  }
}
