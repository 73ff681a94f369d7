/** The direct-mapped cache simulator with sub-block placement: a line is allocated with one cell, and
    each cell has its own valid bit. A word of valid bits is the set of its bits. */
module SubCache {
  import opened Word32
  import opened Division
  import opened CacheGeometry
  import opened DmCache

  datatype SubPolicy = FetchesOnly | Always | OnMiss | OnMissV2 | Never | NeverV2

  datatype SubStats = SubStats(cpucycle: nat, miss: nat, externalread: nat, readupdate: nat, externalwrite: nat,
                               writeupdate: nat)

  const NOSUBSTATS := SubStats(0, 0, 0, 0, 0, 0)

  datatype Sub = Sub(tagram: seq<Word>, valid: seq<set<nat>>, stats: SubStats) {
    predicate Fits(g: Geo) {
      |tagram| == |valid| == g.Lines()
    }
  }

  predicate LineMiss(g: Geo, c: Sub, x: Address)
    requires c.Fits(g)
  {
    c.tagram[g.Index(x)] != g.Tag(x)
  }

  predicate SubMiss(g: Geo, c: Sub, x: Address)
    requires c.Fits(g)
  {
    g.Subindex(x) !in c.valid[g.Index(x)]
  }

  predicate CellHit(g: Geo, c: Sub, x: Address)
    requires c.Fits(g)
  {
    !LineMiss(g, c, x) && !SubMiss(g, c, x)
  }

  function AllocLine(g: Geo, c: Sub, x: Address): (c': Sub)
    requires c.Fits(g)
    ensures c'.Fits(g) && c'.stats == c.stats
  {
    c.(tagram := c.tagram[g.Index(x) := g.Tag(x)], valid := c.valid[g.Index(x) := {}])
  }

  function AddToLine(g: Geo, c: Sub, x: Address): (c': Sub)
    requires c.Fits(g)
    ensures c'.Fits(g) && c'.stats == c.stats
  {
    c.(valid := c.valid[g.Index(x) := c.valid[g.Index(x)] + {g.Subindex(x)}])
  }

  function Renewed(g: Geo, c: Sub, x: Address): (c': Sub)
    requires c.Fits(g)
    ensures c'.Fits(g) && c'.stats == c.stats
  {
    AddToLine(g, AllocLine(g, c, x), x)
  }

  /** A miss brings the cell in; a line miss empties the line first. */
  function Fetched(g: Geo, c: Sub, x: Address): (c': Sub)
    requires c.Fits(g)
    ensures c'.Fits(g) && c'.stats == c.stats
  {
    if LineMiss(g, c, x) then Renewed(g, c, x) else if SubMiss(g, c, x) then AddToLine(g, c, x) else c
  }

  function Placed(g: Geo, p: SubPolicy, c: Sub, t: Word): (c': Sub)
    requires c.Fits(g)
    ensures c'.Fits(g) && c'.stats == c.stats
  {
    var x := Addr(t);
    match p
    case FetchesOnly => if Instr(t) then Fetched(g, c, x) else c
    case Always => if Read(t) then Fetched(g, c, x) else Renewed(g, c, x)
    case OnMiss => Fetched(g, c, x)
    case OnMissV2 => Fetched(g, c, x)
    case Never =>
      if Read(t) then Fetched(g, c, x)
      else if !LineMiss(g, c, x) && SubMiss(g, c, x) then AddToLine(g, c, x)
      else c
    case NeverV2 => if Read(t) then Fetched(g, c, x) else c
  }

  predicate SubMisses(p: SubPolicy, t: Word, hit: bool) {
    !hit || (p.FetchesOnly? && !Instr(t))
  }

  function CountSub(p: SubPolicy, t: Word, linemiss: bool, submiss: bool, s: SubStats): (s': SubStats)
    ensures s'.miss == s.miss + if SubMisses(p, t, !linemiss && !submiss) then 1 else 0
  {
    var hit := !linemiss && !submiss;
    var s1 := s.(cpucycle := s.cpucycle + 1, miss := s.miss + if SubMisses(p, t, hit) then 1 else 0);
    var readupdate := s1.(readupdate := s.readupdate + 1);
    var writeupdate := s1.(writeupdate := s.writeupdate + 1);
    var externalwrite := s1.(externalwrite := s.externalwrite + 1);
    if p.FetchesOnly? then
      if Instr(t) then (if hit then s1 else readupdate)
      else if Read(t) then s1.(externalread := s.externalread + 1)
      else externalwrite
    else if Read(t) then
      if hit then s1 else readupdate
    else
      match p
      case FetchesOnly => s1
      case Always => externalwrite
      case OnMiss => writeupdate
      case OnMissV2 => if hit then externalwrite else writeupdate
      case Never => if linemiss then externalwrite else writeupdate
      case NeverV2 => if hit then writeupdate else externalwrite
  }

  /** One access. */
  function SubAccess(g: Geo, p: SubPolicy, c: Sub, t: Word): (c': Sub)
    requires c.Fits(g)
    ensures c'.Fits(g)
  {
    Placed(g, p, c, t).(stats := CountSub(p, t, LineMiss(g, c, Addr(t)), SubMiss(g, c, Addr(t)), c.stats))
  }

  function SubSimulate(g: Geo, p: SubPolicy, c: Sub, ts: seq<Word>): (c': Sub)
    requires c.Fits(g)
    ensures c'.Fits(g)
    decreases |ts|
  {
    if ts == [] then c else SubSimulate(g, p, SubAccess(g, p, c, ts[0]), ts[1..])
  }

  /** A cold run, and then the run that is measured. */
  function SubReport(g: Geo, p: SubPolicy, c: Sub, cold: seq<Word>, ts: seq<Word>): (c': Sub)
    requires c.Fits(g)
    ensures c'.Fits(g)
  {
    SubSimulate(g, p, SubSimulate(g, p, c.(stats := NOSUBSTATS), cold).(stats := NOSUBSTATS), ts)
  }

  predicate SubEmpty(c: Sub) {
    forall i | 0 <= i < |c.valid| :: c.valid[i] == {}
  }

  /** The same policy with whole lines. */
  function Whole(p: SubPolicy): Policy {
    match p
    case FetchesOnly => InstructionsOnly
    case Always => AlwaysAlloc
    case OnMiss => MissAlloc
    case OnMissV2 => MissAlloc
    case Never => NeverAlloc
    case NeverV2 => NeverAlloc
  }

  // Cells

  lemma {:induction false} HitRenewed(g: Geo, c: Sub, x: Address, y: Address)
    requires c.Fits(g)
    ensures CellHit(g, Renewed(g, c, x), y) <==> if g.Index(y) == g.Index(x) then y == x else CellHit(g, c, y)
    ensures !LineMiss(g, Renewed(g, c, x), y) <==> if g.Index(y) == g.Index(x) then SameLine(g, x, y) else !LineMiss(g, c, y)
  {
    hide Rest, Over;
    if g.Subindex(y) == g.Subindex(x) && SameLine(g, x, y) {
      SameCell(g, x, y);
    }
  }

  lemma {:induction false} HitAdded(g: Geo, c: Sub, x: Address, y: Address)
    requires c.Fits(g) && !LineMiss(g, c, x)
    ensures CellHit(g, AddToLine(g, c, x), y) <==> y == x || CellHit(g, c, y)
    ensures LineMiss(g, AddToLine(g, c, x), y) == LineMiss(g, c, y)
  {
    hide Rest, Over;
    if g.Subindex(y) == g.Subindex(x) && SameLine(g, x, y) {
      SameCell(g, x, y);
    }
  }

  /** A cell that hits after a fetch is the one fetched, or hit before and is in the same line or at
      another index. */
  lemma {:induction false} HitFetched(g: Geo, c: Sub, x: Address, y: Address)
    requires c.Fits(g)
    ensures CellHit(g, Fetched(g, c, x), x)
    ensures CellHit(g, Fetched(g, c, x), y) && y != x
            ==> CellHit(g, c, y) && (g.Index(y) == g.Index(x) ==> SameLine(g, x, y))
    ensures !LineMiss(g, Fetched(g, c, x), y) <==> if g.Index(y) == g.Index(x) then SameLine(g, x, y) else !LineMiss(g, c, y)
  {
    hide Rest, Over, Renewed, AddToLine;
    HitRenewed(g, c, x, x);
    HitRenewed(g, c, x, y);
    if !LineMiss(g, c, x) {
      HitAdded(g, c, x, x);
      HitAdded(g, c, x, y);
    }
  }

  lemma {:induction false} StatsDoNotMatter(g: Geo, c: Sub, s: SubStats, x: Address)
    requires c.Fits(g)
    ensures CellHit(g, c.(stats := s), x) == CellHit(g, c, x) && LineMiss(g, c.(stats := s), x) == LineMiss(g, c, x)
  {
  }

  // Sub-blocks against whole lines

  /** Every cell the one has, the other has. */
  ghost predicate Covered(g: Geo, s: Sub, w: Dm)
    requires s.Fits(g) && w.Fits(g)
  {
    forall x: Address :: CellHit(g, s, x) ==> Hit(g, w, x)
  }

  /** Every line whose tag the one has, even with no cell in it, the other has. */
  ghost predicate LinesCovered(g: Geo, s: Sub, w: Dm)
    requires s.Fits(g) && w.Fits(g)
  {
    forall x: Address :: !LineMiss(g, s, x) ==> Hit(g, w, x)
  }

  /** What a cell that hits after an access was before. */
  lemma {:induction false} CellsAfter(g: Geo, p: SubPolicy, c: Sub, t: Word, y: Address)
    requires c.Fits(g) && CellHit(g, SubAccess(g, p, c, t), y)
    ensures var x := Addr(t);
            || (y == x && (Touches(p, t) || CellHit(g, c, x) || (p.Never? && !LineMiss(g, c, x))))
            || (y != x && CellHit(g, c, y) && (g.Index(y) == g.Index(x) && Touches(p, t) ==> SameLine(g, x, y)))
  {
    hide Addr, Read, Instr, LineMiss, Fetched, Renewed, AddToLine;
    var x := Addr(t);
    StatsDoNotMatter(g, Placed(g, p, c, t), SubAccess(g, p, c, t).stats, y);
    HitFetched(g, c, x, y);
    HitRenewed(g, c, x, y);
    if !LineMiss(g, c, x) {
      HitAdded(g, c, x, y);
    }
    hide CellHit, SubMiss;
  }

  /** Accesses that bring the cell in. */
  predicate Touches(p: SubPolicy, t: Word) {
    match p
    case FetchesOnly => Instr(t)
    case Always => true
    case OnMiss => true
    case OnMissV2 => true
    case Never => Read(t)
    case NeverV2 => Read(t)
  }

  lemma {:induction false} StillCovered(g: Geo, p: SubPolicy, s: Sub, w: Dm, t: Word, y: Address)
    requires s.Fits(g) && w.Fits(g) && Covered(g, s, w) && (p.Never? ==> LinesCovered(g, s, w))
    requires CellHit(g, SubAccess(g, p, s, t), y)
    ensures Hit(g, Access(g, Whole(p), w, t), y)
  {
    hide Addr, Read, Instr;
    var x := Addr(t);
    CellsAfter(g, p, s, t, y);
    HitAfter(g, Whole(p), w, t, y);
    assert CellHit(g, s, y) ==> Hit(g, w, y);
    assert p.Never? && !LineMiss(g, s, x) ==> Hit(g, w, x);
    if SameLine(g, x, y) {
      HitSameLine(g, w, x, y);
    }
    hide CellHit, LineMiss, Hit, SubAccess, Access;
  }

  /** Without allocation on writes, the tags follow the larger cache's. */
  lemma {:induction false} StillLinesCovered(g: Geo, s: Sub, w: Dm, t: Word, y: Address)
    requires s.Fits(g) && w.Fits(g) && LinesCovered(g, s, w)
    requires !LineMiss(g, SubAccess(g, Never, s, t), y)
    ensures Hit(g, Access(g, NeverAlloc, w, t), y)
  {
    hide Addr, Read, Instr;
    var x := Addr(t);
    StatsDoNotMatter(g, Placed(g, Never, s, t), SubAccess(g, Never, s, t).stats, y);
    HitFetched(g, s, x, y);
    if !LineMiss(g, s, x) {
      HitAdded(g, s, x, y);
    }
    HitAfter(g, NeverAlloc, w, t, y);
    assert !LineMiss(g, s, y) ==> Hit(g, w, y);
    if SameLine(g, x, y) {
      HitSameLine(g, w, x, y);
    }
    hide CellHit, LineMiss, SubMiss, Hit, Fetched, AddToLine, Access;
  }

  ghost predicate Follows(g: Geo, p: SubPolicy, s: Sub, w: Dm)
    requires s.Fits(g) && w.Fits(g)
  {
    Covered(g, s, w) && (p.Never? ==> LinesCovered(g, s, w))
  }

  lemma {:induction false} MissesFollow(g: Geo, p: SubPolicy, s: Sub, w: Dm, t: Word)
    requires s.Fits(g) && w.Fits(g) && (CellHit(g, s, Addr(t)) ==> Hit(g, w, Addr(t))) && s.stats.miss >= w.stats.miss
    ensures SubAccess(g, p, s, t).stats.miss >= Access(g, Whole(p), w, t).stats.miss
  {
    hide Addr, Read, Instr, Hit, LineMiss, SubMiss;
  }

  lemma {:induction false} AccessFollows(g: Geo, p: SubPolicy, s: Sub, w: Dm, t: Word)
    requires s.Fits(g) && w.Fits(g) && Follows(g, p, s, w) && s.stats.miss >= w.stats.miss
    ensures Follows(g, p, SubAccess(g, p, s, t), Access(g, Whole(p), w, t))
    ensures SubAccess(g, p, s, t).stats.miss >= Access(g, Whole(p), w, t).stats.miss
  {
    hide Addr, CellHit, LineMiss, Hit, SubAccess, Access;
    MissesFollow(g, p, s, w, t);
    forall y: Address | CellHit(g, SubAccess(g, p, s, t), y)
      ensures Hit(g, Access(g, Whole(p), w, t), y)
    {
      StillCovered(g, p, s, w, t, y);
    }
    if p.Never? {
      forall y: Address | !LineMiss(g, SubAccess(g, p, s, t), y)
        ensures Hit(g, Access(g, Whole(p), w, t), y)
      {
        StillLinesCovered(g, s, w, t, y);
      }
    }
  }

  lemma {:induction false} SimulateFollows(g: Geo, p: SubPolicy, s: Sub, w: Dm, ts: seq<Word>)
    requires s.Fits(g) && w.Fits(g) && Follows(g, p, s, w) && s.stats.miss >= w.stats.miss
    ensures Follows(g, p, SubSimulate(g, p, s, ts), Simulate(g, Whole(p), w, ts))
    ensures SubSimulate(g, p, s, ts).stats.miss >= Simulate(g, Whole(p), w, ts).stats.miss
    decreases |ts|
  {
    hide SubAccess, Access, Follows;
    if ts != [] {
      AccessFollows(g, p, s, w, ts[0]);
      SimulateFollows(g, p, SubAccess(g, p, s, ts[0]), Access(g, Whole(p), w, ts[0]), ts[1..]);
    }
  }

  lemma {:induction false} FollowsStats(g: Geo, p: SubPolicy, s: Sub, w: Dm, n: SubStats, m: Stats)
    requires s.Fits(g) && w.Fits(g) && Follows(g, p, s, w)
    ensures Follows(g, p, s.(stats := n), w.(stats := m))
  {
    forall x: Address
      ensures CellHit(g, s.(stats := n), x) == CellHit(g, s, x) && LineMiss(g, s.(stats := n), x) == LineMiss(g, s, x)
      ensures Hit(g, w.(stats := m), x) == Hit(g, w, x)
    {
      StatsDoNotMatter(g, s, n, x);
      HitStats(g, w, m, x);
    }
    hide CellHit, LineMiss, Hit;
  }

  lemma {:induction false} ReportFollows(g: Geo, p: SubPolicy, s: Sub, w: Dm, cold: seq<Word>, ts: seq<Word>)
    requires s.Fits(g) && w.Fits(g) && Follows(g, p, s, w)
    ensures SubReport(g, p, s, cold, ts).stats.miss >= Report(g, Whole(p), w, cold, ts).stats.miss
  {
    hide Follows, Simulate, SubSimulate;
    FollowsStats(g, p, s, w, NOSUBSTATS, NOSTATS);
    var s0, w0 := s.(stats := NOSUBSTATS), w.(stats := NOSTATS);
    SimulateFollows(g, p, s0, w0, cold);
    var s1, w1 := SubSimulate(g, p, s0, cold), Simulate(g, Whole(p), w0, cold);
    FollowsStats(g, p, s1, w1, NOSUBSTATS, NOSTATS);
    SimulateFollows(g, p, s1.(stats := NOSUBSTATS), w1.(stats := NOSTATS), ts);
  }

  /** Sub-block placement has no fewer misses than whole lines of the same geometry, whatever junk
      the tag RAMs hold to begin with, for every policy but the one that updates cells of lines it
      has never allocated. */
  lemma {:induction false} SubBlocksNeverMissLess(g: Geo, p: SubPolicy, s: Sub, w: Dm, cold: seq<Word>, ts: seq<Word>)
    requires s.Fits(g) && w.Fits(g) && SubEmpty(s) && Empty(w) && !p.Never?
    ensures SubReport(g, p, s, cold, ts).stats.miss >= Report(g, Whole(p), w, cold, ts).stats.miss
  {
    ReportFollows(g, p, s, w, cold, ts);
  }

  // The remaining policy

  /** A tag RAM without a value that an address at that index can have as its tag. */
  predicate NoStrayTag(g: Geo, c: Sub)
    requires c.Fits(g)
  {
    forall i | 0 <= i < g.Lines() :: !Attainable(g, c.tagram[i], i)
  }

  predicate Attainable(g: Geo, tag: Word, i: nat) {
    Rest(tag, g.Size()) == 0 && tag + g.Linesize() * i < 0x4000_0000
  }

  lemma {:induction false} TagsAttained(g: Geo, x: Address)
    ensures Attainable(g, g.Tag(x), g.Index(x))
  {
    hide *;
    var q, k := Parts(g, x);
    DividedAs(g.Tag(x), g.Size(), k, 0);
    TagAttainable(g, x);
  }

  lemma {:induction false} TagAttainable(g: Geo, x: Address)
    requires Rest(g.Tag(x), g.Size()) == 0 && g.Tag(x) + g.Linesize() * g.Index(x) <= x
    ensures Attainable(g, g.Tag(x), g.Index(x))
  {
  }

  /** The first address of a line. */
  lemma {:induction false} FirstOf(g: Geo, tag: Word, i: nat) returns (x: Address)
    requires i < g.Lines() && Attainable(g, tag, i)
    ensures g.Tag(x) == tag && g.Index(x) == i
  {
    var k := Over(tag, g.Size());
    Divided(tag, g.Size());
    AtLeast(g.Linesize(), i, 0);
    x := tag + g.Linesize() * i;
    LineStart(g, x, k, i);
  }

  lemma {:induction false} NoStrayTagMeans(g: Geo, c: Sub)
    requires c.Fits(g)
    ensures NoStrayTag(g, c) <==> forall x: Address :: LineMiss(g, c, x)
  {
    hide Attainable;
    if NoStrayTag(g, c) {
      forall x: Address
        ensures LineMiss(g, c, x)
      {
        TagsAttained(g, x);
      }
    } else {
      var i :| 0 <= i < g.Lines() && Attainable(g, c.tagram[i], i);
      var x := FirstOf(g, c.tagram[i], i);
      assert !LineMiss(g, c, x);
    }
  }

  /** A write to a cell whose line only seems to be there, and a read of it. */
  function WriteThenRead(x: Address): seq<Word> {
    [0xC000_0000 + x, 0x8000_0000 + x]
  }

  lemma {:induction false} WriteThenReadIs(x: Address)
    ensures var ts := WriteThenRead(x);
            Addr(ts[0]) == x && Addr(ts[1]) == x && !Read(ts[0]) && Read(ts[1])
  {
  }

  lemma {:induction false} StrayWrite(g: Geo, s: Sub, t: Word)
    requires s.Fits(g) && SubEmpty(s) && !Read(t) && !LineMiss(g, s, Addr(t))
    ensures CellHit(g, SubAccess(g, Never, s, t), Addr(t)) && SubAccess(g, Never, s, t).stats.miss == s.stats.miss + 1
  {
    hide Addr, Read, Instr, CountSub, LineMiss, AddToLine;
    var x := Addr(t);
    HitAdded(g, s, x, x);
    assert SubMiss(g, s, x);
    StatsDoNotMatter(g, AddToLine(g, s, x), SubAccess(g, Never, s, t).stats, x);
    hide SubMiss, CellHit;
  }

  lemma {:induction false} WholeWrite(g: Geo, w: Dm, t: Word)
    requires w.Fits(g) && Empty(w) && !Read(t)
    ensures !Hit(g, Access(g, NeverAlloc, w, t), Addr(t)) && Access(g, NeverAlloc, w, t).stats.miss == w.stats.miss + 1
  {
    hide Addr, Read, Instr, Count;
    assert !Hit(g, w, Addr(t));
    hide Hit;
    HitAfter(g, NeverAlloc, w, t, Addr(t));
  }

  lemma {:induction false} ReadCounts(g: Geo, s: Sub, w: Dm, t: Word)
    requires s.Fits(g) && w.Fits(g) && Read(t)
    ensures SubAccess(g, Never, s, t).stats.miss == s.stats.miss + if CellHit(g, s, Addr(t)) then 0 else 1
    ensures Access(g, NeverAlloc, w, t).stats.miss == w.stats.miss + if Hit(g, w, Addr(t)) then 0 else 1
  {
    hide Addr, Read, Hit, LineMiss, SubMiss;
  }

  lemma {:induction false} StrayTagMissesLess(g: Geo, s: Sub, w: Dm, x: Address)
    requires s.Fits(g) && w.Fits(g) && SubEmpty(s) && Empty(w) && !LineMiss(g, s, x)
    ensures SubReport(g, Never, s, [], WriteThenRead(x)).stats.miss == 1
    ensures Report(g, NeverAlloc, w, [], WriteThenRead(x)).stats.miss == 2
  {
    var s0, w0 := s.(stats := NOSUBSTATS), w.(stats := NOSTATS);
    StatsDoNotMatter(g, s, NOSUBSTATS, x);
    WriteThenReadIs(x);
    hide Addr, Read, CellHit, LineMiss, Hit, SubAccess, Access;
    var ts := WriteThenRead(x);
    StrayWrite(g, s0, ts[0]);
    WholeWrite(g, w0, ts[0]);
    ReadCounts(g, SubAccess(g, Never, s0, ts[0]), Access(g, NeverAlloc, w0, ts[0]), ts[1]);
    TwoAccesses(g, s0, w0, ts[0], ts[1]);
  }

  lemma {:induction false} TwoAccesses(g: Geo, s: Sub, w: Dm, t: Word, u: Word)
    requires s.Fits(g) && w.Fits(g)
    ensures SubSimulate(g, Never, s, [t, u]) == SubAccess(g, Never, SubAccess(g, Never, s, t), u)
    ensures Simulate(g, NeverAlloc, w, [t, u]) == Access(g, NeverAlloc, Access(g, NeverAlloc, w, t), u)
  {
    hide SubAccess, Access;
    assert [t, u][1..] == [u] && [u][1..] == [];
    assert SubSimulate(g, Never, SubAccess(g, Never, s, t), [u]) == SubAccess(g, Never, SubAccess(g, Never, s, t), u);
    assert Simulate(g, NeverAlloc, Access(g, NeverAlloc, w, t), [u]) == Access(g, NeverAlloc, Access(g, NeverAlloc, w, t), u);
  }

  /** With writes that never allocate a line but update its cells, sub-blocks have no fewer misses on
      every trace exactly if no tag of the sub-block cache happens to be one of an address. */
  lemma {:induction false} NeverAllocExactly(g: Geo, s: Sub, w: Dm)
    requires s.Fits(g) && w.Fits(g) && SubEmpty(s) && Empty(w)
    ensures NoStrayTag(g, s)
            <==> forall cold: seq<Word>, ts: seq<Word> ::
                   SubReport(g, Never, s, cold, ts).stats.miss >= Report(g, NeverAlloc, w, cold, ts).stats.miss
  {
    NoStrayTagMeans(g, s);
    if NoStrayTag(g, s) {
      assert Follows(g, Never, s, w);
      forall cold: seq<Word>, ts: seq<Word>
        ensures SubReport(g, Never, s, cold, ts).stats.miss >= Report(g, NeverAlloc, w, cold, ts).stats.miss
      {
        ReportFollows(g, Never, s, w, cold, ts);
      }
    } else {
      var x: Address :| !LineMiss(g, s, x);
      StrayTagMissesLess(g, s, w, x);
    }
  }
}
