/** What the cache simulators report, told from the trace alone: an access hits if the last access that
    brought something to its place brought its line, or, with sub-blocks, left its cell there. */
module CacheCounts {
  import opened Word32
  import opened CacheGeometry
  import opened DmCache
  import opened SubCache

  // Places, by division

  function AddressOf(t: Word): Address {
    t % 0x4000_0000
  }

  /** The two flag bits of a trace word: clear for an instruction, clear for a read. */
  predicate Fetch(t: Word) {
    t / 0x8000_0000 == 0
  }

  predicate Reads(t: Word) {
    (t / 0x4000_0000) % 2 == 0
  }

  lemma {:induction false} TraceWord(t: Word)
    ensures AddressOf(t) == Addr(t) && (Fetch(t) <==> Instr(t)) && (Reads(t) <==> Read(t))
  {
    assert t % 0x8000_0000 == 0x4000_0000 * ((t / 0x4000_0000) % 2) + t % 0x4000_0000;
  }

  /** The number of the line an address lies in, and the place in the cache of that line. */
  function LineOf(g: Geo, x: nat): nat {
    Over(x, g.Linesize())
  }

  function PlaceOf(g: Geo, x: nat): nat {
    Rest(LineOf(g, x), g.Lines())
  }

  lemma {:induction false} PlacesMean(g: Geo, x: nat, y: nat)
    ensures PlaceOf(g, x) == PlaceOf(g, y) <==> g.Index(x) == g.Index(y)
    ensures LineOf(g, x) == LineOf(g, y) <==> SameLine(g, x, y)
  {
    PlaceIsIndex(g, x);
    PlaceIsIndex(g, y);
    SameLineIs(g, x, y);
    hide PlaceOf, SameLine, Geo.Index;
  }

  lemma {:induction false} PlaceIsIndex(g: Geo, x: nat)
    ensures PlaceOf(g, x) == g.Index(x)
  {
    var q, k := Parts(g, x);
    hide Geo.Index, Over, Rest;
    DividedAs(q, g.Lines(), k, g.Index(x));
  }

  // Whole lines

  /** Which accesses see to it that their line is in the cache. */
  predicate Brings(p: Policy, t: Word) {
    match p
    case InstructionsOnly => Fetch(t)
    case AlwaysAlloc => true
    case MissAlloc => true
    case NeverAlloc => Reads(t)
  }

  /** Whether the line of an address is in the cache after some accesses. */
  predicate Present(g: Geo, p: Policy, past: seq<Word>, x: nat) {
    if past == [] then false
    else
      var t := past[|past| - 1];
      var y := AddressOf(t);
      if Brings(p, t) && PlaceOf(g, y) == PlaceOf(g, x) then LineOf(g, y) == LineOf(g, x)
      else Present(g, p, past[..|past| - 1], x)
  }

  lemma {:induction false} PresentNext(g: Geo, p: Policy, past: seq<Word>, t: Word, x: nat)
    ensures Present(g, p, past + [t], x) ==
              if Brings(p, t) && PlaceOf(g, AddressOf(t)) == PlaceOf(g, x) then LineOf(g, AddressOf(t)) == LineOf(g, x)
              else Present(g, p, past, x)
  {
    assert (past + [t])[..|past|] == past;
    hide PlaceOf, LineOf, Brings;
  }

  ghost predicate Holds(g: Geo, p: Policy, c: Dm, past: seq<Word>) {
    c.Fits(g) && forall x: Address :: Hit(g, c, x) <==> Present(g, p, past, x)
  }

  lemma {:induction false} HoldsNext(g: Geo, p: Policy, c: Dm, past: seq<Word>, t: Word)
    requires Holds(g, p, c, past)
    ensures Holds(g, p, Access(g, p, c, t), past + [t])
  {
    hide Hit, Access, Present;
    forall y: Address
      ensures Hit(g, Access(g, p, c, t), y) <==> Present(g, p, past + [t], y)
    {
      PresentNext(g, p, past, t, y);
      HitNext(g, p, c, t, y);
    }
  }

  lemma {:induction false} HitNext(g: Geo, p: Policy, c: Dm, t: Word, y: Address)
    requires c.Fits(g)
    ensures Hit(g, Access(g, p, c, t), y)
       <==> if Brings(p, t) && PlaceOf(g, AddressOf(t)) == PlaceOf(g, y) then LineOf(g, AddressOf(t)) == LineOf(g, y)
            else Hit(g, c, y)
  {
    TraceWord(t);
    PlacesMean(g, Addr(t), y);
    HitAfter(g, p, c, t, y);
    OneLine(g, c, Addr(t), y);
    hide Hit, Access, PlaceOf, LineOf, AddressOf, Addr, SameLine, Instr, Read, Fetch, Reads;
  }

  /** A place holds one line. */
  lemma {:induction false} OneLine(g: Geo, c: Dm, x: Address, y: Address)
    requires c.Fits(g)
    ensures Hit(g, c, x) && g.Index(x) == g.Index(y) ==> (Hit(g, c, y) <==> SameLine(g, x, y))
  {
    hide Rest, Over;
  }

  /** The accesses of a run, by kind: reads and writes (of data, for a cache of instructions), and those
      that did not find their line. */
  datatype Tally = Tally(loads: nat, stores: nat, loadmisses: nat, storemisses: nat)

  function Counted(p: Policy, t: Word, hit: bool, n: Tally): Tally {
    var n1 := if hit then n
              else if Reads(t) then n.(loadmisses := n.loadmisses + 1) else n.(storemisses := n.storemisses + 1);
    var n2 := if Reads(t) then n.(loads := n.loads + 1) else n.(stores := n.stores + 1);
    if !p.InstructionsOnly? then n1.(loads := n2.loads, stores := n2.stores)
    else if Fetch(t) then n1
    else n2
  }

  function CountedAfter(g: Geo, p: Policy, past: seq<Word>, t: Word, n: Tally): Tally {
    Counted(p, t, Present(g, p, past, AddressOf(t)), n)
  }

  function TallyOf(g: Geo, p: Policy, past: seq<Word>, ts: seq<Word>, n: Tally): Tally
    decreases |ts|
  {
    if ts == [] then n
    else TallyOf(g, p, past + [ts[0]], ts[1..], CountedAfter(g, p, past, ts[0], n))
  }

  /** What the program reports of a run of `k` accesses. */
  function StatsOf(g: Geo, p: Policy, n: Tally, k: nat): Stats {
    var l := g.Linesize();
    match p
    case InstructionsOnly =>
      Stats(k, 0, n.loadmisses + n.storemisses + n.loads + n.stores, Times(n.loadmisses, l) + n.loads, n.stores)
    case AlwaysAlloc =>
      Stats(k, 0, n.loadmisses + n.storemisses, Times(n.loadmisses, l) + Times(n.stores, l - 1), n.stores)
    case MissAlloc =>
      Stats(k, n.stores, n.loadmisses + n.storemisses, Times(n.loadmisses, l) + Times(n.storemisses, l - 1), n.stores)
    case NeverAlloc =>
      Stats(k, 0, n.loadmisses + n.storemisses, Times(n.loadmisses, l), n.stores)
  }

  function Times(n: nat, l: nat): nat {
    n * l
  }

  lemma {:induction false} OneMore(n: nat, l: nat)
    ensures Times(n + 1, l) == Times(n, l) + l
  {
  }

  lemma {:induction false} CountNext(g: Geo, p: Policy, t: Word, hit: bool, n: Tally, k: nat)
    ensures Count(g, p, t, hit, StatsOf(g, p, n, k)) == StatsOf(g, p, Counted(p, t, hit, n), k + 1)
  {
    TraceWord(t);
    OneMore(n.loadmisses, g.Linesize());
    OneMore(n.stores, g.Linesize() - 1);
    OneMore(n.storemisses, g.Linesize() - 1);
    hide Times, Instr, Read, Fetch, Reads, Geo.Linesize;
  }

  lemma {:induction false} AccessStats(g: Geo, p: Policy, c: Dm, t: Word)
    requires c.Fits(g)
    ensures Access(g, p, c, t).stats == Count(g, p, t, Hit(g, c, Addr(t)), c.stats)
  {
    hide Count, Hit, Filled;
  }

  lemma {:induction false} CountsOnce(g: Geo, p: Policy, c: Dm, past: seq<Word>, t: Word, n: Tally, k: nat)
    requires Holds(g, p, c, past) && c.stats == StatsOf(g, p, n, k)
    ensures Access(g, p, c, t).stats == StatsOf(g, p, CountedAfter(g, p, past, t, n), k + 1)
  {
    TraceWord(t);
    assert Hit(g, c, Addr(t)) <==> Present(g, p, past, AddressOf(t));
    hide Holds, Access, StatsOf, Counted, Present, Hit, Count;
    AccessStats(g, p, c, t);
    CountNext(g, p, t, Present(g, p, past, AddressOf(t)), n, k);
  }

  lemma {:induction false} HoldsFits(g: Geo, p: Policy, c: Dm, past: seq<Word>)
    requires Holds(g, p, c, past)
    ensures c.Fits(g)
  {
  }

  lemma {:induction false} RunIs(g: Geo, p: Policy, c: Dm, past: seq<Word>, ts: seq<Word>, n: Tally)
    requires c.Fits(g)
    ensures ts == [] ==> Simulate(g, p, c, ts) == c && TallyOf(g, p, past, ts, n) == n
    ensures ts != [] ==>
              && Simulate(g, p, c, ts) == Simulate(g, p, Access(g, p, c, ts[0]), ts[1..])
              && TallyOf(g, p, past, ts, n) == TallyOf(g, p, past + [ts[0]], ts[1..], CountedAfter(g, p, past, ts[0], n))
  {
    hide Access, CountedAfter, Dm.Fits;
  }

  lemma {:induction false} SimulateCounts(g: Geo, p: Policy, c: Dm, past: seq<Word>, ts: seq<Word>, n: Tally, k: nat)
    requires Holds(g, p, c, past) && c.stats == StatsOf(g, p, n, k)
    ensures var d := Simulate(g, p, c, ts);
            Holds(g, p, d, past + ts) && d.stats == StatsOf(g, p, TallyOf(g, p, past, ts, n), k + |ts|)
    decreases |ts|
  {
    hide *;
    HoldsFits(g, p, c, past);
    RunIs(g, p, c, past, ts, n);
    if ts == [] {
      assert past + [] == past;
    } else {
      HoldsNext(g, p, c, past, ts[0]);
      CountsOnce(g, p, c, past, ts[0], n, k);
      SimulateCounts(g, p, Access(g, p, c, ts[0]), past + [ts[0]], ts[1..], CountedAfter(g, p, past, ts[0], n), k + 1);
      assert past + [ts[0]] + ts[1..] == past + ts;
    }
  }

  lemma {:induction false} EmptyHolds(g: Geo, p: Policy, c: Dm)
    requires c.Fits(g) && Empty(c)
    ensures Holds(g, p, c, [])
  {
  }

  lemma {:induction false} StatsHold(g: Geo, p: Policy, c: Dm, past: seq<Word>, s: Stats)
    requires Holds(g, p, c, past)
    ensures Holds(g, p, c.(stats := s), past)
  {
    forall x: Address
      ensures Hit(g, c.(stats := s), x) == Hit(g, c, x)
    {
      HitStats(g, c, s, x);
    }
    hide Hit, Present;
  }

  lemma {:induction false} NothingCounted(g: Geo, p: Policy)
    ensures StatsOf(g, p, Tally(0, 0, 0, 0), 0) == NOSTATS
  {
    hide Geo.Linesize;
  }

  lemma {:induction false} FitsAnyStats(g: Geo, c: Dm, s: Stats)
    ensures c.Fits(g) ==> c.(stats := s).Fits(g)
  {
  }

  lemma {:induction false} ColdRun(g: Geo, p: Policy, c: Dm, cold: seq<Word>)
    requires c.Fits(g) && Empty(c)
    ensures Holds(g, p, Simulate(g, p, c.(stats := NOSTATS), cold), cold)
  {
    hide *;
    EmptyHolds(g, p, c);
    NothingCounted(g, p);
    FitsAnyStats(g, c, NOSTATS);
    StatsHold(g, p, c, [], NOSTATS);
    SimulateCounts(g, p, c.(stats := NOSTATS), [], cold, Tally(0, 0, 0, 0), 0);
    assert [] + cold == cold;
  }

  lemma {:induction false} ReportIs(g: Geo, p: Policy, c: Dm, cold: seq<Word>, ts: seq<Word>)
    requires c.Fits(g)
    ensures c.(stats := NOSTATS).Fits(g) && var c1 := Simulate(g, p, c.(stats := NOSTATS), cold);
            c1.(stats := NOSTATS).Fits(g) && Report(g, p, c, cold, ts) == Simulate(g, p, c1.(stats := NOSTATS), ts)
  {
    hide Simulate;
  }

  /** All that the program reports, whatever junk the tag RAM holds to begin with. */
  lemma {:induction false} WholeLinesExactly(g: Geo, p: Policy, c: Dm, cold: seq<Word>, ts: seq<Word>)
    requires c.Fits(g) && Empty(c)
    ensures Report(g, p, c, cold, ts).stats == StatsOf(g, p, TallyOf(g, p, cold, ts, Tally(0, 0, 0, 0)), |ts|)
  {
    hide *;
    NothingCounted(g, p);
    ColdRun(g, p, c, cold);
    ReportIs(g, p, c, cold, ts);
    var c1 := Simulate(g, p, c.(stats := NOSTATS), cold);
    StatsHold(g, p, c1, cold, NOSTATS);
    SimulateCounts(g, p, c1.(stats := NOSTATS), cold, ts, Tally(0, 0, 0, 0), 0);
  }

  // Sub-blocks

  /** What an access does to the line in its place: brings its cell and, if need be, the line; empties it
      but for its cell; brings its cell if the line is there; or nothing. */
  datatype Effect = Fills | Renews | Updates | Nothing

  function EffectOf(p: SubPolicy, t: Word): Effect {
    match p
    case FetchesOnly => if Fetch(t) then Fills else Nothing
    case Always => if Reads(t) then Fills else Renews
    case OnMiss => Fills
    case OnMissV2 => Fills
    case Never => if Reads(t) then Fills else Updates
    case NeverV2 => if Reads(t) then Fills else Nothing
  }

  /** Whether the cache has the tag of an address after some accesses. */
  predicate LineHeld(g: Geo, p: SubPolicy, past: seq<Word>, x: nat) {
    if past == [] then false
    else
      var t := past[|past| - 1];
      var y := AddressOf(t);
      if (EffectOf(p, t).Fills? || EffectOf(p, t).Renews?) && PlaceOf(g, y) == PlaceOf(g, x) then LineOf(g, y) == LineOf(g, x)
      else LineHeld(g, p, past[..|past| - 1], x)
  }

  /** Whether it has the cell. */
  predicate CellHeld(g: Geo, p: SubPolicy, past: seq<Word>, x: nat) {
    if past == [] then false
    else
      var t, before := past[|past| - 1], past[..|past| - 1];
      var y := AddressOf(t);
      if PlaceOf(g, y) != PlaceOf(g, x) then CellHeld(g, p, before, x)
      else match EffectOf(p, t)
        case Fills => y == x || (LineOf(g, y) == LineOf(g, x) && CellHeld(g, p, before, x))
        case Renews => y == x
        case Updates => if y == x then LineHeld(g, p, before, x) else CellHeld(g, p, before, x)
        case Nothing => CellHeld(g, p, before, x)
  }

  ghost predicate SubHolds(g: Geo, p: SubPolicy, c: Sub, past: seq<Word>) {
    && c.Fits(g)
    && (forall x: Address :: CellHit(g, c, x) <==> CellHeld(g, p, past, x))
    && (p.Never? ==> forall x: Address :: !LineMiss(g, c, x) <==> LineHeld(g, p, past, x))
  }

  lemma {:induction false} HeldNext(g: Geo, p: SubPolicy, past: seq<Word>, t: Word, x: nat)
    ensures var y := AddressOf(t);
            CellHeld(g, p, past + [t], x) ==
              if PlaceOf(g, y) != PlaceOf(g, x) then CellHeld(g, p, past, x)
              else match EffectOf(p, t)
                case Fills => y == x || (LineOf(g, y) == LineOf(g, x) && CellHeld(g, p, past, x))
                case Renews => y == x
                case Updates => if y == x then LineHeld(g, p, past, x) else CellHeld(g, p, past, x)
                case Nothing => CellHeld(g, p, past, x)
    ensures var y := AddressOf(t);
            LineHeld(g, p, past + [t], x) ==
              if (EffectOf(p, t).Fills? || EffectOf(p, t).Renews?) && PlaceOf(g, y) == PlaceOf(g, x) then LineOf(g, y) == LineOf(g, x)
              else LineHeld(g, p, past, x)
  {
    assert (past + [t])[..|past|] == past;
    hide PlaceOf, LineOf, EffectOf;
  }

  /** A fetch, exactly. */
  lemma {:induction false} FetchedExactly(g: Geo, c: Sub, x: Address, y: Address)
    requires c.Fits(g)
    ensures CellHit(g, Fetched(g, c, x), y)
       <==> if g.Index(y) == g.Index(x) then y == x || (SameLine(g, x, y) && CellHit(g, c, y)) else CellHit(g, c, y)
  {
    HitRenewed(g, c, x, y);
    if !LineMiss(g, c, x) {
      HitAdded(g, c, x, y);
    }
    SameTags(g, c, x, y);
    hide Rest, Over, Renewed, AddToLine, Geo.Index, Geo.Tag, Geo.Subindex;
  }

  /** Addresses of one place have their tags there together exactly if they are of one line. */
  lemma {:induction false} SameTags(g: Geo, c: Sub, x: Address, y: Address)
    requires c.Fits(g)
    ensures g.Index(x) == g.Index(y) && !LineMiss(g, c, x) ==> (!LineMiss(g, c, y) <==> SameLine(g, x, y))
    ensures SameLine(g, x, y) ==> LineMiss(g, c, x) == LineMiss(g, c, y)
    ensures CellHit(g, c, x) <==> !LineMiss(g, c, x) && !SubMiss(g, c, x)
    ensures x == y ==> SameLine(g, x, y)
  {
    hide Rest, Over;
  }

  /** What an access leaves in the cache, by its effect. */
  function Effected(g: Geo, e: Effect, c: Sub, x: Address): (c': Sub)
    requires c.Fits(g)
    ensures c'.Fits(g)
  {
    match e
    case Fills => Fetched(g, c, x)
    case Renews => Renewed(g, c, x)
    case Updates => if !LineMiss(g, c, x) && SubMiss(g, c, x) then AddToLine(g, c, x) else c
    case Nothing => c
  }

  lemma {:induction false} PlacedIs(g: Geo, p: SubPolicy, c: Sub, t: Word)
    requires c.Fits(g)
    ensures Placed(g, p, c, t) == Effected(g, EffectOf(p, t), c, Addr(t))
  {
    TraceWord(t);
    hide Fetched, Renewed, AddToLine, LineMiss, SubMiss, Instr, Read, Fetch, Reads, Addr, AddressOf;
  }

  lemma {:induction false} CellEffected(g: Geo, e: Effect, c: Sub, x: Address, y: Address)
    requires c.Fits(g)
    ensures CellHit(g, Effected(g, e, c, x), y) ==
              if g.Index(x) != g.Index(y) then CellHit(g, c, y)
              else match e
                case Fills => x == y || (SameLine(g, x, y) && CellHit(g, c, y))
                case Renews => x == y
                case Updates => if x == y then !LineMiss(g, c, y) else CellHit(g, c, y)
                case Nothing => CellHit(g, c, y)
  {
    FetchedExactly(g, c, x, y);
    HitRenewed(g, c, x, y);
    if !LineMiss(g, c, x) {
      HitAdded(g, c, x, y);
    }
    SameTags(g, c, x, y);
    hide Fetched, Renewed, AddToLine, LineMiss, SubMiss, CellHit, SameLine, Geo.Index;
  }

  lemma {:induction false} LineEffected(g: Geo, e: Effect, c: Sub, x: Address, y: Address)
    requires c.Fits(g)
    ensures !LineMiss(g, Effected(g, e, c, x), y) ==
              if (e.Fills? || e.Renews?) && g.Index(x) == g.Index(y) then SameLine(g, x, y) else !LineMiss(g, c, y)
  {
    HitFetched(g, c, x, y);
    HitRenewed(g, c, x, y);
    if !LineMiss(g, c, x) {
      HitAdded(g, c, x, y);
    }
    hide Fetched, Renewed, AddToLine, LineMiss, SubMiss, CellHit, SameLine, Geo.Index;
  }

  /** What holds for one address before an access holds after it. */
  lemma {:induction false} SubHoldsAt(g: Geo, p: SubPolicy, c: Sub, past: seq<Word>, t: Word, y: Address)
    requires c.Fits(g) && (CellHit(g, c, y) <==> CellHeld(g, p, past, y))
    requires p.Never? ==> (!LineMiss(g, c, y) <==> LineHeld(g, p, past, y))
    ensures var d := SubAccess(g, p, c, t);
            && d.Fits(g) && (CellHit(g, d, y) <==> CellHeld(g, p, past + [t], y))
            && (p.Never? ==> (!LineMiss(g, d, y) <==> LineHeld(g, p, past + [t], y)))
  {
    hide *;
    TraceWord(t);
    PlacedIs(g, p, c, t);
    OnlyNeverUpdates(p, t);
    HeldNext(g, p, past, t, y);
    PlacesMean(g, Addr(t), y);
    CellEffected(g, EffectOf(p, t), c, Addr(t), y);
    LineEffected(g, EffectOf(p, t), c, Addr(t), y);
    SubAccessHits(g, p, c, t, y);
  }

  lemma {:induction false} SubHoldsNext(g: Geo, p: SubPolicy, c: Sub, past: seq<Word>, t: Word)
    requires SubHolds(g, p, c, past)
    ensures SubHolds(g, p, SubAccess(g, p, c, t), past + [t])
  {
    hide CellHit, LineMiss, CellHeld, LineHeld, SubAccess, Sub.Fits;
    forall y: Address
      ensures var d := SubAccess(g, p, c, t);
              && d.Fits(g) && (CellHit(g, d, y) <==> CellHeld(g, p, past + [t], y))
              && (p.Never? ==> (!LineMiss(g, d, y) <==> LineHeld(g, p, past + [t], y)))
    {
      SubHoldsAt(g, p, c, past, t, y);
    }
  }

  lemma {:induction false} OnlyNeverUpdates(p: SubPolicy, t: Word)
    ensures EffectOf(p, t).Updates? ==> p.Never?
  {
  }

  lemma {:induction false} SubAccessHits(g: Geo, p: SubPolicy, c: Sub, t: Word, y: Address)
    requires c.Fits(g)
    ensures SubAccess(g, p, c, t).Fits(g)
    ensures CellHit(g, SubAccess(g, p, c, t), y) == CellHit(g, Placed(g, p, c, t), y)
    ensures LineMiss(g, SubAccess(g, p, c, t), y) == LineMiss(g, Placed(g, p, c, t), y)
  {
    StatsDoNotMatter(g, Placed(g, p, c, t), SubAccess(g, p, c, t).stats, y);
    hide Placed, CellHit, LineMiss, CountSub;
  }

  /** The accesses of a run by kind; writes that missed with their line there count as cell misses. */
  datatype SubTally = SubTally(loads: nat, stores: nat, loadmisses: nat, storehits: nat, linemisses: nat, cellmisses: nat)

  function SubCounted(p: SubPolicy, t: Word, held: bool, hit: bool, n: SubTally): SubTally {
    if p.FetchesOnly? && !Fetch(t) then
      (if Reads(t) then n.(loads := n.loads + 1) else n.(stores := n.stores + 1))
    else if p.FetchesOnly? || Reads(t) then (if hit then n else n.(loadmisses := n.loadmisses + 1))
    else if hit then n.(storehits := n.storehits + 1)
    else if p.Never? && !held then n.(linemisses := n.linemisses + 1)
    else n.(cellmisses := n.cellmisses + 1)
  }

  function SubCountedAfter(g: Geo, p: SubPolicy, past: seq<Word>, t: Word, n: SubTally): SubTally {
    SubCounted(p, t, LineHeld(g, p, past, AddressOf(t)), CellHeld(g, p, past, AddressOf(t)), n)
  }

  function SubTallyOf(g: Geo, p: SubPolicy, past: seq<Word>, ts: seq<Word>, n: SubTally): SubTally
    decreases |ts|
  {
    if ts == [] then n
    else SubTallyOf(g, p, past + [ts[0]], ts[1..], SubCountedAfter(g, p, past, ts[0], n))
  }

  /** What the program reports of a run of `k` accesses. */
  function SubStatsOf(p: SubPolicy, n: SubTally, k: nat): SubStats {
    var missed := n.linemisses + n.cellmisses;
    match p
    case FetchesOnly => SubStats(k, n.loadmisses + n.loads + n.stores, n.loads, n.loadmisses, n.stores, 0)
    case Always => SubStats(k, n.loadmisses + missed, 0, n.loadmisses, n.storehits + missed, 0)
    case OnMiss => SubStats(k, n.loadmisses + missed, 0, n.loadmisses, 0, n.storehits + missed)
    case OnMissV2 => SubStats(k, n.loadmisses + missed, 0, n.loadmisses, n.storehits, missed)
    case Never => SubStats(k, n.loadmisses + missed, 0, n.loadmisses, n.linemisses, n.cellmisses + n.storehits)
    case NeverV2 => SubStats(k, n.loadmisses + missed, 0, n.loadmisses, missed, n.storehits)
  }

  lemma {:induction false} SubCountNext(p: SubPolicy, t: Word, linemiss: bool, submiss: bool, held: bool, n: SubTally, k: nat)
    requires p.Never? ==> held == !linemiss
    ensures CountSub(p, t, linemiss, submiss, SubStatsOf(p, n, k))
         == SubStatsOf(p, SubCounted(p, t, held, !linemiss && !submiss, n), k + 1)
  {
    TraceWord(t);
    hide Instr, Read, Fetch, Reads;
  }

  lemma {:induction false} SubAccessStats(g: Geo, p: SubPolicy, c: Sub, t: Word)
    requires c.Fits(g)
    ensures SubAccess(g, p, c, t).stats == CountSub(p, t, LineMiss(g, c, Addr(t)), SubMiss(g, c, Addr(t)), c.stats)
    ensures CellHit(g, c, Addr(t)) <==> !LineMiss(g, c, Addr(t)) && !SubMiss(g, c, Addr(t))
  {
    hide CountSub, LineMiss, SubMiss, Placed;
  }

  lemma {:induction false} SubCountsOnce(g: Geo, p: SubPolicy, c: Sub, past: seq<Word>, t: Word, n: SubTally, k: nat)
    requires SubHolds(g, p, c, past) && c.stats == SubStatsOf(p, n, k)
    ensures SubAccess(g, p, c, t).stats == SubStatsOf(p, SubCountedAfter(g, p, past, t, n), k + 1)
  {
    var x := AddressOf(t);
    TraceWord(t);
    assert CellHit(g, c, x) <==> CellHeld(g, p, past, x);
    assert p.Never? ==> (!LineMiss(g, c, x) <==> LineHeld(g, p, past, x));
    hide SubHolds, SubAccess, SubStatsOf, SubCounted, CellHeld, LineHeld, CellHit, LineMiss, SubMiss, CountSub, Addr, AddressOf;
    SubAccessStats(g, p, c, t);
    SubCountNext(p, t, LineMiss(g, c, x), SubMiss(g, c, x), LineHeld(g, p, past, x), n, k);
  }

  lemma {:induction false} SubHoldsFits(g: Geo, p: SubPolicy, c: Sub, past: seq<Word>)
    requires SubHolds(g, p, c, past)
    ensures c.Fits(g)
  {
  }

  lemma {:induction false} SubRunIs(g: Geo, p: SubPolicy, c: Sub, past: seq<Word>, ts: seq<Word>, n: SubTally)
    requires c.Fits(g)
    ensures ts == [] ==> SubSimulate(g, p, c, ts) == c && SubTallyOf(g, p, past, ts, n) == n
    ensures ts != [] ==>
              && SubSimulate(g, p, c, ts) == SubSimulate(g, p, SubAccess(g, p, c, ts[0]), ts[1..])
              && SubTallyOf(g, p, past, ts, n)
              == SubTallyOf(g, p, past + [ts[0]], ts[1..], SubCountedAfter(g, p, past, ts[0], n))
  {
    hide SubAccess, SubCountedAfter, Sub.Fits;
  }

  lemma {:induction false} SubSimulateCounts(g: Geo, p: SubPolicy, c: Sub, past: seq<Word>, ts: seq<Word>, n: SubTally, k: nat)
    requires SubHolds(g, p, c, past) && c.stats == SubStatsOf(p, n, k)
    ensures var d := SubSimulate(g, p, c, ts);
            SubHolds(g, p, d, past + ts) && d.stats == SubStatsOf(p, SubTallyOf(g, p, past, ts, n), k + |ts|)
    decreases |ts|
  {
    hide *;
    SubHoldsFits(g, p, c, past);
    SubRunIs(g, p, c, past, ts, n);
    if ts == [] {
      assert past + [] == past;
    } else {
      SubHoldsNext(g, p, c, past, ts[0]);
      SubCountsOnce(g, p, c, past, ts[0], n, k);
      SubSimulateCounts(g, p, SubAccess(g, p, c, ts[0]), past + [ts[0]], ts[1..], SubCountedAfter(g, p, past, ts[0], n), k + 1);
      assert past + [ts[0]] + ts[1..] == past + ts;
    }
  }

  lemma {:induction false} EmptySubHolds(g: Geo, p: SubPolicy, c: Sub)
    requires c.Fits(g) && SubEmpty(c) && (p.Never? ==> NoStrayTag(g, c))
    ensures SubHolds(g, p, c, [])
  {
    if p.Never? {
      NoStrayTagMeans(g, c);
    }
    hide NoStrayTag, LineMiss;
  }

  lemma {:induction false} SubStatsHold(g: Geo, p: SubPolicy, c: Sub, past: seq<Word>, s: SubStats)
    requires SubHolds(g, p, c, past)
    ensures SubHolds(g, p, c.(stats := s), past)
  {
    forall x: Address
      ensures CellHit(g, c.(stats := s), x) == CellHit(g, c, x) && LineMiss(g, c.(stats := s), x) == LineMiss(g, c, x)
    {
      StatsDoNotMatter(g, c, s, x);
    }
    hide CellHit, LineMiss, CellHeld, LineHeld;
  }

  lemma {:induction false} SubNothingCounted(p: SubPolicy)
    ensures SubStatsOf(p, SubTally(0, 0, 0, 0, 0, 0), 0) == NOSUBSTATS
  {
  }

  lemma {:induction false} FitsAnySubStats(g: Geo, c: Sub, s: SubStats)
    ensures c.Fits(g) ==> c.(stats := s).Fits(g)
  {
  }

  lemma {:induction false} SubColdRun(g: Geo, p: SubPolicy, c: Sub, cold: seq<Word>)
    requires c.Fits(g) && SubEmpty(c) && (p.Never? ==> NoStrayTag(g, c))
    ensures SubHolds(g, p, SubSimulate(g, p, c.(stats := NOSUBSTATS), cold), cold)
  {
    hide *;
    EmptySubHolds(g, p, c);
    SubNothingCounted(p);
    FitsAnySubStats(g, c, NOSUBSTATS);
    SubStatsHold(g, p, c, [], NOSUBSTATS);
    SubSimulateCounts(g, p, c.(stats := NOSUBSTATS), [], cold, SubTally(0, 0, 0, 0, 0, 0), 0);
    assert [] + cold == cold;
  }

  lemma {:induction false} SubReportIs(g: Geo, p: SubPolicy, c: Sub, cold: seq<Word>, ts: seq<Word>)
    requires c.Fits(g)
    ensures c.(stats := NOSUBSTATS).Fits(g) && var c1 := SubSimulate(g, p, c.(stats := NOSUBSTATS), cold);
            c1.(stats := NOSUBSTATS).Fits(g) && SubReport(g, p, c, cold, ts) == SubSimulate(g, p, c1.(stats := NOSUBSTATS), ts)
  {
    hide SubSimulate;
  }

  /** All that the sub-block program reports; under the policy that never allocates, if no junk tag is one
      that an address can have. */
  lemma {:induction false} SubBlocksExactly(g: Geo, p: SubPolicy, c: Sub, cold: seq<Word>, ts: seq<Word>)
    requires c.Fits(g) && SubEmpty(c) && (p.Never? ==> NoStrayTag(g, c))
    ensures SubReport(g, p, c, cold, ts).stats == SubStatsOf(p, SubTallyOf(g, p, cold, ts, SubTally(0, 0, 0, 0, 0, 0)), |ts|)
  {
    hide *;
    SubNothingCounted(p);
    SubColdRun(g, p, c, cold);
    SubReportIs(g, p, c, cold, ts);
    var none := SubTally(0, 0, 0, 0, 0, 0);
    var c1 := SubSimulate(g, p, c.(stats := NOSUBSTATS), cold);
    SubStatsHold(g, p, c1, cold, NOSUBSTATS);
    SubSimulateCounts(g, p, c1.(stats := NOSUBSTATS), cold, ts, none, 0);
  }
}
