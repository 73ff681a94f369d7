/** The cache, the write buffer and the memory behind them behave like one flat memory. */
module CacheRefinement {
  import opened Word32
  import opened MainMemory
  import opened CacheBus
  import opened Division

  /** A memory with the write held in the bus unit, if any, carried out. */
  function Settled(main: Main, bstate: BusState, port: Port, addr: Word, value: Word): (m: Main)
    requires main.Valid() && (bstate.WriteCount? ==> main.Covers(addr))
    ensures m.Valid() && m.lowtop == main.lowtop && m.highbottom == main.highbottom
  {
    if !bstate.WriteCount? then main
    else if port.WrByte? then main.StoreByte(addr, value)
    else main.Store(addr, value)
  }

  /** The flat memory: external memory with the buffered write, if any, carried out. */
  function Drain(s: Sys): (m: Main)
    requires s.main.Valid() && (s.bstate.WriteCount? ==> s.main.Covers(s.portaddr))
    ensures m.Valid() && m.lowtop == s.main.lowtop && m.highbottom == s.main.highbottom
  {
    Settled(s.main, s.bstate, s.port, s.portaddr, s.portvalue)
  }

  /** What request `r` does to a flat memory. */
  function Apply(m: Main, r: Request): (m': Main)
    requires m.Valid()
    ensures m'.Valid() && m'.lowtop == m.lowtop && m'.highbottom == m.highbottom
  {
    if r.read || !m.Covers(r.abus) then m
    else if r.bytemode then m.StoreByte(r.abus, r.data)
    else m.Store(r.abus, r.data)
  }

  /** What a flat memory with its devices answers to a read. */
  function Answer(m: Main, r: Request): Word
    requires m.Valid()
  {
    if m.Covers(r.abus) then m.Fetch(r.abus) else r.device
  }

  /** Every cached cell but `except` holds what memory `m` holds. */
  ghost predicate Coherent(lines: seq<Line>, data: seq<Word>, cfg: Config, m: Main, except: int)
    requires cfg.Valid() && m.Valid() && |lines| == LINES && |data| == CELLS
  {
    forall a: Word | m.Covers(a) && cfg.Cached(a) && Hit(lines, a) && a / 4 != except ::
      data[DataIndex(a)] == m.Fetch(a)
  }

  predicate WellFormed(s: Sys, cfg: Config) {
    && cfg.Valid() && s.main.Valid() && |s.lines| == LINES && |s.data| == CELLS
    && (s.bstate.ReadCount? || s.bstate.WriteCount? ==> s.main.Covers(s.portaddr) && s.count >= 1)
    && (s.bstate.WriteCount? ==> s.port.Wr? || s.port.WrByte?)
  }

  const NONE := -1

  /** The state between two accesses. */
  ghost predicate Quiescent(s: Sys, cfg: Config) {
    && WellFormed(s, cfg) && s.cstate.Local? && !s.bstate.ReadCount?
    && Coherent(s.lines, s.data, cfg, Drain(s), NONE)
  }

  /** A read in progress on the bus is the read that request `r` asks for. */
  predicate Reading(s: Sys, r: Request) {
    s.bstate.ReadCount? ==> s.portaddr == r.abus && r.read && (s.port.Rd? || s.port.RdByte?)
  }

  /** The old cell and the mask held for a write that hit the cache. */
  predicate Held(s: Sys, r: Request, m: Main)
    requires m.Valid() && m.Covers(r.abus)
  {
    s.oldCached == m.Fetch(r.abus) && s.mask == if r.bytemode then OneByte(r.abus % 4) else WholeCell
  }

  /** The state in the middle of request `r`, which found the flat memory `m`. */
  ghost predicate During(s: Sys, cfg: Config, r: Request, m: Main) {
    && WellFormed(s, cfg) && r.Valid() && m.Valid() && Reading(s, r)
    && m.lowtop == s.main.lowtop && m.highbottom == s.main.highbottom
    && match s.cstate
       case Local =>
         && Drain(s) == m && Coherent(s.lines, s.data, cfg, m, NONE)
         && (s.bstate.ReadCount? ==> m.Covers(r.abus) && !cfg.Cached(r.abus))
       case NewBlock =>
         && Drain(s) == m && Coherent(s.lines, s.data, cfg, m, r.abus / 4) && r.read && m.Covers(r.abus)
       case NewData =>
         && Drain(s) == m && Coherent(s.lines, s.data, cfg, m, r.abus / 4) && r.read && m.Covers(r.abus) && BlockHit(s.lines, r.abus)
       case ReplaceData =>
         && !r.read && m.Covers(r.abus) && Drain(s) == Apply(m, r) && Held(s, r, m)
         && Coherent(s.lines, s.data, cfg, Drain(s), r.abus / 4) && Hit(s.lines, r.abus)
       case ReplaceDataWait =>
         && !r.read && m.Covers(r.abus) && Drain(s) == m && Held(s, r, m)
         && Coherent(s.lines, s.data, cfg, m, r.abus / 4) && Hit(s.lines, r.abus)
       case Invalidate =>
         && Drain(s) == m && Coherent(s.lines, s.data, cfg, m, NONE) && !m.Covers(r.abus) && TagBackdoor(r.abus)
         && !s.bstate.ReadCount?
  }

  /** What holds when request `r` completes. */
  ghost predicate Completed(s: Sys, cfg: Config, r: Request, m: Main) {
    && Quiescent(s, cfg) && m.Valid() && Drain(s) == Apply(m, r)
    && (r.read && (m.Covers(r.abus) || !TagBackdoor(r.abus)) ==> s.dbus == Answer(m, r))
  }

  /** An address is its tag, block index, sub-block index and byte. */
  lemma AddressParts(a: Word)
    ensures a / 4 == TagOf(a) * 1024 + Index(a) * 4 + SubIndex(a)
    ensures DataIndex(a) == Index(a) * 4 + SubIndex(a) && 0 <= SubIndex(a) < 4
  {
    var c := a / 4;
    Quarters(c);
    hide *;
    QuotientIs(a, 16, c / 4, 4 * (c % 4) + a % 4);
    QuotientIs(a, 4096, c / 1024, 4 * (c % 1024) + a % 4);
    AddressPartsAre(a);
  }

  lemma AddressPartsAre(a: Word)
    ensures Index(a) == (a / 16) % 256 && TagOf(a) == a / 4096 && SubIndex(a) == (a / 4) % 4 && DataIndex(a) == (a / 4) % 1024
  {
  }

  lemma Quarters(c: nat)
    ensures (c / 4) % 256 == (c % 1024) / 4 && c % 1024 == 4 * ((c % 1024) / 4) + c % 4 && 0 <= c % 1024
  {
    hide *;
    var t, u := c / 1024, c % 1024;
    assert c == 4 * (256 * t + u / 4) + u % 4;
    QuotientIs(c, 4, 256 * t + u / 4, u % 4);
    QuotientIs(c / 4, 256, t, u / 4);
  }

  /** Two addresses select the same block, the same tag and the same sub-block exactly when
      they lie in the same cell. */
  lemma CellOf(a: Word, b: Word)
    ensures Index(a) == Index(b) && TagOf(a) == TagOf(b) && SubIndex(a) == SubIndex(b) <==> a / 4 == b / 4
    ensures DataIndex(a) == DataIndex(b) <==> Index(a) == Index(b) && SubIndex(a) == SubIndex(b)
  {
    hide Index, TagOf, SubIndex, DataIndex;
    AddressParts(a);
    AddressParts(b);
  }

  // The bus unit

  /** What a bus cycle from `s` to `b` does to the flat memory and to the access in progress. */
  predicate BusEffect(s: Sys, b: Sys, cfg: Config, r: Request)
    requires WellFormed(s, cfg)
  {
    && WellFormed(b, cfg) && Reading(b, r)
    && b == s.(bstate := b.bstate, count := b.count, portaddr := b.portaddr, portvalue := b.portvalue,
               port := b.port, busidle := b.busidle, main := b.main, biustall := b.biustall)
    && b.main.lowtop == s.main.lowtop && b.main.highbottom == s.main.highbottom
    && (b.bstate.ReadCount? ==> b.biustall && (s.external || s.bstate.ReadCount?))
    && Drain(b) == (if s.external && s.bstate.First? then Apply(Drain(s), r) else Drain(s))
    && (s.external && !r.read ==> b.biustall == !s.bstate.First?)
    && (s.external && r.read && !b.biustall ==>
          s.main.Covers(r.abus) && b.portvalue == Drain(s).Fetch(r.abus) && b.bstate.First?)
  }

  /** The cycles for which the bus cannot yet take an access: the buffered write, or waking up. */
  function Ahead(s: Sys): nat {
    match s.bstate
    case Idle => 1
    case WriteCount => s.count
    case _ => 0
  }

  /** The cycles a read needs once the bus has taken it. */
  function Own(cfg: Config, a: Word): nat
    requires cfg.Valid()
  {
    if cfg.Waits(a) == WAITSPECIAL then 0 else cfg.Waits(a) + 1
  }

  function ReadLeft(s: Sys, cfg: Config, r: Request): nat
    requires cfg.Valid() && (s.bstate.ReadCount? ==> s.count >= 1)
  {
    if s.bstate.ReadCount? then s.count - 1 else Ahead(s) + Own(cfg, r.abus)
  }

  /** How long a bus cycle from `s` to `b` leaves to wait. */
  predicate BusTime(s: Sys, b: Sys, cfg: Config, r: Request)
    requires WellFormed(s, cfg) && WellFormed(b, cfg)
  {
    && (s.external && r.read ==>
          && b.biustall == (ReadLeft(s, cfg, r) > 0)
          && ReadLeft(b, cfg, r) == if b.biustall then ReadLeft(s, cfg, r) - 1 else Own(cfg, r.abus))
    && (s.external && !r.read ==>
          && b.biustall == (Ahead(s) > 0)
          && (b.biustall ==> Ahead(b) == Ahead(s) - 1))
    && (!s.external && !s.bstate.ReadCount? ==> !b.biustall && !b.bstate.ReadCount?)
  }

  lemma BusCycleFirst(s: Sys, cfg: Config, r: Request)
    requires WellFormed(s, cfg) && BusRunnable(s, cfg, r) && s.bstate.First?
    ensures BusEffect(s, Biu(s, cfg, r), cfg, r) && BusTime(s, Biu(s, cfg, r), cfg, r)
  {
  }

  lemma BusCycleIdle(s: Sys, cfg: Config, r: Request)
    requires WellFormed(s, cfg) && BusRunnable(s, cfg, r) && s.bstate.Idle?
    ensures BusEffect(s, Biu(s, cfg, r), cfg, r) && BusTime(s, Biu(s, cfg, r), cfg, r)
  {
    hide Main.Fetch, Config.Waits, Main.Covers;
  }

  lemma BusCycleRead(s: Sys, cfg: Config, r: Request)
    requires WellFormed(s, cfg) && BusRunnable(s, cfg, r) && Reading(s, r) && s.bstate.ReadCount?
    ensures BusEffect(s, Biu(s, cfg, r), cfg, r) && BusTime(s, Biu(s, cfg, r), cfg, r)
  {
    hide Main.Fetch, Config.Waits, Main.Store, Main.StoreByte, Main.Covers;
  }

  lemma BusCycleWrite(s: Sys, cfg: Config, r: Request)
    requires WellFormed(s, cfg) && BusRunnable(s, cfg, r) && s.bstate.WriteCount?
    ensures BusEffect(s, Biu(s, cfg, r), cfg, r) && BusTime(s, Biu(s, cfg, r), cfg, r)
  {
    hide Main.Fetch, Config.Waits, Main.Store, Main.StoreByte, Main.Covers;
  }

  lemma BusCycle(s: Sys, cfg: Config, r: Request)
    requires WellFormed(s, cfg) && BusRunnable(s, cfg, r) && Reading(s, r)
    ensures BusEffect(s, Biu(s, cfg, r), cfg, r) && BusTime(s, Biu(s, cfg, r), cfg, r)
  {
    match s.bstate {
      case First => BusCycleFirst(s, cfg, r);
      case Idle => BusCycleIdle(s, cfg, r);
      case ReadCount => BusCycleRead(s, cfg, r);
      case WriteCount => BusCycleWrite(s, cfg, r);
    }
    hide *;
  }

  // One cycle of an access

  /** The number of stalled cycles that request `r` still has before it. */
  function Remaining(s: Sys, cfg: Config, r: Request): nat
    requires WellFormed(s, cfg)
  {
    match s.cstate
    case Local =>
      if !s.main.Covers(r.abus) then (if TagBackdoor(r.abus) then 1 else 0)
      else if r.read then
        if !cfg.Cached(r.abus) then ReadLeft(s, cfg, r)
        else if Hit(s.lines, r.abus) then 0
        else Max(1, ReadLeft(s, cfg, r))
      else if cfg.Cached(r.abus) && Hit(s.lines, r.abus) then Max(1, Ahead(s))
      else Ahead(s)
    case NewBlock => ReadLeft(s, cfg, r)
    case NewData => ReadLeft(s, cfg, r)
    case ReplaceData => 0
    case ReplaceDataWait => Ahead(s)
    case Invalidate => 0
  }

  /** A cycle of request `r` from `s` to `s1`: either it stalls, one cycle nearer completion,
      or the request is complete. */
  ghost predicate Progress(s: Sys, s1: Sys, cfg: Config, r: Request, m: Main)
    requires WellFormed(s, cfg)
  {
    if Remaining(s, cfg, r) > 0 then
      s1.Stalled() && During(s1, cfg, r, m) && Remaining(s1, cfg, r) == Remaining(s, cfg, r) - 1
    else
      !s1.Stalled() && Completed(s1, cfg, r, m)
  }

  /** A store leaves the cache coherent wherever the stored cell itself is accounted for. */
  lemma CoherentStore(lines: seq<Line>, data: seq<Word>, cfg: Config, m: Main, r: Request)
    requires cfg.Valid() && m.Valid() && |lines| == LINES && |data| == CELLS
    requires Coherent(lines, data, cfg, m, r.abus / 4)
    ensures Coherent(lines, data, cfg, Apply(m, r), r.abus / 4)
    ensures !(cfg.Cached(r.abus) && Hit(lines, r.abus)) ==> Coherent(lines, data, cfg, Apply(m, r), NONE)
  {
    CoversKept(m, r);
    hide Index, SubIndex, TagOf, DataIndex, Main.Fetch, Main.Covers, Config.Cached, Apply, BlockHit, SubBlockPresent;
    forall a: Word | m.Covers(a) && cfg.Cached(a) && Hit(lines, a)
      ensures a / 4 != r.abus / 4 ==> data[DataIndex(a)] == Apply(m, r).Fetch(a)
      ensures a / 4 == r.abus / 4 ==> cfg.Cached(r.abus) && Hit(lines, r.abus)
    {
      if a / 4 == r.abus / 4 {
        SameCell(lines, cfg, a, r.abus);
      } else {
        StoreElsewhere(m, r, a);
      }
    }
  }

  lemma CoversKept(m: Main, r: Request)
    requires m.Valid()
    ensures forall a: Word :: Apply(m, r).Covers(a) <==> m.Covers(a)
  {
    hide Apply;
  }

  lemma StoreElsewhere(m: Main, r: Request, a: Word)
    requires m.Valid() && m.Covers(a) && a / 4 != r.abus / 4
    ensures Apply(m, r).Covers(a) && Apply(m, r).Fetch(a) == m.Fetch(a)
  {
    hide PutByte;
    if !r.read && m.Covers(r.abus) {
      FetchStore(m, r.abus, if r.bytemode then PutByte(m.Fetch(r.abus), r.abus % 4, r.data % 256) else r.data, a);
    }
  }

  lemma SameCell(lines: seq<Line>, cfg: Config, a: Word, b: Word)
    requires |lines| == LINES && cfg.Valid() && a / 4 == b / 4
    ensures Hit(lines, a) == Hit(lines, b) && cfg.Cached(a) == cfg.Cached(b)
  {
    CellOf(a, b);
    assert a / 0x1000_0000 == b / 0x1000_0000;
    hide Index, SubIndex, TagOf;
  }

  /** Writing the data RAM at the cell of `x`, whose block is there, disturbs no other cached cell. */
  lemma CoherentSet(lines: seq<Line>, data: seq<Word>, cfg: Config, m: Main, x: Word, v: Word)
    requires cfg.Valid() && m.Valid() && |lines| == LINES && |data| == CELLS
    requires Coherent(lines, data, cfg, m, x / 4) && BlockHit(lines, x)
    ensures Coherent(lines, data[DataIndex(x) := v], cfg, m, x / 4)
    ensures m.Covers(x) && v == m.Fetch(x) ==> Coherent(lines, data[DataIndex(x) := v], cfg, m, NONE)
  {
    hide Main.Fetch, Index, SubIndex, TagOf, DataIndex;
    forall a: Word | m.Covers(a) && cfg.Cached(a) && Hit(lines, a)
      ensures a / 4 != x / 4 ==> data[DataIndex(x) := v][DataIndex(a)] == m.Fetch(a)
      ensures m.Covers(x) && v == m.Fetch(x) ==> data[DataIndex(x) := v][DataIndex(a)] == m.Fetch(a)
    {
      CellOf(a, x);
      if a / 4 == x / 4 && m.Covers(x) {
        FetchSame(m, a, x);
      }
    }
  }

  /** Marking the cell of `x` present adds no other cached cell. */
  lemma CoherentMark(lines: seq<Line>, data: seq<Word>, cfg: Config, m: Main, x: Word, marked: seq<Line>)
    requires cfg.Valid() && m.Valid() && |lines| == LINES && |data| == CELLS
    requires Coherent(lines, data, cfg, m, x / 4)
    requires marked == AllocBlock(lines, x) || (BlockHit(lines, x) && marked == AddToBlock(lines, x))
    ensures Coherent(marked, data, cfg, m, x / 4) && Hit(marked, x)
  {
    forall a: Word | m.Covers(a) && cfg.Cached(a) && Hit(marked, a) && a / 4 != x / 4
      ensures data[DataIndex(a)] == m.Fetch(a)
    {
      CellOf(a, x);
    }
  }

  lemma CoherentWeaken(lines: seq<Line>, data: seq<Word>, cfg: Config, m: Main, x: Word)
    requires cfg.Valid() && m.Valid() && |lines| == LINES && |data| == CELLS
    requires Coherent(lines, data, cfg, m, NONE)
    ensures Coherent(lines, data, cfg, m, x / 4)
    ensures Coherent(DeallocBlock(lines, x), data, cfg, m, NONE)
    ensures m.Covers(x) && cfg.Cached(x) && Hit(lines, x) ==> data[DataIndex(x)] == m.Fetch(x)
  {
    forall a: Word | m.Covers(a) && cfg.Cached(a) && Hit(DeallocBlock(lines, x), a)
      ensures data[DataIndex(a)] == m.Fetch(a)
    {
      assert Hit(lines, a);
    }
  }

  /** The held cell with the written bytes merged in is the cell as memory will hold it. */
  lemma MergeIsStore(s: Sys, r: Request, m: Main)
    requires m.Valid() && m.Covers(r.abus) && Held(s, r, m) && r.Valid() && !r.read
    ensures Merge(s.oldCached, s.mask, r.data) == Apply(m, r).Fetch(r.abus)
  {
    if r.bytemode {
      SpreadBytes(r.data % 256, r.abus % 4);
      FetchStore(m, r.abus, PutByte(m.Fetch(r.abus), r.abus % 4, r.data % 256), r.abus);
    } else {
      FetchStore(m, r.abus, r.data, r.abus);
    }
  }

  // Each path, given what the bus cycle did

  lemma FillStep(s: Sys, b: Sys, cfg: Config, r: Request, m: Main)
    requires During(s, cfg, r, m) && (s.cstate.NewBlock? || s.cstate.NewData?)
    requires BusEffect(Prepare(s, cfg, r), b, cfg, r) && BusTime(Prepare(s, cfg, r), b, cfg, r)
    ensures Progress(s, Settle(PathOf(s, cfg, r), b, r), cfg, r, m)
  {
    hide Settled, Main.Fetch, Main.Store, Main.StoreByte, Coherent, Index, SubIndex, TagOf, DataIndex;
    CoherentMark(s.lines, s.data, cfg, m, r.abus, b.lines);
    CoherentSet(b.lines, b.data, cfg, m, r.abus, b.portvalue);
  }

  lemma ReplaceStep(s: Sys, b: Sys, cfg: Config, r: Request, m: Main)
    requires During(s, cfg, r, m) && s.cstate.ReplaceData?
    requires BusEffect(Prepare(s, cfg, r), b, cfg, r) && BusTime(Prepare(s, cfg, r), b, cfg, r)
    ensures Progress(s, Settle(PathOf(s, cfg, r), b, r), cfg, r, m)
  {
    hide Settled, Main.Fetch, Main.Store, Main.StoreByte, Merge, Coherent, Index, SubIndex, TagOf, DataIndex;
    CoherentMark(s.lines, s.data, cfg, Apply(m, r), r.abus, b.lines);
    MergeIsStore(b, r, m);
    CoherentSet(b.lines, b.data, cfg, Apply(m, r), r.abus, Merge(b.oldCached, b.mask, r.data));
  }

  lemma ReplaceWaitStep(s: Sys, b: Sys, cfg: Config, r: Request, m: Main)
    requires During(s, cfg, r, m) && s.cstate.ReplaceDataWait?
    requires BusEffect(Prepare(s, cfg, r), b, cfg, r) && BusTime(Prepare(s, cfg, r), b, cfg, r)
    ensures Progress(s, Settle(PathOf(s, cfg, r), b, r), cfg, r, m)
  {
    hide Settled, Main.Fetch, Main.Store, Main.StoreByte, Merge, Coherent, Index, SubIndex, TagOf, DataIndex;
    var v := Merge(b.oldCached, b.mask, r.data);
    CoherentMark(s.lines, s.data, cfg, m, r.abus, b.lines);
    MergeIsStore(b, r, m);
    CoherentSet(b.lines, b.data, cfg, m, r.abus, v);
    CoherentStore(b.lines, b.data, cfg, m, r);
    CoherentSet(b.lines, b.data, cfg, Apply(m, r), r.abus, v);
  }

  lemma InvalidateStep(s: Sys, b: Sys, cfg: Config, r: Request, m: Main)
    requires During(s, cfg, r, m) && s.cstate.Invalidate?
    requires BusEffect(Prepare(s, cfg, r), b, cfg, r) && BusTime(Prepare(s, cfg, r), b, cfg, r)
    ensures Progress(s, Settle(PathOf(s, cfg, r), b, r), cfg, r, m)
  {
    hide Settled, Main.Fetch, Main.Store, Main.StoreByte, Coherent, Index, SubIndex, TagOf, DataIndex;
    CoherentWeaken(s.lines, s.data, cfg, m, r.abus);
  }

  /** The controller never asks the bus for an access it cannot make. */
  lemma PrepareReady(s: Sys, cfg: Config, r: Request)
    requires WellFormed(s, cfg) && Runnable(s, cfg, r) && Reading(s, r)
    ensures var p := Prepare(s, cfg, r);
            WellFormed(p, cfg) && BusRunnable(p, cfg, r) && Reading(p, r)
  {
    hide BlockHit, SubBlockPresent, Config.Cached;
  }

  lemma LocalElsewhereStep(s: Sys, b: Sys, cfg: Config, r: Request, m: Main)
    requires During(s, cfg, r, m) && s.cstate.Local? && !m.Covers(r.abus)
    requires BusEffect(Prepare(s, cfg, r), b, cfg, r) && BusTime(Prepare(s, cfg, r), b, cfg, r)
    ensures Progress(s, Settle(PathOf(s, cfg, r), b, r), cfg, r, m)
  {
    hide Settled, Main.Fetch, Main.Store, Main.StoreByte, Coherent, Index, SubIndex, TagOf, DataIndex;
  }

  lemma UncachedReadStep(s: Sys, b: Sys, cfg: Config, r: Request, m: Main)
    requires During(s, cfg, r, m) && s.cstate.Local? && r.read && m.Covers(r.abus) && !cfg.Cached(r.abus)
    requires BusEffect(Prepare(s, cfg, r), b, cfg, r) && BusTime(Prepare(s, cfg, r), b, cfg, r)
    ensures Progress(s, Settle(PathOf(s, cfg, r), b, r), cfg, r, m)
  {
    hide Settled, Main.Fetch, Main.Store, Main.StoreByte, Coherent, BlockHit, SubBlockPresent, Config.Cached;
  }

  lemma CachedHitStep(s: Sys, b: Sys, cfg: Config, r: Request, m: Main)
    requires During(s, cfg, r, m) && s.cstate.Local? && r.read && m.Covers(r.abus) && cfg.Cached(r.abus) && Hit(s.lines, r.abus)
    requires BusEffect(Prepare(s, cfg, r), b, cfg, r) && BusTime(Prepare(s, cfg, r), b, cfg, r)
    requires s.data[DataIndex(r.abus)] == m.Fetch(r.abus)
    ensures Progress(s, Settle(PathOf(s, cfg, r), b, r), cfg, r, m)
  {
    hide Settled, Main.Fetch, Main.Store, Main.StoreByte, Coherent, BlockHit, SubBlockPresent, Config.Cached;
  }

  lemma CachedMissStep(s: Sys, b: Sys, cfg: Config, r: Request, m: Main)
    requires During(s, cfg, r, m) && s.cstate.Local? && r.read && m.Covers(r.abus) && cfg.Cached(r.abus) && !Hit(s.lines, r.abus)
    requires BusEffect(Prepare(s, cfg, r), b, cfg, r) && BusTime(Prepare(s, cfg, r), b, cfg, r)
    requires Coherent(s.lines, s.data, cfg, m, r.abus / 4)
    ensures Progress(s, Settle(PathOf(s, cfg, r), b, r), cfg, r, m)
  {
    hide Settled, Main.Fetch, Main.Store, Main.StoreByte, Coherent, BlockHit, SubBlockPresent, Config.Cached;
  }

  lemma CachedReadStep(s: Sys, b: Sys, cfg: Config, r: Request, m: Main)
    requires During(s, cfg, r, m) && s.cstate.Local? && r.read && m.Covers(r.abus) && cfg.Cached(r.abus)
    requires BusEffect(Prepare(s, cfg, r), b, cfg, r) && BusTime(Prepare(s, cfg, r), b, cfg, r)
    ensures Progress(s, Settle(PathOf(s, cfg, r), b, r), cfg, r, m)
  {
    CoherentWeaken(s.lines, s.data, cfg, m, r.abus);
    if Hit(s.lines, r.abus) {
      CachedHitStep(s, b, cfg, r, m);
    } else {
      CachedMissStep(s, b, cfg, r, m);
    }
    hide *;
  }

  lemma LocalWriteStep(s: Sys, b: Sys, cfg: Config, r: Request, m: Main)
    requires During(s, cfg, r, m) && s.cstate.Local? && !r.read && m.Covers(r.abus)
    requires BusEffect(Prepare(s, cfg, r), b, cfg, r) && BusTime(Prepare(s, cfg, r), b, cfg, r)
    ensures Progress(s, Settle(PathOf(s, cfg, r), b, r), cfg, r, m)
  {
    hide Settled, Main.Fetch, Main.Store, Main.StoreByte, Coherent, Index, SubIndex, TagOf, DataIndex;
    CoherentWeaken(s.lines, s.data, cfg, m, r.abus);
    CoherentStore(s.lines, s.data, cfg, m, r);
  }

  /** One cycle of an access in progress: it stalls one cycle nearer completion, or completes
      with the flat memory's answer and effect. */
  lemma AccessCycle(s: Sys, cfg: Config, r: Request, m: Main)
    requires During(s, cfg, r, m)
    ensures Progress(s, Iodecode(s, cfg, r), cfg, r, m)
  {
    PrepareReady(s, cfg, r);
    hide Biu, Progress, BusEffect, BusTime, Settle, Prepare, PathOf, Coherent, Drain, Remaining;
    BusCycle(Prepare(s, cfg, r), cfg, r);
    var b := Biu(Prepare(s, cfg, r), cfg, r);
    match s.cstate {
      case Local =>
        if !m.Covers(r.abus) { LocalElsewhereStep(s, b, cfg, r, m); }
        else if r.read && cfg.Cached(r.abus) { CachedReadStep(s, b, cfg, r, m); }
        else if r.read { UncachedReadStep(s, b, cfg, r, m); }
        else { LocalWriteStep(s, b, cfg, r, m); }
      case NewBlock => FillStep(s, b, cfg, r, m);
      case NewData => FillStep(s, b, cfg, r, m);
      case ReplaceData => ReplaceStep(s, b, cfg, r, m);
      case ReplaceDataWait => ReplaceWaitStep(s, b, cfg, r, m);
      case Invalidate => InvalidateStep(s, b, cfg, r, m);
    }
  }

  // Whole accesses

  /** The state in which request `r` completes: the cycle is repeated while it stalls. */
  ghost function Complete(s: Sys, cfg: Config, r: Request, m: Main): (s': Sys)
    requires During(s, cfg, r, m)
    ensures !s'.Stalled()
    decreases Remaining(s, cfg, r)
  {
    AccessCycle(s, cfg, r, m);
    var s1 := Iodecode(s, cfg, r);
    if s1.Stalled() then Complete(s1, cfg, r, m) else s1
  }

  /** The cycles on which request `r` stalls. */
  ghost function Stalls(s: Sys, cfg: Config, r: Request, m: Main): nat
    requires During(s, cfg, r, m)
    decreases Remaining(s, cfg, r)
  {
    AccessCycle(s, cfg, r, m);
    var s1 := Iodecode(s, cfg, r);
    if s1.Stalled() then 1 + Stalls(s1, cfg, r, m) else 0
  }

  /** Every access completes, with the answer and the effect that a flat memory would give. */
  lemma {:induction false} AccessCompletes(s: Sys, cfg: Config, r: Request, m: Main)
    requires During(s, cfg, r, m)
    ensures Completed(Complete(s, cfg, r, m), cfg, r, m)
    decreases Remaining(s, cfg, r)
  {
    assert Runnable(s, cfg, r);
    hide During, Completed, Iodecode, Remaining;
    AccessCycle(s, cfg, r, m);
    if Iodecode(s, cfg, r).Stalled() {
      AccessCompletes(Iodecode(s, cfg, r), cfg, r, m);
    }
  }

  /** A stall lasts exactly as long as the buffered write and the access itself need. */
  lemma {:induction false} StallTime(s: Sys, cfg: Config, r: Request, m: Main)
    requires During(s, cfg, r, m)
    ensures Stalls(s, cfg, r, m) == Remaining(s, cfg, r)
    decreases Remaining(s, cfg, r)
  {
    assert Runnable(s, cfg, r);
    hide During, Completed, Iodecode, Remaining;
    AccessCycle(s, cfg, r, m);
    if Iodecode(s, cfg, r).Stalled() {
      StallTime(Iodecode(s, cfg, r), cfg, r, m);
    }
  }

  /** An access that finds the bus quiescent. */
  lemma AccessBegins(s: Sys, cfg: Config, r: Request)
    requires Quiescent(s, cfg) && r.Valid()
    ensures During(s, cfg, r, Drain(s))
  {
  }

  /** The stall of an access that finds the bus quiescent is bounded by the wait count of the
      buffered write and its own. */
  lemma StallBound(s: Sys, cfg: Config, r: Request)
    requires Quiescent(s, cfg) && r.Valid() && During(s, cfg, r, Drain(s))
    ensures Stalls(s, cfg, r, Drain(s)) <= Max(1, Ahead(s) + if r.read then Own(cfg, r.abus) else 0)
    ensures r.read && s.main.Covers(r.abus) && cfg.Cached(r.abus) && Hit(s.lines, r.abus) ==> Stalls(s, cfg, r, Drain(s)) == 0
  {
    StallTime(s, cfg, r, Drain(s));
    hide During, Drain, Coherent;
  }

  // Whole runs

  datatype Outcome<S> = Outcome(answers: seq<Word>, final: S)

  /** The data bus at the end of each request, and the final state. */
  ghost function Run(s: Sys, cfg: Config, rs: seq<Request>): Outcome<Sys>
    requires Quiescent(s, cfg) && forall r | r in rs :: r.Valid()
    decreases |rs|
  {
    if rs == [] then Outcome([], s)
    else
      AccessBegins(s, cfg, rs[0]);
      AccessCompletes(s, cfg, rs[0], Drain(s));
      var s1 := Complete(s, cfg, rs[0], Drain(s));
      var rest := Run(s1, cfg, rs[1..]);
      Outcome([s1.dbus] + rest.answers, rest.final)
  }

  /** The flat memory after the requests `rs`. */
  function FlatAfter(m: Main, rs: seq<Request>): (m': Main)
    requires m.Valid()
    ensures m'.Valid() && m'.lowtop == m.lowtop && m'.highbottom == m.highbottom
    decreases |rs|
  {
    if rs == [] then m else FlatAfter(Apply(m, rs[0]), rs[1..])
  }

  /** The cache, the write buffer and external memory together are a flat memory: on every
      sequence of ordinary requests every read answers as the flat memory would at that point. */
  lemma {:induction false} CacheRefinesMemory(s: Sys, cfg: Config, rs: seq<Request>)
    requires Quiescent(s, cfg) && forall r | r in rs :: r.Valid() && Ordinary(s.main, r.abus, r.read)
    ensures |Run(s, cfg, rs).answers| == |rs|
    ensures Quiescent(Run(s, cfg, rs).final, cfg)
    ensures Drain(Run(s, cfg, rs).final) == FlatAfter(Drain(s), rs)
    ensures forall i | 0 <= i < |rs| && rs[i].read && (s.main.Covers(rs[i].abus) || !TagBackdoor(rs[i].abus)) ::
              Run(s, cfg, rs).answers[i] == Answer(FlatAfter(Drain(s), rs[..i]), rs[i])
    decreases |rs|
  {
    if rs == [] {
      RunNone(s, cfg);
    } else {
      var m, r0 := Drain(s), rs[0];
      RunFirst(s, cfg, rs);
      var s1 := Complete(s, cfg, r0, m);
      FlatFirst(m, rs);
      hide *;
      CacheRefinesMemory(s1, cfg, rs[1..]);
      forall i | 0 <= i < |rs| && rs[i].read && (s.main.Covers(rs[i].abus) || !TagBackdoor(rs[i].abus))
        ensures Run(s, cfg, rs).answers[i] == Answer(FlatAfter(m, rs[..i]), rs[i])
      {
        if i > 0 {
          assert rs[1..][i - 1] == rs[i] && rs[1..][..i - 1] == rs[1..i];
        }
      }
    }
  }

  lemma {:induction false} RunNone(s: Sys, cfg: Config)
    requires Quiescent(s, cfg)
    ensures Run(s, cfg, []) == Outcome([], s) && FlatAfter(Drain(s), []) == Drain(s)
  {
    hide Quiescent;
  }

  lemma {:induction false} RunFirst(s: Sys, cfg: Config, rs: seq<Request>)
    requires Quiescent(s, cfg) && rs != [] && forall r | r in rs :: r.Valid()
    ensures During(s, cfg, rs[0], Drain(s))
    ensures var s1 := Complete(s, cfg, rs[0], Drain(s));
            && Quiescent(s1, cfg) && Drain(s1) == Apply(Drain(s), rs[0])
            && s1.main.lowtop == s.main.lowtop && s1.main.highbottom == s.main.highbottom
            && (forall a: Word :: s1.main.Covers(a) <==> s.main.Covers(a))
            && (rs[0].read && (s.main.Covers(rs[0].abus) || !TagBackdoor(rs[0].abus)) ==> s1.dbus == Answer(Drain(s), rs[0]))
            && Run(s, cfg, rs).answers == [s1.dbus] + Run(s1, cfg, rs[1..]).answers
            && Run(s, cfg, rs).final == Run(s1, cfg, rs[1..]).final
  {
    AccessBegins(s, cfg, rs[0]);
    AccessCompletes(s, cfg, rs[0], Drain(s));
    hide During, Coherent, Remaining, Apply, TagBackdoor;
  }

  lemma {:induction false} FlatFirst(m: Main, rs: seq<Request>)
    requires m.Valid() && rs != []
    ensures FlatAfter(m, rs) == FlatAfter(Apply(m, rs[0]), rs[1..])
    ensures FlatAfter(m, rs[..0]) == m
    ensures forall i | 0 < i <= |rs| :: FlatAfter(m, rs[..i]) == FlatAfter(Apply(m, rs[0]), rs[1..i])
  {
    hide Apply;
    forall i | 0 < i <= |rs|
      ensures FlatAfter(m, rs[..i]) == FlatAfter(Apply(m, rs[0]), rs[1..i])
    {
      assert rs[..i][1..] == rs[1..i];
    }
  }

  /** A cell after the requests `rs`, told from the stores to that cell alone. */
  function CellAfter(rs: seq<Request>, w: Word, a: Word): Word {
    if rs == [] then w
    else
      var before := CellAfter(rs[..|rs| - 1], w, a);
      var r := rs[|rs| - 1];
      if r.read || r.abus / 4 != a / 4 then before
      else if r.bytemode then PutByte(before, r.abus % 4, r.data % 256)
      else r.data
  }

  lemma {:induction false} FlatAfterLast(m: Main, rs: seq<Request>)
    requires m.Valid() && rs != []
    ensures FlatAfter(m, rs) == Apply(FlatAfter(m, rs[..|rs| - 1]), rs[|rs| - 1])
    decreases |rs|
  {
    hide Apply;
    if |rs| > 1 {
      FlatAfterLast(Apply(m, rs[0]), rs[1..]);
      assert rs[1..][..|rs| - 2] == rs[..|rs| - 1][1..];
    }
  }

  /** The flat memory holds in each cell the latest word stored there with the later byte
      stores to it, and nothing else. */
  lemma {:induction false} FlatIsLatest(m: Main, rs: seq<Request>, a: Word)
    requires m.Valid() && m.Covers(a)
    requires forall r | r in rs && !r.read && r.abus / 4 == a / 4 :: m.Covers(r.abus)
    ensures FlatAfter(m, rs).Fetch(a) == CellAfter(rs, m.Fetch(a), a)
  {
    if rs != [] {
      var n := |rs| - 1;
      FlatAfterLast(m, rs);
      FlatIsLatest(m, rs[..n], a);
      var before := FlatAfter(m, rs[..n]);
      hide PutByte;
      if !rs[n].read && before.Covers(rs[n].abus) {
        if rs[n].abus / 4 == a / 4 {
          FetchSame(before, rs[n].abus, a);
        }
        FetchStore(before, rs[n].abus, if rs[n].bytemode then PutByte(before.Fetch(rs[n].abus), rs[n].abus % 4, rs[n].data % 256) else rs[n].data, a);
      }
    }
  }

  /** A byte after the requests `rs`, told from the stores that reach it. */
  function ByteAfter(rs: seq<Request>, b: Byte, a: Word): Byte {
    if rs == [] then b
    else
      var before := ByteAfter(rs[..|rs| - 1], b, a);
      var r := rs[|rs| - 1];
      if r.read || r.abus / 4 != a / 4 then before
      else if !r.bytemode then ByteAt(r.data, a % 4)
      else if r.abus == a then r.data % 256
      else before
  }

  lemma {:induction false} CellBytes(rs: seq<Request>, w: Word, a: Word)
    ensures ByteAt(CellAfter(rs, w, a), a % 4) == ByteAfter(rs, ByteAt(w, a % 4), a)
  {
    if rs != [] {
      var n := |rs| - 1;
      CellBytes(rs[..n], w, a);
      PutByteBytes(CellAfter(rs[..n], w, a), rs[n].abus % 4, rs[n].data % 256, a % 4);
      hide ByteAt, PutByte;
      assert rs[n].abus / 4 == a / 4 ==> (rs[n].abus % 4 == a % 4 <==> rs[n].abus == a);
    }
  }

  /** Each byte of the flat memory is the latest stored there, alone or in its word. */
  lemma {:induction false} BytesAreLatest(m: Main, rs: seq<Request>, a: Word)
    requires m.Valid() && m.Covers(a)
    requires forall r | r in rs && !r.read && r.abus / 4 == a / 4 :: m.Covers(r.abus)
    ensures ByteAt(FlatAfter(m, rs).Fetch(a), a % 4) == ByteAfter(rs, ByteAt(m.Fetch(a), a % 4), a)
  {
    FlatIsLatest(m, rs, a);
    CellBytes(rs, m.Fetch(a), a);
    hide *;
  }

  /** With an empty tag RAM and an idle bus the cache is coherent, whatever the data RAM holds. */
  lemma EmptyIsQuiescent(s: Sys, cfg: Config)
    requires WellFormed(s, cfg) && s.cstate.Local? && s.bstate.Idle?
    requires forall i | 0 <= i < LINES :: s.lines[i].present == {}
    ensures Quiescent(s, cfg)
  {
    forall a: Word
      ensures !Hit(s.lines, a)
    {
      assert s.lines[Index(a)].present == {};
    }
  }

  // Setting the cache up

  predicate NothingCached(lines: seq<Line>) {
    forall i | 0 <= i < |lines| :: lines[i].present == {}
  }

  /** While no sub-block is marked present, page attributes and the cache enable bit may change. */
  lemma {:induction false} SetUp(s: Sys, cfg: Config, next: Config)
    requires Quiescent(s, cfg) && NothingCached(s.lines) && next.Valid()
    ensures Quiescent(s, next)
  {
    forall a: Word
      ensures !Hit(s.lines, a)
    {
      assert s.lines[Index(a)].present == {};
    }
  }

  lemma {:induction false} DisabledPrepares(s: Sys, cfg: Config, r: Request)
    requires Runnable(s, cfg, r) && !cfg.cacheEnabled && NothingCached(s.lines)
    requires s.cstate.Local? || s.cstate.Invalidate?
    ensures PathOf(s, cfg, r) in {External, Backdoor, Elsewhere, Invalidating} && NothingCached(Prepare(s, cfg, r).lines)
  {
    hide Index, SubIndex, TagOf, Main.Covers, TagBackdoor, Config.Waits;
  }

  lemma {:induction false} DisabledCycle(s: Sys, cfg: Config, r: Request)
    requires Runnable(s, cfg, r) && !cfg.cacheEnabled && NothingCached(s.lines)
    requires s.cstate.Local? || s.cstate.Invalidate?
    ensures var s1 := Iodecode(s, cfg, r);
            NothingCached(s1.lines) && (s1.cstate.Local? || s1.cstate.Invalidate?)
  {
    DisabledPrepares(s, cfg, r);
    hide Biu, Index, SubIndex, TagOf, NothingCached, PathOf, Prepare, Runnable;
  }

  /** With the cache off nothing is cached. */
  lemma {:induction false} DisabledAccess(s: Sys, cfg: Config, r: Request, m: Main)
    requires During(s, cfg, r, m) && !cfg.cacheEnabled && NothingCached(s.lines)
    requires s.cstate.Local? || s.cstate.Invalidate?
    ensures NothingCached(Complete(s, cfg, r, m).lines)
    decreases Remaining(s, cfg, r)
  {
    assert Runnable(s, cfg, r);
    hide During, Completed, Iodecode, Remaining, NothingCached;
    AccessCycle(s, cfg, r, m);
    DisabledCycle(s, cfg, r);
    if Iodecode(s, cfg, r).Stalled() {
      DisabledAccess(Iodecode(s, cfg, r), cfg, r, m);
    }
  }

  /** From power-up with the cache off, after any accesses, the cache can be turned on. */
  lemma {:induction false} CacheTurnsOn(s: Sys, cfg: Config, rs: seq<Request>, on: Config)
    requires Quiescent(s, cfg) && !cfg.cacheEnabled && NothingCached(s.lines) && on.Valid()
    requires forall r | r in rs :: r.Valid()
    ensures Quiescent(Run(s, cfg, rs).final, cfg) && Quiescent(Run(s, cfg, rs).final, on)
    decreases |rs|
  {
    if rs == [] {
      SetUp(s, cfg, on);
    } else {
      assert s.cstate.Local?;
      hide During, Coherent, Remaining, Apply, NothingCached, Quiescent, Completed;
      AccessBegins(s, cfg, rs[0]);
      AccessCompletes(s, cfg, rs[0], Drain(s));
      DisabledAccess(s, cfg, rs[0], Drain(s));
      CompletedIsQuiescent(Complete(s, cfg, rs[0], Drain(s)), cfg, rs[0], Drain(s));
      CacheTurnsOn(Complete(s, cfg, rs[0], Drain(s)), cfg, rs[1..], on);
    }
  }

  lemma {:induction false} CompletedIsQuiescent(s: Sys, cfg: Config, r: Request, m: Main)
    requires Completed(s, cfg, r, m)
    ensures Quiescent(s, cfg)
  {
  }

  // What the page attributes do, from the attribute word: 64 says cached, below it the wait states

  /** The cycles of an access on a page with that attribute: wait states and one, or none for 63. */
  function PageCycles(attribute: Word): nat {
    if attribute % 64 == 63 then 0 else attribute % 64 + 1
  }

  lemma {:induction false} PageMeans(cfg: Config, a: Word)
    requires cfg.Valid()
    ensures var w := cfg.attributes[a / 0x1000_0000];
            (cfg.Cached(a) <==> cfg.cacheEnabled && w % 128 >= 64) && Own(cfg, a) == PageCycles(w)
  {
    SecondBit(cfg.attributes[a / 0x1000_0000]);
  }

  lemma {:induction false} SecondBit(w: Word)
    ensures (w / 64) % 2 == 1 <==> w % 128 >= 64
  {
    assert w % 128 == 64 * ((w / 64) % 2) + w % 64;
  }

  /** The exact stall of an access, from its page's attribute. */
  lemma {:induction false} PageStalls(s: Sys, cfg: Config, r: Request)
    requires Quiescent(s, cfg) && r.Valid() && s.main.Covers(r.abus)
    ensures During(s, cfg, r, Drain(s))
    ensures var w := cfg.attributes[r.abus / 0x1000_0000];
            var hit := cfg.cacheEnabled && w % 128 >= 64 && Hit(s.lines, r.abus);
            Stalls(s, cfg, r, Drain(s)) ==
              if !r.read then (if hit then Max(1, Ahead(s)) else Ahead(s))
              else if !cfg.cacheEnabled || w % 128 < 64 then Ahead(s) + PageCycles(w)
              else if hit then 0
              else Max(1, Ahead(s) + PageCycles(w))
  {
    AccessBegins(s, cfg, r);
    StallTime(s, cfg, r, Drain(s));
    PageMeans(cfg, r.abus);
    hide During, Drain, Coherent, Config.Cached, Own, PageCycles, Hit;
  }

  /** An access of a page that is not cached leaves the tag RAM and the data RAM alone. */
  lemma {:induction false} UncachedPage(s: Sys, cfg: Config, r: Request)
    requires Quiescent(s, cfg) && r.Valid() && s.main.Covers(r.abus)
    requires !cfg.cacheEnabled || cfg.attributes[r.abus / 0x1000_0000] % 128 < 64
    ensures During(s, cfg, r, Drain(s))
    ensures var s1 := Complete(s, cfg, r, Drain(s)); s1.lines == s.lines && s1.data == s.data
    ensures !r.read ==> Ahead(Complete(s, cfg, r, Drain(s))) == PageCycles(cfg.attributes[r.abus / 0x1000_0000])
  {
    AccessBegins(s, cfg, r);
    PageMeans(cfg, r.abus);
    UncachedKeeps(s, cfg, r, Drain(s));
    hide *;
  }

  lemma {:induction false} UncachedKeeps(s: Sys, cfg: Config, r: Request, m: Main)
    requires During(s, cfg, r, m) && s.cstate.Local? && m.Covers(r.abus) && !cfg.Cached(r.abus)
    ensures var s1 := Complete(s, cfg, r, m); s1.lines == s.lines && s1.data == s.data
    ensures !r.read ==> Ahead(Complete(s, cfg, r, m)) == Own(cfg, r.abus)
    decreases Remaining(s, cfg, r)
  {
    AccessCycle(s, cfg, r, m);
    UncachedCycle(s, cfg, r);
    assert Runnable(s, cfg, r) && s.main.Covers(r.abus);
    hide During, Completed, Iodecode, Remaining, Own, Ahead;
    if Iodecode(s, cfg, r).Stalled() {
      UncachedKeeps(Iodecode(s, cfg, r), cfg, r, m);
    }
  }

  lemma {:induction false} UncachedCycle(s: Sys, cfg: Config, r: Request)
    requires Runnable(s, cfg, r) && s.cstate.Local? && s.main.Covers(r.abus) && !cfg.Cached(r.abus)
    ensures var s1 := Iodecode(s, cfg, r);
            && s1.cstate.Local? && s1.lines == s.lines && s1.data == s.data
            && (!r.read && !s1.Stalled() && !s.bstate.ReadCount? ==> Ahead(s1) == Own(cfg, r.abus))
  {
    assert PathOf(s, cfg, r) == External;
    assert Prepare(s, cfg, r) == s.(cachestall := false, external := true);
    if !r.read && !s.bstate.ReadCount? {
      WriteTaken(Prepare(s, cfg, r), cfg, r);
    }
    hide Biu, PathOf, Prepare, Own, Config.Cached, BlockHit, SubBlockPresent;
  }

  lemma {:induction false} WriteTaken(s: Sys, cfg: Config, r: Request)
    requires BusRunnable(s, cfg, r) && s.external && !r.read && !s.bstate.ReadCount?
    ensures var b := Biu(s, cfg, r); !b.biustall ==> Ahead(b) == Own(cfg, r.abus)
  {
    hide Main.Store, Main.StoreByte, Main.Fetch;
  }

  /** Once a cell of a cached page has been read, reading it again does not stall. */
  lemma {:induction false} SecondRead(s: Sys, cfg: Config, r: Request, again: Request)
    requires Quiescent(s, cfg) && r.Valid() && s.main.Covers(r.abus) && r.read
    requires cfg.cacheEnabled && cfg.attributes[r.abus / 0x1000_0000] % 128 >= 64
    requires again.read && again.abus / 4 == r.abus / 4 && s.main.Covers(again.abus)
    ensures During(s, cfg, r, Drain(s))
    ensures var s1 := Complete(s, cfg, r, Drain(s));
            && Quiescent(s1, cfg) && During(s1, cfg, again, Drain(s1)) && Stalls(s1, cfg, again, Drain(s1)) == 0
  {
    AccessBegins(s, cfg, r);
    AccessCompletes(s, cfg, r, Drain(s));
    PageMeans(cfg, r.abus);
    FillHits(s, cfg, r, Drain(s));
    var s1 := Complete(s, cfg, r, Drain(s));
    SameCell(s1.lines, cfg, again.abus, r.abus);
    PageMeans(cfg, again.abus);
    ReadValid(again);
    PageStalls(s1, cfg, again);
    hide Config.Cached, BlockHit, SubBlockPresent, Coherent, During, Remaining, Stalls, Complete, Drain;
  }

  lemma {:induction false} ReadValid(r: Request)
    requires r.read
    ensures r.Valid()
  {
  }

  lemma {:induction false} FillHits(s: Sys, cfg: Config, r: Request, m: Main)
    requires During(s, cfg, r, m) && r.read && m.Covers(r.abus) && cfg.Cached(r.abus)
    requires s.cstate.Local? || s.cstate.NewBlock? || s.cstate.NewData?
    ensures |Complete(s, cfg, r, m).lines| == LINES && Hit(Complete(s, cfg, r, m).lines, r.abus)
    decreases Remaining(s, cfg, r)
  {
    AccessCycle(s, cfg, r, m);
    FillCycle(s, cfg, r, m);
    assert Runnable(s, cfg, r);
    hide During, Completed, Iodecode, Remaining, Hit, Config.Cached;
    if Iodecode(s, cfg, r).Stalled() {
      FillHits(Iodecode(s, cfg, r), cfg, r, m);
    }
  }

  lemma {:induction false} FillCycle(s: Sys, cfg: Config, r: Request, m: Main)
    requires During(s, cfg, r, m) && r.read && m.Covers(r.abus) && cfg.Cached(r.abus)
    requires s.cstate.Local? || s.cstate.NewBlock? || s.cstate.NewData?
    ensures var s1 := Iodecode(s, cfg, r);
            && |s1.lines| == LINES
            && (if s1.Stalled() then s1.cstate.NewBlock? || s1.cstate.NewData? else Hit(s1.lines, r.abus))
  {
    AccessCycle(s, cfg, r, m);
    FillPath(s, cfg, r);
    hide Biu, Config.Cached, Coherent, Drain, Main.Fetch, DataIndex, Completed, PathOf, Prepare, BlockHit, SubBlockPresent, Hit;
  }

  /** A read of a cached page marks its cell, unless the tag RAM has it already. */
  lemma {:induction false} FillPath(s: Sys, cfg: Config, r: Request)
    requires Runnable(s, cfg, r) && r.read && s.main.Covers(r.abus) && cfg.Cached(r.abus)
    requires s.cstate.NewData? ==> BlockHit(s.lines, r.abus)
    requires s.cstate.Local? || s.cstate.NewBlock? || s.cstate.NewData?
    ensures var p, lines := PathOf(s, cfg, r), Prepare(s, cfg, r).lines;
            && |lines| == LINES
            && (p.ReadHit? || p.Allocating? || p.Adding? ==> Hit(lines, r.abus))
            && (p.ReadHit? || p.BlockMiss? || p.SubBlockMiss? || p.Allocating? || p.Adding?)
            && (p.ReadHit? ==> Hit(s.lines, r.abus) && s.cstate.Local?)
  {
    hide Config.Cached, Index, SubIndex, TagOf, Main.Covers;
  }

  /** Any access through the tag backdoor empties one block of the tag RAM, after one stall. */
  lemma {:induction false} BackdoorInvalidates(s: Sys, cfg: Config, r: Request)
    requires Quiescent(s, cfg) && r.Valid() && !s.main.Covers(r.abus) && 0x2800_0000 <= r.abus < 0x3000_0000
    ensures During(s, cfg, r, Drain(s)) && Stalls(s, cfg, r, Drain(s)) == 1
    ensures Complete(s, cfg, r, Drain(s)).lines == s.lines[(r.abus / 16) % 256 := Line(r.abus / 4096, {})]
    ensures Quiescent(Complete(s, cfg, r, Drain(s)), cfg) && Drain(Complete(s, cfg, r, Drain(s))) == Drain(s)
  {
    AccessBegins(s, cfg, r);
    var m := Drain(s);
    var s1 := Iodecode(s, cfg, r);
    StallTime(s, cfg, r, m);
    AccessCycle(s, cfg, r, m);
    AccessCycle(s1, cfg, r, m);
    AccessCompletes(s, cfg, r, m);
    BackdoorCycle(s, cfg, r);
    BackdoorCycle(s1, cfg, r);
    BackdoorTimes(s, s1, cfg, r);
    hide Iodecode, During, Coherent;
  }

  lemma {:induction false} BackdoorTimes(s: Sys, s1: Sys, cfg: Config, r: Request)
    requires WellFormed(s, cfg) && WellFormed(s1, cfg) && s.cstate.Local? && s1.cstate.Invalidate?
    requires !s.main.Covers(r.abus) && TagBackdoor(r.abus)
    ensures Remaining(s, cfg, r) == 1 && Remaining(s1, cfg, r) == 0
  {
  }

  lemma {:induction false} BackdoorCycle(s: Sys, cfg: Config, r: Request)
    requires Runnable(s, cfg, r) && !s.main.Covers(r.abus) && 0x2800_0000 <= r.abus < 0x3000_0000
    requires s.cstate.Local? || s.cstate.Invalidate?
    ensures TagBackdoor(r.abus)
    ensures var s1 := Iodecode(s, cfg, r);
            && (s.cstate.Local? ==> s1.cstate.Invalidate? && s1.lines == s.lines)
            && (s.cstate.Invalidate? ==> s1.cstate.Local? && s1.lines == s.lines[(r.abus / 16) % 256 := Line(r.abus / 4096, {})])
  {
    hide Biu;
  }
}
