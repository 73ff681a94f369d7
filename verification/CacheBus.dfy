/** The cache controller and the bus unit as functions on their joint state: one call of
    `Iodecode` is one bus cycle of the access presented by the datapath. */
module CacheBus {
  import opened Word32
  import opened MainMemory

  datatype CacheState = Local | NewBlock | NewData | ReplaceData | ReplaceDataWait | Invalidate

  datatype BusState = First | ReadCount | WriteCount | Idle

  datatype Port = Rd | RdByte | Wr | WrByte

  /** The bytes of the cached cell that a write replaces. */
  datatype Mask = WholeCell | OneByte(lane: Lane)

  /** A tag RAM entry: the block's tag and the sub-blocks marked present. */
  datatype Line = Line(tag: int, present: set<int>)

  /** The page attributes and the cache enable bit, fixed during a run. */
  datatype Config = Config(cacheEnabled: bool, attributes: seq<Word>) {
    predicate Valid() {
      |attributes| == 16
    }

    function Waits(a: Word): (w: int)
      requires Valid()
      ensures 0 <= w <= WAITSPECIAL
    {
      attributes[a / 0x1000_0000] % 0x40
    }

    predicate Cached(a: Word)
      requires Valid()
    {
      cacheEnabled && (attributes[a / 0x1000_0000] / 0x40) % 2 == 1
    }
  }

  const WAITSPECIAL := 0x3f
  const LINES := 256
  const CELLS := 1024

  /** One access of the datapath. `data` is the store data; `device` is what the I/O or ROM
      behind an address outside external memory would answer. */
  datatype Request = Request(abus: Word, read: bool, bytemode: bool, data: Word, device: Word) {
    /** A byte store drives the byte on all four lanes. */
    predicate Valid() {
      !read && bytemode ==> data == Spread(data % 256)
    }
  }

  datatype Sys = Sys(cstate: CacheState, bstate: BusState, count: nat,
                     portaddr: Word, portvalue: Word, port: Port, busidle: bool,
                     oldCached: Word, mask: Mask, lines: seq<Line>, data: seq<Word>,
                     main: Main, dbus: Word, biustall: bool, cachestall: bool, external: bool)
  {
    predicate Stalled() {
      biustall || cachestall
    }
  }

  function Index(a: Word): (i: int)
    ensures 0 <= i < LINES
  {
    (a / 16) % 256
  }

  function SubIndex(a: Word): int {
    (a / 4) % 4
  }

  function TagOf(a: Word): int {
    a / 4096
  }

  function DataIndex(a: Word): (i: int)
    ensures 0 <= i < CELLS
  {
    (a / 4) % 1024
  }

  predicate BlockHit(lines: seq<Line>, a: Word)
    requires |lines| == LINES
  {
    lines[Index(a)].tag == TagOf(a)
  }

  predicate SubBlockPresent(lines: seq<Line>, a: Word)
    requires |lines| == LINES
  {
    SubIndex(a) in lines[Index(a)].present
  }

  predicate Hit(lines: seq<Line>, a: Word)
    requires |lines| == LINES
  {
    BlockHit(lines, a) && SubBlockPresent(lines, a)
  }

  predicate TagBackdoor(a: Word) {
    0x2800_0000 <= a <= 0x2fff_ffff
  }

  /** The registers in the chip's own I/O space that a run keeps as they are: the external stack
      pointers, the stack cache controller and the page attributes. */
  predicate Reconfigures(a: Word) {
    a == 0x2000_0000 || a == 0x2000_0004 || a == 0x2000_0008 || 0x2000_0040 <= a < 0x2000_0080
  }

  /** The two simulator traps that put text into memory. */
  predicate ReadsText(a: Word) {
    a == 0x4000_0006 || a == 0x4000_0009
  }

  /** An access that changes nothing but memory: a store does not rewrite a fixed register, a read is
      not a trap that fills memory. Where there is memory, it comes first. */
  predicate Ordinary(m: Main, a: Word, read: bool) {
    m.Covers(a) || if read then !ReadsText(a) else !Reconfigures(a)
  }

  /** What the two controllers need in order to take a cycle of request `r`. */
  predicate Runnable(s: Sys, cfg: Config, r: Request) {
    && cfg.Valid() && s.main.Valid() && |s.lines| == LINES && |s.data| == CELLS
    && (s.bstate.ReadCount? || s.bstate.WriteCount? ==> s.main.Covers(s.portaddr) && s.count >= 1)
    && (!s.cstate.Local? && !s.cstate.Invalidate? ==> s.main.Covers(r.abus))
  }

  /** The bus unit's own requirement: an external access is to external memory. */
  predicate BusRunnable(s: Sys, cfg: Config, r: Request) {
    && Runnable(s, cfg, r)
    && (s.external ==> s.main.Covers(r.abus))
  }

  function StartExternal(s: Sys, r: Request): Sys {
    s.(portaddr := r.abus, busidle := false,
       port := if r.read then (if r.bytemode then RdByte else Rd) else if r.bytemode then WrByte else Wr,
       portvalue := if r.read then s.portvalue else r.data)
  }

  function EndExternal(s: Sys): (b: Sys)
    requires s.main.Valid() && s.main.Covers(s.portaddr)
    ensures b.main.Valid() && b == s.(main := b.main, portvalue := b.portvalue)
  {
    hide Main.Store, Main.StoreByte, Main.Fetch;
    match s.port
    case Wr => s.(main := s.main.Store(s.portaddr, s.portvalue))
    case WrByte => s.(main := s.main.StoreByte(s.portaddr, s.portvalue))
    case _ => s.(portvalue := s.main.Fetch(s.portaddr))
  }

  /** A bus cycle in the first state: an access is started, if there is one. */
  function Take(s: Sys, cfg: Config, r: Request): (b: Sys)
    requires BusRunnable(s, cfg, r)
    ensures b.main.Valid() && b.lines == s.lines && b.data == s.data && b.cstate == s.cstate && b.dbus == s.dbus
  {
    hide EndExternal;
    var s1 := StartExternal(s, r);
    if !s.external then s1.(bstate := Idle)
    else if cfg.Waits(r.abus) == WAITSPECIAL then EndExternal(s1)
    else s1.(count := cfg.Waits(r.abus) + 1, biustall := r.read, bstate := if r.read then ReadCount else WriteCount)
  }

  /** A bus cycle of a read under way. */
  function ReadOn(s: Sys): (b: Sys)
    requires s.main.Valid() && s.main.Covers(s.portaddr) && s.count >= 1
    ensures b.main.Valid() && b.lines == s.lines && b.data == s.data && b.cstate == s.cstate && b.dbus == s.dbus
  {
    hide EndExternal;
    var s1 := s.(count := s.count - 1);
    if s1.count != 0 then s1.(biustall := true) else EndExternal(s1).(bstate := First)
  }

  /** A bus cycle of the buffered write, which stalls whatever wants the bus. */
  function WriteOn(s: Sys): (b: Sys)
    requires s.main.Valid() && s.main.Covers(s.portaddr) && s.count >= 1
    ensures b.main.Valid() && b.lines == s.lines && b.data == s.data && b.cstate == s.cstate && b.dbus == s.dbus
  {
    hide EndExternal;
    var s1 := s.(count := s.count - 1, biustall := s.external);
    if s1.count != 0 then s1 else EndExternal(s1).(bstate := First)
  }

  function Rest(s: Sys): Sys {
    s.(busidle := true, biustall := s.external, bstate := if s.external then First else Idle)
  }

  /** One cycle of the bus unit. */
  function Biu(s: Sys, cfg: Config, r: Request): (b: Sys)
    requires BusRunnable(s, cfg, r)
    ensures b.main.Valid() && b.lines == s.lines && b.data == s.data && b.cstate == s.cstate && b.dbus == s.dbus
  {
    hide Take, ReadOn, WriteOn;
    var s0 := s.(biustall := false);
    match s.bstate
    case First => Take(s0, cfg, r)
    case ReadCount => ReadOn(s0)
    case WriteCount => WriteOn(s0)
    case Idle => Rest(s0)
  }

  /** Replaces the whole block, marking only the addressed sub-block present. */
  function AllocBlock(lines: seq<Line>, a: Word): seq<Line>
    requires |lines| == LINES
  {
    lines[Index(a) := Line(TagOf(a), {SubIndex(a)})]
  }

  function AddToBlock(lines: seq<Line>, a: Word): seq<Line>
    requires |lines| == LINES
  {
    lines[Index(a) := Line(lines[Index(a)].tag, lines[Index(a)].present + {SubIndex(a)})]
  }

  function DeallocBlock(lines: seq<Line>, a: Word): seq<Line>
    requires |lines| == LINES
  {
    lines[Index(a) := Line(TagOf(a), {})]
  }

  /** The cached cell with the written bytes taken from the data bus. */
  function Merge(cached: Word, mask: Mask, bus: Word): Word {
    match mask
    case WholeCell => bus
    case OneByte(l) => PutByte(cached, l, ByteAt(bus, l))
  }

  /** The ways a cycle of an access can go: the six controller states, with the seven cases
      that the tag RAM and the address make of the first one. */
  datatype Path = ReadHit | BlockMiss | SubBlockMiss | WriteHit | External | Backdoor | Elsewhere
                | Allocating | Adding | Replacing | ReplacingWait | Invalidating

  function PathOf(s: Sys, cfg: Config, r: Request): Path
    requires Runnable(s, cfg, r)
  {
    match s.cstate
    case Local =>
      if s.main.Covers(r.abus) then
        if cfg.Cached(r.abus) && r.read && Hit(s.lines, r.abus) then ReadHit
        else if cfg.Cached(r.abus) && r.read && !BlockHit(s.lines, r.abus) then BlockMiss
        else if cfg.Cached(r.abus) && r.read then SubBlockMiss
        else if cfg.Cached(r.abus) && Hit(s.lines, r.abus) then WriteHit
        else External
      else if TagBackdoor(r.abus) then Backdoor
      else Elsewhere
    case NewBlock => Allocating
    case NewData => Adding
    case ReplaceData => Replacing
    case ReplaceDataWait => ReplacingWait
    case Invalidate => Invalidating
  }

  /** The state in which the controller calls the bus unit: the stall and access signals
      are driven and the tag RAM is updated. */
  function Prepare(s: Sys, cfg: Config, r: Request): (p: Sys)
    requires Runnable(s, cfg, r)
    ensures BusRunnable(p, cfg, r) && p == s.(cachestall := p.cachestall, external := p.external, lines := p.lines)
  {
    hide Hit, BlockHit, Config.Cached, TagBackdoor, Index, SubIndex, TagOf, Config.Waits, Config.Valid, Main.Valid,
      Main.Covers;
    var s0 := s.(cachestall := false, external := false);
    match PathOf(s, cfg, r)
    case ReadHit => s0
    case BlockMiss => s0.(cachestall := true, external := true)
    case SubBlockMiss => s0.(cachestall := true, external := true)
    case WriteHit => s0.(cachestall := true, external := true)
    case External => s0.(external := true)
    case Backdoor => s0.(cachestall := true)
    case Elsewhere => s0
    case Allocating => s0.(lines := AllocBlock(s.lines, r.abus), external := true)
    case Adding => s0.(lines := AddToBlock(s.lines, r.abus), external := true)
    case Replacing => s0.(lines := AddToBlock(s.lines, r.abus))
    case ReplacingWait => s0.(lines := AddToBlock(s.lines, r.abus), external := true)
    case Invalidating => s0.(lines := DeallocBlock(s.lines, r.abus))
  }

  /** What the controller does with the bus unit's outcome `b`: the data bus, the data RAM
      and its next state. */
  function Settle(p: Path, b: Sys, r: Request): Sys
    requires |b.data| == CELLS
  {
    match p
    case ReadHit => b.(dbus := b.data[DataIndex(r.abus)], cstate := Local)
    case BlockMiss => b.(dbus := b.portvalue, cstate := NewBlock)
    case SubBlockMiss => b.(dbus := b.portvalue, cstate := NewData)
    case WriteHit =>
      b.(oldCached := b.data[DataIndex(r.abus)],
         mask := if r.bytemode then OneByte(r.abus % 4) else WholeCell,
         cstate := if b.biustall then ReplaceDataWait else ReplaceData)
    case External => b.(dbus := if r.read then b.portvalue else b.dbus, cstate := Local)
    case Backdoor => b.(dbus := if r.read then b.portvalue else b.dbus, cstate := Invalidate)
    case Elsewhere => b.(dbus := if r.read then r.device else b.dbus, cstate := Local)
    case Allocating =>
      b.(data := b.data[DataIndex(r.abus) := b.portvalue], dbus := b.portvalue,
         cstate := if b.biustall then NewBlock else Local)
    case Adding =>
      b.(data := b.data[DataIndex(r.abus) := b.portvalue], dbus := b.portvalue,
         cstate := if b.biustall then NewData else Local)
    case Replacing => b.(data := b.data[DataIndex(r.abus) := Merge(b.oldCached, b.mask, r.data)], cstate := Local)
    case ReplacingWait =>
      b.(data := b.data[DataIndex(r.abus) := Merge(b.oldCached, b.mask, r.data)],
         cstate := if b.biustall then ReplaceDataWait else Local)
    case Invalidating => b.(cstate := Local)
  }

  /** One cycle of the cache controller with the bus unit, which it drives exactly once. */
  function Iodecode(s: Sys, cfg: Config, r: Request): Sys
    requires Runnable(s, cfg, r)
  {
    hide PathOf, Biu, Settle, Prepare;
    Settle(PathOf(s, cfg, r), Biu(Prepare(s, cfg, r), cfg, r), r)
  }
}
