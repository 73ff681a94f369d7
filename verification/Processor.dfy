/** The whole processor as the simulator runs it: in every clock phase a and the memory system, then
    phase b, the datapath moving only when it is not stalled. */
module Processor {
  import opened Word32
  import opened MainMemory
  import opened CacheBus
  import opened CacheRefinement
  import opened CacheUnit
  import opened Sc32
  import opened Sc32Unit
  import opened Sc32Refinement
  import opened Sc32Progress
  import opened Sc32Runs
  import opened Sc32System
  import opened Sc32Clock

  /** What was on the data bus before a cycle of the memory system reaches nothing but the data bus,
      and not that when the cycle starts a read. */
  lemma {:induction false} BusBefore(s: Sys, cfg: Config, r: Request, x: Word)
    requires Runnable(s, cfg, r)
    ensures Runnable(s.(dbus := x), cfg, r)
    ensures var a, b := Iodecode(s, cfg, r), Iodecode(s.(dbus := x), cfg, r);
            b == a.(dbus := b.dbus) && (r.read && (s.cstate.Local? || x == s.dbus) ==> b.dbus == a.dbus)
  {
    PrepareBusBefore(s, cfg, r, x);
    hide CacheBus.Biu, CacheBus.Settle, Prepare, CacheBus.PathOf;
    var p := Prepare(s, cfg, r);
    BiuBusBefore(p, cfg, r, x);
    SettleBusBefore(CacheBus.PathOf(s, cfg, r), CacheBus.Biu(p, cfg, r), r, x);
  }

  lemma {:induction false} PrepareBusBefore(s: Sys, cfg: Config, r: Request, x: Word)
    requires Runnable(s, cfg, r)
    ensures Runnable(s.(dbus := x), cfg, r) && CacheBus.PathOf(s.(dbus := x), cfg, r) == CacheBus.PathOf(s, cfg, r)
    ensures Prepare(s.(dbus := x), cfg, r) == Prepare(s, cfg, r).(dbus := x) && Prepare(s, cfg, r).dbus == s.dbus
    ensures s.cstate.Local? && r.read ==> SetsBus(CacheBus.PathOf(s, cfg, r))
  {
    hide AllocBlock, AddToBlock, DeallocBlock, BlockHit, SubBlockPresent, Config.Cached, Main.Covers;
  }

  /** The ways of a read that put an answer on the data bus at once. */
  predicate SetsBus(p: CacheBus.Path) {
    p.ReadHit? || p.BlockMiss? || p.SubBlockMiss? || p.External? || p.Backdoor? || p.Elsewhere?
  }

  lemma {:induction false} SettleBusBefore(p: CacheBus.Path, b: Sys, r: Request, x: Word)
    requires |b.data| == CELLS
    ensures var u, v := CacheBus.Settle(p, b, r), CacheBus.Settle(p, b.(dbus := x), r);
            v == u.(dbus := v.dbus) && (r.read && (SetsBus(p) || x == b.dbus) ==> v.dbus == u.dbus)
  {
    if p.Allocating? || p.Adding? || p.Replacing? || p.ReplacingWait? {
      DataBusBefore(p, b, r, x);
    } else {
      OtherBusBefore(p, b, r, x);
    }
    hide *;
  }

  lemma {:induction false} DataBusBefore(p: CacheBus.Path, b: Sys, r: Request, x: Word)
    requires |b.data| == CELLS
    requires p.Allocating? || p.Adding? || p.Replacing? || p.ReplacingWait?
    ensures var u, v := CacheBus.Settle(p, b, r), CacheBus.Settle(p, b.(dbus := x), r);
            v == u.(dbus := v.dbus) && (r.read && (SetsBus(p) || x == b.dbus) ==> v.dbus == u.dbus)
  {
    hide DataIndex, Merge;
  }

  lemma {:induction false} OtherBusBefore(p: CacheBus.Path, b: Sys, r: Request, x: Word)
    requires |b.data| == CELLS
    requires !p.Allocating? && !p.Adding? && !p.Replacing? && !p.ReplacingWait?
    ensures var u, v := CacheBus.Settle(p, b, r), CacheBus.Settle(p, b.(dbus := x), r);
            v == u.(dbus := v.dbus) && (r.read && (SetsBus(p) || x == b.dbus) ==> v.dbus == u.dbus)
  {
    hide DataIndex, Merge;
  }

  lemma {:induction false} EndBusBefore(s: Sys, x: Word)
    requires s.main.Valid() && s.main.Covers(s.portaddr)
    ensures EndExternal(s.(dbus := x)) == EndExternal(s).(dbus := x)
  {
    hide Main.Store, Main.StoreByte, Main.Fetch, Main.Covers;
  }

  lemma {:induction false} TakeBusBefore(s: Sys, cfg: Config, r: Request, x: Word)
    requires BusRunnable(s, cfg, r) && BusRunnable(s.(dbus := x), cfg, r)
    ensures Take(s.(dbus := x), cfg, r) == Take(s, cfg, r).(dbus := x)
  {
    if s.external {
      EndBusBefore(StartExternal(s, r), x);
    }
    hide EndExternal, Config.Waits, Main.Covers;
  }

  lemma {:induction false} CountBusBefore(s: Sys, x: Word)
    requires s.main.Valid() && s.main.Covers(s.portaddr) && s.count >= 1
    ensures ReadOn(s.(dbus := x)) == ReadOn(s).(dbus := x)
    ensures WriteOn(s.(dbus := x)) == WriteOn(s).(dbus := x)
  {
    EndBusBefore(s.(count := s.count - 1), x);
    EndBusBefore(s.(count := s.count - 1, biustall := s.external), x);
    hide EndExternal, Main.Covers;
  }

  lemma {:induction false} RunnableBusBefore(s: Sys, cfg: Config, r: Request, x: Word)
    requires BusRunnable(s, cfg, r)
    ensures BusRunnable(s.(dbus := x), cfg, r)
    ensures s.(dbus := x).(biustall := false) == s.(biustall := false, dbus := x)
    ensures BusRunnable(s.(biustall := false), cfg, r) && BusRunnable(s.(biustall := false, dbus := x), cfg, r)
  {
    hide Main.Covers, Main.Valid, Config.Valid;
  }

  lemma {:induction false} BiuBusBefore(s: Sys, cfg: Config, r: Request, x: Word)
    requires BusRunnable(s, cfg, r)
    ensures BusRunnable(s.(dbus := x), cfg, r)
    ensures CacheBus.Biu(s.(dbus := x), cfg, r) == CacheBus.Biu(s, cfg, r).(dbus := x)
  {
    var s0 := s.(biustall := false);
    RunnableBusBefore(s, cfg, r, x);
    hide *;
    BiuParts(s, cfg, r);
    BiuParts(s.(dbus := x), cfg, r);
    match s.bstate {
      case First => TakeBusBefore(s0, cfg, r, x);
      case Idle => RestBusBefore(s0, x);
      case _ => CountBusBefore(s0, x);
    }
  }

  lemma {:induction false} BiuParts(s: Sys, cfg: Config, r: Request)
    requires BusRunnable(s, cfg, r)
    ensures var s0 := s.(biustall := false);
            && BusRunnable(s0, cfg, r) && s0.main.Valid()
            && (s.bstate.First? ==> CacheBus.Biu(s, cfg, r) == Take(s0, cfg, r))
            && (s.bstate.Idle? ==> CacheBus.Biu(s, cfg, r) == Rest(s0))
            && (s.bstate.ReadCount? || s.bstate.WriteCount? ==> s0.main.Covers(s0.portaddr) && s0.count >= 1)
            && (s.bstate.ReadCount? ==> CacheBus.Biu(s, cfg, r) == ReadOn(s0))
            && (s.bstate.WriteCount? ==> CacheBus.Biu(s, cfg, r) == WriteOn(s0))
  {
    hide Take, ReadOn, WriteOn, Rest, Main.Covers, Main.Valid, Config.Valid;
  }

  lemma {:induction false} RestBusBefore(s: Sys, x: Word)
    ensures Rest(s.(dbus := x)) == Rest(s).(dbus := x)
  {
  }

  class System {
    const datapath: Datapath
    const memory: MemorySystem
    /** What a read would find on the data bus if stores did not pass over it. */
    ghost var bus: Word

    constructor (datapath: Datapath, memory: MemorySystem)
      requires datapath.Valid() && memory.Valid() && Quiescent(memory.Snap(), memory.cfg) && !memory.Snap().Stalled()
      requires {datapath.ps.cells, datapath.rs.cells} !! memory.Arrays()
      ensures this.datapath == datapath && this.memory == memory && Valid()
      ensures Snap() == memory.Snap()
    {
      this.datapath, this.memory, this.bus := datapath, memory, memory.dbus;
      new;
      QuiescentClockable(datapath.Snap(), memory.Snap(), memory.cfg);
    }

    ghost function Parts(): set<object> {
      {this, datapath, datapath.ps, datapath.rs, datapath.ps.cells, datapath.rs.cells, memory} + memory.Arrays()
    }

    ghost function Snap(): Sys
      reads Parts()
    {
      memory.Snap().(dbus := bus)
    }

    ghost predicate Apart() {
      {datapath.ps.cells, datapath.rs.cells} !! memory.Arrays()
    }

    /** Between clocks. In an access under way the memory system has what the datapath presents. */
    ghost predicate Valid()
      reads Parts()
    {
      && Apart() && datapath.Valid() && memory.Valid() && Clockable(datapath.Snap(), Snap(), memory.cfg)
      && (Snap().Stalled() ==> Facing() && (memory.read ==> memory.dbus == bus))
    }

    /** The memory system sees the datapath's access. */
    ghost predicate Facing()
      reads Parts()
    {
      memory.Presented() == Sc32.Presented(datapath.Snap(), memory.device)
    }

    /** The datapath's buses drive the memory system's. */
    method Drive(device: Word)
      requires datapath.Valid() && memory.Valid() && Apart()
      modifies memory`abus, memory`read, memory`bytemode, memory`dbus, memory`device
      ensures memory.Presented() == Sc32.Presented(datapath.Snap(), device)
      ensures memory.Snap() == old(memory.Snap()).(dbus := memory.dbus)
      ensures memory.read == datapath.Snap().read && (memory.read ==> memory.dbus == old(memory.dbus))
    {
      memory.Face(datapath.bus.a, datapath.bus.read, datapath.bus.bytemode, datapath.bus.d, device);
    }

    /** Phase a, unless the datapath is stalled. */
    method Move(input: Input)
      requires Apart() && datapath.Valid() && memory.Valid()
      modifies datapath, datapath.ps, datapath.rs, datapath.ps.cells, datapath.rs.cells
      ensures Apart() && datapath.Valid() && memory.Valid() && Snap() == old(Snap())
      ensures datapath.Snap() == PhaseA(old(datapath.Snap()), old(Snap()), input.irq)
    {
      hide Dpphia;
      SnapStalled();
      if !(memory.biustall || memory.cachestall) {
        datapath.PhaseA(input.irq);
      }
    }

    /** Phase a and the memory system's cycle. */
    method Phia(input: Input)
      requires Valid()
      modifies Parts()
      ensures Apart() && datapath.Valid() && memory.Valid() && Facing()
      ensures datapath.Snap() == PhaseA(old(datapath.Snap()), old(Snap()), input.irq)
      ensures var r := Sc32.Presented(datapath.Snap(), input.device);
              Runnable(old(Snap()), memory.cfg, r) && Snap() == Iodecode(old(Snap()), memory.cfg, r)
      ensures memory.read == datapath.Snap().read && (memory.read ==> memory.dbus == bus)
    {
      hide Dpphia, CacheBus.Iodecode, Runnable, Clockable;
      ghost var d0, s0 := datapath.Snap(), Snap();
      TickReady(d0, s0, memory.cfg, input);
      AccessKinds(d0, s0, memory.cfg, input);
      Move(input);
      Drive(input.device);
      Decode(s0);
    }

    /** The memory system's cycle, from state `s0` but for what a store has put on the data bus. */
    method Decode(ghost s0: Sys)
      requires Apart() && memory.Valid() && memory.Snap() == s0.(dbus := memory.dbus)
      requires Runnable(s0, memory.cfg, memory.Presented())
      requires s0.cstate.NewBlock? || s0.cstate.NewData? ==> memory.read
      requires s0.cstate.ReplaceData? || s0.cstate.ReplaceDataWait? ==> !memory.read
      requires memory.read ==> s0.cstate.Local? || memory.dbus == s0.dbus
      modifies this`bus, memory, memory.lowmem, memory.highmem, memory.tagram, memory.dataram
      ensures Snap() == CacheBus.Iodecode(s0, memory.cfg, old(memory.Presented()))
      ensures memory.Presented() == old(memory.Presented()).(data := memory.Presented().data)
      ensures memory.read ==> memory.dbus == bus
      ensures !memory.read ==> memory.Presented() == old(memory.Presented())
    {
      hide CacheBus.Iodecode, Runnable;
      ghost var r := memory.Presented();
      BusBefore(s0, memory.cfg, r, memory.dbus);
      memory.Iodecode();
      bus := CacheBus.Iodecode(s0, memory.cfg, r).dbus;
    }

    /** Phase b. */
    method Phib(chip: Chip)
      requires Apart() && datapath.Valid() && memory.Valid() && memory.read == datapath.Snap().read
      requires memory.read ==> memory.dbus == bus
      modifies datapath, datapath.ps, datapath.rs
      ensures datapath.Valid() && Snap() == old(Snap())
      ensures datapath.Snap() == if Snap().Stalled() then old(datapath.Snap())
                                 else var a := old(datapath.Snap()); Dpphib(a, chip, if a.read then Snap().dbus else a.dbus)
    {
      if !(memory.biustall || memory.cachestall) {
        datapath.PhaseB(chip, if memory.read then memory.dbus else datapath.bus.d);
      }
    }

    lemma SnapStalled()
      ensures Snap().Stalled() <==> memory.biustall || memory.cachestall
    {
    }

    /** One clock. */
    method Tick(chip: Chip, input: Input)
      requires Valid()
      modifies Parts()
      ensures Valid() && (datapath.Snap(), Snap()) == Sc32Clock.Tick(old(datapath.Snap()), old(Snap()), memory.cfg, chip, input)
    {
      hide Dpphia, Dpphib, CacheBus.Iodecode, Clockable, Runnable;
      TickClockable(datapath.Snap(), Snap(), memory.cfg, chip, input);
      Phia(input);
      Phib(chip);
    }

    /** A number of clocks. */
    method Run(chip: Chip, ins: seq<Input>)
      requires Valid()
      modifies Parts()
      ensures Valid() && (datapath.Snap(), Snap()) == Clocked(old(datapath.Snap()), old(Snap()), memory.cfg, chip, ins)
    {
      hide *;
      ghost var cfg := memory.cfg;
      ghost var d0, s0 := datapath.Snap(), Snap();
      var k := 0;
      ValidMeans();
      ClockedEnd(d0, s0, cfg, chip, ins);
      while k < |ins|
        invariant k <= |ins| && Valid() && Clockable(datapath.Snap(), Snap(), cfg)
        invariant Clocked(datapath.Snap(), Snap(), cfg, chip, ins[k..]) == Clocked(d0, s0, cfg, chip, ins)
      {
        ClockedStep(datapath.Snap(), Snap(), cfg, chip, ins, k);
        Tick(chip, ins[k]);
        k := k + 1;
      }
      ClockedEnd(datapath.Snap(), Snap(), cfg, chip, ins);
    }

    lemma ValidMeans()
      requires Valid()
      ensures Clockable(datapath.Snap(), Snap(), memory.cfg) && datapath.Snap().Valid()
    {
    }

    /** Running the processor from a state in order executes a disciplined program as its programmer
        sees it. After the first `k` of its cycles, all or all but the last, the registers, the two
        stacks and the memory are those that the events `es` leave, at least one instruction or
        interrupt in every six cycles, four at the start aside. The processor itself is there, or a
        cycle further, or has phase a of the cycle after that behind it and waits for its access. */
    method Execute(lay: Layout, chip: Chip, ins: seq<Input>) returns (ghost es: seq<Event>, ghost k: nat, ghost cs: seq<Input>)
      requires Valid() && !Snap().Stalled() && Quiescent(Snap(), memory.cfg)
      requires Inv(datapath.Snap(), Drain(Snap()), lay)
      requires Disciplined(Abs(datapath.Snap(), Drain(Snap()), lay), Drain(Snap()), chip, lay)
      requires OrdinaryRun(datapath.Snap(), Drain(Snap()), memory.cfg, chip,
                           CyclesOf(datapath.Snap(), Snap(), memory.cfg, chip, ins))
      modifies Parts()
      ensures Valid() && cs == CyclesOf(old(datapath.Snap()), old(Snap()), memory.cfg, chip, ins) && |cs| - 1 <= k <= |cs|
      ensures var d, s, cfg := old(datapath.Snap()), old(Snap()), memory.cfg;
              var i, m := old(Abs(datapath.Snap(), Drain(Snap()), lay)), old(Drain(Snap()));
              var (d1, s1) := RealRun(d, s, cfg, chip, cs[..k]);
              && LegalRun(i, m, chip, lay, es) && k <= 2 * StackWork(d) + 6 * Executed(es)
              && Quiescent(s1, cfg) && Inv(d1, Drain(s1), lay)
              && (Abs(d1, Drain(s1), lay), Drain(s1)) == After(i, m, chip, lay, es)
              && var (d2, s2) := if k == |cs| then (d1, s1) else RealCycle(d1, s1, cfg, chip, cs[k]);
                 var c := ClockCount(d, s, cfg, chip, cs);
                 c <= |ins| && Stands(d2, s2, cfg, ins[c..], datapath.Snap(), Snap())
    {
      hide *;
      ghost var d, s := datapath.Snap(), Snap();
      ValidMeans();
      cs := CyclesOf(d, s, memory.cfg, chip, ins);
      StallsOnlyDelay(d, s, memory.cfg, chip, ins);
      DelayedMeans(d, s, memory.cfg, chip, ins, cs);
      es, k := SystemRefinesIsa(d, s, memory.cfg, lay, chip, cs);
      Run(chip, ins);
      assert cs[..|cs|] == cs;
      if k < |cs| {
        RealRunLast(d, s, memory.cfg, chip, cs);
      }
    }
  }

  lemma {:induction false} AccessKinds(d: Dp, s: Sys, cfg: Config, input: Input)
    requires Clockable(d, s, cfg)
    ensures var r := Sc32.Presented(PhaseA(d, s, input.irq), input.device);
            && (s.cstate.NewBlock? || s.cstate.NewData? ==> r.read)
            && (s.cstate.ReplaceData? || s.cstate.ReplaceDataWait? ==> !r.read)
            && (!s.Stalled() ==> s.cstate.Local?)
  {
    if s.Stalled() {
      var m :| Waiting(d, s, cfg, m);
    }
    hide Dpphia;
  }

  lemma {:induction false} ClockedEnd(d: Dp, s: Sys, cfg: Config, chip: Chip, ins: seq<Input>)
    requires Clockable(d, s, cfg)
    ensures ins[0..] == ins && Clocked(d, s, cfg, chip, ins[|ins|..]) == (d, s)
  {
  }

  lemma {:induction false} ClockedStep(d: Dp, s: Sys, cfg: Config, chip: Chip, ins: seq<Input>, k: nat)
    requires Clockable(d, s, cfg) && k < |ins|
    ensures var (d1, s1) := Sc32Clock.Tick(d, s, cfg, chip, ins[k]);
            Clockable(d1, s1, cfg)
            && Clocked(d, s, cfg, chip, ins[k..]) == Clocked(d1, s1, cfg, chip, ins[k + 1..])
  {
    hide Sc32Clock.Tick, Clockable;
    TickClockable(d, s, cfg, chip, ins[k]);
    assert ins[k..][1..] == ins[k + 1..];
  }
}
