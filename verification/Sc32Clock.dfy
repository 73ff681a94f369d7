/** The processor clocked: in every clock the memory system takes a cycle, and the datapath moves only
    when neither controller stalls it. */
module Sc32Clock {
  import opened Word32
  import opened MainMemory
  import opened CacheBus
  import opened CacheRefinement
  import opened Sc32
  import opened Sc32Runs
  import opened Sc32System

  /** Between clocks: the bus quiescent, or an access of the datapath under way. */
  ghost predicate Clockable(d: Dp, s: Sys, cfg: Config) {
    && d.Valid()
    && if s.Stalled() then exists m :: Waiting(d, s, cfg, m) else Quiescent(s, cfg)
  }

  /** An access under way stalls the datapath. */
  ghost predicate Waiting(d: Dp, s: Sys, cfg: Config, m: Main) {
    && During(s, cfg, Sc32.Presented(d, 0), m)
    && (s.main.Covers(d.abus) || TagBackdoor(d.abus))
  }

  /** The memory system's cycle and phase b, in the state that phase a has left. */
  ghost function Settle(a: Dp, s: Sys, cfg: Config, chip: Chip, device: Word): (e: (Dp, Sys))
    requires a.Valid() && Runnable(s, cfg, Sc32.Presented(a, device))
    ensures e.0.Valid()
  {
    var s1 := Iodecode(s, cfg, Sc32.Presented(a, device));
    (if s1.Stalled() then a else Dpphib(a, chip, if a.read then s1.dbus else a.dbus), s1)
  }

  /** What phase a leaves of the datapath. */
  function PhaseA(d: Dp, s: Sys, irq: Option<Vector>): (a: Dp)
    requires d.Valid()
    ensures a.Valid()
  {
    if s.Stalled() then d else Dpphia(d, irq)
  }

  /** One clock: phase a, the memory system, phase b. */
  ghost function Tick(d: Dp, s: Sys, cfg: Config, chip: Chip, input: Input): (e: (Dp, Sys))
    requires Clockable(d, s, cfg)
    ensures e.0.Valid()
  {
    TickReady(d, s, cfg, input);
    Settle(PhaseA(d, s, input.irq), s, cfg, chip, input.device)
  }

  lemma {:induction false} DeviceApart(s: Sys, cfg: Config, r: Request, m: Main, device: Word)
    requires During(s, cfg, r, m)
    ensures During(s, cfg, r.(device := device), m) && Runnable(s, cfg, r.(device := device))
    ensures Remaining(s, cfg, r.(device := device)) == Remaining(s, cfg, r)
  {
    hide Coherent, Drain, Main.Fetch, Main.Store, Main.StoreByte, BlockHit, SubBlockPresent;
  }

  lemma {:induction false} TickReady(d: Dp, s: Sys, cfg: Config, input: Input)
    requires Clockable(d, s, cfg)
    ensures var r := Sc32.Presented(PhaseA(d, s, input.irq), input.device);
            && Runnable(s, cfg, r)
            && (!s.Stalled() ==> During(s, cfg, r, Drain(s)))
  {
    hide During, Runnable, Dpphia;
    if s.Stalled() {
      var m :| Waiting(d, s, cfg, m);
      DeviceApart(s, cfg, Sc32.Presented(d, 0), m, input.device);
    } else {
      PresentedValid(d, input.irq, input.device);
      AccessBegins(s, cfg, Sc32.Presented(Dpphia(d, input.irq), input.device));
      DeviceApart(s, cfg, Sc32.Presented(Dpphia(d, input.irq), input.device), Drain(s), input.device);
    }
  }

  /** What stands on the bus outside memory answers only an access that does not stall. */
  lemma {:induction false} DeviceIgnored(s: Sys, cfg: Config, r: Request, device: Word)
    requires Runnable(s, cfg, r) && Runnable(s, cfg, r.(device := device))
    requires s.main.Covers(r.abus) || TagBackdoor(r.abus)
    ensures Iodecode(s, cfg, r) == Iodecode(s, cfg, r.(device := device))
  {
    PrepareIgnoresDevice(s, cfg, r, device);
    BiuIgnoresDevice(Prepare(s, cfg, r), cfg, r, device);
    SettleIgnoresDevice(PathOf(s, cfg, r), Biu(Prepare(s, cfg, r), cfg, r), r, device);
    hide CacheBus.Biu, CacheBus.Settle, Prepare, PathOf, Runnable, BusRunnable, TagBackdoor;
  }

  lemma {:induction false} PrepareIgnoresDevice(s: Sys, cfg: Config, r: Request, device: Word)
    requires Runnable(s, cfg, r) && Runnable(s, cfg, r.(device := device))
    requires s.main.Covers(r.abus) || TagBackdoor(r.abus)
    ensures PathOf(s, cfg, r.(device := device)) == PathOf(s, cfg, r) && !PathOf(s, cfg, r).Elsewhere?
    ensures Prepare(s, cfg, r.(device := device)) == Prepare(s, cfg, r)
  {
    hide Hit, BlockHit, Config.Cached, Index, SubIndex, TagOf, AllocBlock, AddToBlock, DeallocBlock;
  }

  lemma {:induction false} SettleIgnoresDevice(p: Path, b: Sys, r: Request, device: Word)
    requires |b.data| == CELLS && !p.Elsewhere?
    ensures CacheBus.Settle(p, b, r.(device := device)) == CacheBus.Settle(p, b, r)
  {
    hide DataIndex, Merge;
  }

  lemma {:induction false} BiuIgnoresDevice(s: Sys, cfg: Config, r: Request, device: Word)
    requires BusRunnable(s, cfg, r)
    ensures Biu(s, cfg, r) == Biu(s, cfg, r.(device := device))
  {
  }

  /** A cycle that stalls is one of memory or of the tag backdoor. */
  lemma {:induction false} StallsCover(s: Sys, cfg: Config, r: Request, m: Main)
    requires During(s, cfg, r, m)
    ensures Iodecode(s, cfg, r).Stalled() ==> s.main.Covers(r.abus) || TagBackdoor(r.abus)
    ensures var s1 := Iodecode(s, cfg, r); s1.main.lowtop == s.main.lowtop && s1.main.highbottom == s.main.highbottom
  {
    AccessCycle(s, cfg, r, m);
    if !(m.Covers(r.abus) || TagBackdoor(r.abus)) {
      ElsewhereRuns(s, cfg, r, m);
    }
    hide Iodecode, Coherent;
  }

  lemma {:induction false} ElsewhereRuns(s: Sys, cfg: Config, r: Request, m: Main)
    requires During(s, cfg, r, m) && !m.Covers(r.abus) && !TagBackdoor(r.abus)
    ensures !Iodecode(s, cfg, r).Stalled()
  {
    hide Coherent, Drain;
  }

  /** One clock of an access under way: still under way, or complete. */
  lemma {:induction false} SettleStep(a: Dp, s: Sys, cfg: Config, chip: Chip, r: Request, m: Main, device: Word)
    requires a.Valid() && r.(device := 0) == Sc32.Presented(a, 0) && During(s, cfg, r, m)
    requires r.device == device || s.main.Covers(r.abus) || TagBackdoor(r.abus)
    ensures Runnable(s, cfg, Sc32.Presented(a, device))
    ensures var (e, s1) := Settle(a, s, cfg, chip, device);
            && s1 == Iodecode(s, cfg, r)
            && (s1.Stalled() ==> e == a && During(s1, cfg, r, m) && Waiting(a, s1, cfg, m)
                                 && Complete(s, cfg, r, m) == Complete(s1, cfg, r, m)
                                 && Stalls(s, cfg, r, m) == 1 + Stalls(s1, cfg, r, m))
            && (!s1.Stalled() ==> Complete(s, cfg, r, m) == s1 && Stalls(s, cfg, r, m) == 0
                                  && e == Dpphib(a, chip, if a.read then s1.dbus else a.dbus))
  {
    assert Sc32.Presented(a, device) == r.(device := device);
    DeviceApart(s, cfg, r, m, device);
    DeviceApart(s, cfg, r, m, r.device);
    if r.device != device {
      DeviceIgnored(s, cfg, r, device);
    }
    AccessCycle(s, cfg, r, m);
    StallsCover(s, cfg, r, m);
    hide Iodecode, During, Runnable, Dpphib, Quiescent;
    if Iodecode(s, cfg, r).Stalled() {
      DeviceApart(Iodecode(s, cfg, r), cfg, r, m, 0);
    }
  }

  /** A number of clocks. */
  ghost function Clocked(d: Dp, s: Sys, cfg: Config, chip: Chip, ins: seq<Input>): (e: (Dp, Sys))
    requires Clockable(d, s, cfg)
    ensures Clockable(e.0, e.1, cfg)
    decreases |ins|
  {
    if ins == [] then (d, s)
    else
      TickClockable(d, s, cfg, chip, ins[0]);
      var (d1, s1) := Tick(d, s, cfg, chip, ins[0]);
      Clocked(d1, s1, cfg, chip, ins[1..])
  }

  lemma {:induction false} TickClockable(d: Dp, s: Sys, cfg: Config, chip: Chip, input: Input)
    requires Clockable(d, s, cfg)
    ensures var (d1, s1) := Tick(d, s, cfg, chip, input); Clockable(d1, s1, cfg)
  {
    var a := PhaseA(d, s, input.irq);
    TickReady(d, s, cfg, input);
    var m: Main;
    var r := Sc32.Presented(a, input.device);
    if s.Stalled() {
      m :| Waiting(d, s, cfg, m);
      r := Sc32.Presented(a, 0);
    } else {
      m := Drain(s);
    }
    hide During, Runnable, Quiescent, Dpphia, Dpphib, Iodecode, Settle;
    SettleStep(a, s, cfg, chip, r, m, input.device);
    if !Iodecode(s, cfg, r).Stalled() {
      AccessEnds(s, cfg, r, m);
    }
  }

  lemma {:induction false} ClockedFirst(d: Dp, s: Sys, cfg: Config, chip: Chip, ins: seq<Input>)
    requires Clockable(d, s, cfg) && ins != []
    ensures var a := PhaseA(d, s, ins[0].irq);
            Runnable(s, cfg, Sc32.Presented(a, ins[0].device)) &&
            var (d1, s1) := Settle(a, s, cfg, chip, ins[0].device);
            Clockable(d1, s1, cfg) && Clocked(d, s, cfg, chip, ins) == Clocked(d1, s1, cfg, chip, ins[1..])
  {
    TickReady(d, s, cfg, ins[0]);
    TickClockable(d, s, cfg, chip, ins[0]);
    hide Settle, PhaseA, Clockable, Runnable;
  }

  /** An access under way: the datapath stands still on every clock but the last, on which it runs
      phase b with what the access has brought. */
  lemma {:induction false} AccessClocks(a: Dp, s: Sys, cfg: Config, chip: Chip, r: Request, m: Main, ins: seq<Input>)
    requires s.Stalled() && a.Valid() && r.(device := 0) == Sc32.Presented(a, 0)
    requires During(s, cfg, r, m) && Waiting(a, s, cfg, m) && |ins| <= 1 + Stalls(s, cfg, r, m)
    ensures Clockable(a, s, cfg)
    ensures var c := Complete(s, cfg, r, m);
            var (e, t) := Clocked(a, s, cfg, chip, ins);
            if |ins| == 1 + Stalls(s, cfg, r, m) then (e, t) == (Dpphib(a, chip, if a.read then c.dbus else a.dbus), c)
            else e == a && t.Stalled()
    decreases |ins|
  {
    assert Clockable(a, s, cfg);
    assert r.abus == a.abus;
    assert s.main.Covers(a.abus) || TagBackdoor(a.abus);
    hide During, Runnable, Dpphib, Iodecode, Clockable, Waiting, Quiescent, Settle;
    if ins != [] {
      SettleStep(a, s, cfg, chip, r, m, ins[0].device);
      ClockedFirst(a, s, cfg, chip, ins);
      if Iodecode(s, cfg, r).Stalled() {
        AccessClocks(a, Iodecode(s, cfg, r), cfg, chip, r, m, ins[1..]);
      } else {
        assert ins[1..] == [];
      }
    }
  }

  /** The access that a cycle of the datapath presents. */
  function RequestOf(d: Dp, input: Input): Request
    requires d.Valid()
  {
    Sc32.Presented(Dpphia(d, input.irq), input.device)
  }

  /** The clocks that a cycle of the datapath takes: one, and the exact stall of its access. */
  ghost function ClocksOf(d: Dp, s: Sys, cfg: Config, input: Input): (n: nat)
    requires d.Valid() && Quiescent(s, cfg)
    ensures n >= 1
  {
    CycleBegins(d, s, cfg, input);
    1 + Stalls(s, cfg, RequestOf(d, input), Drain(s))
  }

  lemma {:induction false} CycleBegins(d: Dp, s: Sys, cfg: Config, input: Input)
    requires d.Valid() && Quiescent(s, cfg)
    ensures During(s, cfg, RequestOf(d, input), Drain(s)) && RequestOf(d, input).Valid()
    ensures Runnable(s, cfg, RequestOf(d, input))
  {
    PresentedValid(d, input.irq, input.device);
    AccessBegins(s, cfg, RequestOf(d, input));
    hide Dpphia;
  }

  /** The clocks of one cycle: until the last of them the datapath waits in the state that phase a has
      left, and the last leaves what the cycle does. */
  lemma {:induction false} CycleClocks(d: Dp, s: Sys, cfg: Config, chip: Chip, ins: seq<Input>)
    requires d.Valid() && Quiescent(s, cfg) && !s.Stalled()
    requires ins != [] && |ins| <= ClocksOf(d, s, cfg, ins[0])
    ensures Clockable(d, s, cfg)
    ensures var (e, t) := Clocked(d, s, cfg, chip, ins);
            if |ins| == ClocksOf(d, s, cfg, ins[0]) then (e, t) == RealCycle(d, s, cfg, chip, ins[0])
            else e == Dpphia(d, ins[0].irq) && t.Stalled()
  {
    var a, r, m := Dpphia(d, ins[0].irq), RequestOf(d, ins[0]), Drain(s);
    CycleBegins(d, s, cfg, ins[0]);
    assert Clockable(d, s, cfg) && PhaseA(d, s, ins[0].irq) == a;
    assert r.(device := 0) == Sc32.Presented(a, 0);
    assert RealCycle(d, s, cfg, chip, ins[0])
        == (var c := Complete(s, cfg, r, m); (Dpphib(a, chip, if a.read then c.dbus else a.dbus), c));
    hide During, Runnable, Dpphia, Dpphib, Iodecode, Clockable, Waiting, Quiescent, Settle, RealCycle, Drain;
    SettleStep(a, s, cfg, chip, r, m, ins[0].device);
    ClockedFirst(d, s, cfg, chip, ins);
    if Iodecode(s, cfg, r).Stalled() {
      AccessClocks(a, Iodecode(s, cfg, r), cfg, chip, r, m, ins[1..]);
    } else {
      assert ins[1..] == [];
    }
  }

  /** The inputs that the datapath samples in a number of clocks: those of the clocks in which it
      starts a cycle that ends among them. */
  ghost function CyclesOf(d: Dp, s: Sys, cfg: Config, chip: Chip, ins: seq<Input>): seq<Input>
    requires d.Valid() && Quiescent(s, cfg)
    decreases |ins|
  {
    if ins == [] || |ins| < ClocksOf(d, s, cfg, ins[0]) then []
    else
      var (d1, s1) := RealCycle(d, s, cfg, chip, ins[0]);
      [ins[0]] + CyclesOf(d1, s1, cfg, chip, ins[ClocksOf(d, s, cfg, ins[0])..])
  }

  /** The clocks that a number of cycles take. */
  ghost function ClockCount(d: Dp, s: Sys, cfg: Config, chip: Chip, cs: seq<Input>): nat
    requires d.Valid() && Quiescent(s, cfg)
    decreases |cs|
  {
    if cs == [] then 0
    else
      var (d1, s1) := RealCycle(d, s, cfg, chip, cs[0]);
      ClocksOf(d, s, cfg, cs[0]) + ClockCount(d1, s1, cfg, chip, cs[1..])
  }

  lemma {:induction false} ClockedSplit(d: Dp, s: Sys, cfg: Config, chip: Chip, ins: seq<Input>, k: nat)
    requires Clockable(d, s, cfg) && k <= |ins|
    ensures var (d1, s1) := Clocked(d, s, cfg, chip, ins[..k]);
            Clocked(d, s, cfg, chip, ins) == Clocked(d1, s1, cfg, chip, ins[k..])
    decreases k
  {
    hide Clockable, Tick;
    if k == 0 {
      assert ins[0..] == ins;
    } else {
      TickClockable(d, s, cfg, chip, ins[0]);
      var (d1, s1) := Tick(d, s, cfg, chip, ins[0]);
      ClockedSplit(d1, s1, cfg, chip, ins[1..], k - 1);
      assert ins[..k][1..] == ins[1..][..k - 1] && ins[1..][k - 1..] == ins[k..];
    }
  }

  lemma {:induction false} QuiescentClockable(d: Dp, s: Sys, cfg: Config)
    requires d.Valid() && Quiescent(s, cfg) && !s.Stalled()
    ensures Clockable(d, s, cfg)
  {
  }

  lemma {:induction false} FirstOf(d: Dp, s: Sys, cfg: Config, chip: Chip, c: Input, cs: seq<Input>)
    requires d.Valid() && Quiescent(s, cfg)
    ensures var (d1, s1) := RealCycle(d, s, cfg, chip, c);
            && RealRun(d, s, cfg, chip, [c] + cs) == RealRun(d1, s1, cfg, chip, cs)
            && ClockCount(d, s, cfg, chip, [c] + cs) == ClocksOf(d, s, cfg, c) + ClockCount(d1, s1, cfg, chip, cs)
  {
    assert ([c] + cs)[0] == c && ([c] + cs)[1..] == cs;
    hide RealCycle, ClocksOf, Quiescent;
  }

  lemma {:induction false} CyclesFrom(d: Dp, s: Sys, cfg: Config, chip: Chip, ins: seq<Input>)
    requires d.Valid() && Quiescent(s, cfg) && ins != [] && |ins| >= ClocksOf(d, s, cfg, ins[0])
    ensures var (d1, s1) := RealCycle(d, s, cfg, chip, ins[0]);
            CyclesOf(d, s, cfg, chip, ins) == [ins[0]] + CyclesOf(d1, s1, cfg, chip, ins[ClocksOf(d, s, cfg, ins[0])..])
  {
    hide RealCycle, ClocksOf, Quiescent;
  }

  lemma {:induction false} NoneOf(d: Dp, s: Sys, cfg: Config, chip: Chip, ins: seq<Input>)
    requires d.Valid() && Quiescent(s, cfg)
    ensures ins == [] || |ins| < ClocksOf(d, s, cfg, ins[0]) ==> CyclesOf(d, s, cfg, chip, ins) == []
    ensures RealRun(d, s, cfg, chip, []) == (d, s) && ClockCount(d, s, cfg, chip, []) == 0
    ensures Clockable(d, s, cfg) ==> Clocked(d, s, cfg, chip, []) == (d, s)
  {
    hide RealCycle, ClocksOf, Quiescent, Clockable;
  }

  lemma {:induction false} FirstClocks(d: Dp, s: Sys, cfg: Config, chip: Chip, ins: seq<Input>, n: nat)
    requires d.Valid() && Quiescent(s, cfg) && !s.Stalled() && ins != []
    requires n == ClocksOf(d, s, cfg, ins[0]) && n <= |ins|
    ensures var (d1, s1) := RealCycle(d, s, cfg, chip, ins[0]);
            && Clockable(d, s, cfg) && d1.Valid() && Quiescent(s1, cfg) && !s1.Stalled() && Clockable(d1, s1, cfg)
            && Clocked(d, s, cfg, chip, ins) == Clocked(d1, s1, cfg, chip, ins[n..])
  {
    assert ins[..n] != [] && ins[..n][0] == ins[0];
    CycleClocks(d, s, cfg, chip, ins[..n]);
    ClockedSplit(d, s, cfg, chip, ins, n);
    var (d1, s1) := RealCycle(d, s, cfg, chip, ins[0]);
    QuiescentClockable(d1, s1, cfg);
    hide *;
  }

  /** The processor `e`, `t` stands where the cycles left it, or within the next one, whose clocks `rest` are. */
  ghost predicate Stands(d: Dp, s: Sys, cfg: Config, rest: seq<Input>, e: Dp, t: Sys) {
    && d.Valid() && Quiescent(s, cfg) && !s.Stalled()
    && if rest == [] then (e, t) == (d, s)
       else |rest| < ClocksOf(d, s, cfg, rest[0]) && e == Dpphia(d, rest[0].irq) && t.Stalled()
  }

  /** So it stands after the whole cycles among the clocks. */
  ghost predicate Delayed(d: Dp, s: Sys, cfg: Config, chip: Chip, ins: seq<Input>)
    requires d.Valid() && Quiescent(s, cfg) && Clockable(d, s, cfg)
  {
    var cs := CyclesOf(d, s, cfg, chip, ins);
    var k := ClockCount(d, s, cfg, chip, cs);
    var (d1, s1) := RealRun(d, s, cfg, chip, cs);
    k <= |ins| && Stands(d1, s1, cfg, ins[k..], Clocked(d, s, cfg, chip, ins).0, Clocked(d, s, cfg, chip, ins).1)
  }

  lemma {:induction false} DelayedMeans(d: Dp, s: Sys, cfg: Config, chip: Chip, ins: seq<Input>, cs: seq<Input>)
    requires d.Valid() && Quiescent(s, cfg) && Clockable(d, s, cfg) && cs == CyclesOf(d, s, cfg, chip, ins)
    ensures var k := ClockCount(d, s, cfg, chip, cs); var (d1, s1) := RealRun(d, s, cfg, chip, cs);
            var (e, t) := Clocked(d, s, cfg, chip, ins);
            Delayed(d, s, cfg, chip, ins) <==> k <= |ins| && Stands(d1, s1, cfg, ins[k..], e, t)
  {
    hide Stands, Clocked, Clockable, CyclesOf, ClockCount, RealRun, Quiescent;
  }

  lemma {:induction false} DelayedShort(d: Dp, s: Sys, cfg: Config, chip: Chip, ins: seq<Input>)
    requires d.Valid() && Quiescent(s, cfg) && !s.Stalled() && (ins == [] || |ins| < ClocksOf(d, s, cfg, ins[0]))
    ensures Clockable(d, s, cfg) && Delayed(d, s, cfg, chip, ins)
  {
    QuiescentClockable(d, s, cfg);
    NoneOf(d, s, cfg, chip, ins);
    if ins != [] {
      CycleClocks(d, s, cfg, chip, ins);
    }
    hide Clocked, Clockable, CyclesOf, ClockCount, RealRun, Quiescent, Dpphia, ClocksOf, RealCycle;
  }

  lemma {:induction false} DelayedMore(d: Dp, s: Sys, cfg: Config, chip: Chip, ins: seq<Input>, n: nat)
    requires d.Valid() && Quiescent(s, cfg) && !s.Stalled() && ins != [] && n == ClocksOf(d, s, cfg, ins[0]) && n <= |ins|
    requires var (d1, s1) := RealCycle(d, s, cfg, chip, ins[0]);
             d1.Valid() && Quiescent(s1, cfg) && Clockable(d1, s1, cfg) && Delayed(d1, s1, cfg, chip, ins[n..])
    ensures Clockable(d, s, cfg) && Delayed(d, s, cfg, chip, ins)
  {
    hide *;
    var (d1, s1) := RealCycle(d, s, cfg, chip, ins[0]);
    var cs1 := CyclesOf(d1, s1, cfg, chip, ins[n..]);
    FirstClocks(d, s, cfg, chip, ins, n);
    CyclesFrom(d, s, cfg, chip, ins);
    FirstOf(d, s, cfg, chip, ins[0], cs1);
    DelayedMeans(d1, s1, cfg, chip, ins[n..], cs1);
    DelayedMeans(d, s, cfg, chip, ins, [ins[0]] + cs1);
    var k := ClockCount(d1, s1, cfg, chip, cs1);
    assert k <= |ins| - n ==> ins[n..][k..] == ins[n + k..];
  }

  /** Stalls only delay: after any number of clocks, whatever the wait counts, the processor is where
      whole cycles of the datapath leave it, or in the middle of the next one, standing still after
      phase a; and the clocks are those of the cycles, each with its exact stall. */
  lemma {:induction false} StallsOnlyDelay(d: Dp, s: Sys, cfg: Config, chip: Chip, ins: seq<Input>)
    requires d.Valid() && Quiescent(s, cfg) && !s.Stalled()
    ensures Clockable(d, s, cfg) && Delayed(d, s, cfg, chip, ins)
    decreases |ins|
  {
    hide *;
    if ins == [] || |ins| < ClocksOf(d, s, cfg, ins[0]) {
      DelayedShort(d, s, cfg, chip, ins);
    } else {
      var n := ClocksOf(d, s, cfg, ins[0]);
      var (d1, s1) := RealCycle(d, s, cfg, chip, ins[0]);
      FirstClocks(d, s, cfg, chip, ins, n);
      StallsOnlyDelay(d1, s1, cfg, chip, ins[n..]);
      DelayedMore(d, s, cfg, chip, ins, n);
    }
  }
}
