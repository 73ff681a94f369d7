/** The datapath driven by the real memory system, cache, write buffer and stalls included. */
module Sc32System {
  import opened Word32
  import opened MainMemory
  import opened StackCache
  import opened CacheBus
  import opened CacheRefinement
  import opened Sc32
  import opened Isa
  import opened Sc32Refinement
  import opened Sc32Progress
  import opened Sc32Runs

  /** Every byte store of the datapath drives the byte on all four lanes. */
  lemma PresentedValid(d: Dp, irq: Option<Vector>, device: Word)
    requires d.Valid()
    ensures Sc32.Presented(Dpphia(d, irq), device).Valid()
  {
    var c := Start(d);
    if c.state.TStore? {
      assert PhiaOf(c) == StorePhia(c);
      SpreadBytes(ReadReg(c, c.oldir.reg2) % 256, 3);
    }
    hide Start, PhiaOf, Nextstate, ReadReg, Spread;
  }

  lemma {:induction false} AccessEnds(s: Sys, cfg: Config, r: Request, m: Main)
    requires During(s, cfg, r, m)
    ensures Quiescent(Complete(s, cfg, r, m), cfg)
  {
    AccessCompletes(s, cfg, r, m);
    hide Complete, During;
  }

  /** One cycle of the datapath with the memory system: phase a presents an access, which is
      repeated until neither controller stalls it, and only then does phase b run. */
  ghost function RealCycle(d: Dp, s: Sys, cfg: Config, chip: Chip, input: Input): (e: (Dp, Sys))
    requires d.Valid() && Quiescent(s, cfg)
    ensures e.0.Valid() && Quiescent(e.1, cfg) && !e.1.Stalled()
  {
    PresentedValid(d, input.irq, input.device);
    var a := Dpphia(d, input.irq);
    var r := Sc32.Presented(a, input.device);
    AccessBegins(s, cfg, r);
    AccessEnds(s, cfg, r, Drain(s));
    var s1 := Complete(s, cfg, r, Drain(s));
    (Dpphib(a, chip, if r.read then s1.dbus else a.dbus), s1)
  }

  /** The cache is enabled by bit 3 of the status word. */
  lemma {:induction false} EnableBit(psw: Word, low: nat, bit: nat, high: nat)
    requires low < 8 && bit < 2 && psw == low + 8 * bit + 16 * high
    ensures CacheEnabled(psw) <==> bit == 1
  {
    assert psw / 8 == bit + 2 * high;
  }

  /** A cycle with the cache enabled as configured, whose access is ordinary and does not read the tag
      backdoor, whose answer is not modelled. */
  predicate OrdinaryCycle(d: Dp, m: Main, cfg: Config, input: Input)
    requires d.Valid() && m.Valid()
  {
    var a := Dpphia(d, input.irq);
    && CacheEnabled(a.psw) == cfg.cacheEnabled && Ordinary(m, a.abus, a.read)
    && (a.read && TagBackdoor(a.abus) ==> m.Covers(a.abus))
  }

  /** Stall transparency of one cycle: the datapath ends where a flat memory would leave it. */
  lemma RealCycleIsFlat(d: Dp, s: Sys, cfg: Config, chip: Chip, input: Input)
    requires d.Valid() && Quiescent(s, cfg) && OrdinaryCycle(d, Drain(s), cfg, input)
    ensures var (d1, s1) := RealCycle(d, s, cfg, chip, input);
            && Quiescent(s1, cfg) && (d1, Drain(s1)) == FlatCycle(d, Drain(s), chip, input.irq, input.device)
  {
    PresentedValid(d, input.irq, input.device);
    var r := Sc32.Presented(Dpphia(d, input.irq), input.device);
    AccessBegins(s, cfg, r);
    hide Dpphia, Dpphib, Complete, During, Apply, Answer, Drain, Coherent;
    AccessCompletes(s, cfg, r, Drain(s));
  }

  ghost function RealRun(d: Dp, s: Sys, cfg: Config, chip: Chip, ins: seq<Input>): (Dp, Sys)
    requires d.Valid() && Quiescent(s, cfg)
    decreases |ins|
  {
    if ins == [] then (d, s)
    else
      var (d1, s1) := RealCycle(d, s, cfg, chip, ins[0]);
      RealRun(d1, s1, cfg, chip, ins[1..])
  }

  /** The last cycle of a run. */
  lemma {:induction false} RealRunLast(d: Dp, s: Sys, cfg: Config, chip: Chip, ins: seq<Input>)
    requires d.Valid() && Quiescent(s, cfg) && ins != []
    ensures var n := |ins| - 1;
            var (d1, s1) := RealRun(d, s, cfg, chip, ins[..n]);
            && d1.Valid() && Quiescent(s1, cfg)
            && RealRun(d, s, cfg, chip, ins) == RealCycle(d1, s1, cfg, chip, ins[n])
    decreases |ins|
  {
    hide RealCycle, Quiescent;
    if |ins| > 1 {
      var (d1, s1) := RealCycle(d, s, cfg, chip, ins[0]);
      RealRunLast(d1, s1, cfg, chip, ins[1..]);
      assert ins[1..][..|ins| - 2] == ins[..|ins| - 1][1..];
    }
  }

  predicate OrdinaryRun(d: Dp, m: Main, cfg: Config, chip: Chip, ins: seq<Input>)
    requires d.Valid() && m.Valid()
    decreases |ins|
  {
    ins == [] ||
    (OrdinaryCycle(d, m, cfg, ins[0]) &&
     var (d1, m1) := FlatCycle(d, m, chip, ins[0].irq, ins[0].device);
     OrdinaryRun(d1, m1, cfg, chip, ins[1..]))
  }

  /** Stall transparency: whatever the wait counts, the cache's contents and the timing of the
      buffered writes, a run of the datapath is its run over a flat memory. */
  lemma {:induction false} StallTransparency(d: Dp, s: Sys, cfg: Config, chip: Chip, ins: seq<Input>)
    requires d.Valid() && Quiescent(s, cfg) && OrdinaryRun(d, Drain(s), cfg, chip, ins)
    ensures var (d1, s1) := RealRun(d, s, cfg, chip, ins);
            && Quiescent(s1, cfg) && (d1, Drain(s1)) == FlatRun(d, Drain(s), chip, ins)
    decreases |ins|
  {
    hide RealCycle, FlatCycle, Drain, Quiescent, OrdinaryCycle;
    if ins != [] {
      RealCycleIsFlat(d, s, cfg, chip, ins[0]);
      var (d1, s1) := RealCycle(d, s, cfg, chip, ins[0]);
      StallTransparency(d1, s1, cfg, chip, ins[1..]);
    }
  }

  lemma {:induction false} OrdinaryPrefix(d: Dp, m: Main, cfg: Config, chip: Chip, ins: seq<Input>, k: nat)
    requires d.Valid() && m.Valid() && k <= |ins| && OrdinaryRun(d, m, cfg, chip, ins)
    ensures OrdinaryRun(d, m, cfg, chip, ins[..k])
    decreases k
  {
    hide FlatCycle, OrdinaryCycle;
    if k > 0 {
      var (d1, m1) := FlatCycle(d, m, chip, ins[0].irq, ins[0].device);
      OrdinaryPrefix(d1, m1, cfg, chip, ins[1..], k - 1);
      assert ins[..k][1..] == ins[1..][..k - 1];
    }
  }

  /** The chip with its cache, its write buffer, its stack caches, its delayed write-back and
      its predicted branches executes a disciplined program as its programmer sees it, at least
      one instruction or interrupt in every six cycles, stalls and four at the start aside. */
  lemma SystemRefinesIsa(d: Dp, s: Sys, cfg: Config, lay: Layout, chip: Chip, ins: seq<Input>)
      returns (es: seq<Event>, k: nat)
    requires Quiescent(s, cfg) && Inv(d, Drain(s), lay) && Disciplined(Abs(d, Drain(s), lay), Drain(s), chip, lay)
    requires OrdinaryRun(d, Drain(s), cfg, chip, ins)
    ensures |ins| - 1 <= k <= |ins| && OrdinaryRun(d, Drain(s), cfg, chip, ins[..k])
    ensures LegalRun(Abs(d, Drain(s), lay), Drain(s), chip, lay, es) && k <= 2 * StackWork(d) + 6 * Executed(es)
    ensures var (d1, s1) := RealRun(d, s, cfg, chip, ins[..k]);
            && Quiescent(s1, cfg) && Inv(d1, Drain(s1), lay)
            && (Abs(d1, Drain(s1), lay), Drain(s1)) == After(Abs(d, Drain(s), lay), Drain(s), chip, lay, es)
  {
    es, k := ChipRefinesIsa(d, Drain(s), lay, chip, ins);
    hide Inv, Abs, Disciplined, FlatRun, RealRun, Quiescent, Drain, After;
    OrdinaryPrefix(d, Drain(s), cfg, chip, ins, k);
    StallTransparency(d, s, cfg, chip, ins[..k]);
  }
}
