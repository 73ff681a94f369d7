/** Spills and fills never keep the unpipelined machine from its instructions: at most one of each stack
    comes between two of them, and the buses are granted only on request. */
module FriscProgress {
  import opened Word32
  import opened Registers
  import opened StackCache
  import opened Frisc
  import opened FriscPlain
  import opened FriscRefinement

  /** How many spills and fills can still come before the next instruction. */
  function StackWork(p: Plain): nat {
    if p.state.TRsDec? || p.state.TRsLoad? then 2 else if p.state.TPsDec? || p.state.TPsLoad? then 1 else 0
  }

  /** How many cycles, requests aside. */
  function Left(p: Plain): (n: nat)
    ensures n <= 4
  {
    2 * StackWork(p) + if p.state.TGrant? then 1 else 0
  }

  /** With a stack cache neither full nor down to four entries it asks for no work. */
  lemma {:induction false} WorkLeft(p: Plain, lay: Layout)
    requires Inv(p, lay)
    ensures p.core.Valid()
    ensures 5 <= p.core.rs.Count() <= 15 ==> StackWork(p) <= 1
    ensures 5 <= p.core.rs.Count() <= 15 && 5 <= p.core.ps.Count() <= 15 ==> StackWork(p) == 0
  {
    InvIs(p, lay);
    hide Stk.Count, Ordered, AbsOf, Fits;
  }

  lemma {:induction false} MarkedCount(s: Stk, v: Word)
    requires s.Valid()
    ensures s.Count() == SIZE && s.ext >= 1 ==> FriscRefinement.Spilled(s).Count() == 15
    ensures s.Count() == 4 && s.ext + 1 < TWO32 ==> FriscRefinement.Filled(s, v).Count() == 5
  {
  }

  lemma {:induction false} NeedsOf(p: Plain, lay: Layout)
    requires Inv(p, lay)
    ensures p.core.Valid()
    ensures p.state.TRsDec? ==> p.core.rs.Count() == SIZE
    ensures p.state.TRsLoad? ==> p.core.rs.Count() == 4
    ensures p.state.TPsDec? ==> p.core.ps.Count() == SIZE && 5 <= p.core.rs.Count() <= 15
    ensures p.state.TPsLoad? ==> p.core.ps.Count() == 4 && 5 <= p.core.rs.Count() <= 15
  {
    InvIs(p, lay);
    hide Stk.Count, Ordered, AbsOf, Fits;
  }

  lemma {:induction false} AdvanceStacks(d: Core, next: CycleType, i: Input)
    requires !next.TInt?
    ensures (Frisc.Advance(d, next, i).ps, Frisc.Advance(d, next, i).rs) == (d.ps, d.rs)
  {
  }

  /** Every spill or fill leaves less to do. */
  lemma {:induction false} WorkFalls(p: Plain, lay: Layout, chip: Chip, i1: Input, i2: Input)
    requires Inv(p, lay) && StackWork(p) > 0
    ensures p.core.Valid() && StackWork(FriscPlain.Cycle(FriscPlain.Cycle(p, chip, i1), chip, i2)) < StackWork(p)
  {
    hide *;
    WorkKinds(p);
    InvIs(p, lay);
    NeedsOf(p, lay);
    ValidStacks(p.core);
    MarkedCount(p.core.rs, p.core.mem.Fetch(p.core.rs.ext));
    MarkedCount(p.core.ps, p.core.mem.Fetch(p.core.ps.ext));
    var p1 := FriscPlain.Cycle(p, chip, i1);
    var p2 := FriscPlain.Cycle(p1, chip, i2);
    if p.state.TRsDec? {
      RSpill(p, lay, chip, i1, i2);
      RSpillIs(p, chip, i1, i2);
      AdvanceStacks(p.core.(rs := FriscRefinement.Spilled(p.core.rs), pcb := p1.core.pcb, cycle := p1.core.cycle,
                            mem := p.core.mem.Store(p.core.rs.ext - 1, p.core.rs.buf[Inc(p.core.rs.top)])), p2.state, i2);
    } else if p.state.TRsLoad? {
      RFill(p, lay, chip, i1, i2);
      RFillAbs(p, lay);
      RFillIs(p, chip, i1, i2);
      AdvanceStacks(p.core.(rs := FriscRefinement.Filled(p.core.rs, p.core.mem.Fetch(p.core.rs.ext)), pcb := p1.core.pcb,
                            cycle := p1.core.cycle),
                    p2.state, i2);
    } else if p.state.TPsDec? {
      PSpill(p, lay, chip, i1, i2);
      PSpillIs(p, chip, i1, i2);
      AdvanceStacks(p.core.(ps := FriscRefinement.Spilled(p.core.ps), pcb := p1.core.pcb, cycle := p1.core.cycle,
                            mem := p.core.mem.Store(p.core.ps.ext - 1, p.core.ps.buf[Inc(p.core.ps.top)])), p2.state, i2);
    } else {
      PFill(p, lay, chip, i1, i2);
      PFillAbs(p, lay);
      PFillIs(p, chip, i1, i2);
      AdvanceStacks(p.core.(ps := FriscRefinement.Filled(p.core.ps, p.core.mem.Fetch(p.core.ps.ext)), pcb := p1.core.pcb,
                            cycle := p1.core.cycle),
                    p2.state, i2);
    }
    WorkLeft(p2, lay);
  }

  lemma {:induction false} WorkKinds(p: Plain)
    ensures p.state.TRsDec? || p.state.TRsLoad? ==> StackWork(p) == 2
    ensures p.state.TPsDec? || p.state.TPsLoad? ==> StackWork(p) == 1
    ensures StackWork(p) > 0 ==> p.state.TRsDec? || p.state.TRsLoad? || p.state.TPsDec? || p.state.TPsLoad?
  {
  }

  lemma {:induction false} ValidStacks(c: Core)
    requires c.Valid()
    ensures c.ps.Valid() && c.rs.Valid() && |c.ps.buf| == 16 && |c.rs.buf| == 16
  {
  }

  /** The buses are granted only on request, and when they are requested the machine does not go on with
      another instruction. */
  lemma {:induction false} GrantsExactly(p: Plain, chip: Chip, i: Input)
    requires p.core.Valid()
    ensures FriscPlain.Cycle(p, chip, i).state.TGrant? ==> i.busrequest
    ensures FriscPlain.Cycle(p, chip, i).state.TExec? && !p.state.TInt? ==> !i.busrequest
  {
    hide ExecPhia, StorePhia, Writereg, OverStep, UnderStep, Alu, Barrel, Bdest, Rcache, Pcache;
  }

  /** And taken back without. */
  lemma {:induction false} BusesReturned(p: Plain, lay: Layout, chip: Chip, i: Input)
    requires Inv(p, lay) && p.state.TGrant?
    ensures p.core.Valid() && FriscPlain.Cycle(p, chip, i).state == if i.busrequest then TGrant else TExec
  {
    InvIs(p, lay);
    hide Ie, Ordered, AbsOf, Fits, Stk.Count, NextFits;
  }
}
