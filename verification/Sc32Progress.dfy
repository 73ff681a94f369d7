/** Spills and fills never keep the chip from its instructions: at most one of each stack comes
    between two of them. */
module Sc32Progress {
  import opened Word32
  import opened Registers
  import opened MainMemory
  import opened StackCache
  import opened CacheBus
  import opened CacheRefinement
  import opened Sc32
  import opened Isa
  import opened Sc32Refinement

  /** How many spills and fills can still come before the next instruction or interrupt. */
  function StackWork(d: Dp): nat {
    if d.next.TROver1? || d.next.TRUnder1? then 2 else if d.next.TPOver1? || d.next.TPUnder1? then 1 else 0
  }

  /** With neither stack cache full or down to four entries, no more stack work comes. */
  lemma {:induction false} WorkLeft(d: Dp, m: Main, lay: Layout)
    requires Inv(d, m, lay)
    ensures var w := WriteBack(d);
            && (5 <= w.rs.Count() <= 15 ==> StackWork(d) <= 1)
            && (5 <= w.rs.Count() <= 15 && 5 <= w.ps.Count() <= 15 ==> StackWork(d) == 0)
  {
    StartInOrder(d, m, lay);
    hide Logical, Placed, Stk.Get, Ie, Stk.Count;
  }

  lemma {:induction false} MarkedCount(s: Stk)
    requires s.Valid()
    ensures s.Count() == SIZE ==> RoverStep(s).Count() == 15
    ensures s.Count() == 4 ==> RunderStep(s).Count() == 5
  {
  }

  lemma {:induction false} RSpillCounts(d: Dp, m: Main, lay: Layout, chip: Chip, irq1: Option<Vector>, device1: Word,
                                        irq2: Option<Vector>, device2: Word)
    requires Inv(d, m, lay) && d.next.TROver1?
    ensures var (d1, m1) := FlatCycle(d, m, chip, irq1, device1);
            var (d2, m2) := FlatCycle(d1, m1, chip, irq2, device2);
            var c, w := Start(d), WriteBack(d2);
            w.rs.Count() == 15
  {
    hide FlatCycle, ROverCycle1, ROverCycle2, Start, WriteBack, Nextstate, Boundary, Inv, Abs,
      Sc32Refinement.Settled, Fits, AbsOf, Stk.Get, Minus, Apply, ROver2Phia, Ie, Tor;
    SpillStarts(d, m, lay);
    var c := Start(d);
    MarkedCount(c.rs);
    var d1 := ROverCycle1(c, m, irq1, device1);
    ROverShape(c, m, irq1, device1, irq2, device2);
    FlatROver(d, m, chip, irq1, device1);
    FlatROver(d1, m, chip, irq2, device2);
    NothingPending(ROverCycle2(Start(d1), m, irq2, device2).0, m, lay);
  }

  lemma {:induction false} PSpillCounts(d: Dp, m: Main, lay: Layout, chip: Chip, irq1: Option<Vector>, device1: Word,
                                        irq2: Option<Vector>, device2: Word)
    requires Inv(d, m, lay) && d.next.TPOver1?
    ensures var (d1, m1) := FlatCycle(d, m, chip, irq1, device1);
            var (d2, m2) := FlatCycle(d1, m1, chip, irq2, device2);
            var c, w := Start(d), WriteBack(d2);
            w.ps.Count() == 15 && w.rs.Count() == c.rs.Count()
  {
    hide FlatCycle, POverCycle1, POverCycle2, Start, WriteBack, Nextstate, Boundary, Inv, Abs,
      Sc32Refinement.Settled, Fits, AbsOf, Stk.Get, Minus, Apply, POver2Phia, Ie, Tor;
    SpillStarts(d, m, lay);
    var c := Start(d);
    MarkedCount(c.ps);
    var d1 := POverCycle1(c, m, irq1, device1);
    POverShape(c, m, irq1, device1, irq2, device2);
    FlatPOver(d, m, chip, irq1, device1);
    FlatPOver(d1, m, chip, irq2, device2);
    NothingPending(POverCycle2(Start(d1), m, irq2, device2).0, m, lay);
  }

  lemma {:induction false} SpillCounts(d: Dp, m: Main, lay: Layout, chip: Chip, irq1: Option<Vector>, device1: Word,
                                       irq2: Option<Vector>, device2: Word)
    requires Inv(d, m, lay)
    ensures var (d1, m1) := FlatCycle(d, m, chip, irq1, device1);
            var (d2, m2) := FlatCycle(d1, m1, chip, irq2, device2);
            var c, w := Start(d), WriteBack(d2);
            && (d.next.TROver1? ==> w.rs.Count() == 15)
            && (d.next.TPOver1? ==> w.ps.Count() == 15 && w.rs.Count() == c.rs.Count())
  {
    hide *;
    if d.next.TROver1? {
      RSpillCounts(d, m, lay, chip, irq1, device1, irq2, device2);
    } else if d.next.TPOver1? {
      PSpillCounts(d, m, lay, chip, irq1, device1, irq2, device2);
    }
  }

  lemma {:induction false} FillStarts(d: Dp, m: Main, lay: Layout)
    requires Inv(d, m, lay) && (d.next.TRUnder1? || d.next.TPUnder1?)
    ensures var c := Start(d);
            && d.Valid() && m.Valid() && c.Valid() && c.state == d.next
            && (d.next.TRUnder1? ==> c.rs.Count() == 4) && (d.next.TPUnder1? ==> c.ps.Count() == 4)
  {
    StartInOrder(d, m, lay);
    hide Start, WriteBack, Logical, Stk.Get, Placed, Ie;
  }

  lemma {:induction false} FillCounts(d: Dp, m: Main, lay: Layout, chip: Chip, irq1: Option<Vector>, device1: Word,
                                      irq2: Option<Vector>, device2: Word)
    requires Inv(d, m, lay)
    ensures var (d1, m1) := FlatCycle(d, m, chip, irq1, device1);
            var (d2, m2) := FlatCycle(d1, m1, chip, irq2, device2);
            var c, w := Start(d), WriteBack(d2);
            && (d.next.TRUnder1? ==> w.rs.Count() == 5)
            && (d.next.TPUnder1? ==> w.ps.Count() == 5 && w.rs.Count() == c.rs.Count())
  {
    if d.next.TRUnder1? || d.next.TPUnder1? {
      hide FlatCycle, RUnderCycle1, RUnderCycle2, PUnderCycle1, PUnderCycle2, Start, WriteBack, Nextstate,
        Boundary, Inv, Abs,
        Sc32Refinement.Settled, Fits, AbsOf, Stk.Get, Plus, Answer, RUnder2Phia, PUnder2Phia, Ie, Tor;
      FillStarts(d, m, lay);
      var c := Start(d);
      MarkedCount(c.rs);
      MarkedCount(c.ps);
      if d.next.TRUnder1? {
        var d1 := RUnderCycle1(c, m, irq1, device1);
        RUnderShape(c, m, irq1, device1, irq2, device2);
        FlatRUnder(d, m, chip, irq1, device1);
        FlatRUnder(d1, m, chip, irq2, device2);
      } else {
        var d1 := PUnderCycle1(c, m, irq1, device1);
        PUnderShape(c, m, irq1, device1, irq2, device2);
        FlatPUnder(d, m, chip, irq1, device1);
        FlatPUnder(d1, m, chip, irq2, device2);
      }
    }
  }

  /** Every spill and fill leaves less stack work. */
  lemma {:induction false} StackWorkFalls(d: Dp, m: Main, lay: Layout, chip: Chip, irq1: Option<Vector>, device1: Word,
                                          irq2: Option<Vector>, device2: Word)
    requires Inv(d, m, lay) && StackWork(d) > 0
    requires var (d1, m1) := FlatCycle(d, m, chip, irq1, device1);
             var (d2, m2) := FlatCycle(d1, m1, chip, irq2, device2);
             Inv(d2, m2, lay)
    ensures var (d1, m1) := FlatCycle(d, m, chip, irq1, device1);
            var (d2, m2) := FlatCycle(d1, m1, chip, irq2, device2);
            StackWork(d2) < StackWork(d)
  {
    StackTurn(d, m, lay);
    hide FlatCycle, Start, WriteBack, Inv, Stk.Count;
    SpillCounts(d, m, lay, chip, irq1, device1, irq2, device2);
    FillCounts(d, m, lay, chip, irq1, device1, irq2, device2);
    var (d1, m1) := FlatCycle(d, m, chip, irq1, device1);
    var (d2, m2) := FlatCycle(d1, m1, chip, irq2, device2);
    WorkLeft(d2, m2, lay);
  }

  /** The parameter stack's turn comes when the return stack needs nothing. */
  lemma {:induction false} StackTurn(d: Dp, m: Main, lay: Layout)
    requires Inv(d, m, lay)
    ensures d.next.TPOver1? || d.next.TPUnder1? ==> 5 <= Start(d).rs.Count() <= 15
  {
    StartInOrder(d, m, lay);
    hide Start, WriteBack, Logical, Placed, Stk.Get, Ie, Stk.Count;
  }
}
