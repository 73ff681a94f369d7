/** When the datapath takes an interrupt: at the end of every step that finds a request, unless the program
    has interrupts off or is just writing its status word. */
module Sc32Interrupts {
  import opened Word32
  import opened Registers
  import opened MainMemory
  import opened StackCache
  import opened CacheBus
  import opened CacheRefinement
  import opened Sc32
  import opened Isa
  import opened Sc32Refinement
  import opened Sc32Runs

  /** The instructions that write their second register write the status word. */
  predicate WritesStatus(ir: Instr) {
    && ir.reg2.PSW?
    && (ir.kind.Micro? || ir.kind.Lal? || ir.kind.Lah? || ir.kind.Load? || ir.kind.LoadByte?)
  }

  lemma {:induction false} BoundaryAnswers(a: Dp, irq: Option<Vector>)
    ensures var n := Boundary(a, irq);
            && (n.next.TInt? ==> irq == Some(n.intvector))
            && (n.next.TExec? && irq.Some? ==> !a.actualie || IntSuppress(a))
  {
    hide IntSuppress;
  }

  lemma {:induction false} NextAnswers(a: Dp, irq: Option<Vector>)
    ensures var n := Nextstate(a, irq);
            && (n.next.TInt? ==> irq == Some(n.intvector))
            && (n.next.TExec? && irq.Some? ==> !a.actualie || IntSuppress(a))
  {
    BoundaryAnswers(a, irq);
    hide IntSuppress, Boundary;
  }

  lemma {:induction false} ExecPending(a: Dp, chip: Chip, dbus: Word)
    requires a.Valid()
    ensures var e := ExecPhib(a, chip, dbus);
            && (PendingReg(e).PSW? ==> (a.ir.kind.Micro? || a.ir.kind.Lah? || a.ir.kind.Lal?) && a.ir.reg2.PSW?)
            && e.actualie == a.actualie
  {
    hide Stk.Get, AluOf, Plus;
  }

  lemma {:induction false} LoadPending(a: Dp, dbus: Word)
    requires a.Valid()
    ensures PendingReg(LoadPhib(a, dbus)) == a.oldir.reg2 && LoadPhib(a, dbus).actualie == a.actualie
  {
    hide Stk.Get, ByteAt;
  }

  /** A phase b leaves no write of the status word pending, nor does it change the enable. */
  predicate Quiet(a: Dp, e: Dp) {
    !PendingReg(e).PSW? && e.actualie == a.actualie
  }

  lemma {:induction false} FetchQuiet(a: Dp, chip: Chip, dbus: Word)
    requires a.Valid()
    ensures Quiet(a, IntPhib(a, chip, dbus)) && Quiet(a, SquashPhib(a, chip, dbus))
  {
    hide Stk.Get, Plus, Minus;
  }

  lemma {:induction false} HoldQuiet(a: Dp)
    requires a.Valid()
    ensures Quiet(a, HoldPhib(a, Nop)) && Quiet(a, HoldPhib(a, RsUnderflow)) && Quiet(a, HoldPhib(a, PsUnderflow))
  {
    hide Stk.Get;
  }

  lemma {:induction false} OverQuiet(a: Dp)
    requires a.Valid()
    ensures Quiet(a, ROver1Phib(a)) && Quiet(a, POver1Phib(a))
  {
    hide Stk.Get, Minus, RoverStep;
  }

  lemma {:induction false} UnderQuiet(a: Dp)
    requires a.Valid()
    ensures Quiet(a, RUnder1Phib(a)) && Quiet(a, PUnder1Phib(a))
  {
    hide Plus, RunderStep;
  }

  lemma {:induction false} LatchedQuiet(a: Dp, e: Dp, dbus: Word)
    ensures Quiet(a, Latched(e, dbus)) == Quiet(a, e)
  {
  }

  lemma {:induction false} OtherPending(a: Dp, chip: Chip, dbus: Word)
    requires a.Valid() && !a.state.TExec? && !a.state.TLoad?
    ensures Quiet(a, Dpphib(a, chip, dbus))
  {
    FetchQuiet(a, chip, dbus);
    HoldQuiet(a);
    OverQuiet(a);
    UnderQuiet(a);
    LatchedAll(a, dbus);
    hide Quiet, IntPhib, SquashPhib, ExecPhib, LoadPhib, HoldPhib, ROver1Phib, POver1Phib, RUnder1Phib, PUnder1Phib, Latched;
  }

  lemma {:induction false} LatchedAll(a: Dp, dbus: Word)
    ensures forall e :: Quiet(a, Latched(e, dbus)) == Quiet(a, e)
  {
    forall e
      ensures Quiet(a, Latched(e, dbus)) == Quiet(a, e)
    {
      LatchedQuiet(a, e, dbus);
    }
    hide Quiet, Latched;
  }

  lemma {:induction false} PendingStatus(a: Dp, chip: Chip, dbus: Word)
    requires a.Valid()
    ensures var e := Dpphib(a, chip, dbus);
            && (PendingReg(e).PSW? ==> IntSuppress(a)) && e.actualie == a.actualie && e.next == a.next && e.intvector == a.intvector
  {
    if a.state.TExec? {
      ExecPending(a, chip, dbus);
    } else if a.state.TLoad? {
      LoadPending(a, dbus);
    } else {
      OtherPending(a, chip, dbus);
    }
    PhibStates(a, chip, dbus);
    hide Dpphib, ExecPhib, LoadPhib, PendingReg;
  }

  lemma {:induction false} PhibStates(a: Dp, chip: Chip, dbus: Word)
    requires a.Valid()
    ensures a.state.TExec? ==> Dpphib(a, chip, dbus) == ExecPhib(a, chip, dbus)
    ensures a.state.TLoad? ==> Dpphib(a, chip, dbus) == LoadPhib(a, dbus)
  {
    hide ExecPhib, LoadPhib;
  }

  lemma {:induction false} EnableKept(e: Dp)
    requires e.Valid() && !PendingReg(e).PSW?
    ensures WriteBack(e).actualie == e.actualie
  {
    hide Stk.Put, PendingReg;
  }

  /** A cycle that finds a request goes on with the interrupt, or to an instruction only if interrupts are
      off once it is over or it is writing the status word. */
  lemma {:induction false} CycleAnswers(d: Dp, m: Main, chip: Chip, irq: Option<Vector>, device: Word)
    requires d.Valid() && m.Valid()
    ensures var (e, _) := FlatCycle(d, m, chip, irq, device);
            && (e.next.TInt? ==> irq == Some(e.intvector))
            && (e.next.TExec? && irq.Some? ==> !WriteBack(e).actualie || Suppressed(d))
  {
    var a0, a := PhiaOf(Start(d)), Dpphia(d, irq);
    var r := Sc32.Presented(a, device);
    var dbus := if r.read then Answer(m, r) else a.dbus;
    StartInstruction(d);
    PhiaInstruction(a0, irq);
    FlatIs(d, m, chip, irq, device);
    hide *;
    NextAnswers(a0, irq);
    PendingStatus(a, chip, dbus);
    if !Suppressed(d) {
      EnableKept(Dpphib(a, chip, dbus));
    }
  }

  /** The cycle that starts in a state holds interrupts off. */
  predicate Suppressed(d: Dp) {
    || (d.next.TExec? && (d.ir.kind.Micro? || d.ir.kind.Lah? || d.ir.kind.Lal?) && d.ir.reg2.PSW?)
    || (d.next.TLoad? && d.oldir.reg2.PSW?)
  }

  lemma {:induction false} StartInstruction(d: Dp)
    requires d.Valid()
    ensures IntSuppress(PhiaOf(Start(d))) <==> Suppressed(d)
  {
    hide PhiaOf, WriteBack;
  }

  lemma {:induction false} PhiaInstruction(a0: Dp, irq: Option<Vector>)
    ensures IntSuppress(Nextstate(a0, irq)) <==> IntSuppress(a0)
    ensures Nextstate(a0, irq).actualie == a0.actualie
  {
    hide Nextstate;
  }

  lemma {:induction false} FlatIs(d: Dp, m: Main, chip: Chip, irq: Option<Vector>, device: Word)
    requires d.Valid() && m.Valid()
    ensures var a0, a := PhiaOf(Start(d)), Dpphia(d, irq);
            var r := Sc32.Presented(a, device);
            && a == Nextstate(a0, irq) && a.Valid()
            && FlatCycle(d, m, chip, irq, device).0 == Dpphib(a, chip, if r.read then Answer(m, r) else a.dbus)
  {
    hide PhiaOf, Nextstate, Start, Dpphib, Sc32.Presented, Answer, Apply;
  }

  lemma {:induction false} ExecFollows(d: Dp, m: Main, chip: Chip, irq: Option<Vector>, device: Word)
    requires d.Valid() && m.Valid() && d.next.TExec? && StepCycles(d) == 2
    ensures var e := FlatCycle(d, m, chip, irq, device).0;
            && e.next in {TLoad, TStore, TSquash} && e.oldir == d.ir
            && (e.next.TLoad? ==> d.ir.kind.Load? || d.ir.kind.LoadByte?)
  {
    StartIs(d);
    FlatExec(d, m, chip, irq, device);
    AccessFollows(Start(d), m, chip, irq, device);
    hide FlatCycle, Start, ExecCycle, Answer, Nextstate;
  }

  lemma {:induction false} OnlyLoads(e: Dp)
    ensures Suppressed(e) ==> e.next.TExec? || (e.next.TLoad? && e.oldir.reg2.PSW?)
    ensures forall ir: Instr :: ir.reg2.PSW? && (ir.kind.Load? || ir.kind.LoadByte?) ==> WritesStatus(ir)
  {
  }

  lemma {:induction false} FirstIs(d: Dp)
    requires d.Valid() && StepCycles(d) == 2
    ensures !d.next.TInt?
  {
  }

  /** Of the second cycle of a step only that of a load can write the status word. */
  lemma {:induction false} SecondSuppresses(d: Dp, m: Main, lay: Layout, chip: Chip, irq: Option<Vector>, device: Word)
    requires Inv(d, m, lay) && StepCycles(d) == 2
    ensures d.Valid() && m.Valid()
    ensures Suppressed(FlatCycle(d, m, chip, irq, device).0) ==> d.next.TExec? && WritesStatus(d.ir)
  {
    hide *;
    InvValid(d, m, lay);
    NextKinds(d, m, lay);
    FirstIs(d);
    if d.next.TExec? {
      ExecFollows(d, m, chip, irq, device);
    } else {
      MarkFollows(d, m, chip, irq, device);
    }
    OnlyLoads(FlatCycle(d, m, chip, irq, device).0);
  }

  lemma {:induction false} StartIs(d: Dp)
    requires d.Valid()
    ensures var c := Start(d); c.Valid() && c.ir == d.ir && c.state == d.next
  {
    hide WriteBack;
  }

  lemma {:induction false} MarkFollows(d: Dp, m: Main, chip: Chip, irq: Option<Vector>, device: Word)
    requires d.Valid() && m.Valid() && d.next in {TROver1, TRUnder1, TPOver1, TPUnder1}
    ensures FlatCycle(d, m, chip, irq, device).0.next in {TROver2, TRUnder2, TPOver2, TPUnder2}
  {
    FlatIs(d, m, chip, irq, device);
    StartIs(d);
    hide Start, FlatCycle, Sc32.Presented, Answer, Apply;
  }

  lemma {:induction false} EnabledIs(d: Dp, m: Main, lay: Layout)
    requires Inv(d, m, lay)
    ensures Ie(Abs(d, m, lay).psw) == WriteBack(d).actualie && Abs(d, m, lay).ir == d.ir
    ensures d.next.TInt? ==> Ie(Abs(d, m, lay).psw)
  {
    StartInOrder(d, m, lay);
    hide Logical, Sc32Refinement.Settled, Fits, Ie, Tor;
  }

  /** After every step, of whichever kind, of a disciplined program: an interrupt comes next only if it was
      requested at its end and the program has interrupts on; and if one was requested an instruction comes
      next only if the program has interrupts off, or the step was an instruction that wrote its status word. */
  lemma {:induction false} InterruptsAnswered(d: Dp, m: Main, lay: Layout, chip: Chip, ins: seq<Sc32Runs.Input>)
    requires Inv(d, m, lay) && Disciplined(Abs(d, m, lay), m, chip, lay) && |ins| == StepCycles(d)
    ensures d.Valid() && m.Valid() && 1 <= |ins| && var (d1, m1) := FlatRun(d, m, chip, ins);
            var irq := ins[|ins| - 1].irq;
            && Inv(d1, m1, lay)
            && (d1.next.TInt? ==> irq == Some(d1.intvector) && Ie(Abs(d1, m1, lay).psw))
            && (d1.next.TExec? && irq.Some? ==>
                  !Ie(Abs(d1, m1, lay).psw) || (d.next.TExec? && WritesStatus(Abs(d, m, lay).ir)))
  {
    hide *;
    InvValid(d, m, lay);
    OneStep(d, m, lay, chip, ins);
    RunOne(d, m, chip, ins);
    var (d1, m1) := FlatRun(d, m, chip, ins);
    EnabledIs(d, m, lay);
    EnabledIs(d1, m1, lay);
    if |ins| == 1 {
      CycleAnswers(d, m, chip, ins[0].irq, ins[0].device);
      FirstSuppresses(d);
    } else {
      var (d2, m2) := FlatCycle(d, m, chip, ins[0].irq, ins[0].device);
      CycleAnswers(d2, m2, chip, ins[1].irq, ins[1].device);
      SecondSuppresses(d, m, lay, chip, ins[0].irq, ins[0].device);
    }
  }

  lemma {:induction false} FirstSuppresses(d: Dp)
    requires d.Valid() && StepCycles(d) == 1
    ensures Suppressed(d) ==> d.next.TExec? && WritesStatus(d.ir)
  {
    hide WriteBack;
  }
}
