/** Whole runs of the chip over a flat memory are runs of its instruction set. */
module Sc32Runs {
  import opened Word32
  import opened Registers
  import opened MainMemory
  import opened StackCache
  import opened CacheBus
  import opened CacheRefinement
  import opened Sc32
  import opened Isa
  import opened Sc32Refinement
  import opened Sc32Progress

  /** What the outside world does in one cycle: a pending interrupt, a device's answer. */
  datatype Input = Input(irq: Option<Vector>, device: Word)

  function FlatRun(d: Dp, m: Main, chip: Chip, ins: seq<Input>): (Dp, Main)
    requires d.Valid() && m.Valid()
    decreases |ins|
  {
    if ins == [] then (d, m)
    else
      var (d1, m1) := FlatCycle(d, m, chip, ins[0].irq, ins[0].device);
      FlatRun(d1, m1, chip, ins[1..])
  }

  /** What can happen to the programmer's machine: an instruction, an interrupt, or a change of
      the memory reserved for the stacks. */
  datatype Event = Instruction(env: Env) | Irq(vector: Vector, device: Word) | Reserved(a: Word, v: Word)

  predicate Legal(i: Machine, m: Main, chip: Chip, lay: Layout, e: Event) {
    && m.Valid() && i.Valid()
    && match e
       case Instruction(env) => Advance(i, m, chip, env).Valid()
       case Irq(_, _) => Ie(i.psw)
       case Reserved(a, _) => m.Covers(a) && lay.Reserves(a)
  }

  function Happen(i: Machine, m: Main, chip: Chip, lay: Layout, e: Event): (Machine, Main)
    requires Legal(i, m, chip, lay, e)
  {
    match e
    case Instruction(env) => (Execute(i, m, chip, env), Isa.Memory(i, m, chip, env))
    case Irq(vector, device) => (Interrupt(i, m, chip, vector, device), m)
    case Reserved(a, v) => (i, m.Store(a, v))
  }

  predicate LegalRun(i: Machine, m: Main, chip: Chip, lay: Layout, es: seq<Event>)
    decreases |es|
  {
    es == [] ||
    (Legal(i, m, chip, lay, es[0]) &&
     var (j, n) := Happen(i, m, chip, lay, es[0]);
     LegalRun(j, n, chip, lay, es[1..]))
  }

  function After(i: Machine, m: Main, chip: Chip, lay: Layout, es: seq<Event>): (Machine, Main)
    requires LegalRun(i, m, chip, lay, es)
    decreases |es|
  {
    if es == [] then (i, m)
    else
      var (j, n) := Happen(i, m, chip, lay, es[0]);
      After(j, n, chip, lay, es[1..])
  }

  /** The stacks fit their reserved memory, and the next instruction does not store into it, nor into
      a register that the run keeps fixed, nor makes a trap fill memory. */
  predicate Good(i: Machine, m: Main, chip: Chip, lay: Layout) {
    && Fits(i, lay) && i.Valid() && m.Valid()
    && (IsStore(i.ir) ==>
          var a := Operands(i, chip).result;
          Ordinary(m, a, false) && (m.Covers(a) ==> !lay.Reserves(a)))
    && (i.ir.kind.Load? || i.ir.kind.LoadByte? ==> Ordinary(m, Operands(i, chip).result, true))
    && Ordinary(m, Target(i), true)
  }

  /** The program keeps to this whatever the interrupts, devices and exposed stack entries. */
  ghost predicate Disciplined(i: Machine, m: Main, chip: Chip, lay: Layout) {
    forall es | LegalRun(i, m, chip, lay, es) ::
      var (j, n) := After(i, m, chip, lay, es); Good(j, n, chip, lay)
  }

  lemma DisciplinedNow(i: Machine, m: Main, chip: Chip, lay: Layout)
    requires Disciplined(i, m, chip, lay)
    ensures Good(i, m, chip, lay)
  {
    assert LegalRun(i, m, chip, lay, []);
  }

  lemma DisciplinedNext(i: Machine, m: Main, chip: Chip, lay: Layout, e: Event)
    requires Disciplined(i, m, chip, lay) && Legal(i, m, chip, lay, e)
    ensures var (j, n) := Happen(i, m, chip, lay, e); Disciplined(j, n, chip, lay)
  {
    var (j, n) := Happen(i, m, chip, lay, e);
    forall es | LegalRun(j, n, chip, lay, es)
      ensures var (x, y) := After(j, n, chip, lay, es); Good(x, y, chip, lay)
    {
      Prepend(i, m, chip, lay, e, es);
    }
  }

  lemma Prepend(i: Machine, m: Main, chip: Chip, lay: Layout, e: Event, es: seq<Event>)
    requires Legal(i, m, chip, lay, e)
    requires var (j, n) := Happen(i, m, chip, lay, e); LegalRun(j, n, chip, lay, es)
    ensures LegalRun(i, m, chip, lay, [e] + es)
    ensures var (j, n) := Happen(i, m, chip, lay, e);
            After(i, m, chip, lay, [e] + es) == After(j, n, chip, lay, es)
  {
    assert ([e] + es)[1..] == es;
  }

  /** The cycles that the step starting in state `d` takes. */
  function StepCycles(d: Dp): (n: nat)
    requires d.Valid()
    ensures 1 <= n <= 2
    ensures d.next.TROver1? || d.next.TPOver1? ==> n == 2
  {
    if d.next.TInt? || (d.next.TExec? && OneCycle(Start(d))) then 1 else 2
  }

  /** What the step starting in state `d` is to the programmer's machine. */
  function StepEvents(d: Dp, ins: seq<Input>): seq<Event>
    requires d.Valid() && |ins| == StepCycles(d)
  {
    var c := Start(d);
    if d.next.TInt? then [Irq(d.intvector, ins[0].device)]
    else if d.next.TExec? then
      if OneCycle(c) then [Instruction(EnvOf(c, ins[0].device, 0))]
      else if Squashes(c) then [Instruction(EnvOf(c, ins[1].device, 0))]
      else [Instruction(EnvOf(c, ins[0].device, ins[1].device))]
    else if d.next.TROver1? && c.rs.ext >= 4 then [Reserved(c.rs.ext - 4, c.rs.buf[Inc(c.rs.top)])]
    else if d.next.TPOver1? && c.ps.ext >= 4 then [Reserved(c.ps.ext - 4, c.ps.buf[Inc(c.ps.top)])]
    else []
  }

  /** How many of the events are instructions or interrupts. */
  function Executed(es: seq<Event>): nat {
    if es == [] then 0 else (if es[0].Reserved? then 0 else 1) + Executed(es[1..])
  }

  lemma {:induction false} ExecutedJoin(es: seq<Event>, fs: seq<Event>)
    ensures Executed(es + fs) == Executed(es) + Executed(fs)
  {
    if es == [] {
      assert es + fs == fs;
    } else {
      ExecutedJoin(es[1..], fs);
      assert (es + fs)[1..] == es[1..] + fs;
    }
  }

  lemma RunOne(d: Dp, m: Main, chip: Chip, ins: seq<Input>)
    requires d.Valid() && m.Valid()
    ensures |ins| == 1 ==> FlatRun(d, m, chip, ins) == FlatCycle(d, m, chip, ins[0].irq, ins[0].device)
    ensures |ins| == 2 ==>
              var (d1, m1) := FlatCycle(d, m, chip, ins[0].irq, ins[0].device);
              FlatRun(d, m, chip, ins) == FlatCycle(d1, m1, chip, ins[1].irq, ins[1].device)
  {
    hide FlatCycle;
    if |ins| == 2 {
      var (d1, m1) := FlatCycle(d, m, chip, ins[0].irq, ins[0].device);
      assert ins[1..][1..] == [];
      assert FlatRun(d1, m1, chip, ins[1..]) == FlatCycle(d1, m1, chip, ins[1].irq, ins[1].device);
    }
  }

  /** An event that a disciplined program can meet leads to a machine that still fits. */
  lemma EventFits(i: Machine, m: Main, chip: Chip, lay: Layout, e: Event)
    requires Disciplined(i, m, chip, lay) && Legal(i, m, chip, lay, e)
    ensures var (j, n) := Happen(i, m, chip, lay, e); Fits(j, lay) && Disciplined(j, n, chip, lay)
  {
    DisciplinedNext(i, m, chip, lay, e);
    var (j, n) := Happen(i, m, chip, lay, e);
    hide Happen, Disciplined;
    DisciplinedNow(j, n, chip, lay);
  }

  /** An execute cycle, with the data access or the squash that follows it, is one instruction. */
  lemma InstructionEvent(d: Dp, m: Main, lay: Layout, chip: Chip, ins: seq<Input>)
    requires Inv(d, m, lay) && Disciplined(Abs(d, m, lay), m, chip, lay) && |ins| == StepCycles(d) && d.next.TExec?
    ensures var (d1, m1) := FlatRun(d, m, chip, ins);
            var i := Abs(d, m, lay);
            var e := StepEvents(d, ins)[0];
            && |StepEvents(d, ins)| == 1 && Legal(i, m, chip, lay, e) && Inv(d1, m1, lay)
            && (Abs(d1, m1, lay), m1) == Happen(i, m, chip, lay, e)
  {
    RunOne(d, m, chip, ins);
    StartInOrder(d, m, lay);
    var i := Abs(d, m, lay);
    var c := Start(d);
    assert c.ir == i.ir by {
      assert AbsOf(c, m, lay).ir == c.ir;
    }
    assert m.Valid() && i.Valid();
    DisciplinedNow(i, m, chip, lay);
    var e := StepEvents(d, ins)[0];
    hide FlatCycle, FlatRun, Inv, Abs, Start, Execute, Isa.Memory, Advance, Disciplined, Fits, EnvOf, Operands, AbsOf;
    if OneCycle(c) {
      InstructionStep(d, m, lay, chip, ins[0].irq, ins[0].device, 0);
    } else if Squashes(c) {
      SquashStep(d, m, lay, chip, ins[0].irq, ins[0].device, ins[1].irq, ins[1].device);
    } else if IsStore(c.ir) {
      StoreStep(d, m, lay, chip, ins[0].irq, ins[0].device, ins[1].irq, ins[1].device);
    } else {
      LoadStep(d, m, lay, chip, ins[0].irq, ins[0].device, ins[1].irq, ins[1].device);
    }
    EventFits(i, m, chip, lay, e);
  }

  /** An interrupt cycle is the interrupt. */
  lemma InterruptEvent(d: Dp, m: Main, lay: Layout, chip: Chip, ins: seq<Input>)
    requires Inv(d, m, lay) && Disciplined(Abs(d, m, lay), m, chip, lay) && |ins| == StepCycles(d) && d.next.TInt?
    ensures |StepEvents(d, ins)| == 1
    ensures var (d1, m1) := FlatRun(d, m, chip, ins);
            var i := Abs(d, m, lay);
            var e := StepEvents(d, ins)[0];
            && Legal(i, m, chip, lay, e) && Inv(d1, m1, lay)
            && (Abs(d1, m1, lay), m1) == Happen(i, m, chip, lay, e)
  {
    RunOne(d, m, chip, ins);
    var i := Abs(d, m, lay);
    assert m.Valid() && i.Valid();
    hide FlatCycle, FlatRun, Inv, Abs, Start, Disciplined, Fits, Interrupt, Ie;
    InterruptStep(d, m, lay, chip, ins[0].irq, ins[0].device);
    EventFits(i, m, chip, lay, Irq(d.intvector, ins[0].device));
  }

  lemma {:induction false} SpillCycles(d: Dp, ins: seq<Input>)
    requires d.Valid() && |ins| == StepCycles(d)
    ensures 0 <= Inc(Start(d).rs.top) < |Start(d).rs.buf| && 0 <= Inc(Start(d).ps.top) < |Start(d).ps.buf|
    ensures var s := Start(d).rs;
            d.next.TROver1? && s.ext >= 4 ==> StepEvents(d, ins) == [Reserved(s.ext - 4, s.buf[Inc(s.top)])]
    ensures var s := Start(d).ps;
            d.next.TPOver1? && s.ext >= 4 ==> StepEvents(d, ins) == [Reserved(s.ext - 4, s.buf[Inc(s.top)])]
  {
    hide Start, WriteBack;
  }

  lemma {:induction false} ReservedHappens(i: Machine, m: Main, chip: Chip, lay: Layout, a: Word, v: Word)
    requires i.Valid() && m.Valid() && m.Covers(a) && (lay.r.Contains(a) || lay.p.Contains(a))
    ensures Legal(i, m, chip, lay, Reserved(a, v)) && Happen(i, m, chip, lay, Reserved(a, v)) == (i, m.Store(a, v))
  {
    hide Main.Store, Main.Covers, Area.Contains;
  }

  /** The two cycles of a spill change only reserved memory. */
  lemma {:induction false} RSpillEvent(d: Dp, m: Main, lay: Layout, chip: Chip, ins: seq<Input>)
    requires Inv(d, m, lay) && |ins| == StepCycles(d) && d.next.TROver1?
    ensures |StepEvents(d, ins)| == 1
    ensures var (d1, m1) := FlatRun(d, m, chip, ins);
            var i := Abs(d, m, lay);
            var e := StepEvents(d, ins)[0];
            Legal(i, m, chip, lay, e) && Inv(d1, m1, lay) && (Abs(d1, m1, lay), m1) == Happen(i, m, chip, lay, e)
  {
    hide *;
    InvValid(d, m, lay);
    SpillCycles(d, ins);
    RunOne(d, m, chip, ins);
    RSpill(d, m, lay, chip, ins[0].irq, ins[0].device, ins[1].irq, ins[1].device);
    var s := Start(d).rs;
    ReservedHappens(Abs(d, m, lay), m, chip, lay, s.ext - 4, s.buf[Inc(s.top)]);
  }

  /** The two cycles of a spill change only reserved memory. */
  lemma {:induction false} PSpillEvent(d: Dp, m: Main, lay: Layout, chip: Chip, ins: seq<Input>)
    requires Inv(d, m, lay) && |ins| == StepCycles(d) && d.next.TPOver1?
    ensures |StepEvents(d, ins)| == 1
    ensures var (d1, m1) := FlatRun(d, m, chip, ins);
            var i := Abs(d, m, lay);
            var e := StepEvents(d, ins)[0];
            Legal(i, m, chip, lay, e) && Inv(d1, m1, lay) && (Abs(d1, m1, lay), m1) == Happen(i, m, chip, lay, e)
  {
    hide *;
    InvValid(d, m, lay);
    SpillCycles(d, ins);
    RunOne(d, m, chip, ins);
    PSpill(d, m, lay, chip, ins[0].irq, ins[0].device, ins[1].irq, ins[1].device);
    var s := Start(d).ps;
    ReservedHappens(Abs(d, m, lay), m, chip, lay, s.ext - 4, s.buf[Inc(s.top)]);
  }

  lemma {:induction false} FillCycles(d: Dp, ins: seq<Input>)
    requires d.Valid() && |ins| == StepCycles(d) && (d.next.TRUnder1? || d.next.TPUnder1?)
    ensures |ins| == 2 && StepEvents(d, ins) == []
  {
    hide Start, WriteBack;
  }

  /** The two cycles of a fill change nothing. */
  lemma FillEvent(d: Dp, m: Main, lay: Layout, chip: Chip, ins: seq<Input>)
    requires Inv(d, m, lay) && Disciplined(Abs(d, m, lay), m, chip, lay) && |ins| == StepCycles(d) && (d.next.TRUnder1? || d.next.TPUnder1?)
    ensures StepEvents(d, ins) == []
    ensures var (d1, m1) := FlatRun(d, m, chip, ins);
            Inv(d1, m1, lay) && (Abs(d1, m1, lay), m1) == (Abs(d, m, lay), m)
  {
    hide *;
    InvValid(d, m, lay);
    FillCycles(d, ins);
    RunOne(d, m, chip, ins);
    if d.next.TRUnder1? {
      RFill(d, m, lay, chip, ins[0].irq, ins[0].device, ins[1].irq, ins[1].device);
    } else {
      PFill(d, m, lay, chip, ins[0].irq, ins[0].device, ins[1].irq, ins[1].device);
    }
  }

  /** One step of the chip, of one or two cycles, is at most one event of the programmer's machine. */
  lemma OneStep(d: Dp, m: Main, lay: Layout, chip: Chip, ins: seq<Input>)
    requires Inv(d, m, lay) && Disciplined(Abs(d, m, lay), m, chip, lay) && |ins| == StepCycles(d)
    ensures var (d1, m1) := FlatRun(d, m, chip, ins);
            var i := Abs(d, m, lay);
            var es := StepEvents(d, ins);
            && Inv(d1, m1, lay) && LegalRun(i, m, chip, lay, es)
            && (Abs(d1, m1, lay), m1) == After(i, m, chip, lay, es)
            && Disciplined(Abs(d1, m1, lay), m1, chip, lay)
  {
    hide *;
    InvValid(d, m, lay);
    NextKinds(d, m, lay);
    match d.next {
      case TExec => InstructionEvent(d, m, lay, chip, ins);
      case TInt => InterruptEvent(d, m, lay, chip, ins);
      case TROver1 => RSpillEvent(d, m, lay, chip, ins);
      case TPOver1 => PSpillEvent(d, m, lay, chip, ins);
      case _ => FillEvent(d, m, lay, chip, ins);
    }
    var i := Abs(d, m, lay);
    var es := StepEvents(d, ins);
    if |es| == 1 {
      OneEvent(i, m, chip, lay, es[0]);
      assert es == [es[0]];
      EventFits(i, m, chip, lay, es[0]);
    } else {
      NoSteps(d, m, lay, chip);
    }
  }

  lemma {:induction false} OneEvent(i: Machine, m: Main, chip: Chip, lay: Layout, e: Event)
    requires Legal(i, m, chip, lay, e)
    ensures LegalRun(i, m, chip, lay, [e]) && After(i, m, chip, lay, [e]) == Happen(i, m, chip, lay, e)
  {
    hide Legal, Happen;
    assert [e][1..] == [];
  }

  /** The cycles that can start a step. */
  lemma {:induction false} NextKinds(d: Dp, m: Main, lay: Layout)
    requires Inv(d, m, lay)
    ensures d.next in {TExec, TInt, TROver1, TRUnder1, TPOver1, TPUnder1}
  {
    StartInOrder(d, m, lay);
    hide Start, Sc32Refinement.Settled, AbsOf, Inv, Fits, Tor;
  }

  lemma {:induction false} StepsExecute(d: Dp, ins: seq<Input>)
    requires d.Valid() && |ins| == StepCycles(d)
    ensures d.next.TExec? || d.next.TInt? ==> Executed(StepEvents(d, ins)) == 1
    ensures StackWork(d) > 0 ==> |ins| == 2
  {
    hide Start, WriteBack, EnvOf, Squashes;
    assert forall e: Event :: [e][1..] == [];
  }

  /** A step is an instruction or interrupt, or leaves less stack work. */
  lemma {:induction false} StepProgress(d: Dp, m: Main, lay: Layout, chip: Chip, ins: seq<Input>)
    requires Inv(d, m, lay) && |ins| == StepCycles(d)
    requires var (d1, m1) := FlatRun(d, m, chip, ins); Inv(d1, m1, lay)
    ensures var (d1, m1) := FlatRun(d, m, chip, ins);
            |ins| + 2 * StackWork(d1) <= 2 * StackWork(d) + 6 * Executed(StepEvents(d, ins))
  {
    StartInOrder(d, m, lay);
    hide *;
    InvValid(d, m, lay);
    StepsExecute(d, ins);
    RunOne(d, m, chip, ins);
    WorkAtMostTwo(d);
    WorkAtMostTwo(FlatRun(d, m, chip, ins).0);
    if StackWork(d) > 0 {
      StackWorkFalls(d, m, lay, chip, ins[0].irq, ins[0].device, ins[1].irq, ins[1].device);
    } else {
      NoWorkExecutes(d, m, lay);
    }
  }

  lemma {:induction false} WorkAtMostTwo(d: Dp)
    ensures StackWork(d) <= 2
  {
  }

  lemma {:induction false} NoWorkExecutes(d: Dp, m: Main, lay: Layout)
    requires Inv(d, m, lay) && StackWork(d) == 0
    ensures d.next.TExec? || d.next.TInt?
  {
    StartInOrder(d, m, lay);
    hide Start, WriteBack, Logical;
  }

  /** A run of a whole number of steps. */
  lemma AppendRun(i: Machine, m: Main, chip: Chip, lay: Layout, es: seq<Event>, fs: seq<Event>)
    requires LegalRun(i, m, chip, lay, es)
    requires var (j, n) := After(i, m, chip, lay, es); LegalRun(j, n, chip, lay, fs)
    ensures LegalRun(i, m, chip, lay, es + fs)
    ensures var (j, n) := After(i, m, chip, lay, es);
            After(i, m, chip, lay, es + fs) == After(j, n, chip, lay, fs)
    decreases |es|
  {
    hide Happen, Legal;
    if es == [] {
      assert es + fs == fs;
    } else {
      var (j, n) := Happen(i, m, chip, lay, es[0]);
      AppendRun(j, n, chip, lay, es[1..], fs);
      assert (es + fs)[1..] == es[1..] + fs;
    }
  }

  lemma {:induction false} RunSplit(d: Dp, m: Main, chip: Chip, ins: seq<Input>, k: nat)
    requires d.Valid() && m.Valid() && k <= |ins|
    ensures var (d1, m1) := FlatRun(d, m, chip, ins[..k]);
            && d1.Valid() && m1.Valid() && FlatRun(d, m, chip, ins) == FlatRun(d1, m1, chip, ins[k..])
    decreases k
  {
    hide FlatCycle;
    if k == 0 {
      assert ins[0..] == ins;
    } else {
      var (d1, m1) := FlatCycle(d, m, chip, ins[0].irq, ins[0].device);
      RunSplit(d1, m1, chip, ins[1..], k - 1);
      assert ins[..k][1..] == ins[1..][..k - 1] && ins[1..][k - 1..] == ins[k..];
    }
  }

  lemma {:induction false} NoSteps(d: Dp, m: Main, lay: Layout, chip: Chip)
    requires Inv(d, m, lay)
    ensures FlatRun(d, m, chip, []) == (d, m) && LegalRun(Abs(d, m, lay), m, chip, lay, [])
    ensures After(Abs(d, m, lay), m, chip, lay, []) == (Abs(d, m, lay), m)
  {
    hide Inv, Abs, FlatCycle;
    InvValid(d, m, lay);
  }

  /** Every run of the chip, cycle by cycle and under any interrupts, executes a disciplined
      program: after all its cycles, or all but the last, the registers, the two stacks and the
      memory are those of the programmer's machine after `es`; and in every six cycles, four at
      the start aside, at least one instruction or interrupt is executed. */
  lemma {:induction false} ChipRefinesIsa(d: Dp, m: Main, lay: Layout, chip: Chip, ins: seq<Input>) returns (es: seq<Event>, k: nat)
    requires Inv(d, m, lay) && Disciplined(Abs(d, m, lay), m, chip, lay)
    ensures |ins| - 1 <= k <= |ins| && LegalRun(Abs(d, m, lay), m, chip, lay, es)
    ensures k <= 2 * StackWork(d) + 6 * Executed(es)
    ensures var (d1, m1) := FlatRun(d, m, chip, ins[..k]);
            Inv(d1, m1, lay) && (Abs(d1, m1, lay), m1) == After(Abs(d, m, lay), m, chip, lay, es)
    decreases |ins|
  {
    hide *;
    InvValid(d, m, lay);
    var n := StepCycles(d);
    if |ins| < n {
      es, k := [], 0;
      NoSteps(d, m, lay, chip);
    } else {
      var first := ins[..n];
      OneStep(d, m, lay, chip, first);
      var (d1, m1) := FlatRun(d, m, chip, first);
      var i, j := Abs(d, m, lay), Abs(d1, m1, lay);
      StepProgress(d, m, lay, chip, first);
      var fs, l := ChipRefinesIsa(d1, m1, lay, chip, ins[n..]);
      es, k := StepEvents(d, first) + fs, n + l;
      AppendRun(i, m, chip, lay, StepEvents(d, first), fs);
      ExecutedJoin(StepEvents(d, first), fs);
      RunSplit(d, m, chip, ins[..k], n);
      assert ins[..k][..n] == first && ins[..k][n..] == ins[n..][..l];
    }
  }
}
