/** Whole runs of the unpipelined machine are runs of its instruction set, and keep the pipelined one
    in step. */
module FriscRuns {
  import opened Word32
  import opened Registers
  import opened StackCache
  import opened Frisc
  import opened FriscPlain
  import FriscPiped
  import opened PipelineEquivalence
  import opened FriscRefinement
  import opened FriscProgress
  import FriscIsa

  /** What can happen to the programmer's machine: an instruction, or a change of the memory reserved
      for the stacks. */
  datatype Event = Instruction(env: FriscIsa.Env) | Reserved(a: Word, v: Word)

  predicate Legal(m: FriscIsa.Machine, mem: Memory, chip: Chip, lay: Layout, e: Event) {
    && m.Valid()
    && match e
       case Instruction(env) => FriscIsa.Advance(m, mem, chip, env).Valid()
       case Reserved(a, _) => lay.Reserves(a)
  }

  function Happen(m: FriscIsa.Machine, mem: Memory, chip: Chip, lay: Layout, e: Event): (FriscIsa.Machine, Memory)
    requires Legal(m, mem, chip, lay, e)
  {
    match e
    case Instruction(env) => (FriscIsa.Execute(m, mem, chip, env), FriscIsa.Memory(m, mem, chip, env))
    case Reserved(a, v) => (m, mem.Store(a, v))
  }

  predicate LegalRun(m: FriscIsa.Machine, mem: Memory, chip: Chip, lay: Layout, es: seq<Event>)
    decreases |es|
  {
    es == [] ||
    (Legal(m, mem, chip, lay, es[0]) &&
     var (j, n) := Happen(m, mem, chip, lay, es[0]);
     LegalRun(j, n, chip, lay, es[1..]))
  }

  function After(m: FriscIsa.Machine, mem: Memory, chip: Chip, lay: Layout, es: seq<Event>): (FriscIsa.Machine, Memory)
    requires LegalRun(m, mem, chip, lay, es)
    decreases |es|
  {
    if es == [] then (m, mem)
    else
      var (j, n) := Happen(m, mem, chip, lay, es[0]);
      After(j, n, chip, lay, es[1..])
  }

  /** The stacks fit, interrupts are off, and the instruction leaves the reserved memory and the stack
      caches alone. */
  ghost predicate Good(m: FriscIsa.Machine, lay: Layout) {
    && m.Valid() && Fits(m, lay) && Tame(m)
    && (m.ir.kind.Store? ==> forall env: FriscIsa.Env :: !lay.Reserves(FriscIsa.Sum(m, env)))
  }

  /** The program keeps to this whatever its pushes expose and the reserved memory holds. */
  ghost predicate Disciplined(m: FriscIsa.Machine, mem: Memory, chip: Chip, lay: Layout) {
    forall es | LegalRun(m, mem, chip, lay, es) :: Good(After(m, mem, chip, lay, es).0, lay)
  }

  lemma {:induction false} DisciplinedNow(m: FriscIsa.Machine, mem: Memory, chip: Chip, lay: Layout)
    requires Disciplined(m, mem, chip, lay)
    ensures Good(m, lay)
  {
    hide Good;
    assert LegalRun(m, mem, chip, lay, []);
    assert After(m, mem, chip, lay, []).0 == m;
  }

  lemma {:induction false} Prepend(m: FriscIsa.Machine, mem: Memory, chip: Chip, lay: Layout, e: Event, es: seq<Event>)
    requires Legal(m, mem, chip, lay, e)
    requires var (j, n) := Happen(m, mem, chip, lay, e); LegalRun(j, n, chip, lay, es)
    ensures LegalRun(m, mem, chip, lay, [e] + es)
    ensures var (j, n) := Happen(m, mem, chip, lay, e);
            After(m, mem, chip, lay, [e] + es) == After(j, n, chip, lay, es)
  {
    hide Legal, Happen;
    assert ([e] + es)[1..] == es;
  }

  lemma {:induction false} DisciplinedNext(m: FriscIsa.Machine, mem: Memory, chip: Chip, lay: Layout, e: Event)
    requires Disciplined(m, mem, chip, lay) && Legal(m, mem, chip, lay, e)
    ensures var (j, n) := Happen(m, mem, chip, lay, e); Disciplined(j, n, chip, lay) && Good(j, lay)
  {
    hide Legal, Happen, Good;
    var (j, n) := Happen(m, mem, chip, lay, e);
    forall es | LegalRun(j, n, chip, lay, es)
      ensures Good(After(j, n, chip, lay, es).0, lay)
    {
      Prepend(m, mem, chip, lay, e, es);
    }
    DisciplinedNow(j, n, chip, lay);
  }

  lemma {:induction false} JoinRuns(m: FriscIsa.Machine, mem: Memory, chip: Chip, lay: Layout, es: seq<Event>, fs: seq<Event>)
    requires LegalRun(m, mem, chip, lay, es)
    requires var (j, n) := After(m, mem, chip, lay, es); LegalRun(j, n, chip, lay, fs)
    ensures LegalRun(m, mem, chip, lay, es + fs)
    ensures var (j, n) := After(m, mem, chip, lay, es); After(m, mem, chip, lay, es + fs) == After(j, n, chip, lay, fs)
    decreases |es|
  {
    hide Legal, Happen;
    if es == [] {
      assert es + fs == fs;
    } else {
      var (j, n) := Happen(m, mem, chip, lay, es[0]);
      JoinRuns(j, n, chip, lay, es[1..], fs);
      assert (es + fs)[1..] == es[1..] + fs;
    }
  }

  // One step of the machine

  /** The cycles of the step that starts here: a data access, a spill and a fill take two. */
  function StepCycles(p: Plain): (n: nat)
    ensures 1 <= n <= 2
  {
    if p.state.TGrant? || (p.state.TExec? && !p.ir.kind.Load? && !p.ir.kind.Store?) then 1 else 2
  }

  /** What that step is to the programmer's machine. */
  function StepEvents(p: Plain): seq<Event>
    requires p.core.Valid()
  {
    if p.state.TExec? then [Instruction(EnvOf(p))]
    else if p.state.TRsDec? && p.core.rs.ext >= 1 then [Reserved(p.core.rs.ext - 1, p.core.rs.buf[Inc(p.core.rs.top)])]
    else if p.state.TPsDec? && p.core.ps.ext >= 1 then [Reserved(p.core.ps.ext - 1, p.core.ps.buf[Inc(p.core.ps.top)])]
    else []
  }

  lemma {:induction false} RunOne(p: Plain, chip: Chip, inputs: seq<Input>)
    requires p.core.Valid()
    ensures |inputs| == 1 ==> FriscPlain.Run(p, chip, inputs) == FriscPlain.Cycle(p, chip, inputs[0])
    ensures |inputs| == 2 ==>
              FriscPlain.Run(p, chip, inputs) == FriscPlain.Cycle(FriscPlain.Cycle(p, chip, inputs[0]), chip, inputs[1])
  {
    hide FriscPlain.Cycle;
    if |inputs| == 2 {
      assert inputs[1..][1..] == [];
      assert FriscPlain.Run(FriscPlain.Cycle(p, chip, inputs[0]), chip, inputs[1..])
          == FriscPlain.Cycle(FriscPlain.Cycle(p, chip, inputs[0]), chip, inputs[1]);
    }
  }

  lemma {:induction false} GoodIs(m: FriscIsa.Machine, lay: Layout, env: FriscIsa.Env)
    requires Good(m, lay)
    ensures m.Valid() && Fits(m, lay) && Tame(m) && (m.ir.kind.Store? ==> !lay.Reserves(FriscIsa.Sum(m, env)))
  {
  }

  lemma {:induction false} OneEvent(m: FriscIsa.Machine, mem: Memory, chip: Chip, lay: Layout, e: Event)
    requires Legal(m, mem, chip, lay, e)
    ensures LegalRun(m, mem, chip, lay, [e]) && After(m, mem, chip, lay, [e]) == Happen(m, mem, chip, lay, e)
  {
    hide Legal, Happen;
    assert [e][1..] == [];
  }

  lemma {:induction false} NoEvent(m: FriscIsa.Machine, mem: Memory, chip: Chip, lay: Layout)
    ensures LegalRun(m, mem, chip, lay, []) && After(m, mem, chip, lay, []) == (m, mem)
  {
  }

  lemma {:induction false} InstructionIs(m: FriscIsa.Machine, mem: Memory, chip: Chip, lay: Layout, env: FriscIsa.Env)
    requires m.Valid() && FriscIsa.Advance(m, mem, chip, env).Valid()
    ensures Legal(m, mem, chip, lay, Instruction(env))
    ensures Happen(m, mem, chip, lay, Instruction(env)) == (FriscIsa.Execute(m, mem, chip, env), FriscIsa.Memory(m, mem, chip, env))
  {
    hide FriscIsa.Advance, FriscIsa.Execute, FriscIsa.Memory;
  }

  lemma {:induction false} ReservedIs(m: FriscIsa.Machine, mem: Memory, chip: Chip, lay: Layout, a: Word, v: Word)
    requires m.Valid() && (lay.p.Contains(a) || lay.r.Contains(a))
    ensures Legal(m, mem, chip, lay, Reserved(a, v)) && Happen(m, mem, chip, lay, Reserved(a, v)) == (m, mem.Store(a, v))
  {
    hide Memory.Store, Region.Contains;
  }

  lemma {:induction false} StepEventsIs(p: Plain)
    requires p.core.Valid()
    ensures p.state.TExec? ==> StepEvents(p) == [Instruction(EnvOf(p))]
    ensures p.state.TRsDec? && p.core.rs.ext >= 1 ==>
              StepEvents(p) == [Reserved(p.core.rs.ext - 1, p.core.rs.buf[Inc(p.core.rs.top)])]
    ensures p.state.TPsDec? && p.core.ps.ext >= 1 ==>
              StepEvents(p) == [Reserved(p.core.ps.ext - 1, p.core.ps.buf[Inc(p.core.ps.top)])]
    ensures p.state.TGrant? || p.state.TRsLoad? || p.state.TPsLoad? ==> StepEvents(p) == []
  {
    hide EnvOf;
  }

  lemma {:induction false} StepCyclesIs(p: Plain)
    ensures StepCycles(p) == if p.state.TGrant? || (p.state.TExec? && !p.ir.kind.Load? && !p.ir.kind.Store?) then 1 else 2
  {
  }

  /** An instruction is one event. */
  lemma {:induction false} InstructionEvent(p: Plain, lay: Layout, chip: Chip, inputs: seq<Input>)
    requires Inv(p, lay) && Disciplined(Abs(p, lay), p.core.mem, chip, lay) && |inputs| == StepCycles(p) && p.state.TExec?
    ensures var p1 := FriscPlain.Run(p, chip, inputs); var e := Instruction(EnvOf(p));
            && Legal(Abs(p, lay), p.core.mem, chip, lay, e) && Inv(p1, lay)
            && (Abs(p1, lay), p1.core.mem) == Happen(Abs(p, lay), p.core.mem, chip, lay, e)
  {
    hide *;
    InvIs(p, lay);
    var m := Abs(p, lay);
    StepCyclesIs(p);
    RunOne(p, chip, inputs);
    DisciplinedNow(m, p.core.mem, chip, lay);
    GoodIs(m, lay, EnvOf(p));
    AdvanceValid(p, lay, chip);
    InstructionIs(m, p.core.mem, chip, lay, EnvOf(p));
    DisciplinedNext(m, p.core.mem, chip, lay, Instruction(EnvOf(p)));
    GoodIs(FriscIsa.Execute(m, p.core.mem, chip, EnvOf(p)), lay, EnvOf(p));
    if p.ir.kind.Load? {
      LoadStep(p, lay, chip, inputs[0], inputs[1]);
    } else if p.ir.kind.Store? {
      StoreStep(p, lay, chip, inputs[0], inputs[1]);
    } else {
      InstructionStep(p, lay, chip, inputs[0]);
    }
  }

  lemma {:induction false} StateKinds(p: Plain, lay: Layout)
    requires Inv(p, lay)
    ensures p.state in {TExec, TGrant, TRsDec, TRsLoad, TPsDec, TPsLoad}
  {
    hide Ordered, AbsOf, Fits, Stk.Count;
  }

  lemma {:induction false} Buffers(c: Core)
    requires c.Valid()
    ensures |c.ps.buf| == 16 && |c.rs.buf| == 16
  {
  }

  /** One step of the machine is at most one event. */
  lemma {:induction false} OneStep(p: Plain, lay: Layout, chip: Chip, inputs: seq<Input>)
    requires Inv(p, lay) && Disciplined(Abs(p, lay), p.core.mem, chip, lay) && |inputs| == StepCycles(p)
    ensures var p1 := FriscPlain.Run(p, chip, inputs); var m := Abs(p, lay);
            && p.core.Valid() && LegalRun(m, p.core.mem, chip, lay, StepEvents(p)) && Inv(p1, lay)
            && (Abs(p1, lay), p1.core.mem) == After(m, p.core.mem, chip, lay, StepEvents(p))
            && Disciplined(Abs(p1, lay), p1.core.mem, chip, lay)
  {
    hide *;
    InvIs(p, lay);
    StateKinds(p, lay);
    Buffers(p.core);
    StepCyclesIs(p);
    StepEventsIs(p);
    RunOne(p, chip, inputs);
    var m, mem := Abs(p, lay), p.core.mem;
    if p.state.TExec? {
      InstructionEvent(p, lay, chip, inputs);
    } else if p.state.TRsDec? {
      RSpill(p, lay, chip, inputs[0], inputs[1]);
      ReservedIs(m, mem, chip, lay, p.core.rs.ext - 1, p.core.rs.buf[Inc(p.core.rs.top)]);
    } else if p.state.TPsDec? {
      PSpill(p, lay, chip, inputs[0], inputs[1]);
      ReservedIs(m, mem, chip, lay, p.core.ps.ext - 1, p.core.ps.buf[Inc(p.core.ps.top)]);
    } else if p.state.TRsLoad? {
      RFill(p, lay, chip, inputs[0], inputs[1]);
    } else if p.state.TPsLoad? {
      PFill(p, lay, chip, inputs[0], inputs[1]);
    } else {
      GrantStep(p, lay, chip, inputs[0]);
    }
    var es := StepEvents(p);
    if |es| == 1 {
      assert es == [es[0]];
      OneEvent(m, mem, chip, lay, es[0]);
      DisciplinedNext(m, mem, chip, lay, es[0]);
    } else {
      NoEvent(m, mem, chip, lay);
    }
  }

  // How many cycles a run takes

  function Instructions(es: seq<Event>): nat {
    if es == [] then 0 else (if es[0].Instruction? then 1 else 0) + Instructions(es[1..])
  }

  function Requests(inputs: seq<Input>): nat {
    if inputs == [] then 0 else (if inputs[0].busrequest then 1 else 0) + Requests(inputs[1..])
  }

  lemma {:induction false} InstructionsAdd(es: seq<Event>, fs: seq<Event>)
    ensures Instructions(es + fs) == Instructions(es) + Instructions(fs)
    decreases |es|
  {
    if es == [] {
      assert es + fs == fs;
    } else {
      assert (es + fs)[1..] == es[1..] + fs;
      InstructionsAdd(es[1..], fs);
    }
  }

  lemma {:induction false} RequestsAdd(inputs: seq<Input>, more: seq<Input>)
    ensures Requests(inputs + more) == Requests(inputs) + Requests(more)
    decreases |inputs|
  {
    if inputs == [] {
      assert inputs + more == more;
    } else {
      assert (inputs + more)[1..] == inputs[1..] + more;
      RequestsAdd(inputs[1..], more);
    }
  }

  lemma {:induction false} EventsCount(p: Plain)
    requires p.core.Valid()
    ensures Instructions(StepEvents(p)) == if p.state.TExec? then 1 else 0
  {
    hide EnvOf;
    assert |StepEvents(p)| <= 1;
  }

  lemma {:induction false} RequestsFew(inputs: seq<Input>)
    ensures |inputs| == 1 ==> Requests(inputs) == if inputs[0].busrequest then 1 else 0
    ensures |inputs| == 2 ==> Requests(inputs) >= if inputs[1].busrequest then 1 else 0
  {
    if |inputs| == 2 {
      assert Requests(inputs[1..]) == if inputs[1].busrequest then 1 else 0;
    }
  }

  lemma {:induction false} LeftIs(p: Plain)
    ensures Left(p) == 2 * StackWork(p) + if p.state.TGrant? then 1 else 0
    ensures p.state.TExec? || p.state.TGrant? ==> StackWork(p) == 0
    ensures p.state in {TRsDec, TRsLoad, TPsDec, TPsLoad} ==> StackWork(p) > 0
  {
  }

  /** Six cycles for an instruction and one for a request are enough. */
  lemma {:induction false} StepBound(p: Plain, lay: Layout, chip: Chip, inputs: seq<Input>)
    requires Inv(p, lay) && |inputs| == StepCycles(p)
    ensures p.core.Valid() && var p1 := FriscPlain.Run(p, chip, inputs);
            |inputs| + Left(p1) <= Left(p) + 6 * Instructions(StepEvents(p)) + Requests(inputs)
  {
    hide *;
    InvIs(p, lay);
    StateKinds(p, lay);
    StepCyclesIs(p);
    EventsCount(p);
    RequestsFew(inputs);
    RunOne(p, chip, inputs);
    var p1 := FriscPlain.Run(p, chip, inputs);
    LeftIs(p);
    LeftIs(p1);
    if p.state.TGrant? {
      BusesReturned(p, lay, chip, inputs[0]);
    } else if !p.state.TExec? {
      WorkFalls(p, lay, chip, inputs[0], inputs[1]);
      GrantsExactly(FriscPlain.Cycle(p, chip, inputs[0]), chip, inputs[1]);
    }
  }

  // Whole runs

  lemma {:induction false} RunSplit(p: Plain, chip: Chip, inputs: seq<Input>, k: nat)
    requires p.core.Valid() && k <= |inputs|
    ensures FriscPlain.Run(p, chip, inputs) == FriscPlain.Run(FriscPlain.Run(p, chip, inputs[..k]), chip, inputs[k..])
    decreases k
  {
    hide FriscPlain.Cycle;
    if k == 0 {
      assert inputs[0..] == inputs;
    } else {
      RunSplit(FriscPlain.Cycle(p, chip, inputs[0]), chip, inputs[1..], k - 1);
      assert inputs[..k][1..] == inputs[1..][..k - 1] && inputs[1..][k - 1..] == inputs[k..];
    }
  }

  lemma {:induction false} NoCycle(p: Plain, chip: Chip)
    requires p.core.Valid()
    ensures FriscPlain.Run(p, chip, []) == p
  {
  }

  /** Every run of the unpipelined machine executes a disciplined program: after all its cycles, or all
      but the last, the registers, the two stacks and the memory are those that the events leave, with at
      least one instruction in six cycles, four and those of DMA aside. */
  lemma {:induction false} PlainRefinesIsa(p: Plain, lay: Layout, chip: Chip, inputs: seq<Input>) returns (es: seq<Event>, k: nat)
    requires Inv(p, lay) && Disciplined(Abs(p, lay), p.core.mem, chip, lay)
    ensures |inputs| - 1 <= k <= |inputs| && LegalRun(Abs(p, lay), p.core.mem, chip, lay, es)
    ensures p.core.Valid() && var p1 := FriscPlain.Run(p, chip, inputs[..k]);
            Inv(p1, lay) && (Abs(p1, lay), p1.core.mem) == After(Abs(p, lay), p.core.mem, chip, lay, es)
    ensures k <= 6 * Instructions(es) + Requests(inputs[..k]) + Left(p)
    decreases |inputs|
  {
    hide *;
    InvIs(p, lay);
    var n := StepCycles(p);
    if |inputs| < n {
      es, k := [], 0;
      NoEvent(Abs(p, lay), p.core.mem, chip, lay);
      NoCycle(p, chip);
    } else {
      OneStep(p, lay, chip, inputs[..n]);
      StepBound(p, lay, chip, inputs[..n]);
      var p1 := FriscPlain.Run(p, chip, inputs[..n]);
      var fs, l := PlainRefinesIsa(p1, lay, chip, inputs[n..]);
      es, k := StepEvents(p) + fs, n + l;
      JoinRuns(Abs(p, lay), p.core.mem, chip, lay, StepEvents(p), fs);
      RunSplit(p, chip, inputs[..k], n);
      InstructionsAdd(StepEvents(p), fs);
      RequestsAdd(inputs[..n], inputs[n..][..l]);
      assert inputs[..n] + inputs[n..][..l] == inputs[..k];
      assert inputs[..k][..n] == inputs[..n] && inputs[..k][n..] == inputs[n..][..l];
    }
  }

  // The pipelined machine

  /** The register write of a disciplined instruction is harmless. */
  lemma {:induction false} WriteHarmless(c: Core, r: Reg, v: Word, state: CycleType, ir: Instr, i: Input)
    requires c.Valid() && !Ie(c.psw) && !(r.U? && c.psw % 16 == 1) && (r.PSW? ==> ((v % 64) / 16) % 2 == 0)
    requires state.TExec? || state.TLoad?
    ensures Harmless(c, r, v, state, ir, i)
  {
    if r.PSW? {
      SelectingIsHarmless(c, v, state, ir, i);
    } else {
      TameIsHarmless(c, r, v, state, ir, i);
    }
    hide Harmless;
  }

  lemma {:induction false} PswWritten(m: FriscIsa.Machine, v: Word, lay: Layout)
    requires m.Valid() && Fits(m.Set(PSW, v), lay)
    ensures ((v % 64) / 16) % 2 == 0
  {
  }

  lemma {:induction false} WriteExecutes(m: FriscIsa.Machine, mem: Memory, chip: Chip, env: FriscIsa.Env)
    requires m.Valid() && FriscIsa.Advance(m, mem, chip, env).Valid()
    ensures Writes(m.ir) ==>
              FriscIsa.Execute(m, mem, chip, env) == FriscIsa.Advance(m, mem, chip, env).Set(m.ir.reg2, FriscIsa.Result(m, chip, env))
    ensures Writes(m.ir) && Tame(m) ==> !(m.ir.reg2.U? && m.psw % 16 == 1)
  {
    hide FriscIsa.Advance, FriscIsa.Result, FriscIsa.Sum;
  }

  /** The first cycle of a disciplined instruction keeps the two machines in step. */
  lemma {:induction false} ExecInStep(p: Plain, lay: Layout, chip: Chip, i: Input)
    requires Inv(p, lay) && p.state.TExec? && Tame(Abs(p, lay))
    requires FriscIsa.Advance(Abs(p, lay), p.core.mem, chip, EnvOf(p)).Valid()
    requires Fits(FriscIsa.Execute(Abs(p, lay), p.core.mem, chip, EnvOf(p)), lay)
    ensures p.core.Valid() && InStep(p, chip, i)
  {
    InvIs(p, lay);
    if Writes(p.ir) {
      var m, env, v := Abs(p, lay), EnvOf(p), ExecValue(p, chip);
      ExecCoreFrame(p, chip);
      ExecValues(p, lay, chip);
      WriteExecutes(m, p.core.mem, chip, env);
      if p.ir.reg2.PSW? {
        PswWritten(FriscIsa.Advance(m, p.core.mem, chip, env), v, lay);
      }
      hide Harmless, ExecCore, ExecValue, Inv, FriscIsa.Advance, FriscIsa.Execute, FriscIsa.Result, Abs, EnvOf, Fits, Ie, Tame, Alu,
        FriscPlain.Phia, FriscIsa.Sum, FriscIsa.Outcome;
      WriteHarmless(ExecCore(p, chip), p.ir.reg2, v, TExec, p.ir, i);
    }
  }

  lemma {:induction false} LoadInStep(p: Plain, lay: Layout, chip: Chip, i1: Input, i2: Input)
    requires Inv(p, lay) && p.state.TExec? && p.ir.kind.Load? && Tame(Abs(p, lay))
    requires FriscIsa.Advance(Abs(p, lay), p.core.mem, chip, EnvOf(p)).Valid()
    requires Fits(FriscIsa.Execute(Abs(p, lay), p.core.mem, chip, EnvOf(p)), lay)
    ensures p.core.Valid() && FriscPlain.Cycle(p, chip, i1).core.Valid() && InStep(FriscPlain.Cycle(p, chip, i1), chip, i2)
  {
    InvIs(p, lay);
    AccessFollows(p, lay, chip, i1);
    var m, env, p1 := Abs(p, lay), EnvOf(p), FriscPlain.Cycle(p, chip, i1);
    var v := p.core.mem.Fetch(p1.aluout);
    TameLoads(m, p.core.mem, chip, env);
    if p.ir.reg2.PSW? {
      PswWritten(FriscIsa.Advance(m, p.core.mem, chip, env), v, lay);
    }
    hide Harmless, ExecCore, ExecValue, Inv, FriscIsa.Advance, FriscIsa.Execute, Abs, EnvOf, Fits, Ie, Tame, FriscPlain.Cycle, FriscIsa.Sum;
    WriteHarmless(p1.core, p.ir.reg2, v, TLoad, p1.ir, i2);
  }

  lemma {:induction false} QuietInStep(p: Plain, chip: Chip, i: Input)
    requires p.core.Valid() && !p.state.TExec? && !p.state.TLoad?
    ensures InStep(p, chip, i)
  {
  }

  lemma {:induction false} LoadsWriteLater(p: Plain, chip: Chip, i: Input)
    requires p.core.Valid() && p.state.TExec? && !Writes(p.ir)
    ensures InStep(p, chip, i)
  {
  }

  lemma {:induction false} SecondState(p: Plain, chip: Chip, i: Input)
    requires p.core.Valid()
    ensures var s := FriscPlain.Cycle(p, chip, i).state;
            && (p.state.TRsDec? ==> s.TRsStore?) && (p.state.TPsDec? ==> s.TPsStore?)
            && (p.state.TRsLoad? ==> s.TRsInc?) && (p.state.TPsLoad? ==> s.TPsInc?)
  {
    hide ExecPhia, FriscPlain.ExecPhib, FriscPlain.LoadPhib, StorePhia, FriscPlain.StorePhib, FriscPlain.IntPhib;
  }

  lemma {:induction false} StoreState(p: Plain, lay: Layout, chip: Chip, i: Input)
    requires Inv(p, lay) && p.state.TExec? && p.ir.kind.Store?
    ensures p.core.Valid() && FriscPlain.Cycle(p, chip, i).state.TStore?
  {
    InvIs(p, lay);
    AccessFollows(p, lay, chip, i);
    hide *;
  }

  /** Each cycle of a step of a disciplined program keeps the machines in step. */
  lemma {:induction false} StepInStep(p: Plain, lay: Layout, chip: Chip, inputs: seq<Input>)
    requires Inv(p, lay) && Disciplined(Abs(p, lay), p.core.mem, chip, lay) && 1 <= |inputs| <= StepCycles(p)
    ensures p.core.Valid() && InStepRun(p, chip, inputs)
  {
    hide *;
    InvIs(p, lay);
    StateKinds(p, lay);
    StepCyclesIs(p);
    var m, env := Abs(p, lay), EnvOf(p);
    var p1 := FriscPlain.Cycle(p, chip, inputs[0]);
    if p.state.TExec? {
      DisciplinedNow(m, p.core.mem, chip, lay);
      GoodIs(m, lay, env);
      AdvanceValid(p, lay, chip);
      InstructionIs(m, p.core.mem, chip, lay, env);
      DisciplinedNext(m, p.core.mem, chip, lay, Instruction(env));
      GoodIs(FriscIsa.Execute(m, p.core.mem, chip, env), lay, env);
      ExecInStep(p, lay, chip, inputs[0]);
      if |inputs| == 2 {
        if p.ir.kind.Load? {
          LoadInStep(p, lay, chip, inputs[0], inputs[1]);
        } else {
          StoreState(p, lay, chip, inputs[0]);
          QuietInStep(p1, chip, inputs[1]);
        }
      }
    } else {
      QuietInStep(p, chip, inputs[0]);
      SecondState(p, chip, inputs[0]);
      if |inputs| == 2 {
        QuietInStep(p1, chip, inputs[1]);
      }
    }
    InStepTwo(p, chip, inputs);
  }

  lemma {:induction false} InStepTwo(p: Plain, chip: Chip, inputs: seq<Input>)
    requires p.core.Valid() && 1 <= |inputs| <= 2 && InStep(p, chip, inputs[0])
    requires |inputs| == 2 ==> InStep(FriscPlain.Cycle(p, chip, inputs[0]), chip, inputs[1])
    ensures InStepRun(p, chip, inputs)
  {
    hide FriscPlain.Cycle, InStep;
    var p1 := FriscPlain.Cycle(p, chip, inputs[0]);
    if |inputs| == 2 {
      assert inputs[1..][1..] == [];
      assert InStepRun(p1, chip, inputs[1..]);
    }
  }

  lemma {:induction false} InStepJoin(p: Plain, chip: Chip, inputs: seq<Input>, k: nat)
    requires p.core.Valid() && k <= |inputs| && InStepRun(p, chip, inputs[..k])
    requires InStepRun(FriscPlain.Run(p, chip, inputs[..k]), chip, inputs[k..])
    ensures InStepRun(p, chip, inputs)
    decreases k
  {
    hide FriscPlain.Cycle, InStep;
    if k == 0 {
      assert inputs[0..] == inputs;
    } else {
      assert inputs[..k][1..] == inputs[1..][..k - 1] && inputs[1..][k - 1..] == inputs[k..];
      InStepJoin(FriscPlain.Cycle(p, chip, inputs[0]), chip, inputs[1..], k - 1);
    }
  }

  /** Every write of a disciplined program is harmless, so that it keeps the machines in step. */
  lemma {:induction false} DisciplinedInStep(p: Plain, lay: Layout, chip: Chip, inputs: seq<Input>)
    requires Inv(p, lay) && Disciplined(Abs(p, lay), p.core.mem, chip, lay)
    ensures p.core.Valid() && InStepRun(p, chip, inputs)
    decreases |inputs|
  {
    hide *;
    InvIs(p, lay);
    var n := StepCycles(p);
    if inputs == [] {
      InStepNone(p, chip);
    } else if |inputs| <= n {
      StepInStep(p, lay, chip, inputs);
    } else {
      OneStep(p, lay, chip, inputs[..n]);
      StepInStep(p, lay, chip, inputs[..n]);
      DisciplinedInStep(FriscPlain.Run(p, chip, inputs[..n]), lay, chip, inputs[n..]);
      InStepJoin(p, chip, inputs, n);
    }
  }

  lemma {:induction false} InStepNone(p: Plain, chip: Chip)
    requires p.core.Valid()
    ensures InStepRun(p, chip, [])
  {
  }

  /** The pipelined machine executes a disciplined program as well: it has the memory that the events
      leave, and at every execute cycle, once its pending write is made, the registers and stacks. */
  lemma {:induction false} PipedRefinesIsa(p: Plain, q: FriscPiped.Piped, lay: Layout, chip: Chip, inputs: seq<Input>)
      returns (es: seq<Event>, k: nat)
    requires Aligned(p, q) && Inv(p, lay) && Disciplined(Abs(p, lay), p.core.mem, chip, lay)
    ensures |inputs| - 1 <= k <= |inputs| && LegalRun(Abs(p, lay), p.core.mem, chip, lay, es)
    ensures k <= 6 * Instructions(es) + Requests(inputs[..k]) + Left(p)
    ensures p.core.Valid() && q.core.Valid() && var q1 := FriscPiped.Run(q, chip, inputs[..k]);
            var (m, mem) := After(Abs(p, lay), p.core.mem, chip, lay, es);
            && q1.core.mem == mem && q1.core.Valid()
            && (q1.state.TExec? ==> Ordered(FriscPiped.Committed(q1), lay) && AbsOf(FriscPiped.Committed(q1), q1.irb, lay) == m)
  {
    hide *;
    AlignedIs(p, q);
    es, k := PlainRefinesIsa(p, lay, chip, inputs);
    DisciplinedInStep(p, lay, chip, inputs[..k]);
    PipelineEquivalent(p, q, chip, inputs[..k]);
    var p1, q1 := FriscPlain.Run(p, chip, inputs[..k]), FriscPiped.Run(q, chip, inputs[..k]);
    InvIs(p1, lay);
    if q1.state.TExec? {
      AlignedIs(p1, q1);
    }
  }

  lemma {:induction false} AlignedIs(p: Plain, q: FriscPiped.Piped)
    requires Aligned(p, q)
    ensures p.core.Valid() && q.core.Valid() && p.core == FriscPiped.Committed(q) && q.irb == p.ir
  {
    hide FriscPiped.Committed, FriscPiped.Tor;
  }
}
