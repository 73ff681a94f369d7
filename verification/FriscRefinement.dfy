/** The unpipelined machine, its two stack caches and the memory behind them execute the instruction
    set of module FriscIsa; so does the pipelined machine. */
module FriscRefinement {
  import opened Word32
  import opened Registers
  import opened StackCache
  import opened Frisc
  import opened FriscPlain
  import opened PipelineEquivalence
  import FriscIsa

  // A stack cache over memory by cells

  /** Cells that hold the spilled part of a stack: `cap` of them below `base`. */
  datatype Region = Region(base: int, cap: nat) {
    predicate Valid(mem: Memory) {
      && 0 <= base - cap && base < TWO32
      && forall a: Word | base - cap <= a < base :: a in mem.ram
    }

    predicate Contains(a: Word) {
      base - cap <= a < base
    }
  }

  datatype Layout = Layout(p: Region, r: Region) {
    predicate Valid(mem: Memory) {
      p.Valid(mem) && r.Valid(mem) && (p.base <= r.base - r.cap || r.base <= p.base - p.cap)
    }

    predicate Reserves(a: Word) {
      p.Contains(a) || r.Contains(a)
    }
  }

  function Depth(s: Stk, g: Region): int {
    g.base - s.ext
  }

  predicate Placed(s: Stk, g: Region) {
    s.Valid() && 0 <= Depth(s, g) <= g.cap
  }

  function Cells(mem: Memory, a: int, n: nat): (s: seq<Word>)
    requires 0 <= a && a + n <= TWO32
    ensures |s| == n && forall i | 0 <= i < n :: s[i] == mem.Fetch(a + i)
    decreases n
  {
    if n == 0 then [] else [mem.Fetch(a)] + Cells(mem, a + 1, n - 1)
  }

  /** The whole stack, top first: the cached entries, then the spilled ones from the external pointer up. */
  function Logical(s: Stk, mem: Memory, g: Region): (l: seq<Word>)
    requires g.Valid(mem) && Placed(s, g)
    ensures |l| == s.Count() + Depth(s, g)
  {
    s.Cached(s.Count()) + Cells(mem, s.ext, Depth(s, g))
  }

  lemma {:induction false} ReadLogical(s: Stk, mem: Memory, g: Region, k: Near)
    requires g.Valid(mem) && Placed(s, g) && s.Count() >= 4
    ensures s.Get(k) == Logical(s, mem, g)[k]
  {
  }

  lemma {:induction false} MoveLogical(s: Stk, mem: Memory, g: Region, op: StackOp)
    requires g.Valid(mem) && Placed(s, g) && 5 <= s.Count() <= 15
    ensures var s1 := StackMove(s, op);
            && Placed(s1, g) && 4 <= s1.Count() <= 16
            && Logical(s1, mem, g) == FriscIsa.Moved(Logical(s, mem, g), op, s1.Get(0))
  {
    match op {
      case Keep =>
      case Push => PushCached(s); JoinFirst(s.PushTop().Get(0), s.Cached(s.Count()), Cells(mem, s.ext, Depth(s, g)));
      case Pop => PopCached(s); JoinRest(s.Cached(s.Count()), Cells(mem, s.ext, Depth(s, g)));
    }
    hide Stk.Cached, Stk.Count, Stk.Get, Cells, Region.Valid;
  }

  lemma {:induction false} JoinFirst(x: Word, a: seq<Word>, b: seq<Word>)
    ensures ([x] + a) + b == [x] + (a + b)
  {
  }

  lemma {:induction false} JoinRest(a: seq<Word>, b: seq<Word>)
    requires a != []
    ensures a[1..] + b == (a + b)[1..]
  {
  }

  lemma {:induction false} WriteLogical(s: Stk, mem: Memory, g: Region, k: Near, v: Word)
    requires g.Valid(mem) && Placed(s, g) && s.Count() >= 4
    ensures Placed(s.Put(k, v), g) && s.Put(k, v).Count() == s.Count()
    ensures Logical(s.Put(k, v), mem, g) == Logical(s, mem, g)[k := v]
  {
    PutCached(s, k, v);
  }

  /** Storing outside its region leaves a stack as it is. */
  lemma {:induction false} StoreLogical(s: Stk, mem: Memory, g: Region, a: Word, v: Word)
    requires g.Valid(mem) && Placed(s, g) && !g.Contains(a)
    ensures g.Valid(mem.Store(a, v)) && Logical(s, mem.Store(a, v), g) == Logical(s, mem, g)
  {
    assert Cells(mem.Store(a, v), s.ext, Depth(s, g)) == Cells(mem, s.ext, Depth(s, g));
  }

  /** The stack after both cycles of a spill. */
  function Spilled(s: Stk): Stk
    requires s.ext >= 1
  {
    OverStep(s).(ext := s.ext - 1)
  }

  lemma {:induction false} SpillLogical(s: Stk, mem: Memory, g: Region)
    requires g.Valid(mem) && Placed(s, g) && s.Count() == SIZE && Depth(s, g) < g.cap
    ensures s.ext >= 1 && g.Contains(s.ext - 1) && Placed(Spilled(s), g) && Spilled(s).Count() == SIZE - 1
    ensures var m := mem.Store(s.ext - 1, s.buf[Inc(s.top)]);
            g.Valid(m) && Logical(Spilled(s), m, g) == Logical(s, mem, g)
  {
    var v := s.buf[Inc(s.top)];
    var m := mem.Store(s.ext - 1, v);
    FullCached(s);
    CellsBelow(mem, s.ext, Depth(s, g), v);
    assert Spilled(s).Cached(15) == s.Cached(15);
    JoinMiddle(s.Cached(15), v, Cells(mem, s.ext, Depth(s, g)));
    hide Stk.Cached, Cells, Memory.Store, Stk.Get;
  }

  lemma {:induction false} JoinMiddle(a: seq<Word>, v: Word, b: seq<Word>)
    ensures a + ([v] + b) == (a + [v]) + b
  {
  }

  /** A cell stored just below some others. */
  lemma {:induction false} CellsBelow(mem: Memory, a: int, n: nat, v: Word)
    requires 1 <= a && a + n <= TWO32 && (a - 1) in mem.ram
    ensures Cells(mem.Store(a - 1, v), a - 1, n + 1) == [v] + Cells(mem, a, n)
  {
    assert Cells(mem.Store(a - 1, v), a, n) == Cells(mem, a, n);
  }

  /** The stack after both cycles of a fill. */
  function Filled(s: Stk, v: Word): Stk
    requires s.Valid() && s.ext + 1 < TWO32
  {
    UnderStep(s).Put(4, v).(ext := s.ext + 1)
  }

  lemma {:induction false} FillLogical(s: Stk, mem: Memory, g: Region)
    requires g.Valid(mem) && Placed(s, g) && s.Count() == 4 && Depth(s, g) > 0
    ensures s.ext + 1 < TWO32 && Placed(Filled(s, mem.Fetch(s.ext)), g) && Filled(s, mem.Fetch(s.ext)).Count() == 5
    ensures Logical(Filled(s, mem.Fetch(s.ext)), mem, g) == Logical(s, mem, g)
  {
    var v := mem.Fetch(s.ext);
    var f := Filled(s, v);
    assert f.Cached(5) == s.Cached(4) + [v];
    assert Cells(mem, s.ext, Depth(s, g)) == [v] + Cells(mem, s.ext + 1, Depth(s, g) - 1);
  }

  // The machine

  /** Both caches on, both stacks in their memory, the program counter one past the instruction. */
  predicate Ordered(c: Core, lay: Layout) {
    && c.Valid() && lay.Valid(c.mem) && Placed(c.ps, lay.p) && Placed(c.rs, lay.r)
    && c.ps.Count() >= 4 && c.rs.Count() >= 4
    && Rcache(c.ssw) && Pcache(c.ssw) && !c.actualie
  }

  function AbsOf(c: Core, ir: Instr, lay: Layout): (i: FriscIsa.Machine)
    requires Ordered(c, lay)
    ensures i.Valid()
  {
    FriscIsa.Machine(Logical(c.ps, c.mem, lay.p), Logical(c.rs, c.mem, lay.r), c.psw, c.y, c.flag, c.udr, c.icr, c.pca, ir)
  }

  /** The stacks neither about to underflow nor about to overflow, and interrupts off. */
  predicate Fits(i: FriscIsa.Machine, lay: Layout) {
    5 <= |i.ps| <= 15 + lay.p.cap && 5 <= |i.rs| <= 15 + lay.r.cap && (i.psw / 16) % 2 == 0
  }

  /** The next cycle is the one that the stack markers call for. */
  predicate NextFits(state: CycleType, c: Core) {
    match state
    case TExec => 5 <= c.rs.Count() <= 15 && 5 <= c.ps.Count() <= 15
    case TGrant => 5 <= c.rs.Count() <= 15 && 5 <= c.ps.Count() <= 15
    case TRsDec => c.rs.Count() == SIZE
    case TRsLoad => c.rs.Count() == 4
    case TPsDec => c.ps.Count() == SIZE && 5 <= c.rs.Count() <= 15
    case TPsLoad => c.ps.Count() == 4 && 5 <= c.rs.Count() <= 15
    case _ => false
  }

  predicate Inv(p: Plain, lay: Layout) {
    && Ordered(p.core, lay) && NextFits(p.state, p.core) && Fits(AbsOf(p.core, p.ir, lay), lay)
    && p.core.pcb == Plus(p.core.pca, 1)
  }

  function Abs(p: Plain, lay: Layout): (i: FriscIsa.Machine)
    requires Inv(p, lay)
    ensures i.Valid()
  {
    AbsOf(p.core, p.ir, lay)
  }

  // Registers

  lemma {:induction false} ReadAbs(c: Core, ir: Instr, lay: Layout, r: Reg, cop: Word)
    requires Ordered(c, lay) && (r.U? && c.psw % 16 == 1 ==> cop == Readreg(c, r, Plus(c.pca, 1)))
    ensures Readreg(c, r, Plus(c.pca, 1)) == AbsOf(c, ir, lay).Get(r, cop)
  {
    if r.S? { ReadLogical(c.ps, c.mem, lay.p, r.k); }
    if r.R? { ReadLogical(c.rs, c.mem, lay.r, r.k); }
    hide Logical, Stk.Get, Status;
  }

  /** Writing any register but those of the stack caches. */
  lemma {:induction false} WriteAbs(c: Core, ir: Instr, lay: Layout, r: Reg, v: Word)
    requires Ordered(c, lay) && !(r.U? && c.psw % 16 == 1)
    ensures var d := Writereg(c, r, v);
            && Ordered(d, lay) && AbsOf(d, ir, lay) == AbsOf(c, ir, lay).Set(r, v)
            && d.ps.Count() == c.ps.Count() && d.rs.Count() == c.rs.Count()
            && d.mem == c.mem && d.pca == c.pca && d.ssw == c.ssw && d.actualie == c.actualie
  {
    if r.S? { WriteLogical(c.ps, c.mem, lay.p, r.k, v); }
    if r.R? { WriteLogical(c.rs, c.mem, lay.r, r.k, v); }
    hide Logical, Rcache, Pcache;
  }

  // The execute cycle

  /** What an instruction finds in the machine. */
  function EnvOf(p: Plain): FriscIsa.Env
    requires p.core.Valid()
  {
    var c := FriscPlain.Phia(p).core;
    FriscIsa.Env(Readreg(p.core, p.ir.reg1, p.core.pcb), Readreg(c, p.ir.reg2, p.core.pcb),
                 StackMove(p.core.ps, p.ir.pop).Get(0), StackMove(p.core.rs, p.ir.rop).Get(0))
  }

  /** Phase a of an execute cycle. */
  lemma {:induction false} PhiaIs(p: Plain)
    requires p.core.Valid() && p.state.TExec? && !Ie(p.core.psw) && !p.core.actualie
    ensures var p1 := FriscPlain.Phia(p);
            && p1.portaddr == Asrca(p) && p1.alub == Bsrca(p) && p1.alua == Tsource(p.core, p.ir)
            && p1.core == Stackop(p.core.(pca := Asrca(p)), p.ir)
  {
    assert p.core.(actualie := Ie(p.core.psw)) == p.core;
    hide Asrca, Bsrca, Tsource, Stackop, Ie;
  }

  lemma {:induction false} InvIs(p: Plain, lay: Layout)
    requires Inv(p, lay)
    ensures Ordered(p.core, lay) && p.core.Valid() && !Ie(p.core.psw) && !p.core.actualie && p.core.pcb == Plus(p.core.pca, 1)
    ensures Abs(p, lay) == AbsOf(p.core, p.ir, lay) && Abs(p, lay).psw == p.core.psw && Abs(p, lay).at == p.core.pca
    ensures Abs(p, lay).ir == p.ir && Abs(p, lay).y == p.core.y && Abs(p, lay).flag == p.core.flag
    ensures p.state.TExec? || p.state.TGrant? ==> 5 <= p.core.rs.Count() <= 15 && 5 <= p.core.ps.Count() <= 15
  {
    hide Logical, Stk.Count, Rcache, Pcache, Placed;
  }

  lemma {:induction false} ExecTarget(p: Plain, lay: Layout)
    requires Inv(p, lay) && p.state.TExec?
    ensures Asrca(p) == FriscIsa.Target(Abs(p, lay))
  {
    InvIs(p, lay);
    ReadLogical(p.core.rs, p.core.mem, lay.r, 0);
    hide Logical, Stk.Get, Inv, Stk.Count, Placed, Rcache, Pcache, Layout.Valid;
  }

  /** Phase a puts the instruction's target and its first operand on the buses. */
  lemma {:induction false} ExecBuses(p: Plain, lay: Layout)
    requires Inv(p, lay) && p.state.TExec?
    ensures var i, env := Abs(p, lay), EnvOf(p);
            && Asrca(p) == FriscIsa.Target(i)
            && (FriscIsa.Flows(p.ir) ==> Bsrca(p) == (i.at + 1) % 0x1_0000_0000)
            && (!FriscIsa.Flows(p.ir) ==> Bsrca(p) == i.Get(p.ir.reg1, env.cop))
            && (p.ir.kind.Micro? ==> Tsource(p.core, p.ir) == FriscIsa.First(i))
            && (p.ir.kind.Lal? || p.ir.kind.Load? || p.ir.kind.Store? ==> Tsource(p.core, p.ir) == p.ir.offset)
            && (p.ir.kind.Lah? ==> Tsource(p.core, p.ir) == p.ir.offset * 0x1_0000)
  {
    InvIs(p, lay);
    ExecTarget(p, lay);
    ReadAbs(p.core, p.ir, lay, p.ir.reg1, EnvOf(p).cop);
    ReadLogical(p.core.ps, p.core.mem, lay.p, 0);
    hide Logical, Stk.Get, Readreg, FriscPlain.Phia, StackMove, FriscIsa.Machine.Get, Ordered, Inv, Asrca, FriscIsa.Target;
  }

  /** What the execute cycle computes is what the instruction set asks for. */
  lemma {:induction false} ExecValues(p: Plain, lay: Layout, chip: Chip)
    requires Inv(p, lay) && p.state.TExec?
    ensures var i, env, p1 := Abs(p, lay), EnvOf(p), FriscPlain.Phia(p);
            var out := Alu(chip, p.ir, p1.alua, p1.alub, p1.core.y, p1.core.flag);
            && (p.ir.kind.Load? || p.ir.kind.Store? ==> out.result == FriscIsa.Sum(i, env))
            && (p.ir.kind.Colon? ==> ExecValue(p, chip) == (i.at + 1) % 0x1_0000_0000)
            && (p.ir.kind.Micro? || p.ir.kind.Lal? || p.ir.kind.Lah? ==> ExecValue(p, chip) == FriscIsa.Result(i, chip, env))
            && out.y == (if p.ir.kind.Micro? then FriscIsa.Outcome(i, chip, env).y else i.y)
            && out.flag == (if p.ir.kind.Micro? then FriscIsa.Outcome(i, chip, env).flag else i.flag)
  {
    InvIs(p, lay);
    ExecBuses(p, lay);
    PhiaIs(p);
    StackopKeeps(p.core.(pca := Asrca(p)), p.ir);
    ValueIs(p, chip);
    var i, env, p1 := Abs(p, lay), EnvOf(p), FriscPlain.Phia(p);
    assert p1.core.y == i.y && p1.core.flag == i.flag;
    AluMeans(p.ir, chip, p1.alua, p1.alub, i, env);
    hide *;
  }

  /** The ALU and the value for bus B, from operands as the instruction set has them. */
  lemma {:induction false} AluMeans(ir: Instr, chip: Chip, a: Word, b: Word, i: FriscIsa.Machine, env: FriscIsa.Env)
    requires i.Valid() && i.ir == ir
    requires FriscIsa.Flows(ir) ==> b == (i.at + 1) % 0x1_0000_0000
    requires !FriscIsa.Flows(ir) ==> b == i.Get(ir.reg1, env.cop)
    requires ir.kind.Micro? ==> a == FriscIsa.First(i)
    requires ir.kind.Lal? || ir.kind.Load? || ir.kind.Store? ==> a == ir.offset
    requires ir.kind.Lah? ==> a == ir.offset * 0x1_0000
    ensures var out := Alu(chip, ir, a, b, i.y, i.flag); var v := FriscPlain.Bsrcb(ir, out, Barrel(chip, ir, a, b));
            && (ir.kind.Load? || ir.kind.Store? ==> out.result == FriscIsa.Sum(i, env))
            && (ir.kind.Colon? ==> v == (i.at + 1) % 0x1_0000_0000)
            && (ir.kind.Micro? || ir.kind.Lal? || ir.kind.Lah? ==> v == FriscIsa.Result(i, chip, env))
            && out.y == (if ir.kind.Micro? then FriscIsa.Outcome(i, chip, env).y else i.y)
            && out.flag == (if ir.kind.Micro? then FriscIsa.Outcome(i, chip, env).flag else i.flag)
  {
    hide FriscIsa.Machine.Get, FriscIsa.First;
  }

  lemma {:induction false} StackopKeeps(c: Core, ir: Instr)
    ensures var d := Stackop(c, ir); d == c.(ps := d.ps, rs := d.rs)
  {
    hide Stackop;
  }

  /** Phase a moves the stack pointers as the instruction says. */
  lemma {:induction false} ExecStacks(p: Plain, lay: Layout, chip: Chip, ir: Instr)
    requires Inv(p, lay) && p.state.TExec?
    ensures var i, env, c := Abs(p, lay), EnvOf(p), ExecCore(p, chip);
            && Ordered(c, lay) && c.mem == p.core.mem && c.pca == Asrca(p) && c.psw == p.core.psw
            && (p.ir.kind.Colon? ==> Logical(c.rs, c.mem, lay.r)[1..] == i.rs && Logical(c.ps, c.mem, lay.p) == i.ps)
            && (p.ir.kind.Branch? || p.ir.kind.QBranch? ==>
                  Logical(c.rs, c.mem, lay.r) == i.rs && Logical(c.ps, c.mem, lay.p) == i.ps)
            && (!FriscIsa.Flows(p.ir) ==>
                  && Logical(c.ps, c.mem, lay.p) == FriscIsa.Moved(i.ps, p.ir.pop, env.pjunk)
                  && Logical(c.rs, c.mem, lay.r) == FriscIsa.Moved(i.rs, p.ir.rop, env.rjunk))
            && AbsOf(c, ir, lay) == FriscIsa.Machine(Logical(c.ps, c.mem, lay.p), Logical(c.rs, c.mem, lay.r), i.psw,
                                                     c.y, c.flag, i.udr, i.icr, Asrca(p), ir)
  {
    InvIs(p, lay);
    PhiaIs(p);
    var c := p.core;
    MoveLogical(c.ps, c.mem, lay.p, p.ir.pop);
    MoveLogical(c.rs, c.mem, lay.r, p.ir.rop);
    MoveLogical(c.rs, c.mem, lay.r, Push);
    hide Logical, Inv, FriscPlain.Phia, Asrca, Bsrca, Tsource, Readreg, Stk.Get, Stk.Count, Placed, Rcache, Pcache, Alu, Layout.Valid;
  }

  // One instruction

  /** The instruction does not write a register of the stack caches. */
  predicate Tame(i: FriscIsa.Machine) {
    !(FriscIsa.Writes(i.ir) && i.ir.reg2.U? && i.psw % 16 == 1)
  }

  lemma {:induction false} AdvanceValid(p: Plain, lay: Layout, chip: Chip)
    requires Inv(p, lay)
    ensures FriscIsa.Advance(Abs(p, lay), p.core.mem, chip, EnvOf(p)).Valid()
  {
    hide EnvOf, Logical, Ordered, NextFits, FriscIsa.Target, FriscIsa.Outcome;
  }

  /** The machine after the first cycle, before its result is written. */
  lemma {:induction false} ExecAdvances(p: Plain, lay: Layout, chip: Chip)
    requires Inv(p, lay) && p.state.TExec? && !p.ir.kind.Colon?
    ensures var i, env, c := Abs(p, lay), EnvOf(p), ExecCore(p, chip);
            var ir := chip.decode(p.core.mem.Fetch(FriscIsa.Target(i)));
            && Ordered(c, lay) && c.mem == p.core.mem && c.pca == Asrca(p) == FriscIsa.Target(i)
            && AbsOf(c, ir, lay) == FriscIsa.Advance(i, p.core.mem, chip, env)
  {
    var i := Abs(p, lay);
    InvIs(p, lay);
    ExecBuses(p, lay);
    ExecValues(p, lay, chip);
    ExecStacks(p, lay, chip, chip.decode(p.core.mem.Fetch(FriscIsa.Target(i))));
    CoreOutputs(p, chip);
    hide Logical, Inv, Abs, AbsOf, EnvOf, Ordered, ExecCore, Alu, FriscPlain.Phia, Asrca, Bsrca, Tsource, FriscIsa.Target, FriscIsa.Outcome;
  }

  lemma {:induction false} CoreOutputs(p: Plain, chip: Chip)
    requires p.core.Valid()
    ensures var p1 := FriscPlain.Phia(p);
            var out := Alu(chip, p.ir, p1.alua, p1.alub, p1.core.y, p1.core.flag);
            ExecCore(p, chip) == p1.core.(y := out.y, flag := out.flag)
  {
    hide FriscPlain.Phia, Alu;
  }

  /** The registers after the first cycle of an instruction without a data access. */
  lemma {:induction false} ExecResult(p: Plain, lay: Layout, chip: Chip)
    requires Inv(p, lay) && p.state.TExec? && !p.ir.kind.Load? && !p.ir.kind.Store? && Tame(Abs(p, lay))
    ensures var i, env, d := Abs(p, lay), EnvOf(p), Bdest(ExecCore(p, chip), p.ir, ExecValue(p, chip));
            var ir := chip.decode(p.core.mem.Fetch(FriscIsa.Target(i)));
            && FriscIsa.Advance(i, p.core.mem, chip, env).Valid()
            && Ordered(d, lay) && d.mem == p.core.mem && d.pca == FriscIsa.Target(i)
            && AbsOf(d, ir, lay) == FriscIsa.Execute(i, p.core.mem, chip, env)
  {
    var i := Abs(p, lay);
    var c := ExecCore(p, chip);
    var ir := chip.decode(p.core.mem.Fetch(FriscIsa.Target(i)));
    AdvanceValid(p, lay, chip);
    InvIs(p, lay);
    ExecValues(p, lay, chip);
    if p.ir.kind.Colon? {
      CallResult(p, lay, chip);
    } else {
      ExecAdvances(p, lay, chip);
      if Writes(p.ir) {
        ExecCoreFrame(p, chip);
        WriteAbs(c, ir, lay, p.ir.reg2, ExecValue(p, chip));
      }
    }
    hide Logical, Inv, Abs, AbsOf, EnvOf, Ordered, ExecCore, ExecValue, Alu, FriscPlain.Phia, Asrca, Bsrca, Tsource, Writereg,
      FriscIsa.Advance, FriscIsa.Target, FriscIsa.Result, FriscIsa.Machine.Set;
  }

  /** A call leaves the address of the next cell on top of the return stack. */
  lemma {:induction false} CallResult(p: Plain, lay: Layout, chip: Chip)
    requires Inv(p, lay) && p.state.TExec? && p.ir.kind.Colon?
    ensures var i, env, d := Abs(p, lay), EnvOf(p), Bdest(ExecCore(p, chip), p.ir, ExecValue(p, chip));
            var ir := chip.decode(p.core.mem.Fetch(FriscIsa.Target(i)));
            && FriscIsa.Advance(i, p.core.mem, chip, env).Valid()
            && Ordered(d, lay) && d.mem == p.core.mem && d.pca == FriscIsa.Target(i)
            && AbsOf(d, ir, lay) == FriscIsa.Execute(i, p.core.mem, chip, env)
  {
    var i := Abs(p, lay);
    var c := ExecCore(p, chip);
    var ir := chip.decode(p.core.mem.Fetch(FriscIsa.Target(i)));
    AdvanceValid(p, lay, chip);
    InvIs(p, lay);
    ExecBuses(p, lay);
    ExecValues(p, lay, chip);
    ExecStacks(p, lay, chip, ir);
    CoreOutputs(p, chip);
    var v := ExecValue(p, chip);
    WriteLogical(c.rs, c.mem, lay.r, 0, v);
    TopReplaced(Logical(c.rs, c.mem, lay.r), i.rs, v);
    hide Logical, Inv, Abs, EnvOf, ExecCore, ExecValue, Alu, FriscPlain.Phia, Asrca, Bsrca, Tsource, FriscIsa.Target, Stk.Count, Rcache,
      Pcache, Layout.Valid, FriscIsa.Outcome;
  }

  lemma {:induction false} TopReplaced(l: seq<Word>, rest: seq<Word>, v: Word)
    requires l != [] && l[1..] == rest
    ensures l[0 := v] == [v] + rest
  {
  }

  /** The end of an instruction, a spill or a fill: the next cycle is chosen from the registers. */
  lemma {:induction false} BoundaryInv(p: Plain, d: Core, state: CycleType, ir: Instr, i: Input, lay: Layout)
    requires Ordered(d, lay) && Fits(AbsOf(d, p.ir, lay), lay)
    requires (!state.TExec? && !state.TGrant?) || (state.TExec? && !ir.kind.Load? && !ir.kind.Store?)
    requires !state.TInt? && !state.TRsDec? && !state.TRsLoad? && !state.TPsDec? && !state.TPsLoad?
    requires Nextstate(state, ir, d, i) == p.state && p.core == Frisc.Advance(d, p.state, i)
    ensures Inv(p, lay) && Abs(p, lay) == AbsOf(d, p.ir, lay)
  {
    assert p.state == Boundary(d, i);
    AdvanceAbs(d, p.state, i, p.ir, lay);
    BoundaryFits(d, i);
    hide Logical, Stk.Count, Placed, Layout.Valid, Rcache, Pcache, Boundary, Nextstate, AbsOf, Fits;
  }

  lemma {:induction false} BoundaryFits(d: Core, i: Input)
    requires d.Valid() && d.ps.Count() >= 4 && d.rs.Count() >= 4 && Rcache(d.ssw) && Pcache(d.ssw) && !d.actualie
    ensures NextFits(Boundary(d, i), d)
  {
    hide Rcache, Pcache;
  }

  lemma {:induction false} AdvanceAbs(d: Core, next: CycleType, i: Input, ir: Instr, lay: Layout)
    requires Ordered(d, lay) && !next.TInt?
    ensures var c := Frisc.Advance(d, next, i);
            && Ordered(c, lay) && AbsOf(c, ir, lay) == AbsOf(d, ir, lay) && c.mem == d.mem && c.pcb == Plus(c.pca, 1)
            && c.ps == d.ps && c.rs == d.rs && c.ssw == d.ssw && c.psw == d.psw && c.pca == d.pca && c.actualie == d.actualie
  {
    hide Logical, Stk.Count, Placed, Layout.Valid, Rcache, Pcache;
  }

  lemma {:induction false} NextNoInt(state: CycleType, ir: Instr, c: Core, i: Input)
    requires !c.actualie
    ensures !Nextstate(state, ir, c, i).TInt?
  {
    hide Nextstate;
  }

  /** An instruction without a data access is one cycle. */
  lemma {:induction false} InstructionStep(p: Plain, lay: Layout, chip: Chip, i: Input)
    requires Inv(p, lay) && p.state.TExec? && !p.ir.kind.Load? && !p.ir.kind.Store? && Tame(Abs(p, lay))
    ensures var m, env, p1 := Abs(p, lay), EnvOf(p), FriscPlain.Cycle(p, chip, i);
            && FriscIsa.Advance(m, p.core.mem, chip, env).Valid()
            && p1.core.mem == p.core.mem == FriscIsa.Memory(m, p.core.mem, chip, env)
            && (Fits(FriscIsa.Execute(m, p.core.mem, chip, env), lay) ==>
                  Inv(p1, lay) && Abs(p1, lay) == FriscIsa.Execute(m, p.core.mem, chip, env))
  {
    InvIs(p, lay);
    PhiaIs(p);
    ExecPlain(p, chip, i);
    ExecResult(p, lay, chip);
    ExecBuses(p, lay);
    ValueIs(p, chip);
    var d := Bdest(ExecCore(p, chip), p.ir, ExecValue(p, chip));
    var p1 := FriscPlain.Cycle(p, chip, i);
    OrderedQuiet(d, lay);
    MemoryKept(Abs(p, lay), p.core.mem, chip, EnvOf(p));
    NextNoInt(TExec, p.ir, d, i);
    hide *;
    AdvanceAbs(d, p1.state, i, p1.ir, lay);
    if Fits(FriscIsa.Execute(Abs(p, lay), p.core.mem, chip, EnvOf(p)), lay) {
      BoundaryInv(p1, d, TExec, p.ir, i, lay);
    }
  }

  lemma {:induction false} OrderedQuiet(d: Core, lay: Layout)
    requires Ordered(d, lay)
    ensures d.Valid() && !d.actualie
  {
  }

  lemma {:induction false} MemoryKept(m: FriscIsa.Machine, mem: Memory, chip: Chip, env: FriscIsa.Env)
    requires m.Valid() && FriscIsa.Advance(m, mem, chip, env).Valid() && !m.ir.kind.Store?
    ensures FriscIsa.Memory(m, mem, chip, env) == mem
  {
    hide FriscIsa.Advance, FriscIsa.Sum;
  }

  lemma {:induction false} ValueIs(p: Plain, chip: Chip)
    requires p.core.Valid()
    ensures var p1 := FriscPlain.Phia(p);
            var out := Alu(chip, p.ir, p1.alua, p1.alub, p1.core.y, p1.core.flag);
            ExecValue(p, chip) == FriscPlain.Bsrcb(p.ir, out, Barrel(chip, p.ir, p1.alua, p1.alub))
  {
    hide FriscPlain.Phia, Alu, Barrel, FriscPlain.Bsrcb;
  }

  // Loads and stores

  /** Between the two cycles of a load or store. */
  lemma {:induction false} AccessFollows(p: Plain, lay: Layout, chip: Chip, i: Input)
    requires Inv(p, lay) && p.state.TExec? && (p.ir.kind.Load? || p.ir.kind.Store?)
    ensures var m, env, p1 := Abs(p, lay), EnvOf(p), FriscPlain.Cycle(p, chip, i);
            && p1.state == (if p.ir.kind.Load? then TLoad else TStore) && p1.oldir == p.ir
            && p1.aluout == FriscIsa.Sum(m, env)
            && Ordered(p1.core, lay) && !Ie(p1.core.psw) && p1.core.mem == p.core.mem && p1.core.pcb == Plus(p1.core.pca, 1)
            && p1.core.psw == m.psw
            && AbsOf(p1.core, p1.ir, lay) == FriscIsa.Advance(m, p.core.mem, chip, env)
            && p1.core == ExecCore(p, chip).(pcb := p1.core.pcb, intvector := p1.core.intvector, cycle := p1.core.cycle)
  {
    InvIs(p, lay);
    PhiaIs(p);
    ExecPlain(p, chip, i);
    ExecBuses(p, lay);
    ExecValues(p, lay, chip);
    ExecAdvances(p, lay, chip);
    var c := ExecCore(p, chip);
    var next: CycleType := if p.ir.kind.Load? then TLoad else TStore;
    assert Nextstate(TExec, p.ir, c, i) == next;
    AdvanceAbs(c, next, i, FriscPlain.Cycle(p, chip, i).ir, lay);
    ExecCoreFrame(p, chip);
    hide Logical, Inv, Abs, AbsOf, EnvOf, Ordered, ExecCore, ExecValue, Alu, Barrel, FriscPlain.Bsrcb, FriscPlain.Phia, FriscPlain.Cycle,
      Asrca, Bsrca, Tsource, FriscIsa.Advance, FriscIsa.Target, FriscIsa.Sum, Nextstate, Ie;
  }

  /** The second cycle of a load. */
  lemma {:induction false} LoadIs(p: Plain, chip: Chip, i: Input)
    requires p.core.Valid() && p.state.TLoad? && !Ie(p.core.psw) && !p.core.actualie
    ensures var d, p1 := Writereg(p.core, p.oldir.reg2, p.core.mem.Fetch(p.aluout)), FriscPlain.Cycle(p, chip, i);
            && p1.state == Nextstate(TLoad, p.ir, d, i) && p1.core == Frisc.Advance(d, p1.state, i) && p1.ir == p.ir
  {
    assert p.core.(actualie := Ie(p.core.psw)) == p.core;
    hide Writereg, Nextstate, Ie;
  }

  /** A load is two cycles. */
  lemma {:induction false} LoadStep(p: Plain, lay: Layout, chip: Chip, i1: Input, i2: Input)
    requires Inv(p, lay) && p.state.TExec? && p.ir.kind.Load? && Tame(Abs(p, lay))
    ensures var m, env, p1 := Abs(p, lay), EnvOf(p), FriscPlain.Cycle(p, chip, i1);
            var p2 := FriscPlain.Cycle(p1, chip, i2);
            && FriscIsa.Advance(m, p.core.mem, chip, env).Valid()
            && p2.core.mem == p.core.mem == FriscIsa.Memory(m, p.core.mem, chip, env)
            && (Fits(FriscIsa.Execute(m, p.core.mem, chip, env), lay) ==>
                  Inv(p2, lay) && Abs(p2, lay) == FriscIsa.Execute(m, p.core.mem, chip, env))
  {
    hide *;
    InvIs(p, lay);
    var m := Abs(p, lay);
    var p1 := FriscPlain.Cycle(p, chip, i1);
    var p2 := FriscPlain.Cycle(p1, chip, i2);
    var v := p.core.mem.Fetch(p1.aluout);
    InvIs(p, lay);
    AdvanceValid(p, lay, chip);
    AccessFollows(p, lay, chip, i1);
    OrderedQuiet(p1.core, lay);
    LoadIs(p1, chip, i2);
    MemoryKept(m, p.core.mem, chip, EnvOf(p));
    TameLoads(m, p.core.mem, chip, EnvOf(p));
    WriteAbs(p1.core, p1.ir, lay, p.ir.reg2, v);
    var d := Writereg(p1.core, p.ir.reg2, v);
    OrderedQuiet(d, lay);
    NextNoInt(TLoad, p1.ir, d, i2);
    AdvanceAbs(d, p2.state, i2, p1.ir, lay);
    if Fits(FriscIsa.Execute(m, p.core.mem, chip, EnvOf(p)), lay) {
      BoundaryInv(p2, d, TLoad, p1.ir, i2, lay);
    }
  }

  lemma {:induction false} TameLoads(m: FriscIsa.Machine, mem: Memory, chip: Chip, env: FriscIsa.Env)
    requires m.Valid() && FriscIsa.Advance(m, mem, chip, env).Valid() && m.ir.kind.Load? && Tame(m)
    ensures !(m.ir.reg2.U? && m.psw % 16 == 1)
    ensures FriscIsa.Execute(m, mem, chip, env)
         == FriscIsa.Advance(m, mem, chip, env).Set(m.ir.reg2, mem.Fetch(FriscIsa.Sum(m, env)))
  {
    hide FriscIsa.Advance, FriscIsa.Sum;
  }

  /** The second cycle of a store. */
  lemma {:induction false} StoreIs(p: Plain, chip: Chip, i: Input)
    requires p.core.Valid() && p.state.TStore? && !Ie(p.core.psw) && !p.core.actualie
    ensures var d := p.core.(mem := p.core.mem.Store(p.aluout, Readreg(p.core, p.oldir.reg2, p.core.pcb)));
            var p1 := FriscPlain.Cycle(p, chip, i);
            && p1.state == Nextstate(TStore, p.ir, d, i) && (!p1.state.TInt? ==> p1.core == Frisc.Advance(d, p1.state, i)) && p1.ir == p.ir
  {
    assert p.core.(actualie := Ie(p.core.psw)) == p.core;
    hide Readreg, Nextstate, Ie;
  }

  /** A store outside the reserved memory leaves both stacks as they are. */
  lemma {:induction false} StoreAbs(c: Core, ir: Instr, lay: Layout, a: Word, v: Word)
    requires Ordered(c, lay) && !lay.Reserves(a)
    ensures var d := c.(mem := c.mem.Store(a, v)); Ordered(d, lay) && AbsOf(d, ir, lay) == AbsOf(c, ir, lay)
  {
    StoreLogical(c.ps, c.mem, lay.p, a, v);
    StoreLogical(c.rs, c.mem, lay.r, a, v);
    hide Logical, Memory.Store, Region.Valid, Stk.Count, Rcache, Pcache;
  }

  /** What a store finds in its register does not depend on the rest of the first cycle. */
  lemma {:induction false} StoredIs(p: Plain, lay: Layout, chip: Chip, c: Core, ir: Instr)
    requires Inv(p, lay) && p.state.TExec?
    requires c == ExecCore(p, chip).(pcb := Plus(c.pca, 1), intvector := c.intvector, cycle := c.cycle) && Ordered(c, lay)
    ensures Readreg(c, p.ir.reg2, c.pcb) == AbsOf(c, ir, lay).Get(p.ir.reg2, EnvOf(p).stored)
  {
    CoreOutputs(p, chip);
    SameCop(FriscPlain.Phia(p).core, c, p.ir.reg2, p.core.pcb, c.pcb);
    hide FriscPlain.Phia, Alu, ExecCore, Inv, Logical, Ordered, AbsOf, Readreg;
    ReadAbs(c, ir, lay, p.ir.reg2, EnvOf(p).stored);
  }

  lemma {:induction false} SameCop(c: Core, d: Core, r: Reg, x: Word, y: Word)
    requires c.Valid() && d.Valid()
    requires d == c.(y := d.y, flag := d.flag, pcb := d.pcb, intvector := d.intvector, cycle := d.cycle)
    ensures r.U? ==> Readreg(c, r, x) == Readreg(d, r, y)
  {
  }

  /** A store is two cycles. */
  lemma {:induction false} StoreStep(p: Plain, lay: Layout, chip: Chip, i1: Input, i2: Input)
    requires Inv(p, lay) && p.state.TExec? && p.ir.kind.Store? && !lay.Reserves(FriscIsa.Sum(Abs(p, lay), EnvOf(p)))
    ensures var m, env, p1 := Abs(p, lay), EnvOf(p), FriscPlain.Cycle(p, chip, i1);
            var p2 := FriscPlain.Cycle(p1, chip, i2);
            && FriscIsa.Advance(m, p.core.mem, chip, env).Valid()
            && p2.core.mem == FriscIsa.Memory(m, p.core.mem, chip, env)
            && (Fits(FriscIsa.Execute(m, p.core.mem, chip, env), lay) ==>
                  Inv(p2, lay) && Abs(p2, lay) == FriscIsa.Execute(m, p.core.mem, chip, env))
  {
    hide *;
    InvIs(p, lay);
    var m := Abs(p, lay);
    var p1 := FriscPlain.Cycle(p, chip, i1);
    var p2 := FriscPlain.Cycle(p1, chip, i2);
    AdvanceValid(p, lay, chip);
    AccessFollows(p, lay, chip, i1);
    OrderedQuiet(p1.core, lay);
    StoreIs(p1, chip, i2);
    StoredIs(p, lay, chip, p1.core, p1.ir);
    var v := Readreg(p1.core, p.ir.reg2, p1.core.pcb);
    var d := p1.core.(mem := p1.core.mem.Store(p1.aluout, v));
    StoreExecutes(m, p.core.mem, chip, EnvOf(p));
    StoreAbs(p1.core, p1.ir, lay, p1.aluout, v);
    OrderedQuiet(d, lay);
    NextNoInt(TStore, p1.ir, d, i2);
    AdvanceAbs(d, p2.state, i2, p1.ir, lay);
    if Fits(FriscIsa.Execute(m, p.core.mem, chip, EnvOf(p)), lay) {
      BoundaryInv(p2, d, TStore, p1.ir, i2, lay);
    }
  }

  lemma {:induction false} StoreExecutes(m: FriscIsa.Machine, mem: Memory, chip: Chip, env: FriscIsa.Env)
    requires m.Valid() && FriscIsa.Advance(m, mem, chip, env).Valid() && m.ir.kind.Store?
    ensures var j := FriscIsa.Advance(m, mem, chip, env);
            && FriscIsa.Execute(m, mem, chip, env) == j
            && FriscIsa.Memory(m, mem, chip, env) == mem.Store(FriscIsa.Sum(m, env), j.Get(m.ir.reg2, env.stored))
  {
    hide FriscIsa.Advance, FriscIsa.Sum;
  }

  // Cycles that a program does not see

  /** While the buses are granted nothing happens. */
  lemma {:induction false} GrantStep(p: Plain, lay: Layout, chip: Chip, i: Input)
    requires Inv(p, lay) && p.state.TGrant?
    ensures var p1 := FriscPlain.Cycle(p, chip, i); Inv(p1, lay) && Abs(p1, lay) == Abs(p, lay) && p1.core.mem == p.core.mem
  {
    InvIs(p, lay);
    var p1 := FriscPlain.Cycle(p, chip, i);
    assert p.core.(actualie := Ie(p.core.psw)) == p.core;
    assert p1.state == Nextstate(TGrant, p.ir, p.core, i) && p1.core == Frisc.Advance(p.core, p1.state, i) && p1.ir == p.ir;
    AdvanceAbs(p.core, p1.state, i, p.ir, lay);
    hide Logical, Ordered, FriscPlain.Cycle, Frisc.Advance, AbsOf, Ie, Stk.Count, Fits;
  }

  /** The first cycle of a spill moves the markers and the external pointer. */
  lemma {:induction false} RSpillFirst(p: Plain, chip: Chip, i: Input)
    requires p.core.Valid() && p.state.TRsDec? && !Ie(p.core.psw) && !p.core.actualie && p.core.rs.ext >= 1
    ensures var p1 := FriscPlain.Cycle(p, chip, i);
            && p1.state.TRsStore? && p1.ir == p.ir
            && p1.core == p.core.(rs := Spilled(p.core.rs), pcb := p1.core.pcb, cycle := p1.core.cycle)
  {
    assert p.core.(actualie := Ie(p.core.psw)) == p.core;
    hide Ie, Boundary, Memory.Store, Memory.Fetch, OverStep;
  }

  /** The second stores the oldest entry. */
  lemma {:induction false} RSpillSecond(p: Plain, chip: Chip, i: Input)
    requires p.core.Valid() && p.state.TRsStore? && !Ie(p.core.psw) && !p.core.actualie
    ensures var d := p.core.(mem := p.core.mem.Store(p.core.rs.ext, p.core.rs.buf[Inc(p.core.rs.top)]));
            var p1 := FriscPlain.Cycle(p, chip, i);
            && p1.state == Nextstate(TRsStore, p.ir, d, i) && !p1.state.TInt? && p1.core == Frisc.Advance(d, p1.state, i) && p1.ir == p.ir
  {
    assert p.core.(actualie := Ie(p.core.psw)) == p.core;
    hide Ie, Boundary, Memory.Store, Memory.Fetch;
  }

  /** The first cycle of a fill brings the entry and moves the markers. */
  lemma {:induction false} RFillFirst(p: Plain, chip: Chip, i: Input)
    requires p.core.Valid() && p.state.TRsLoad? && !Ie(p.core.psw) && !p.core.actualie
    ensures var p1 := FriscPlain.Cycle(p, chip, i);
            && p1.state.TRsInc? && p1.ir == p.ir
            && p1.core == p.core.(rs := UnderStep(p.core.rs).Put(4, p.core.mem.Fetch(p.core.rs.ext)),
                                  pcb := p1.core.pcb, cycle := p1.core.cycle)
  {
    assert p.core.(actualie := Ie(p.core.psw)) == p.core;
    hide Ie, Boundary, Memory.Store, Memory.Fetch, UnderStep, Stk.Put;
  }

  /** The second moves the external pointer. */
  lemma {:induction false} RFillSecond(p: Plain, chip: Chip, i: Input)
    requires p.core.Valid() && p.state.TRsInc? && !Ie(p.core.psw) && !p.core.actualie && p.core.rs.ext + 1 < TWO32
    ensures var d := p.core.(rs := p.core.rs.(ext := p.core.rs.ext + 1)); var p1 := FriscPlain.Cycle(p, chip, i);
            && p1.state == Nextstate(TRsInc, p.ir, d, i) && !p1.state.TInt? && p1.core == Frisc.Advance(d, p1.state, i) && p1.ir == p.ir
  {
    assert p.core.(actualie := Ie(p.core.psw)) == p.core;
    hide Ie, Boundary, Memory.Store, Memory.Fetch;
  }

  /** The two cycles of a spill of the return stack. */
  lemma {:induction false} RSpillIs(p: Plain, chip: Chip, i1: Input, i2: Input)
    requires p.core.Valid() && p.state.TRsDec? && !Ie(p.core.psw) && !p.core.actualie && p.core.rs.ext >= 1
    ensures var p1 := FriscPlain.Cycle(p, chip, i1); var p2 := FriscPlain.Cycle(p1, chip, i2);
            var d := p.core.(rs := Spilled(p.core.rs), pcb := p1.core.pcb, cycle := p1.core.cycle,
                             mem := p.core.mem.Store(p.core.rs.ext - 1, p.core.rs.buf[Inc(p.core.rs.top)]));
            && p2.state == Nextstate(TRsStore, p.ir, d, i2) && !p2.state.TInt? && p2.core == Frisc.Advance(d, p2.state, i2) && p2.ir == p.ir
  {
    RSpillFirst(p, chip, i1);
    RSpillSecond(FriscPlain.Cycle(p, chip, i1), chip, i2);
    hide Ie, Nextstate, Memory.Store, FriscPlain.Cycle, Frisc.Advance, OverStep;
  }

  /** The two cycles of a fill of the return stack. */
  lemma {:induction false} RFillIs(p: Plain, chip: Chip, i1: Input, i2: Input)
    requires p.core.Valid() && p.state.TRsLoad? && !Ie(p.core.psw) && !p.core.actualie && p.core.rs.ext + 1 < TWO32
    ensures var p1 := FriscPlain.Cycle(p, chip, i1); var p2 := FriscPlain.Cycle(p1, chip, i2);
            var d := p.core.(rs := Filled(p.core.rs, p.core.mem.Fetch(p.core.rs.ext)), pcb := p1.core.pcb, cycle := p1.core.cycle);
            && p2.state == Nextstate(TRsInc, p.ir, d, i2) && !p2.state.TInt? && p2.core == Frisc.Advance(d, p2.state, i2) && p2.ir == p.ir
  {
    RFillFirst(p, chip, i1);
    RFillSecond(FriscPlain.Cycle(p, chip, i1), chip, i2);
    hide Ie, Nextstate, Memory.Fetch, FriscPlain.Cycle, Frisc.Advance, Stk.At;
  }

  /** The first cycle of a spill moves the markers and the external pointer. */
  lemma {:induction false} PSpillFirst(p: Plain, chip: Chip, i: Input)
    requires p.core.Valid() && p.state.TPsDec? && !Ie(p.core.psw) && !p.core.actualie && p.core.ps.ext >= 1
    ensures var p1 := FriscPlain.Cycle(p, chip, i);
            && p1.state.TPsStore? && p1.ir == p.ir
            && p1.core == p.core.(ps := Spilled(p.core.ps), pcb := p1.core.pcb, cycle := p1.core.cycle)
  {
    assert p.core.(actualie := Ie(p.core.psw)) == p.core;
    hide Ie, Boundary, Memory.Store, Memory.Fetch, OverStep;
  }

  /** The second stores the oldest entry. */
  lemma {:induction false} PSpillSecond(p: Plain, chip: Chip, i: Input)
    requires p.core.Valid() && p.state.TPsStore? && !Ie(p.core.psw) && !p.core.actualie
    ensures var d := p.core.(mem := p.core.mem.Store(p.core.ps.ext, p.core.ps.buf[Inc(p.core.ps.top)]));
            var p1 := FriscPlain.Cycle(p, chip, i);
            && p1.state == Nextstate(TPsStore, p.ir, d, i) && !p1.state.TInt? && p1.core == Frisc.Advance(d, p1.state, i) && p1.ir == p.ir
  {
    assert p.core.(actualie := Ie(p.core.psw)) == p.core;
    hide Ie, Boundary, Memory.Store, Memory.Fetch;
  }

  /** The first cycle of a fill brings the entry and moves the markers. */
  lemma {:induction false} PFillFirst(p: Plain, chip: Chip, i: Input)
    requires p.core.Valid() && p.state.TPsLoad? && !Ie(p.core.psw) && !p.core.actualie
    ensures var p1 := FriscPlain.Cycle(p, chip, i);
            && p1.state.TPsInc? && p1.ir == p.ir
            && p1.core == p.core.(ps := UnderStep(p.core.ps).Put(4, p.core.mem.Fetch(p.core.ps.ext)),
                                  pcb := p1.core.pcb, cycle := p1.core.cycle)
  {
    assert p.core.(actualie := Ie(p.core.psw)) == p.core;
    hide Ie, Boundary, Memory.Store, Memory.Fetch, UnderStep, Stk.Put;
  }

  /** The second moves the external pointer. */
  lemma {:induction false} PFillSecond(p: Plain, chip: Chip, i: Input)
    requires p.core.Valid() && p.state.TPsInc? && !Ie(p.core.psw) && !p.core.actualie && p.core.ps.ext + 1 < TWO32
    ensures var d := p.core.(ps := p.core.ps.(ext := p.core.ps.ext + 1)); var p1 := FriscPlain.Cycle(p, chip, i);
            && p1.state == Nextstate(TPsInc, p.ir, d, i) && !p1.state.TInt? && p1.core == Frisc.Advance(d, p1.state, i) && p1.ir == p.ir
  {
    assert p.core.(actualie := Ie(p.core.psw)) == p.core;
    hide Ie, Boundary, Memory.Store, Memory.Fetch;
  }

  /** The two cycles of a spill of the parameter stack. */
  lemma {:induction false} PSpillIs(p: Plain, chip: Chip, i1: Input, i2: Input)
    requires p.core.Valid() && p.state.TPsDec? && !Ie(p.core.psw) && !p.core.actualie && p.core.ps.ext >= 1
    ensures var p1 := FriscPlain.Cycle(p, chip, i1); var p2 := FriscPlain.Cycle(p1, chip, i2);
            var d := p.core.(ps := Spilled(p.core.ps), pcb := p1.core.pcb, cycle := p1.core.cycle,
                             mem := p.core.mem.Store(p.core.ps.ext - 1, p.core.ps.buf[Inc(p.core.ps.top)]));
            && p2.state == Nextstate(TPsStore, p.ir, d, i2) && !p2.state.TInt? && p2.core == Frisc.Advance(d, p2.state, i2) && p2.ir == p.ir
  {
    PSpillFirst(p, chip, i1);
    PSpillSecond(FriscPlain.Cycle(p, chip, i1), chip, i2);
    hide Ie, Nextstate, Memory.Store, FriscPlain.Cycle, Frisc.Advance, OverStep;
  }

  /** The two cycles of a fill of the parameter stack. */
  lemma {:induction false} PFillIs(p: Plain, chip: Chip, i1: Input, i2: Input)
    requires p.core.Valid() && p.state.TPsLoad? && !Ie(p.core.psw) && !p.core.actualie && p.core.ps.ext + 1 < TWO32
    ensures var p1 := FriscPlain.Cycle(p, chip, i1); var p2 := FriscPlain.Cycle(p1, chip, i2);
            var d := p.core.(ps := Filled(p.core.ps, p.core.mem.Fetch(p.core.ps.ext)), pcb := p1.core.pcb, cycle := p1.core.cycle);
            && p2.state == Nextstate(TPsInc, p.ir, d, i2) && !p2.state.TInt? && p2.core == Frisc.Advance(d, p2.state, i2) && p2.ir == p.ir
  {
    PFillFirst(p, chip, i1);
    PFillSecond(FriscPlain.Cycle(p, chip, i1), chip, i2);
    hide Ie, Nextstate, Memory.Fetch, FriscPlain.Cycle, Frisc.Advance, Stk.At;
  }

  /** A spill changes one reserved cell and nothing that a program sees. */
  lemma {:induction false} RSpill(p: Plain, lay: Layout, chip: Chip, i1: Input, i2: Input)
    requires Inv(p, lay) && p.state.TRsDec?
    ensures var p2 := FriscPlain.Cycle(FriscPlain.Cycle(p, chip, i1), chip, i2);
            && p.core.rs.ext >= 1 && lay.r.Contains(p.core.rs.ext - 1)
            && p2.core.mem == p.core.mem.Store(p.core.rs.ext - 1, p.core.rs.buf[Inc(p.core.rs.top)])
            && Inv(p2, lay) && Abs(p2, lay) == Abs(p, lay)
  {
    InvIs(p, lay);
    RSpillRoom(p, lay);
    RSpillIs(p, chip, i1, i2);
    var p1 := FriscPlain.Cycle(p, chip, i1);
    var p2 := FriscPlain.Cycle(p1, chip, i2);
    var d := p.core.(rs := Spilled(p.core.rs), pcb := p1.core.pcb, cycle := p1.core.cycle,
                     mem := p.core.mem.Store(p.core.rs.ext - 1, p.core.rs.buf[Inc(p.core.rs.top)]));
    RSpillAbs(p, lay, d);
    hide *;
    AdvanceAbs(d, p2.state, i2, p.ir, lay);
    BoundaryInv(p2, d, TRsStore, p.ir, i2, lay);
  }

  lemma {:induction false} RSpillRoom(p: Plain, lay: Layout)
    requires Inv(p, lay) && p.state.TRsDec?
    ensures p.core.rs.Count() == SIZE && Depth(p.core.rs, lay.r) < lay.r.cap && p.core.rs.ext >= 1 && Fits(Abs(p, lay), lay)
  {
    hide Stk.Count;
  }

  lemma {:induction false} RSpillAbs(p: Plain, lay: Layout, d: Core)
    requires Inv(p, lay) && p.state.TRsDec? && p.core.rs.ext >= 1
    requires d == p.core.(rs := Spilled(p.core.rs), pcb := d.pcb, cycle := d.cycle,
                          mem := p.core.mem.Store(p.core.rs.ext - 1, p.core.rs.buf[Inc(p.core.rs.top)]))
    ensures lay.r.Contains(p.core.rs.ext - 1) && Ordered(d, lay) && AbsOf(d, p.ir, lay) == Abs(p, lay)
  {
    InvIs(p, lay);
    RSpillRoom(p, lay);
    SpillLogical(p.core.rs, p.core.mem, lay.r);
    Apart(lay, p.core.rs.ext - 1);
    StoreLogical(p.core.ps, p.core.mem, lay.p, p.core.rs.ext - 1, p.core.rs.buf[Inc(p.core.rs.top)]);
    hide Logical, Spilled, Memory.Store, Stk.Count, Rcache, Pcache, Region.Valid, Inv, Region.Contains;
  }

  lemma {:induction false} Apart(lay: Layout, a: Word)
    ensures forall mem :: lay.Valid(mem) ==> !(lay.p.Contains(a) && lay.r.Contains(a))
  {
  }

  /** The same for the parameter stack. */
  lemma {:induction false} PSpill(p: Plain, lay: Layout, chip: Chip, i1: Input, i2: Input)
    requires Inv(p, lay) && p.state.TPsDec?
    ensures var p2 := FriscPlain.Cycle(FriscPlain.Cycle(p, chip, i1), chip, i2);
            && p.core.ps.ext >= 1 && lay.p.Contains(p.core.ps.ext - 1)
            && p2.core.mem == p.core.mem.Store(p.core.ps.ext - 1, p.core.ps.buf[Inc(p.core.ps.top)])
            && Inv(p2, lay) && Abs(p2, lay) == Abs(p, lay)
  {
    InvIs(p, lay);
    PSpillRoom(p, lay);
    PSpillIs(p, chip, i1, i2);
    var p1 := FriscPlain.Cycle(p, chip, i1);
    var p2 := FriscPlain.Cycle(p1, chip, i2);
    var d := p.core.(ps := Spilled(p.core.ps), pcb := p1.core.pcb, cycle := p1.core.cycle,
                     mem := p.core.mem.Store(p.core.ps.ext - 1, p.core.ps.buf[Inc(p.core.ps.top)]));
    PSpillAbs(p, lay, d);
    hide *;
    AdvanceAbs(d, p2.state, i2, p.ir, lay);
    BoundaryInv(p2, d, TPsStore, p.ir, i2, lay);
  }

  lemma {:induction false} PSpillRoom(p: Plain, lay: Layout)
    requires Inv(p, lay) && p.state.TPsDec?
    ensures p.core.ps.Count() == SIZE && Depth(p.core.ps, lay.p) < lay.p.cap && p.core.ps.ext >= 1 && Fits(Abs(p, lay), lay)
  {
    hide Stk.Count;
  }

  lemma {:induction false} PSpillAbs(p: Plain, lay: Layout, d: Core)
    requires Inv(p, lay) && p.state.TPsDec? && p.core.ps.ext >= 1
    requires d == p.core.(ps := Spilled(p.core.ps), pcb := d.pcb, cycle := d.cycle,
                          mem := p.core.mem.Store(p.core.ps.ext - 1, p.core.ps.buf[Inc(p.core.ps.top)]))
    ensures lay.p.Contains(p.core.ps.ext - 1) && Ordered(d, lay) && AbsOf(d, p.ir, lay) == Abs(p, lay)
  {
    InvIs(p, lay);
    PSpillRoom(p, lay);
    SpillLogical(p.core.ps, p.core.mem, lay.p);
    Apart(lay, p.core.ps.ext - 1);
    StoreLogical(p.core.rs, p.core.mem, lay.r, p.core.ps.ext - 1, p.core.ps.buf[Inc(p.core.ps.top)]);
    hide Logical, Spilled, Memory.Store, Stk.Count, Rcache, Pcache, Region.Valid, Inv, Region.Contains;
  }

  /** A fill changes nothing that a program sees. */
  lemma {:induction false} RFill(p: Plain, lay: Layout, chip: Chip, i1: Input, i2: Input)
    requires Inv(p, lay) && p.state.TRsLoad?
    ensures var p2 := FriscPlain.Cycle(FriscPlain.Cycle(p, chip, i1), chip, i2);
            p2.core.mem == p.core.mem && Inv(p2, lay) && Abs(p2, lay) == Abs(p, lay)
  {
    InvIs(p, lay);
    RFillAbs(p, lay);
    RFillIs(p, chip, i1, i2);
    var p1 := FriscPlain.Cycle(p, chip, i1);
    var p2 := FriscPlain.Cycle(p1, chip, i2);
    var d := p.core.(rs := Filled(p.core.rs, p.core.mem.Fetch(p.core.rs.ext)), pcb := p1.core.pcb, cycle := p1.core.cycle);
    ClockAbs(p.core.(rs := Filled(p.core.rs, p.core.mem.Fetch(p.core.rs.ext))), d, p.ir, lay);
    hide *;
    AdvanceAbs(d, p2.state, i2, p.ir, lay);
    BoundaryInv(p2, d, TRsInc, p.ir, i2, lay);
  }

  lemma {:induction false} RFillAbs(p: Plain, lay: Layout)
    requires Inv(p, lay) && p.state.TRsLoad?
    ensures p.core.rs.ext + 1 < TWO32 && Fits(Abs(p, lay), lay)
    ensures var d := p.core.(rs := Filled(p.core.rs, p.core.mem.Fetch(p.core.rs.ext)));
            Ordered(d, lay) && AbsOf(d, p.ir, lay) == Abs(p, lay)
  {
    assert Depth(p.core.rs, lay.r) > 0;
    FillLogical(p.core.rs, p.core.mem, lay.r);
    hide Logical, Filled, Memory.Fetch, Stk.Count, Rcache, Pcache, Region.Valid;
  }

  lemma {:induction false} ClockAbs(c: Core, d: Core, ir: Instr, lay: Layout)
    requires Ordered(c, lay) && d == c.(pcb := d.pcb, cycle := d.cycle)
    ensures Ordered(d, lay) && AbsOf(d, ir, lay) == AbsOf(c, ir, lay)
  {
    hide Logical, Stk.Count, Placed, Layout.Valid, Rcache, Pcache;
  }

  /** The same for the parameter stack. */
  lemma {:induction false} PFill(p: Plain, lay: Layout, chip: Chip, i1: Input, i2: Input)
    requires Inv(p, lay) && p.state.TPsLoad?
    ensures var p2 := FriscPlain.Cycle(FriscPlain.Cycle(p, chip, i1), chip, i2);
            p2.core.mem == p.core.mem && Inv(p2, lay) && Abs(p2, lay) == Abs(p, lay)
  {
    InvIs(p, lay);
    PFillAbs(p, lay);
    PFillIs(p, chip, i1, i2);
    var p1 := FriscPlain.Cycle(p, chip, i1);
    var p2 := FriscPlain.Cycle(p1, chip, i2);
    var d := p.core.(ps := Filled(p.core.ps, p.core.mem.Fetch(p.core.ps.ext)), pcb := p1.core.pcb, cycle := p1.core.cycle);
    ClockAbs(p.core.(ps := Filled(p.core.ps, p.core.mem.Fetch(p.core.ps.ext))), d, p.ir, lay);
    hide *;
    AdvanceAbs(d, p2.state, i2, p.ir, lay);
    BoundaryInv(p2, d, TPsInc, p.ir, i2, lay);
  }

  lemma {:induction false} PFillAbs(p: Plain, lay: Layout)
    requires Inv(p, lay) && p.state.TPsLoad?
    ensures p.core.ps.ext + 1 < TWO32 && Fits(Abs(p, lay), lay)
    ensures var d := p.core.(ps := Filled(p.core.ps, p.core.mem.Fetch(p.core.ps.ext)));
            Ordered(d, lay) && AbsOf(d, p.ir, lay) == Abs(p, lay)
  {
    assert Depth(p.core.ps, lay.p) > 0;
    FillLogical(p.core.ps, p.core.mem, lay.p);
    hide Logical, Filled, Memory.Fetch, Stk.Count, Rcache, Pcache, Region.Valid;
  }
}
