/** How the datapath comes to a state in order, and that disciplined programs exist. */
module Sc32Start {
  import opened Word32
  import opened Registers
  import opened MainMemory
  import opened StackCache
  import opened CacheBus
  import opened CacheRefinement
  import opened Sc32
  import opened Sc32Latches
  import opened Isa
  import opened Sc32Refinement
  import opened Sc32Runs

  /** The stack caches as a store to their controller turns them on: between five and fifteen entries
      in each, the rest of each stack in its reserved memory. */
  predicate Starts(s: Setup, m: Main, lay: Layout) {
    && s.rcache && s.pcache && lay.Valid(m) && Placed(s.ps, lay.p) && Placed(s.rs, lay.r)
    && 5 <= s.ps.Count() <= 15 && 5 <= s.rs.Count() <= 15
  }

  /** The store that turns the stack caches on brings the datapath into order, from a state in which
      they were off. */
  lemma {:induction false} CachesTurnOn(d: Dp, chip: Chip, t: Turn, m: Main, lay: Layout)
    requires d.Valid() && d.next.TStore? && d.writeback.Nop? && d.actualie == Ie(d.psw)
    requires !d.rcache && !d.pcache && (d.actualie ==> t.irq.None?)
    requires t.store.Some? && Starts(t.store.value, m, lay)
    ensures Inv(DpCycle(d, chip, t), m, lay)
  {
    var a, e := Accessed(d, t), DpCycle(d, chip, t);
    StoreCycles(d, chip, t);
    PhibAnticipates(a, chip, t.dbus);
    hide Dpphia, Dpphib, DpCycle, Accessed, Logical, Stk.Get, Ie, WriteReg;
    assert e.writeback.Nop? && WriteBack(e) == e;
    LogicalLengths(e, m, lay);
  }

  lemma {:induction false} StoreCycles(d: Dp, chip: Chip, t: Turn)
    requires d.Valid() && d.next.TStore? && d.writeback.Nop? && !d.rcache && !d.pcache && (d.actualie ==> t.irq.None?)
    requires t.store.Some? && t.store.value.ps.Valid() && t.store.value.rs.Valid()
    ensures var a, e, s := Accessed(d, t), DpCycle(d, chip, t), t.store.value;
            && a.state.TStore? && e.next.TExec? && e.writeback.Nop? && (e.ps, e.rs) == (s.ps, s.rs)
            && (e.rcache, e.pcache) == (s.rcache, s.pcache) && (e.psw, e.actualie) == (d.psw, d.actualie)
  {
    hide ReadReg, Spread, Stk.Get;
  }

  lemma {:induction false} LogicalLengths(d: Dp, m: Main, lay: Layout)
    requires d.Valid() && lay.Valid(m) && Placed(d.ps, lay.p) && Placed(d.rs, lay.r)
    requires 5 <= d.ps.Count() <= 15 && 5 <= d.rs.Count() <= 15
    ensures Sc32Refinement.Settled(d, m, lay) && Fits(AbsOf(d, m, lay), lay)
  {
    hide Logical, Stk.Count;
  }

  // A disciplined program with interrupts on

  /** Four words of a program: push a literal, pop it into memory, jump back; and the interrupt handler,
      one instruction that returns and enables interrupts. */
  datatype Program = Program(push: Word, store: Word, jump: Word, handler: Word)

  const LOOP: Word := 0x100
  const RESULT: Word := 0x200

  /** Interrupts and the cache enabled. */
  const ON: Word := 0x18

  predicate Pushes(ir: Instr) {
    ir.kind.Lal? && !ir.ret && ir.reg1.ZERO? && ir.reg2 == S(0) && ir.pop.Push? && ir.rop.Keep?
  }

  predicate Stores(ir: Instr) {
    ir.kind.Store? && !ir.ret && ir.reg1.ZERO? && ir.pop.Pop? && ir.rop.Keep? && ir.offset == RESULT
  }

  predicate Jumps(ir: Instr) {
    ir.kind.Flow? && ir.brtype.Branch? && ir.dest == LOOP
  }

  predicate Returns(ir: Instr) {
    ir.kind.Lal? && ir.ret && ir.reg1.ZERO? && ir.reg2.PSW? && ir.pop.Keep? && ir.rop.Pop? && ir.offset == ON
  }

  /** Any encoding that has the four instructions. */
  predicate Encodes(chip: Chip, p: Program) {
    && Pushes(chip.decode(p.push)) && Stores(chip.decode(p.store)) && Jumps(chip.decode(p.jump))
    && Returns(chip.decode(p.handler))
  }

  const PUSH := Instr(Lal, Colon, 0, false, ZERO, S(0), Push, Keep, 7, false, false, 0, false, 0)
  const STORE := Instr(Store, Colon, 0, false, ZERO, S(0), Pop, Keep, RESULT, false, false, 0, false, 0)
  const JUMP := Instr(Flow, Branch, LOOP, false, ZERO, ZERO, Keep, Keep, 0, false, false, 0, false, 0)
  const RETURN := Instr(Lal, Colon, 0, true, ZERO, PSW, Keep, Pop, ON, false, false, 0, false, 0)

  /** One such encoding, which has a store through the program counter besides. */
  lemma {:induction false} EncodingExists() returns (chip: Chip, p: Program)
    ensures Encodes(chip, p)
    ensures exists w :: chip.decode(w) == STORE.(reg1 := IAR, offset := 0)
  {
    chip := Chip(w => if w == 0 then PUSH else if w == 1 then STORE else if w == 2 then JUMP else if w == 3 then RETURN
                      else STORE.(reg1 := IAR, offset := 0), (i, t, b, y, f) => AluOut(0, 0, false, 0));
    p := Program(0, 1, 2, 3);
    assert chip.decode(4) == STORE.(reg1 := IAR, offset := 0);
  }

  const LAYOUT: Layout := Layout(Area(0x400, 16), Area(0x800, 16))

  /** The program in memory: a handler for every interrupt line, and the loop. */
  predicate InMemory(m: Main, p: Program) {
    && m.Valid() && m.lowtop == 0xFFF
    && (forall v | 0 <= v < 32 :: m.low[v] == p.handler)
    && m.low[0x40] == p.push && m.low[0x41] == p.store && m.low[0x42] == p.jump
  }

  /** The word of the loop at an address, and how deep the parameter stack is there. */
  function LoopWord(p: Program, at: Word): Option<(Word, int)> {
    if at == LOOP then Some((p.push, 5))
    else if at == LOOP + 4 then Some((p.store, 6))
    else if at == LOOP + 8 then Some((p.jump, 5))
    else None
  }

  predicate Looping(i: Machine, chip: Chip, p: Program) {
    && i.psw == ON && |i.rs| == 5 && |i.udr| == 4 && LoopWord(p, i.at).Some?
    && i.ir == chip.decode(LoopWord(p, i.at).value.0) && |i.ps| == LoopWord(p, i.at).value.1
  }

  /** In the handler, called from the loop. */
  predicate Handling(i: Machine, chip: Chip, p: Program) {
    && i.psw == ON - 0x10 && |i.rs| == 6 && |i.udr| == 4 && LoopWord(p, i.rs[0]).Some?
    && i.ir == chip.decode(p.handler) && |i.ps| == LoopWord(p, i.rs[0]).value.1
  }

  predicate Busy(i: Machine, m: Main, chip: Chip, p: Program) {
    Encodes(chip, p) && InMemory(m, p) && (Looping(i, chip, p) || Handling(i, chip, p))
  }

  lemma {:induction false} LoopFetch(m: Main, p: Program, at: Word, device: Word)
    requires InMemory(m, p) && LoopWord(p, at).Some?
    ensures Answer(m, Request(at, true, false, 0, device)) == LoopWord(p, at).value.0
  {
  }

  lemma {:induction false} HandlerFetch(m: Main, p: Program, v: Vector, device: Word)
    requires InMemory(m, p)
    ensures Wrap(v * 4) == v * 4 && Answer(m, Request(v * 4, true, false, 0, device)) == p.handler
  {
    assert (v * 4) / 4 == v;
  }

  /** Neither spilled entries nor results are part of the program. */
  lemma {:induction false} StoreKeepsProgram(m: Main, p: Program, a: Word, v: Word)
    requires InMemory(m, p) && m.Covers(a) && a >= RESULT
    ensures InMemory(m.Store(a, v), p)
  {
    assert a / 4 >= 0x80;
  }

  lemma {:induction false} ReservedAbove(a: Word)
    requires LAYOUT.Reserves(a)
    ensures a >= RESULT && a != RESULT
  {
  }

  lemma {:induction false} PushStep(i: Machine, m: Main, chip: Chip, p: Program, env: Env)
    requires Busy(i, m, chip, p) && Looping(i, chip, p) && i.at == LOOP && Advance(i, m, chip, env).Valid()
    ensures Looping(Execute(i, m, chip, env), chip, p) && Isa.Memory(i, m, chip, env) == m
  {
    LoopFetch(m, p, LOOP + 4, env.fetch);
    hide Answer, InMemory, Stores, Jumps, Returns;
  }

  lemma {:induction false} PopStep(i: Machine, m: Main, chip: Chip, p: Program, env: Env)
    requires Busy(i, m, chip, p) && Looping(i, chip, p) && i.at == LOOP + 4 && Advance(i, m, chip, env).Valid()
    ensures Looping(Execute(i, m, chip, env), chip, p) && Operands(i, chip).result == RESULT
    ensures InMemory(Isa.Memory(i, m, chip, env), p)
  {
    LoopFetch(m, p, LOOP + 8, env.fetch);
    var v := StoreOf(Advance(i, m, chip, env), i.ir, RESULT, env.data).data;
    StoreKeepsProgram(m, p, RESULT, v);
    hide Answer, InMemory, Pushes, Jumps, Returns, Main.Store;
  }

  lemma {:induction false} JumpStep(i: Machine, m: Main, chip: Chip, p: Program, env: Env)
    requires Busy(i, m, chip, p) && Looping(i, chip, p) && i.at == LOOP + 8 && Advance(i, m, chip, env).Valid()
    ensures Looping(Execute(i, m, chip, env), chip, p) && Isa.Memory(i, m, chip, env) == m
  {
    LoopFetch(m, p, LOOP, env.fetch);
    hide Answer, InMemory, Pushes, Stores, Returns;
  }

  lemma {:induction false} ReturnStep(i: Machine, m: Main, chip: Chip, p: Program, env: Env)
    requires Busy(i, m, chip, p) && Handling(i, chip, p) && Advance(i, m, chip, env).Valid()
    ensures var j := Execute(i, m, chip, env);
            && Looping(j, chip, p) && Isa.Memory(i, m, chip, env) == m
            && j == i.(rs := i.rs[1..], psw := ON, at := i.rs[0], ir := j.ir)
  {
    LoopFetch(m, p, i.rs[0], env.fetch);
    hide Answer, InMemory, Pushes, Stores, Jumps;
  }

  lemma {:induction false} IrqStep(i: Machine, m: Main, chip: Chip, p: Program, v: Vector, device: Word)
    requires Busy(i, m, chip, p) && Looping(i, chip, p)
    ensures var j := Interrupt(i, m, chip, v, device);
            Handling(j, chip, p) && j == i.(rs := [i.at] + i.rs, psw := ON - 0x10, at := v * 4, ir := chip.decode(p.handler))
  {
    HandlerFetch(m, p, v, device);
    hide Answer, InMemory, Pushes, Stores, Jumps, Returns, Wrap;
  }

  lemma {:induction false} BusyStays(i: Machine, m: Main, chip: Chip, p: Program, e: Event)
    requires Busy(i, m, chip, p) && Legal(i, m, chip, LAYOUT, e)
    ensures var (j, n) := Happen(i, m, chip, LAYOUT, e); Busy(j, n, chip, p)
  {
    hide Execute, Isa.Memory, Interrupt, Advance, InMemory, Main.Store, Encodes, Answer, Operands;
    match e {
      case Reserved(a, v) =>
        ReservedAbove(a);
        StoreKeepsProgram(m, p, a, v);
      case Irq(v, device) =>
        IrqStep(i, m, chip, p, v, device);
      case Instruction(env) =>
        if Handling(i, chip, p) {
          ReturnStep(i, m, chip, p, env);
        } else if i.at == LOOP {
          PushStep(i, m, chip, p, env);
        } else if i.at == LOOP + 4 {
          PopStep(i, m, chip, p, env);
        } else {
          JumpStep(i, m, chip, p, env);
        }
    }
  }

  lemma {:induction false} BusyGood(i: Machine, m: Main, chip: Chip, p: Program)
    requires Busy(i, m, chip, p)
    ensures Good(i, m, chip, LAYOUT)
  {
  }

  lemma {:induction false} BusyRuns(i: Machine, m: Main, chip: Chip, p: Program, es: seq<Event>)
    requires Busy(i, m, chip, p) && LegalRun(i, m, chip, LAYOUT, es)
    ensures var (j, n) := After(i, m, chip, LAYOUT, es); Good(j, n, chip, LAYOUT)
    decreases |es|
  {
    hide Busy, Happen, Legal, Good;
    if es == [] {
      BusyGood(i, m, chip, p);
    } else {
      BusyStays(i, m, chip, p, es[0]);
      var (j, n) := Happen(i, m, chip, LAYOUT, es[0]);
      BusyRuns(j, n, chip, p, es[1..]);
    }
  }

  /** A program that pushes, pops, stores and returns with interrupts on is disciplined, whatever else
      the encoding has. */
  lemma {:induction false} BusyIsDisciplined(i: Machine, m: Main, chip: Chip, p: Program)
    requires Busy(i, m, chip, p)
    ensures Disciplined(i, m, chip, LAYOUT)
  {
    hide Busy, Good;
    forall es | LegalRun(i, m, chip, LAYOUT, es)
      ensures var (j, n) := After(i, m, chip, LAYOUT, es); Good(j, n, chip, LAYOUT)
    {
      BusyRuns(i, m, chip, p, es);
    }
  }

  lemma {:induction false} HandlerLegal(i: Machine, m: Main, chip: Chip, p: Program, env: Env)
    requires Busy(i, m, chip, p) && Handling(i, chip, p)
    ensures Legal(i, m, chip, LAYOUT, Instruction(env))
    ensures Advance(i, m, chip, env).Valid()
    ensures Happen(i, m, chip, LAYOUT, Instruction(env)) == (Execute(i, m, chip, env), Isa.Memory(i, m, chip, env))
  {
    hide Answer, Operands, Target;
  }

  lemma {:induction false} IrqLegal(i: Machine, m: Main, chip: Chip, p: Program, v: Vector, device: Word)
    requires Busy(i, m, chip, p) && Looping(i, chip, p)
    ensures Legal(i, m, chip, LAYOUT, Irq(v, device))
    ensures Happen(i, m, chip, LAYOUT, Irq(v, device)) == (Interrupt(i, m, chip, v, device), m)
  {
    hide Interrupt;
  }

  lemma {:induction false} LoopedBack(i: Machine, j: Machine, x: Machine, v: Vector, chip: Chip, p: Program)
    requires Looping(i, chip, p) && Looping(x, chip, p)
    requires j == i.(rs := [i.at] + i.rs, psw := ON - 0x10, at := v * 4, ir := chip.decode(p.handler))
    requires x == j.(rs := j.rs[1..], psw := ON, at := j.rs[0], ir := x.ir)
    ensures x == i
  {
    hide LoopWord;
    assert j.rs[1..] == i.rs;
  }

  /** In its loop every interrupt can happen, and the handler brings everything back. */
  lemma {:induction false} InterruptComesBack(i: Machine, m: Main, chip: Chip, p: Program, v: Vector, device: Word, env: Env)
    requires Busy(i, m, chip, p) && Looping(i, chip, p)
    ensures var es := [Irq(v, device), Instruction(env)];
            LegalRun(i, m, chip, LAYOUT, es) && After(i, m, chip, LAYOUT, es) == (i, m)
  {
    IrqStep(i, m, chip, p, v, device);
    IrqLegal(i, m, chip, p, v, device);
    var j := Interrupt(i, m, chip, v, device);
    BusyStays(i, m, chip, p, Irq(v, device));
    hide *;
    HandlerLegal(j, m, chip, p, env);
    ReturnStep(j, m, chip, p, env);
    LoopedBack(i, j, Execute(j, m, chip, env), v, chip, p);
    OneEvent(j, m, chip, LAYOUT, Instruction(env));
    Prepend(i, m, chip, LAYOUT, Irq(v, device), [Instruction(env)]);
    assert [Irq(v, device)] + [Instruction(env)] == [Irq(v, device), Instruction(env)];
  }

  const ZEROES: Stk := Stk(seq(16, _ => 0), 5, 0, 4, 0x400)

  function Image(p: Program): (m: Main)
    ensures InMemory(m, p)
  {
    Main(0xFFF, TWO32, seq(1024, k => WordAt(p, k)), [])
  }

  function WordAt(p: Program, k: int): Word {
    if k < 32 then p.handler else if k == 0x40 then p.push else if k == 0x41 then p.store else p.jump
  }

  /** The datapath about to execute the jump of the loop, with five entries in each stack cache. */
  function AtJump(chip: Chip, p: Program): Dp {
    var ir := chip.decode(p.jump);
    Dp(TExec, TExec, ZEROES, ZEROES.(ext := 0x800), ON, true, true, true, 0, 0, 0, 0, 0, false, ir, ir,
       [0, 0, 0, 0], LOOP + 12, FromHold, Nop, 0, 0, 0, 0, true, false, 0)
  }

  /** There are states in order with interrupts on whose program is disciplined, in every encoding that
      has its four instructions; and the datapath takes any interrupt there. */
  lemma {:induction false} DisciplineExists(chip: Chip, p: Program) returns (d: Dp, m: Main)
    requires Encodes(chip, p)
    ensures Inv(d, m, LAYOUT) && Ie(Abs(d, m, LAYOUT).psw) && Busy(Abs(d, m, LAYOUT), m, chip, p)
    ensures Disciplined(Abs(d, m, LAYOUT), m, chip, LAYOUT)
    ensures forall v: Vector, device :: var e := FlatCycle(d, m, chip, Some(v), device).0; e.next.TInt? && e.intvector == v
  {
    d, m := AtJump(chip, p), Image(p);
    JumpInOrder(d, m, chip, p);
    forall v: Vector, device
      ensures var e := FlatCycle(d, m, chip, Some(v), device).0; e.next.TInt? && e.intvector == v
    {
      JumpInterrupted(d, m, chip, p, v, device);
    }
    hide Busy;
    BusyIsDisciplined(Abs(d, m, LAYOUT), m, chip, p);
  }

  lemma {:induction false} JumpInOrder(d: Dp, m: Main, chip: Chip, p: Program)
    requires Encodes(chip, p) && d == AtJump(chip, p) && InMemory(m, p)
    ensures Inv(d, m, LAYOUT) && Busy(Abs(d, m, LAYOUT), m, chip, p)
  {
    assert ZEROES.Valid() && ZEROES.Count() == 5;
    assert LAYOUT.Valid(m) && Placed(d.ps, LAYOUT.p) && Placed(d.rs, LAYOUT.r);
    hide Logical, InMemory, Pushes, Stores, Jumps, Returns;
  }

  lemma {:induction false} JumpInterrupted(d: Dp, m: Main, chip: Chip, p: Program, v: Vector, device: Word)
    requires Encodes(chip, p) && d == AtJump(chip, p) && InMemory(m, p)
    ensures d.Valid() && var e := FlatCycle(d, m, chip, Some(v), device).0; e.next.TInt? && e.intvector == v
  {
    hide InMemory, Answer, Stk.Get, Dpphib, Asrc, Bsrc, Tsrc;
  }
}
