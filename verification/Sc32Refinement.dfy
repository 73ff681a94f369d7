/** The SC32 datapath over a flat memory executes the instruction set of module Isa. */
module Sc32Refinement {
  import opened Word32
  import opened Registers
  import opened MainMemory
  import opened StackCache
  import opened CacheBus
  import opened CacheRefinement
  import opened Sc32
  import opened Sc32Latches
  import opened Isa

  /** The memory reserved for the two stacks' spilled parts. */
  datatype Layout = Layout(p: Area, r: Area) {
    predicate Valid(m: Main) {
      && p.Valid(m) && r.Valid(m)
      && (p.base <= r.base - 4 * r.cap || r.base <= p.base - 4 * p.cap)
    }

    predicate Reserves(a: Word) {
      p.Contains(a) || r.Contains(a)
    }
  }

  /** One cycle of the datapath over a flat memory. */
  function FlatCycle(d: Dp, m: Main, chip: Chip, irq: Option<Vector>, device: Word): (r: (Dp, Main))
    requires d.Valid() && m.Valid()
    ensures r.0.Valid() && r.1.Valid()
  {
    var a := Dpphia(d, irq);
    var r := Presented(a, device);
    (Dpphib(a, chip, if r.read then Answer(m, r) else a.dbus), Apply(m, r))
  }

  /** The registers and stacks are in order, with four entries of each stack in its cache. */
  predicate Settled(d: Dp, m: Main, lay: Layout) {
    && d.Valid() && lay.Valid(m)
    && Placed(d.ps, lay.p) && Placed(d.rs, lay.r) && d.ps.Count() >= 4 && d.rs.Count() >= 4
  }

  /** The programmer's view of the registers, no write-back pending. */
  function AbsOf(d: Dp, m: Main, lay: Layout): (i: Machine)
    requires Settled(d, m, lay)
    ensures i.Valid()
  {
    Machine(Logical(d.ps, m, lay.p), Logical(d.rs, m, lay.r), d.psw, d.y, d.flag, d.udr, Minus(d.pc, 4), d.ir)
  }

  /** Stacks neither about to underflow their memory nor about to overflow it. */
  predicate Fits(i: Machine, lay: Layout) {
    5 <= |i.ps| <= 15 + lay.p.cap && 5 <= |i.rs| <= 15 + lay.r.cap
  }

  /** The next cycle starts an instruction, an interrupt, a spill or a fill, and the one that
      the stack markers and the interrupt enable call for. */
  predicate NextFits(d: Dp) {
    match d.next
    case TExec => 5 <= d.rs.Count() <= 15 && 5 <= d.ps.Count() <= 15
    case TInt => 5 <= d.rs.Count() <= 15 && 5 <= d.ps.Count() <= 15 && Ie(d.psw)
    case TROver1 => d.rs.Count() == SIZE
    case TRUnder1 => d.rs.Count() == 4
    case TPOver1 => d.ps.Count() == SIZE && 5 <= d.rs.Count() <= 15
    case TPUnder1 => d.ps.Count() == 4 && 5 <= d.rs.Count() <= 15
    case _ => false
  }

  /** The invariant between instructions, seen through the pending write-back: the stack caches
      are on and placed, the anticipated top of the return stack is the real one. */
  predicate Inv(d: Dp, m: Main, lay: Layout) {
    && d.Valid() && d.rcache && d.pcache
    && var c := WriteBack(d);
       && Settled(c, m, lay) && NextFits(c) && Fits(AbsOf(c, m, lay), lay)
       && Tor(d) == c.rs.Get(0) && c.actualie == Ie(c.psw)
  }

  /** The programmer's view of the machine: the registers after the pending write-back. */
  function Abs(d: Dp, m: Main, lay: Layout): Machine
    requires Inv(d, m, lay)
  {
    AbsOf(WriteBack(d), m, lay)
  }

  // Registers and stack pointers

  lemma ReadAbs(d: Dp, m: Main, lay: Layout, r: Reg)
    requires Settled(d, m, lay)
    ensures ReadReg(d, r) == AbsOf(d, m, lay).Get(r, d.pc)
  {
    if r.S? { ReadIsLogical(d.ps, m, lay.p, r.k); }
    if r.R? { ReadIsLogical(d.rs, m, lay.r, r.k); }
  }

  lemma WriteAbs(d: Dp, m: Main, lay: Layout, r: Reg, v: Word)
    requires Settled(d, m, lay)
    ensures var d1 := WriteReg(d, r, v);
            && Settled(d1, m, lay) && AbsOf(d1, m, lay) == AbsOf(d, m, lay).Set(r, v)
            && d1.ps.Count() == d.ps.Count() && d1.rs.Count() == d.rs.Count()
  {
    hide Logical;
    if r.S? { WriteIsLogical(d.ps, m, lay.p, r.k, v); }
    if r.R? { WriteIsLogical(d.rs, m, lay.r, r.k, v); }
  }

  /** A stack pointer's move is a push of whatever is exposed, or a pop. */
  lemma MoveAbs(s: Stk, m: Main, area: Area, op: StackOp)
    requires area.Valid(m) && Placed(s, area) && 5 <= s.Count() <= 15
    ensures var s1 := StackMove(s, op);
            && Placed(s1, area) && 4 <= s1.Count() <= 16
            && Logical(s1, m, area) == Moved(Logical(s, m, area), op, s1.Get(0))
  {
    PushIsLogical(s, m, area);
    PopIsLogical(s, m, area);
  }

  // The execute cycle

  /** The environment's part in an instruction executed from registers `c`. */
  function EnvOf(c: Dp, fetch: Word, data: Word): Env
    requires c.Valid()
  {
    Env(fetch, data, StackMove(c.ps, c.ir.pop).Get(0), StackMove(c.rs, c.ir.rop).Get(0))
  }

  predicate Squashes(c: Dp) {
    c.ir.kind.Flow? && c.ir.brtype.QBranch? && c.flag
  }

  /** The execute cycle from committed registers `c`, before its write-back. */
  function ExecCycle(c: Dp, m: Main, chip: Chip, irq: Option<Vector>, device: Word): Dp
    requires c.Valid() && m.Valid()
  {
    var a := Nextstate(ExecPhia(c), irq);
    ExecPhib(a, chip, Answer(m, Presented(a, device)))
  }

  lemma PlusMinus(x: Word)
    ensures Plus(Minus(x, 4), 4) == x && Minus(Plus(x, 4), 4) == x
  {
  }

  /** Phase a puts the instruction's target and operands on the buses. */
  lemma ExecBuses(c: Dp, m: Main, lay: Layout)
    requires Settled(c, m, lay) && Tor(c) == c.rs.Get(0)
    ensures var i := AbsOf(c, m, lay);
            var a := ExecPhia(c);
            && (!Squashes(c) ==> a.abus == Target(i))
            && a.bbus == OperandB(i) && a.tbus == OperandT(i) && a.read && !a.bytemode
  {
    hide Logical, StackMove, ReadReg, Machine.Get;
    PlusMinus(c.pc);
    ReadAbs(c, m, lay, c.ir.reg1);
    ReadIsLogical(c.ps, m, lay.p, 0);
    ReadIsLogical(c.rs, m, lay.r, 0);
  }

  /** Phase a moves the stack pointers as the instruction says. */
  lemma ExecStacks(c: Dp, m: Main, lay: Layout)
    requires Settled(c, m, lay) && 5 <= c.ps.Count() <= 15 && 5 <= c.rs.Count() <= 15
    ensures var a := ExecPhia(c);
            var f := c.ir.kind.Flow?;
            var pop := if !f then c.ir.pop else if c.ir.brtype.Does? then Push else Keep;
            var rop := if !f then c.ir.rop else if c.ir.brtype.Colon? then Push else Keep;
            && a == c.(ps := StackMove(c.ps, pop), rs := StackMove(c.rs, rop), abus := a.abus, bbus := a.bbus,
                       tbus := a.tbus, read := a.read, bytemode := a.bytemode)
            && Settled(a, m, lay)
            && Logical(a.ps, m, lay.p) == Moved(Logical(c.ps, m, lay.p), pop, a.ps.Get(0))
            && Logical(a.rs, m, lay.r) == Moved(Logical(c.rs, m, lay.r), rop, a.rs.Get(0))
  {
    hide Logical, Asrc, Bsrc, Tsrc;
    var a := ExecPhia(c);
    var f := c.ir.kind.Flow?;
    var pop := if !f then c.ir.pop else if c.ir.brtype.Does? then Push else Keep;
    var rop := if !f then c.ir.rop else if c.ir.brtype.Colon? then Push else Keep;
    assert a.ps == StackMove(c.ps, pop) && a.rs == StackMove(c.rs, rop);
    MoveAbs(c.ps, m, lay.p, pop);
    MoveAbs(c.rs, m, lay.r, rop);
  }

  predicate OneCycle(c: Dp) {
    (c.ir.kind.Flow? || c.ir.kind.Micro? || c.ir.kind.Lal? || c.ir.kind.Lah?) && !Squashes(c)
  }

  /** The ALU computes what the instruction set asks for. */
  lemma {:induction false} AluIsOperands(i: Machine, chip: Chip)
    requires i.Valid()
    ensures AluOf(chip, i.ir, OperandT(i), OperandB(i), i.y, i.flag) == Operands(i, chip)
  {
  }

  /** What phase b adds to phase a in the execute cycle. */
  lemma ExecShape(c: Dp, m: Main, chip: Chip, irq: Option<Vector>, device: Word)
    requires c.Valid() && m.Valid()
    ensures var a := ExecPhia(c);
            var e := ExecCycle(c, m, chip, irq, device);
            var out := AluOf(chip, c.ir, a.tbus, a.bbus, c.y, c.flag);
            && e == a.(next := e.next, intvector := e.intvector, hold := a.rs.Get(0), aluout := out.result,
                       barrelout := out.barrel, y := out.y,
                       flag := if c.ir.kind.Micro? && c.ir.setflag then out.flinput else c.flag,
                       pc := Plus(a.abus, 4), oldir := c.ir,
                       ir := chip.decode(Answer(m, Request(a.abus, true, false, 0, device))), dbus := e.dbus,
                       tor := e.tor, writeback := e.writeback)
            && e.next == Nextstate(a, irq).next && (e.tor, e.writeback) == Sc32.Cleanup(c.ir)
  {
    var a0 := ExecPhia(c);
    var a := Nextstate(a0, irq);
    var out := AluOf(chip, a.ir, a.tbus, a.bbus, a.y, a.flag);
    var fetched := Answer(m, Presented(a, device));
    ExecIs(a, chip, fetched);
    NextOf(a0, irq);
    assert Presented(a, device) == Request(a0.abus, true, false, 0, device);
    hide AluOf, ExecPhia, Nextstate, Answer, Sc32.Cleanup, ExecPhib, Plus, Stk.Get;
  }

  lemma {:induction false} NextOf(a: Dp, irq: Option<Vector>)
    ensures var b := Nextstate(a, irq); b == a.(next := b.next, intvector := b.intvector)
  {
    hide Nextstate;
  }

  /** The execute cycle fetches the next instruction and moves the stack pointers. */
  lemma ExecAdvances(c: Dp, m: Main, lay: Layout, chip: Chip, irq: Option<Vector>, device: Word, data: Word)
    requires Settled(c, m, lay) && Tor(c) == c.rs.Get(0) && 5 <= c.ps.Count() <= 15 && 5 <= c.rs.Count() <= 15
    requires !c.ir.kind.Flow?
    ensures var e := ExecCycle(c, m, chip, irq, device);
            var i := AbsOf(c, m, lay);
            && Settled(e, m, lay) && AbsOf(e, m, lay) == Advance(i, m, chip, EnvOf(c, device, data))
            && e.aluout == Operands(i, chip).result && e.barrelout == Operands(i, chip).barrel
  {
    ExecBuses(c, m, lay);
    ExecStacks(c, m, lay);
    ExecShape(c, m, chip, irq, device);
    PlusMinus(c.pc);
    PlusMinus(Target(AbsOf(c, m, lay)));
    AluIsOperands(AbsOf(c, m, lay), chip);
    hide Operands, Logical, AluOf, StackMove, Answer, ExecPhia, ExecCycle, Sc32.Cleanup, Nextstate, OperandB, OperandT, Target,
      Minus, Plus, Stk.Get, Stk.Count, Placed;
    var e := ExecCycle(c, m, chip, irq, device);
    assert e.ps == ExecPhia(c).ps && e.rs == ExecPhia(c).rs && Settled(e, m, lay);
    assert AbsOf(e, m, lay).at == Advance(AbsOf(c, m, lay), m, chip, EnvOf(c, device, data)).at;
  }

  lemma ExecReturnAddress(c: Dp, m: Main, lay: Layout, chip: Chip, irq: Option<Vector>, device: Word)
    requires Settled(c, m, lay) && Tor(c) == c.rs.Get(0) && c.ir.kind.Flow?
    ensures ExecCycle(c, m, chip, irq, device).aluout == Plus(AbsOf(c, m, lay).at, 4)
  {
    ExecBuses(c, m, lay);
    ExecShape(c, m, chip, irq, device);
    hide Logical, ExecPhia, ExecCycle, Plus, Minus;
  }

  lemma WriteOverPush(l: seq<Word>, junk: Word, v: Word)
    ensures ([junk] + l)[0 := v] == [v] + l
  {
  }

  /** A call leaves the return address to be written over what its push has exposed. */
  lemma ExecCalls(c: Dp, m: Main, lay: Layout, chip: Chip, irq: Option<Vector>, device: Word, data: Word)
    requires Settled(c, m, lay) && Tor(c) == c.rs.Get(0) && 5 <= c.ps.Count() <= 15 && 5 <= c.rs.Count() <= 15
    requires c.ir.kind.Flow? && !Squashes(c)
    ensures var e := ExecCycle(c, m, chip, irq, device);
            var i := AbsOf(c, m, lay);
            && Settled(e, m, lay)
            && AbsOf(e, m, lay).Set(Destination(c.ir), e.aluout) == Advance(i, m, chip, EnvOf(c, device, data))
  {
    ExecReturnAddress(c, m, lay, chip, irq, device);
    ExecBuses(c, m, lay);
    ExecStacks(c, m, lay);
    ExecShape(c, m, chip, irq, device);
    PlusMinus(c.pc);
    PlusMinus(Target(AbsOf(c, m, lay)));
    AluIsOperands(AbsOf(c, m, lay), chip);
    hide Operands, Logical, AluOf, StackMove, Answer, ExecPhia, ExecCycle, Sc32.Cleanup, Nextstate, OperandB, OperandT, Target,
      Minus, Plus, Stk.Get, Stk.Count, Placed;
    var e := ExecCycle(c, m, chip, irq, device);
    assert e.ps == ExecPhia(c).ps && e.rs == ExecPhia(c).rs && Settled(e, m, lay);
    var i := AbsOf(c, m, lay);
    var x := AbsOf(e, m, lay);
    WriteOverPush(i.ps, e.ps.Get(0), e.aluout);
    WriteOverPush(i.rs, e.rs.Get(0), e.aluout);
    assert x.at == Target(i);
    assert x.ir == chip.decode(Answer(m, Request(Target(i), true, false, 0, device)));
    assert x.flag == i.flag;
    assert x.y == Operands(i, chip).y;
    match c.ir.brtype {
      case Colon =>
        assert x.ps == i.ps && x.rs == [e.rs.Get(0)] + i.rs;
      case Does =>
        assert x.rs == i.rs && x.ps == [e.ps.Get(0)] + i.ps;
      case _ =>
        assert x.ps == i.ps && x.rs == i.rs;
    }
  }

  // The end of an instruction

  /** The markers of a stack cache, which write-backs leave alone. */
  predicate SameMarks(s: Stk, t: Stk) {
    s.top == t.top && s.over == t.over && s.under == t.under && s.ext == t.ext
  }

  lemma WriteKeepsMarks(d: Dp, r: Reg, v: Word)
    requires d.Valid()
    ensures var w := WriteReg(d, r, v);
            && SameMarks(w.ps, d.ps) && SameMarks(w.rs, d.rs)
            && w == d.(ps := w.ps, rs := w.rs, udr := w.udr, psw := w.psw, actualie := w.actualie, y := w.y)
            && (!r.PSW? ==> w.psw == d.psw && w.actualie == d.actualie)
            && (d.actualie == Ie(d.psw) ==> w.actualie == Ie(w.psw))
            && w.rs.Get(0) == if r == R(0) then v else d.rs.Get(0)
  {
    TopWritten(d, r, v);
    if r.S? {
      PutMarks(d.ps, r.k, v);
    } else if r.R? {
      PutMarks(d.rs, r.k, v);
    }
    hide Stk.Get, Stk.Put, Ie;
  }

  lemma {:induction false} PutMarks(s: Stk, k: Near, v: Word)
    requires s.Valid()
    ensures SameMarks(s.Put(k, v), s)
  {
  }

  /** The boundary decision, taken in state `a` of phase a, leads to a state in order. */
  lemma BoundaryInv(a: Dp, irq: Option<Vector>, d: Dp, m: Main, lay: Layout)
    requires a.Valid() && d.Valid() && a.rcache && a.pcache && d.rcache && d.pcache
    requires d.next == Boundary(a, irq).next
    requires var w := WriteBack(d);
             && Settled(w, m, lay) && Fits(AbsOf(w, m, lay), lay) && Tor(d) == w.rs.Get(0) && w.actualie == Ie(w.psw)
             && SameMarks(a.ps, w.ps) && SameMarks(a.rs, w.rs) && (a.actualie && !IntSuppress(a) ==> Ie(w.psw))
             && w.next == d.next
    ensures Inv(d, m, lay)
  {
    hide WriteBack, AbsOf, IntSuppress, Placed, Stk.Get, Tor, Ie;
  }

  lemma FlatExec(d: Dp, m: Main, chip: Chip, irq: Option<Vector>, device: Word)
    requires d.Valid() && m.Valid() && d.next.TExec?
    ensures FlatCycle(d, m, chip, irq, device) == (ExecCycle(Start(d), m, chip, irq, device), m)
  {
    hide WriteBack, ExecPhia, ExecPhib, Nextstate, Answer;
  }

  lemma ExecWriteback(c: Dp, m: Main, chip: Chip, irq: Option<Vector>, device: Word)
    requires c.Valid() && m.Valid() && OneCycle(c)
    ensures var e := ExecCycle(c, m, chip, irq, device);
            var v := if c.ir.kind.Micro? && c.ir.shift then e.barrelout else e.aluout;
            WriteBack(e) == WriteReg(e, Destination(c.ir), v) && Tor(e) == WriteBack(e).rs.Get(0)
  {
    ExecShape(c, m, chip, irq, device);
    var e := ExecCycle(c, m, chip, irq, device);
    hide ExecCycle, AluOf, ExecPhia, Sc32.Cleanup, Nextstate, Answer, Stk.Get, WriteReg, WriteBack;
    CleanupAnticipates(c.ir, e);
    WriteKeepsMarks(e, Destination(c.ir), if c.ir.kind.Micro? && c.ir.shift then e.barrelout else e.aluout);
  }

  /** The registers after the execute cycle's write-back are those the instruction leaves. */
  lemma ExecResult(c: Dp, m: Main, lay: Layout, chip: Chip, irq: Option<Vector>, device: Word, data: Word)
    requires Settled(c, m, lay) && Tor(c) == c.rs.Get(0) && 5 <= c.ps.Count() <= 15 && 5 <= c.rs.Count() <= 15
    requires OneCycle(c)
    ensures var w := WriteBack(ExecCycle(c, m, chip, irq, device));
            var i := AbsOf(c, m, lay);
            var env := EnvOf(c, device, data);
            && Advance(i, m, chip, env).Valid() && Settled(w, m, lay) && AbsOf(w, m, lay) == Execute(i, m, chip, env)
  {
    var e := ExecCycle(c, m, chip, irq, device);
    ExecWriteback(c, m, chip, irq, device);
    var v := if c.ir.kind.Micro? && c.ir.shift then e.barrelout else e.aluout;
    if c.ir.kind.Flow? {
      ExecCalls(c, m, lay, chip, irq, device, data);
    } else {
      ExecAdvances(c, m, lay, chip, irq, device, data);
    }
    hide ExecCycle, WriteReg, WriteBack, AbsOf, Advance, Operands, Settled;
    WriteAbs(e, m, lay, Destination(c.ir), v);
  }

  /** The execute cycle of a one-cycle instruction ends in a state in order. */
  lemma ExecEnds(c: Dp, m: Main, lay: Layout, chip: Chip, irq: Option<Vector>, device: Word)
    requires Settled(c, m, lay) && 5 <= c.ps.Count() <= 15 && 5 <= c.rs.Count() <= 15 && OneCycle(c)
    requires c.state.TExec? && c.rcache && c.pcache && c.actualie == Ie(c.psw)
    requires var w := WriteBack(ExecCycle(c, m, chip, irq, device)); Settled(w, m, lay) && Fits(AbsOf(w, m, lay), lay)
    ensures Inv(ExecCycle(c, m, chip, irq, device), m, lay)
  {
    var a := ExecPhia(c);
    var e := ExecCycle(c, m, chip, irq, device);
    ExecShape(c, m, chip, irq, device);
    ExecWriteback(c, m, chip, irq, device);
    var v := if c.ir.kind.Micro? && c.ir.shift then e.barrelout else e.aluout;
    WriteKeepsMarks(e, Destination(c.ir), v);
    assert Nextstate(a, irq) == Boundary(a, irq);
    hide ExecCycle, ExecPhia, AluOf, Answer, WriteReg, WriteBack, AbsOf, Settled, Stk.Get, Boundary, Nextstate,
      Sc32.Cleanup, Tor;
    BoundaryInv(a, irq, e, m, lay);
  }

  /** The state in which the next cycle does its work. */
  lemma StartInOrder(d: Dp, m: Main, lay: Layout)
    requires Inv(d, m, lay)
    ensures var c := Start(d);
            && Settled(c, m, lay) && AbsOf(c, m, lay) == Abs(d, m, lay) && NextFits(c) && Fits(Abs(d, m, lay), lay)
            && Tor(c) == c.rs.Get(0) && c.rcache && c.pcache && c.actualie == Ie(c.psw)
            && c.state == c.next == d.next
  {
    hide WriteReg, Logical, Placed, Stk.Get, Stk.Count, Ie;
    assert Tor(Start(d)) == Tor(d);
  }

  /** An instruction without a data access: one cycle executes it. */
  lemma InstructionStep(d: Dp, m: Main, lay: Layout, chip: Chip, irq: Option<Vector>, device: Word, data: Word)
    requires Inv(d, m, lay) && d.next.TExec? && OneCycle(Start(d))
    ensures var (d1, m1) := FlatCycle(d, m, chip, irq, device);
            var i := Abs(d, m, lay);
            var env := EnvOf(Start(d), device, data);
            && m1 == m && Advance(i, m, chip, env).Valid() && Isa.Memory(i, m, chip, env) == m
            && (Fits(Execute(i, m, chip, env), lay) ==>
                  Inv(d1, m1, lay) && Abs(d1, m1, lay) == Execute(i, m, chip, env))
  {
    StartInOrder(d, m, lay);
    FlatExec(d, m, chip, irq, device);
    var c := Start(d);
    assert Isa.IsStore(c.ir) == false;
    hide Start, FlatCycle, ExecCycle, WriteBack, Fits, Execute, Advance, EnvOf, Settled;
    ExecResult(c, m, lay, chip, irq, device, data);
    if Fits(Execute(Abs(d, m, lay), m, chip, EnvOf(c, device, data)), lay) {
      ExecEnds(c, m, lay, chip, irq, device);
    }
  }

  // Instructions with a data access

  /** A cycle whose pending write-back is none starts from the registers as they stand. */
  lemma NothingPending(d: Dp, m: Main, lay: Layout)
    requires d.Valid() && d.writeback.Nop?
    ensures WriteBack(d) == d && Start(d) == d.(state := d.next)
    ensures Settled(d, m, lay) ==> Settled(Start(d), m, lay) && AbsOf(Start(d), m, lay) == AbsOf(d, m, lay)
  {
    hide Logical;
  }

  function LoadCycle(c: Dp, m: Main, irq: Option<Vector>, device: Word): Dp
    requires c.Valid() && m.Valid()
  {
    var a := Nextstate(LoadPhia(c), irq);
    LoadPhib(a, Answer(m, Presented(a, device)))
  }

  lemma LoadResult(c: Dp, m: Main, lay: Layout, irq: Option<Vector>, device: Word)
    requires Settled(c, m, lay) && c.state.TLoad?
    ensures var l := LoadCycle(c, m, irq, device);
            var v := Loaded(m, c.oldir, c.aluout, device);
            && l == LoadPhia(c).(next := l.next, intvector := l.intvector, dhold := v, dbus := l.dbus,
                                 writeback := LoadWriteback, hold := c.rs.Get(0), tor := l.tor)
            && l.next == Boundary(LoadPhia(c), irq).next
            && WriteBack(l) == WriteReg(l, c.oldir.reg2, v) && Tor(l) == WriteBack(l).rs.Get(0)
  {
    var a := Nextstate(LoadPhia(c), irq);
    var l := LoadCycle(c, m, irq, device);
    assert Presented(a, device) == LoadOf(c.oldir, c.aluout, device);
    WriteKeepsMarks(l, c.oldir.reg2, l.dhold);
    hide Nextstate, Boundary, Answer, WriteReg, Stk.Get, ByteAt;
  }

  lemma {:induction false} InvValid(d: Dp, m: Main, lay: Layout)
    requires Inv(d, m, lay)
    ensures d.Valid() && m.Valid() && Abs(d, m, lay).Valid()
  {
    hide WriteBack, Start, Logical;
  }

  /** The cycle that follows an execute cycle which ends no instruction. */
  lemma {:induction false} AccessFollows(c: Dp, m: Main, chip: Chip, irq: Option<Vector>, device: Word)
    requires c.Valid() && m.Valid() && c.state.TExec? && !OneCycle(c)
    ensures var e := ExecCycle(c, m, chip, irq, device);
            && e.writeback.Nop? && e.oldir == c.ir && e.rcache == c.rcache && e.pcache == c.pcache
            && e.actualie == c.actualie && e.psw == c.psw
            && e.next == if Squashes(c) then TSquash else if IsStore(c.ir) then TStore else TLoad
  {
    ExecShape(c, m, chip, irq, device);
    hide ExecCycle, AluOf, Answer, ExecPhia, Boundary, Plus;
  }

  lemma {:induction false} LoadExecutes(i: Machine, m: Main, chip: Chip, env: Env)
    requires i.Valid() && m.Valid() && Advance(i, m, chip, env).Valid() && (i.ir.kind.Load? || i.ir.kind.LoadByte?)
    ensures Isa.Memory(i, m, chip, env) == m
    ensures Execute(i, m, chip, env)
         == Advance(i, m, chip, env).Set(i.ir.reg2, Loaded(m, i.ir, Operands(i, chip).result, env.data))
  {
    hide Advance, Operands, Loaded, Machine.Set;
  }

  /** What the data cycle starts from. */
  lemma {:induction false} AfterExec(e: Dp, m: Main, lay: Layout)
    requires e.Valid() && e.writeback.Nop? && Settled(e, m, lay)
    ensures var x := Start(e);
            && Settled(x, m, lay) && AbsOf(x, m, lay) == AbsOf(e, m, lay) && x.state == e.next && x.oldir == e.oldir
            && x.aluout == e.aluout && x.rcache == e.rcache && x.pcache == e.pcache && x.actualie == e.actualie
            && x.psw == e.psw && x.writeback.Nop?
  {
    NothingPending(e, m, lay);
    hide Logical, Settled, AbsOf, WriteBack, Start;
  }

  lemma {:induction false} EnvIs(c: Dp, fetch: Word, data: Word)
    requires c.Valid()
    ensures EnvOf(c, fetch, data).data == data
  {
    hide StackMove, Stk.Get;
  }

  lemma {:induction false} AbsIs(c: Dp, m: Main, lay: Layout)
    requires Settled(c, m, lay)
    ensures var i := AbsOf(c, m, lay); i.ir == c.ir && i.psw == c.psw && i.flag == c.flag && c.Valid() && m.Valid()
  {
    hide Logical;
  }

  /** Between instructions there is room for a push and a pop on either stack. */
  lemma {:induction false} RoomToExecute(c: Dp)
    requires c.next.TExec? && NextFits(c)
    ensures 5 <= c.ps.Count() <= 15 && 5 <= c.rs.Count() <= 15
  {
  }

  /** A load: the execute cycle computes the address, the next one brings the word or byte. */
  lemma LoadStep(d: Dp, m: Main, lay: Layout, chip: Chip, irq1: Option<Vector>, device: Word, irq2: Option<Vector>, data: Word)
    requires Inv(d, m, lay) && d.next.TExec? && (Start(d).ir.kind.Load? || Start(d).ir.kind.LoadByte?)
    ensures var (d1, m1) := FlatCycle(d, m, chip, irq1, device);
            var (d2, m2) := FlatCycle(d1, m1, chip, irq2, data);
            var i := Abs(d, m, lay);
            var env := EnvOf(Start(d), device, data);
            && m2 == m && Advance(i, m, chip, env).Valid() && Isa.Memory(i, m, chip, env) == m
            && (Fits(Execute(i, m, chip, env), lay) ==>
                  Inv(d2, m2, lay) && Abs(d2, m2, lay) == Execute(i, m, chip, env))
  {
    hide *;
    InvValid(d, m, lay);
    StartInOrder(d, m, lay);
    FlatExec(d, m, chip, irq1, device);
    var c := Start(d);
    var e := ExecCycle(c, m, chip, irq1, device);
    AbsIs(c, m, lay);
    RoomToExecute(c);
    TwoCycles(c);
    EnvIs(c, device, data);
    ExecAdvances(c, m, lay, chip, irq1, device, data);
    AccessFollows(c, m, chip, irq1, device);
    AfterExec(e, m, lay);
    LoadExecutes(AbsOf(c, m, lay), m, chip, EnvOf(c, device, data));
    LoadEnds(Start(e), m, lay, irq2, data);
    LoadLeaves(LoadCycle(Start(e), m, irq2, data), m, lay);
    FlatLoad(e, m, chip, irq2, data);
  }

  lemma {:induction false} LoadLeaves(l: Dp, m: Main, lay: Layout)
    ensures Inv(l, m, lay) ==> Settled(WriteBack(l), m, lay) && Abs(l, m, lay) == AbsOf(WriteBack(l), m, lay)
  {
    hide Settled, AbsOf, WriteBack, Tor;
  }

  lemma {:induction false} TwoCycles(c: Dp)
    ensures IsStore(c.ir) || c.ir.kind.Load? || c.ir.kind.LoadByte? || Squashes(c) ==> !OneCycle(c)
    ensures c.ir.kind.Load? || c.ir.kind.LoadByte? ==> !IsStore(c.ir)
    ensures c.ir.kind.Load? || c.ir.kind.LoadByte? || IsStore(c.ir) ==> !Squashes(c) && !c.ir.kind.Flow?
    ensures Squashes(c) ==> !IsStore(c.ir) && c.ir.kind.Flow? && c.ir.brtype.QBranch? && c.flag
  {
  }

  lemma FlatLoad(d: Dp, m: Main, chip: Chip, irq: Option<Vector>, device: Word)
    requires d.Valid() && m.Valid() && d.next.TLoad?
    ensures FlatCycle(d, m, chip, irq, device) == (LoadCycle(Start(d), m, irq, device), m)
  {
    hide WriteBack, Nextstate, Answer;
  }

  /** The load cycle writes its register over the registers the execute cycle left. */
  lemma LoadEnds(c: Dp, m: Main, lay: Layout, irq: Option<Vector>, device: Word)
    requires Settled(c, m, lay) && c.state.TLoad? && c.rcache && c.pcache && c.actualie == Ie(c.psw)
    ensures var l := LoadCycle(c, m, irq, device);
            var j := AbsOf(c, m, lay).Set(c.oldir.reg2, Loaded(m, c.oldir, c.aluout, device));
            && l.Valid() && Settled(WriteBack(l), m, lay) && AbsOf(WriteBack(l), m, lay) == j
            && (Fits(j, lay) ==> Inv(l, m, lay))
  {
    var l := LoadCycle(c, m, irq, device);
    var v := Loaded(m, c.oldir, c.aluout, device);
    LoadResult(c, m, lay, irq, device);
    hide LoadCycle, Loaded, WriteBack, Logical, Boundary, Nextstate;
    assert Settled(l, m, lay) && AbsOf(l, m, lay) == AbsOf(c, m, lay);
    WriteAbs(l, m, lay, c.oldir.reg2, v);
    WriteKeepsMarks(l, c.oldir.reg2, v);
    hide WriteReg, Settled, AbsOf, Stk.Get, Tor;
    if Fits(AbsOf(c, m, lay).Set(c.oldir.reg2, v), lay) {
      BoundaryInv(LoadPhia(c), irq, l, m, lay);
    }
  }

  function StoreCycle(c: Dp, m: Main, irq: Option<Vector>, device: Word): (Dp, Main)
    requires c.Valid() && m.Valid()
  {
    var a := Nextstate(StorePhia(c), irq);
    (HoldPhib(a, Nop).(dhold := a.dbus), Apply(m, Presented(a, device)))
  }

  lemma FlatStore(d: Dp, m: Main, chip: Chip, irq: Option<Vector>, device: Word)
    requires d.Valid() && m.Valid() && d.next.TStore?
    ensures FlatCycle(d, m, chip, irq, device) == StoreCycle(Start(d), m, irq, device)
  {
    hide WriteBack, Nextstate, Answer, Apply, ReadReg;
  }

  /** A request outside the reserved areas leaves both stacks as they are. */
  lemma ApplyKeepsStacks(d: Dp, m: Main, lay: Layout, r: Request)
    requires Settled(d, m, lay) && (!r.read && m.Covers(r.abus) ==> !lay.Reserves(r.abus))
    ensures Settled(d, Apply(m, r), lay) && AbsOf(d, Apply(m, r), lay) == AbsOf(d, m, lay)
  {
    hide Logical, Main.Fetch, Main.Store;
    if !r.read && m.Covers(r.abus) {
      var v := if r.bytemode then PutByte(m.Fetch(r.abus), r.abus % 4, r.data % 256) else r.data;
      assert Apply(m, r) == m.Store(r.abus, v);
      StoreKeepsLogical(d.ps, m, lay.p, r.abus, v);
      StoreKeepsLogical(d.rs, m, lay.r, r.abus, v);
    }
  }

  lemma StoreEnds(c: Dp, m: Main, lay: Layout, irq: Option<Vector>, device: Word)
    requires Settled(c, m, lay) && c.state.TStore? && IsStore(c.oldir)
    requires c.rcache && c.pcache && c.actualie == Ie(c.psw) && c.writeback.Nop? && Fits(AbsOf(c, m, lay), lay)
    requires m.Covers(c.aluout) ==> !lay.Reserves(c.aluout)
    ensures var (s, m1) := StoreCycle(c, m, irq, device);
            && m1 == Apply(m, StoreOf(AbsOf(c, m, lay), c.oldir, c.aluout, device))
            && Inv(s, m1, lay) && Abs(s, m1, lay) == AbsOf(c, m, lay)
  {
    var a := Nextstate(StorePhia(c), irq);
    var (s, m1) := StoreCycle(c, m, irq, device);
    ReadAbs(c, m, lay, c.oldir.reg2);
    PlusMinus(c.pc);
    hide Nextstate, Apply, ReadReg, Logical, Machine.Get, Plus, Minus, Spread, Settled;
    var r := Presented(a, device);
    assert r == StoreOf(AbsOf(c, m, lay), c.oldir, c.aluout, device);
    assert !r.read && r.abus == c.aluout;
    ApplyKeepsStacks(c, m, lay, r);
    StoreLeaves(c, m1, lay, irq, device, s);
  }

  lemma StoreLeaves(c: Dp, m1: Main, lay: Layout, irq: Option<Vector>, device: Word, s: Dp)
    requires Settled(c, m1, lay) && c.state.TStore?
    requires c.rcache && c.pcache && c.actualie == Ie(c.psw) && Fits(AbsOf(c, m1, lay), lay)
    requires var a := Nextstate(StorePhia(c), irq); s == HoldPhib(a, Nop).(dhold := a.dbus)
    ensures Inv(s, m1, lay) && Abs(s, m1, lay) == AbsOf(c, m1, lay)
  {
    hide ReadReg, Logical, Stk.Get;
    NothingPending(s, m1, lay);
    assert Settled(s, m1, lay) && AbsOf(s, m1, lay) == AbsOf(c, m1, lay);
    var a := StorePhia(c);
    assert Nextstate(a, irq) == Boundary(a, irq);
    hide WriteBack, Settled, AbsOf, Boundary, Nextstate;
    BoundaryInv(a, irq, s, m1, lay);
  }

  /** A store: the execute cycle computes the address, the next one stores the word or byte. */
  lemma StoreStep(d: Dp, m: Main, lay: Layout, chip: Chip, irq1: Option<Vector>, device: Word, irq2: Option<Vector>, data: Word)
    requires Inv(d, m, lay) && d.next.TExec? && IsStore(Start(d).ir)
    ensures var (d1, m1) := FlatCycle(d, m, chip, irq1, device);
            var (d2, m2) := FlatCycle(d1, m1, chip, irq2, data);
            var i := Abs(d, m, lay);
            var env := EnvOf(Start(d), device, data);
            var a := Operands(i, chip).result;
            && Advance(i, m, chip, env).Valid() && m2 == Isa.Memory(i, m, chip, env)
            && (Fits(Execute(i, m, chip, env), lay) && (m.Covers(a) ==> !lay.Reserves(a)) ==>
                  Inv(d2, m2, lay) && Abs(d2, m2, lay) == Execute(i, m, chip, env))
  {
    hide *;
    InvValid(d, m, lay);
    StartInOrder(d, m, lay);
    FlatExec(d, m, chip, irq1, device);
    var c := Start(d);
    var e := ExecCycle(c, m, chip, irq1, device);
    var i := Abs(d, m, lay);
    AbsIs(c, m, lay);
    RoomToExecute(c);
    TwoCycles(c);
    EnvIs(c, device, data);
    ExecAdvances(c, m, lay, chip, irq1, device, data);
    AccessFollows(c, m, chip, irq1, device);
    AfterExec(e, m, lay);
    FlatStore(e, m, chip, irq2, data);
    StoreExecutes(i, m, chip, EnvOf(c, device, data));
    StoreRequest(Start(e), m, lay, irq2, data);
    if Fits(Execute(i, m, chip, EnvOf(c, device, data)), lay) && (m.Covers(e.aluout) ==> !lay.Reserves(e.aluout)) {
      AbsIs(e, m, lay);
      StoreEnds(Start(e), m, lay, irq2, data);
    }
  }

  lemma {:induction false} StoreExecutes(i: Machine, m: Main, chip: Chip, env: Env)
    requires i.Valid() && m.Valid() && Advance(i, m, chip, env).Valid() && IsStore(i.ir)
    ensures Execute(i, m, chip, env) == Advance(i, m, chip, env)
    ensures Isa.Memory(i, m, chip, env)
         == Apply(m, StoreOf(Advance(i, m, chip, env), i.ir, Operands(i, chip).result, env.data))
  {
    hide Advance, Operands, Apply, StoreOf;
  }

  lemma StoreRequest(c: Dp, m: Main, lay: Layout, irq: Option<Vector>, device: Word)
    requires Settled(c, m, lay) && IsStore(c.oldir)
    ensures StoreCycle(c, m, irq, device).1 == Apply(m, StoreOf(AbsOf(c, m, lay), c.oldir, c.aluout, device))
  {
    ReadAbs(c, m, lay, c.oldir.reg2);
    PlusMinus(c.pc);
    hide Nextstate, Apply, ReadReg, Logical, Machine.Get, Plus, Minus, Spread;
  }

  // Mispredicted branches and interrupts

  function SquashCycle(c: Dp, m: Main, chip: Chip, irq: Option<Vector>, device: Word): Dp
    requires c.Valid() && m.Valid()
  {
    var a := Nextstate(SquashPhia(c), irq);
    SquashPhib(a, chip, Answer(m, Presented(a, device)))
  }

  lemma FlatSquash(d: Dp, m: Main, chip: Chip, irq: Option<Vector>, device: Word)
    requires d.Valid() && m.Valid() && d.next.TSquash?
    ensures FlatCycle(d, m, chip, irq, device) == (SquashCycle(Start(d), m, chip, irq, device), m)
  {
    hide WriteBack, Nextstate, Answer;
  }

  lemma SquashShape(c: Dp, m: Main, lay: Layout, chip: Chip, irq: Option<Vector>, device: Word)
    requires Settled(c, m, lay) && c.state.TSquash? && c.rcache && c.pcache && c.actualie == Ie(c.psw)
    requires Fits(AbsOf(c, m, lay), lay)
    ensures var q := SquashCycle(c, m, chip, irq, device);
            && Inv(q, m, lay)
            && Abs(q, m, lay) == AbsOf(c, m, lay).(at := c.aluout,
                 ir := chip.decode(Answer(m, Request(c.aluout, true, false, 0, device))))
  {
    var a := SquashPhia(c);
    var q := SquashCycle(c, m, chip, irq, device);
    PlusMinus(c.aluout);
    assert Nextstate(a, irq) == Boundary(a, irq);
    hide Logical, Stk.Get, Answer, Boundary, Nextstate;
    NothingPending(q, m, lay);
    assert Settled(q, m, lay);
    assert AbsOf(q, m, lay) == AbsOf(c, m, lay).(at := c.aluout,
                 ir := chip.decode(Answer(m, Request(c.aluout, true, false, 0, device))));
    hide WriteBack, Settled, AbsOf;
    BoundaryInv(a, irq, q, m, lay);
  }

  /** A conditional branch predicted taken that falls through: the fetched target is squashed
      and control continues at the instruction after the branch. */
  lemma SquashStep(d: Dp, m: Main, lay: Layout, chip: Chip, irq1: Option<Vector>, device1: Word, irq2: Option<Vector>, device2: Word)
    requires Inv(d, m, lay) && d.next.TExec? && Squashes(Start(d))
    ensures var (d1, m1) := FlatCycle(d, m, chip, irq1, device1);
            var (d2, m2) := FlatCycle(d1, m1, chip, irq2, device2);
            var i := Abs(d, m, lay);
            var env := EnvOf(Start(d), device2, 0);
            && m2 == m && Advance(i, m, chip, env).Valid() && Isa.Memory(i, m, chip, env) == m
            && Inv(d2, m2, lay) && Abs(d2, m2, lay) == Execute(i, m, chip, env)
  {
    hide *;
    InvValid(d, m, lay);
    StartInOrder(d, m, lay);
    FlatExec(d, m, chip, irq1, device1);
    var c := Start(d);
    var e := ExecCycle(c, m, chip, irq1, device1);
    AbsIs(c, m, lay);
    RoomToExecute(c);
    TwoCycles(c);
    EnvIs(c, device2, 0);
    ExecReturnAddress(c, m, lay, chip, irq1, device1);
    AccessFollows(c, m, chip, irq1, device1);
    BranchKeeps(c, m, lay, chip, irq1, device1);
    AfterExec(e, m, lay);
    FlatSquash(e, m, chip, irq2, device2);
    var i := Abs(d, m, lay);
    FitsAt(i, AbsOf(e, m, lay), lay);
    SquashShape(Start(e), m, lay, chip, irq2, device2);
    FallsThrough(i, m, chip, EnvOf(c, device2, 0));
    EnvFetch(c, device2, 0);
    SquashIs(AbsOf(e, m, lay), i, e.aluout, chip.decode(Answer(m, Request(e.aluout, true, false, 0, device2))));
  }

  lemma {:induction false} EnvFetch(c: Dp, fetch: Word, data: Word)
    requires c.Valid()
    ensures EnvOf(c, fetch, data).fetch == fetch
  {
    hide StackMove, Stk.Get;
  }

  lemma {:induction false} SquashIs(x: Machine, i: Machine, at: Word, ir: Instr)
    requires x == i.(at := x.at, ir := x.ir)
    ensures x.(at := at, ir := ir) == i.(at := at, ir := ir)
  {
  }

  lemma {:induction false} FitsAt(i: Machine, x: Machine, lay: Layout)
    requires x == i.(at := x.at, ir := x.ir) && Fits(i, lay)
    ensures Fits(x, lay)
  {
  }

  /** A branch that falls through only moves on to the next instruction. */
  lemma {:induction false} FallsThrough(i: Machine, m: Main, chip: Chip, env: Env)
    requires i.Valid() && m.Valid() && i.ir.kind.Flow? && i.ir.brtype.QBranch? && i.flag
    ensures Advance(i, m, chip, env).Valid() && Isa.Memory(i, m, chip, env) == m
    ensures var t := Plus(i.at, 4);
            Execute(i, m, chip, env) == i.(at := t, ir := chip.decode(Answer(m, Request(t, true, false, 0, env.fetch))))
  {
    hide Answer, Plus, OperandB, OperandT;
  }

  /** The execute cycle of a branch leaves the registers alone. */
  lemma {:induction false} BranchKeeps(c: Dp, m: Main, lay: Layout, chip: Chip, irq: Option<Vector>, device: Word)
    requires Settled(c, m, lay) && 5 <= c.ps.Count() <= 15 && 5 <= c.rs.Count() <= 15 && Squashes(c)
    ensures var e := ExecCycle(c, m, chip, irq, device);
            && e.Valid() && Settled(e, m, lay) && c.flag
            && AbsOf(e, m, lay) == AbsOf(c, m, lay).(at := AbsOf(e, m, lay).at, ir := AbsOf(e, m, lay).ir)
  {
    ExecShape(c, m, chip, irq, device);
    ExecStacks(c, m, lay);
    hide ExecCycle, ExecPhia, Logical, Stk.Get, Stk.Count, Placed, Nextstate, Sc32.Cleanup, Answer, Plus, Minus,
      Layout.Valid;
  }

  function IntCycle(c: Dp, m: Main, chip: Chip, irq: Option<Vector>, device: Word): Dp
    requires c.Valid() && m.Valid()
  {
    var a := Nextstate(IntPhia(c), irq);
    IntPhib(a, chip, Answer(m, Presented(a, device)))
  }

  lemma FlatInt(d: Dp, m: Main, chip: Chip, irq: Option<Vector>, device: Word)
    requires d.Valid() && m.Valid() && d.next.TInt?
    ensures FlatCycle(d, m, chip, irq, device) == (IntCycle(Start(d), m, chip, irq, device), m)
  {
    hide WriteBack, Nextstate, Answer;
  }

  lemma IntShape(c: Dp, m: Main, lay: Layout, chip: Chip, irq: Option<Vector>, device: Word)
    requires Settled(c, m, lay) && c.state.TInt? && 5 <= c.rs.Count() <= 15
    ensures var q := IntCycle(c, m, chip, irq, device);
            var t := Wrap(c.intvector * 4);
            && q.rs == c.rs.PushTop() && q.ps == c.ps && q.udr == c.udr && q.psw == ClearIe(c.psw)
            && q.y == c.y && q.flag == c.flag && !q.actualie && q.rcache == c.rcache && q.pcache == c.pcache
            && q.pc == Plus(t, 4) && q.ir == chip.decode(Answer(m, Request(t, true, false, 0, device)))
            && WriteBack(q) == WriteReg(q, R(0), Minus(c.pc, 4)) && q.next == Boundary(IntPhia(c), irq).next
            && Tor(q) == Minus(c.pc, 4)
            && Settled(q, m, lay)
            && Logical(q.rs, m, lay.r) == [q.rs.Get(0)] + Logical(c.rs, m, lay.r)
  {
    PushIsLogical(c.rs, m, lay.r);
    hide Logical, Stk.Get, Answer, Boundary, ClearIe, WriteReg, Placed;
  }

  /** Taking an interrupt pushes the address of the first instruction not yet executed, and is
      possible only while the program has interrupts enabled. */
  lemma InterruptStep(d: Dp, m: Main, lay: Layout, chip: Chip, irq: Option<Vector>, device: Word)
    requires Inv(d, m, lay) && d.next.TInt?
    ensures var (d1, m1) := FlatCycle(d, m, chip, irq, device);
            var i := Abs(d, m, lay);
            var j := Interrupt(i, m, chip, d.intvector, device);
            && m1 == m && Ie(i.psw) && (Fits(j, lay) ==> Inv(d1, m1, lay) && Abs(d1, m1, lay) == j)
  {
    StartInOrder(d, m, lay);
    FlatInt(d, m, chip, irq, device);
    var c := Start(d);
    var i := Abs(d, m, lay);
    assert Ie(i.psw) by {
      assert AbsOf(c, m, lay).psw == c.psw;
    }
    assert c.intvector == d.intvector by {
      hide Stk.Put;
    }
    IntShape(c, m, lay, chip, irq, device);
    hide Start, FlatCycle, IntCycle, WriteBack, Logical, Stk.Get, Stk.Count, Placed, Abs, Inv, Answer, Ie, ClearIe,
      Boundary;
    IntEnds(c, m, lay, chip, irq, device);
  }

  lemma IntAbs(c: Dp, m: Main, lay: Layout, chip: Chip, irq: Option<Vector>, device: Word)
    requires Settled(c, m, lay) && c.state.TInt? && 5 <= c.rs.Count() <= 15
    ensures var q := IntCycle(c, m, chip, irq, device);
            && q.Valid() && Settled(q, m, lay)
            && AbsOf(q, m, lay).Set(R(0), Minus(c.pc, 4)) ==
               Interrupt(AbsOf(c, m, lay), m, chip, c.intvector, device)
  {
    IntShape(c, m, lay, chip, irq, device);
    var q := IntCycle(c, m, chip, irq, device);
    var i := AbsOf(c, m, lay);
    PlusMinus(Wrap(c.intvector * 4));
    WriteOverPush(i.rs, q.rs.Get(0), i.at);
    hide IntCycle, WriteBack, WriteReg, Logical, Stk.Get, Stk.Count, Placed, Answer, Boundary, Minus, Plus, Ie,
      ClearIe, Wrap;
    var x := AbsOf(q, m, lay);
    assert x.rs == [q.rs.Get(0)] + i.rs;
    assert x.ps == i.ps;
    assert x.at == Wrap(c.intvector * 4);
  }

  lemma ClearedIe(psw: Word)
    ensures !Ie(ClearIe(psw))
  {
  }

  /** What the interrupt cycle decides its next cycle from. */
  lemma IntMarks(c: Dp)
    requires c.Valid() && c.rcache && c.pcache
    ensures var a := IntPhia(c);
            a.Valid() && !a.actualie && a.ps == c.ps && a.rs == c.rs.PushTop() && a.rcache && a.pcache
  {
    hide ClearIe;
  }

  lemma IntEnds(c: Dp, m: Main, lay: Layout, chip: Chip, irq: Option<Vector>, device: Word)
    requires Settled(c, m, lay) && c.state.TInt? && 5 <= c.rs.Count() <= 15 && c.rcache && c.pcache
    ensures var q := IntCycle(c, m, chip, irq, device);
            var j := Interrupt(AbsOf(c, m, lay), m, chip, c.intvector, device);
            Fits(j, lay) ==> Inv(q, m, lay) && Abs(q, m, lay) == j
  {
    var q := IntCycle(c, m, chip, irq, device);
    var a := IntPhia(c);
    var w := WriteReg(q, R(0), Minus(c.pc, 4));
    assert c.Valid();
    IntMarks(c);
    hide IntCycle, IntPhia, WriteBack, WriteReg, Logical, Stk.Get, Stk.Count, Placed, Answer, Boundary, Minus,
      Wrap, Ie, ClearIe,
      AbsOf, Settled, Interrupt, Tor, Stk.PushTop;
    IntShape(c, m, lay, chip, irq, device);
    IntAbs(c, m, lay, chip, irq, device);
    WriteAbs(q, m, lay, R(0), Minus(c.pc, 4));
    WriteKeepsMarks(q, R(0), Minus(c.pc, 4));
    ClearedIe(c.psw);
    if Fits(Interrupt(AbsOf(c, m, lay), m, chip, c.intvector, device), lay) {
      BoundaryInv(a, irq, q, m, lay);
    }
  }

  // Spills and fills

  function ROverCycle1(c: Dp, m: Main, irq: Option<Vector>, device: Word): Dp
    requires c.Valid() && m.Valid()
  {
    var a := Nextstate(MarkPhia(c, c.rs.ext), irq);
    var v := Answer(m, Presented(a, device));
    HoldPhib(a, Nop).(rs := RoverStep(a.rs), aluout := Minus(a.bbus, a.tbus), dhold := v, dbus := v)
  }

  function ROverCycle2(c: Dp, m: Main, irq: Option<Vector>, device: Word): (Dp, Main)
    requires c.Valid() && m.Valid()
  {
    var a := Nextstate(ROver2Phia(c), irq);
    (HoldPhib(a, Nop).(dhold := a.dbus), Apply(m, Presented(a, device)))
  }

  lemma FlatROver(d: Dp, m: Main, chip: Chip, irq: Option<Vector>, device: Word)
    requires d.Valid() && m.Valid()
    ensures d.next.TROver1? ==> FlatCycle(d, m, chip, irq, device) == (ROverCycle1(Start(d), m, irq, device), m)
    ensures d.next.TROver2? ==> FlatCycle(d, m, chip, irq, device) == ROverCycle2(Start(d), m, irq, device)
  {
    hide WriteBack, Nextstate, Answer, Minus, Stk.Get;
  }

  /** Between the two cycles of a spill only the markers have moved. */
  lemma ROverShape(c: Dp, m: Main, irq1: Option<Vector>, device1: Word, irq2: Option<Vector>, device2: Word)
    requires c.Valid() && m.Valid() && c.state.TROver1?
    ensures var d1 := ROverCycle1(c, m, irq1, device1);
            var a := ROver2Phia(Start(d1));
            var (d2, m2) := ROverCycle2(Start(d1), m, irq2, device2);
            var e := Minus(c.rs.ext, 4);
            && d1.Valid() && d1.next.TROver2? && a.rs == d2.rs == RoverStep(c.rs).(ext := e) && a.ps == d2.ps == c.ps
            && m2 == Apply(m, Request(e, false, false, c.rs.buf[Inc(c.rs.top)], device2))
            && d2.next == Boundary(a, irq2).next && d2.writeback.Nop? && Tor(d2) == d2.rs.Get(0)
            && (d2.psw, d2.y, d2.flag, d2.udr, d2.pc, d2.ir) == (c.psw, c.y, c.flag, c.udr, c.pc, c.ir)
            && (d2.actualie, d2.rcache, d2.pcache) == (c.actualie, c.rcache, c.pcache)
            && (a.actualie, a.rcache, a.pcache) == (c.actualie, c.rcache, c.pcache)
  {
    hide Boundary, Answer, Apply, Stk.Get;
  }

  function POverCycle1(c: Dp, m: Main, irq: Option<Vector>, device: Word): Dp
    requires c.Valid() && m.Valid()
  {
    var a := Nextstate(MarkPhia(c, c.ps.ext), irq);
    var v := Answer(m, Presented(a, device));
    HoldPhib(a, Nop).(ps := RoverStep(a.ps), aluout := Minus(a.bbus, a.tbus), dhold := v, dbus := v)
  }

  function POverCycle2(c: Dp, m: Main, irq: Option<Vector>, device: Word): (Dp, Main)
    requires c.Valid() && m.Valid()
  {
    var a := Nextstate(POver2Phia(c), irq);
    (HoldPhib(a, Nop).(dhold := a.dbus), Apply(m, Presented(a, device)))
  }

  lemma FlatPOver(d: Dp, m: Main, chip: Chip, irq: Option<Vector>, device: Word)
    requires d.Valid() && m.Valid()
    ensures d.next.TPOver1? ==> FlatCycle(d, m, chip, irq, device) == (POverCycle1(Start(d), m, irq, device), m)
    ensures d.next.TPOver2? ==> FlatCycle(d, m, chip, irq, device) == POverCycle2(Start(d), m, irq, device)
  {
    hide WriteBack, Nextstate, Answer, Minus, Stk.Get;
  }

  /** Between the two cycles of a spill only the markers have moved. */
  lemma POverShape(c: Dp, m: Main, irq1: Option<Vector>, device1: Word, irq2: Option<Vector>, device2: Word)
    requires c.Valid() && m.Valid() && c.state.TPOver1?
    ensures var d1 := POverCycle1(c, m, irq1, device1);
            var a := POver2Phia(Start(d1));
            var (d2, m2) := POverCycle2(Start(d1), m, irq2, device2);
            var e := Minus(c.ps.ext, 4);
            && d1.Valid() && d1.next.TPOver2? && a.ps == d2.ps == RoverStep(c.ps).(ext := e) && a.rs == d2.rs == c.rs
            && m2 == Apply(m, Request(e, false, false, c.ps.buf[Inc(c.ps.top)], device2))
            && d2.next == Boundary(a, irq2).next && d2.writeback.Nop? && Tor(d2) == d2.rs.Get(0)
            && (d2.psw, d2.y, d2.flag, d2.udr, d2.pc, d2.ir) == (c.psw, c.y, c.flag, c.udr, c.pc, c.ir)
            && (d2.actualie, d2.rcache, d2.pcache) == (c.actualie, c.rcache, c.pcache)
            && (a.actualie, a.rcache, a.pcache) == (c.actualie, c.rcache, c.pcache)
  {
    hide Boundary, Answer, Apply, Stk.Get;
  }

  lemma RSpillMemory(c: Dp, m: Main, lay: Layout, device: Word)
    requires Settled(c, m, lay) && Fits(AbsOf(c, m, lay), lay) && c.rs.Count() == SIZE
    ensures c.rs.top == c.rs.over && c.rs.ext >= 4 && m.Covers(c.rs.ext - 4) && lay.r.Contains(c.rs.ext - 4)
    ensures var v := c.rs.buf[Inc(c.rs.top)];
            var m2 := m.Store(c.rs.ext - 4, v);
            && lay.Valid(m2) && Placed(Spilled(c.rs), lay.r)
            && Logical(Spilled(c.rs), m2, lay.r) == Logical(c.rs, m, lay.r)
            && Logical(c.ps, m2, lay.p) == Logical(c.ps, m, lay.p)
            && RoverStep(c.rs).(ext := Minus(c.rs.ext, 4)) == Spilled(c.rs) && Minus(c.rs.ext, 4) == c.rs.ext - 4
            && m2 == Apply(m, Request(c.rs.ext - 4, false, false, v, device))
  {
    hide Logical, Main.Store, Stk.Get;
    SpillKeepsLogical(c.rs, m, lay.r);
    StoreKeepsLogical(c.ps, m, lay.p, c.rs.ext - 4, c.rs.buf[Inc(c.rs.top)]);
  }

  lemma {:induction false} SpillStarts(d: Dp, m: Main, lay: Layout)
    requires Inv(d, m, lay) && (d.next.TROver1? || d.next.TPOver1?)
    ensures var c := Start(d);
            && d.Valid() && m.Valid() && c.Valid() && c.state == d.next && Settled(c, m, lay)
            && AbsOf(c, m, lay) == Abs(d, m, lay) && Fits(AbsOf(c, m, lay), lay)
            && c.rcache && c.pcache && c.actualie == Ie(c.psw)
            && (d.next.TROver1? ==> c.rs.Count() == SIZE) && (d.next.TPOver1? ==> c.ps.Count() == SIZE)
  {
    StartInOrder(d, m, lay);
    hide Start, WriteBack, Logical, Stk.Get, Placed, Ie;
  }

  /** Two cycles spill the oldest entry of the return stack: only reserved memory changes. */
  lemma RSpill(d: Dp, m: Main, lay: Layout, chip: Chip, irq1: Option<Vector>, device1: Word, irq2: Option<Vector>, device2: Word)
    requires Inv(d, m, lay) && d.next.TROver1?
    ensures var (d1, m1) := FlatCycle(d, m, chip, irq1, device1);
            var (d2, m2) := FlatCycle(d1, m1, chip, irq2, device2);
            var a := Start(d).rs.ext - 4;
            && a >= 0 && m.Covers(a) && lay.r.Contains(a) && m2 == m.Store(a, Start(d).rs.buf[Inc(Start(d).rs.top)])
            && Inv(d2, m2, lay) && Abs(d2, m2, lay) == Abs(d, m, lay)
  {
    hide Minus, Apply, Placed, Depth, Area.Valid, Area.Contains, Layout.Valid, Fits, Spilled, RoverStep, AbsOf,
      Settled, Stk.Count, Start, FlatCycle, ROverCycle1, ROverCycle2, WriteBack, Logical, Stk.Get, Nextstate, Inv,
      Abs, Main.Store, Ie, ROver2Phia, Boundary;
    SpillStarts(d, m, lay);
    var c := Start(d);
    var d1 := ROverCycle1(c, m, irq1, device1);
    ROverShape(c, m, irq1, device1, irq2, device2);
    FlatROver(d, m, chip, irq1, device1);
    FlatROver(d1, m, chip, irq2, device2);
    RSpillMemory(c, m, lay, device2);
    var m2 := m.Store(c.rs.ext - 4, c.rs.buf[Inc(c.rs.top)]);
    RSpillEnds(c, d1, ROverCycle2(Start(d1), m, irq2, device2).0, m, m2, lay, irq2);
  }

  lemma RSpillEnds(c: Dp, d1: Dp, d2: Dp, m: Main, m2: Main, lay: Layout, irq: Option<Vector>)
    requires Settled(c, m, lay) && Fits(AbsOf(c, m, lay), lay) && d1.Valid() && d2.Valid()
    requires c.rs.ext >= 4 && Placed(Spilled(c.rs), lay.r) && lay.Valid(m2) && c.rs.top == c.rs.over
    requires Logical(Spilled(c.rs), m2, lay.r) == Logical(c.rs, m, lay.r)
    requires Logical(c.ps, m2, lay.p) == Logical(c.ps, m, lay.p)
    requires var a := ROver2Phia(Start(d1));
             && a.rs == d2.rs == Spilled(c.rs) && a.ps == d2.ps == c.ps
             && d2.next == Boundary(a, irq).next && d2.writeback.Nop? && Tor(d2) == d2.rs.Get(0)
             && (a.actualie, a.rcache, a.pcache) == (c.actualie, true, true)
    requires (d2.psw, d2.y, d2.flag, d2.udr, d2.pc, d2.ir) == (c.psw, c.y, c.flag, c.udr, c.pc, c.ir)
    requires (d2.actualie, d2.rcache, d2.pcache) == (c.actualie, true, true) && c.actualie == Ie(c.psw)
    ensures Inv(d2, m2, lay) && Abs(d2, m2, lay) == AbsOf(c, m, lay)
  {
    NothingPending(d2, m2, lay);
    hide WriteBack, Start, ROver2Phia, Logical, Stk.Get, Boundary, Ie, Tor, Minus;
    assert AbsOf(d2, m2, lay) == AbsOf(c, m, lay);
    BoundaryInv(ROver2Phia(Start(d1)), irq, d2, m2, lay);
  }

  lemma PSpillMemory(c: Dp, m: Main, lay: Layout, device: Word)
    requires Settled(c, m, lay) && Fits(AbsOf(c, m, lay), lay) && c.ps.Count() == SIZE
    ensures c.ps.top == c.ps.over && c.ps.ext >= 4 && m.Covers(c.ps.ext - 4) && lay.p.Contains(c.ps.ext - 4)
    ensures var v := c.ps.buf[Inc(c.ps.top)];
            var m2 := m.Store(c.ps.ext - 4, v);
            && lay.Valid(m2) && Placed(Spilled(c.ps), lay.p)
            && Logical(Spilled(c.ps), m2, lay.p) == Logical(c.ps, m, lay.p)
            && Logical(c.rs, m2, lay.r) == Logical(c.rs, m, lay.r)
            && RoverStep(c.ps).(ext := Minus(c.ps.ext, 4)) == Spilled(c.ps) && Minus(c.ps.ext, 4) == c.ps.ext - 4
            && m2 == Apply(m, Request(c.ps.ext - 4, false, false, v, device))
  {
    hide Logical, Main.Store, Stk.Get;
    SpillKeepsLogical(c.ps, m, lay.p);
    StoreKeepsLogical(c.rs, m, lay.r, c.ps.ext - 4, c.ps.buf[Inc(c.ps.top)]);
  }

  /** Two cycles spill the oldest entry of the parameter stack: only reserved memory changes. */
  lemma PSpill(d: Dp, m: Main, lay: Layout, chip: Chip, irq1: Option<Vector>, device1: Word, irq2: Option<Vector>, device2: Word)
    requires Inv(d, m, lay) && d.next.TPOver1?
    ensures var (d1, m1) := FlatCycle(d, m, chip, irq1, device1);
            var (d2, m2) := FlatCycle(d1, m1, chip, irq2, device2);
            var a := Start(d).ps.ext - 4;
            && a >= 0 && m.Covers(a) && lay.p.Contains(a) && m2 == m.Store(a, Start(d).ps.buf[Inc(Start(d).ps.top)])
            && Inv(d2, m2, lay) && Abs(d2, m2, lay) == Abs(d, m, lay)
  {
    hide Minus, Apply, Placed, Depth, Area.Valid, Area.Contains, Layout.Valid, Fits, Spilled, RoverStep, AbsOf,
      Settled, Stk.Count, Start, FlatCycle, POverCycle1, POverCycle2, WriteBack, Logical, Stk.Get, Nextstate, Inv,
      Abs, Main.Store, Ie, POver2Phia, Boundary;
    SpillStarts(d, m, lay);
    var c := Start(d);
    var d1 := POverCycle1(c, m, irq1, device1);
    POverShape(c, m, irq1, device1, irq2, device2);
    FlatPOver(d, m, chip, irq1, device1);
    FlatPOver(d1, m, chip, irq2, device2);
    PSpillMemory(c, m, lay, device2);
    var m2 := m.Store(c.ps.ext - 4, c.ps.buf[Inc(c.ps.top)]);
    PSpillEnds(c, d1, POverCycle2(Start(d1), m, irq2, device2).0, m, m2, lay, irq2);
  }

  lemma PSpillEnds(c: Dp, d1: Dp, d2: Dp, m: Main, m2: Main, lay: Layout, irq: Option<Vector>)
    requires Settled(c, m, lay) && Fits(AbsOf(c, m, lay), lay) && d1.Valid() && d2.Valid()
    requires c.ps.ext >= 4 && Placed(Spilled(c.ps), lay.p) && lay.Valid(m2) && c.ps.top == c.ps.over
    requires Logical(Spilled(c.ps), m2, lay.p) == Logical(c.ps, m, lay.p)
    requires Logical(c.rs, m2, lay.r) == Logical(c.rs, m, lay.r)
    requires var a := POver2Phia(Start(d1));
             && a.ps == d2.ps == Spilled(c.ps) && a.rs == d2.rs == c.rs
             && d2.next == Boundary(a, irq).next && d2.writeback.Nop? && Tor(d2) == d2.rs.Get(0)
             && (a.actualie, a.rcache, a.pcache) == (c.actualie, true, true)
    requires (d2.psw, d2.y, d2.flag, d2.udr, d2.pc, d2.ir) == (c.psw, c.y, c.flag, c.udr, c.pc, c.ir)
    requires (d2.actualie, d2.rcache, d2.pcache) == (c.actualie, true, true) && c.actualie == Ie(c.psw)
    ensures Inv(d2, m2, lay) && Abs(d2, m2, lay) == AbsOf(c, m, lay)
  {
    NothingPending(d2, m2, lay);
    hide WriteBack, Start, POver2Phia, Logical, Stk.Get, Boundary, Ie, Tor, Minus;
    assert AbsOf(d2, m2, lay) == AbsOf(c, m, lay);
    BoundaryInv(POver2Phia(Start(d1)), irq, d2, m2, lay);
  }

  function RUnderCycle1(c: Dp, m: Main, irq: Option<Vector>, device: Word): Dp
    requires c.Valid() && m.Valid()
  {
    var a := Nextstate(MarkPhia(c, c.rs.ext), irq);
    var v := Answer(m, Presented(a, device));
    a.(rs := RunderStep(a.rs), hold := a.rs.ext, tor := FromHold, writeback := Nop,
       aluout := Plus(a.bbus, a.tbus), dhold := v, dbus := v)
  }

  function RUnderCycle2(c: Dp, m: Main, irq: Option<Vector>, device: Word): Dp
    requires c.Valid() && m.Valid()
  {
    var a := Nextstate(RUnder2Phia(c), irq);
    var v := Answer(m, Presented(a, device));
    HoldPhib(a, RsUnderflow).(dhold := v, dbus := v)
  }

  lemma FlatRUnder(d: Dp, m: Main, chip: Chip, irq: Option<Vector>, device: Word)
    requires d.Valid() && m.Valid()
    ensures d.next.TRUnder1? ==> FlatCycle(d, m, chip, irq, device) == (RUnderCycle1(Start(d), m, irq, device), m)
    ensures d.next.TRUnder2? ==> FlatCycle(d, m, chip, irq, device) == (RUnderCycle2(Start(d), m, irq, device), m)
  {
    hide WriteBack, Nextstate, Answer, Plus, Stk.Get;
  }

  /** The two cycles of a fill, up to the write-back that puts the entry into the buffer. */
  lemma RUnderShape(c: Dp, m: Main, irq1: Option<Vector>, device1: Word, irq2: Option<Vector>, device2: Word)
    requires c.Valid() && m.Valid() && c.state.TRUnder1?
    ensures var d1 := RUnderCycle1(c, m, irq1, device1);
            var a := RUnder2Phia(Start(d1));
            var d2 := RUnderCycle2(Start(d1), m, irq2, device2);
            var w := WriteBack(d2);
            var v := Answer(m, Request(c.rs.ext, true, false, 0, device2));
            var s := RunderStep(c.rs).(ext := Plus(c.rs.ext, 4));
            && d1.Valid() && d1.next.TRUnder2? && a.rs == s && a.ps == c.ps && w.ps == c.ps && w.rs == s.Put(4, v)
            && d2.Valid() && d2.next == w.next == Boundary(a, irq2).next && Tor(d2) == w.rs.Get(0)
            && (w.psw, w.y, w.flag, w.udr, w.pc, w.ir) == (c.psw, c.y, c.flag, c.udr, c.pc, c.ir)
            && w.actualie == c.actualie && (d2.rcache, d2.pcache) == (c.rcache, c.pcache)
            && (a.actualie, a.rcache, a.pcache) == (c.actualie, c.rcache, c.pcache)
  {
    hide Boundary, Answer;
  }

  lemma RFillMemory(c: Dp, m: Main, lay: Layout, device: Word)
    requires Settled(c, m, lay) && Fits(AbsOf(c, m, lay), lay) && c.rs.Count() == 4
    ensures c.rs.ext + 4 < TWO32 && m.Covers(c.rs.ext)
    ensures var v := Answer(m, Request(c.rs.ext, true, false, 0, device));
            && RunderStep(c.rs).(ext := Plus(c.rs.ext, 4)).Put(4, v) == Filled(c.rs, v)
            && Placed(Filled(c.rs, v), lay.r) && Filled(c.rs, v).Count() == 5
            && Logical(Filled(c.rs, v), m, lay.r) == Logical(c.rs, m, lay.r)
  {
    hide Logical, Main.Fetch, Stk.Get;
    assert c.rs.top == c.rs.under;
    FillKeepsLogical(c.rs, m, lay.r);
  }

  /** Two cycles bring back the entry nearest the buffer of the return stack. */
  lemma RFill(d: Dp, m: Main, lay: Layout, chip: Chip, irq1: Option<Vector>, device1: Word, irq2: Option<Vector>, device2: Word)
    requires Inv(d, m, lay) && d.next.TRUnder1?
    ensures var (d1, m1) := FlatCycle(d, m, chip, irq1, device1);
            var (d2, m2) := FlatCycle(d1, m1, chip, irq2, device2);
            m2 == m && Inv(d2, m2, lay) && Abs(d2, m2, lay) == Abs(d, m, lay)
  {
    StartInOrder(d, m, lay);
    var c := Start(d);
    var d1 := RUnderCycle1(c, m, irq1, device1);
    var d2 := RUnderCycle2(Start(d1), m, irq2, device2);
    RUnderShape(c, m, irq1, device1, irq2, device2);
    FlatRUnder(d, m, chip, irq1, device1);
    FlatRUnder(d1, m, chip, irq2, device2);
    RFillMemory(c, m, lay, device2);
    hide Minus, Plus, Answer, Placed, Depth, Area.Valid, Fits, Filled, RunderStep, Stk.Put, AbsOf, Settled,
      Stk.Count, Start, FlatCycle,
      RUnderCycle1, RUnderCycle2, WriteBack, Logical, Stk.Get, Nextstate, Inv, Abs, Ie, RUnder2Phia, Boundary, Tor;
    RFillEnds(c, RUnder2Phia(Start(d1)), d2, m, lay, irq2, device2);
  }

  lemma RFillEnds(c: Dp, a: Dp, d2: Dp, m: Main, lay: Layout, irq: Option<Vector>, device: Word)
    requires Settled(c, m, lay) && Fits(AbsOf(c, m, lay), lay) && a.Valid() && d2.Valid() && c.rs.ext + 4 < TWO32
    requires var w := WriteBack(d2);
             var v := Answer(m, Request(c.rs.ext, true, false, 0, device));
             var s := RunderStep(c.rs).(ext := Plus(c.rs.ext, 4));
             && Placed(Filled(c.rs, v), lay.r) && Filled(c.rs, v).Count() == 5
             && Logical(Filled(c.rs, v), m, lay.r) == Logical(c.rs, m, lay.r)
             && a.rs == s && a.ps == c.ps && w.ps == c.ps && w.rs == s.Put(4, v) == Filled(c.rs, v)
             && d2.next == w.next == Boundary(a, irq).next && Tor(d2) == w.rs.Get(0)
             && (w.psw, w.y, w.flag, w.udr, w.pc, w.ir) == (c.psw, c.y, c.flag, c.udr, c.pc, c.ir)
             && w.actualie == c.actualie && (d2.rcache, d2.pcache) == (true, true)
             && (a.actualie, a.rcache, a.pcache) == (c.actualie, true, true) && c.actualie == Ie(c.psw)
    ensures Inv(d2, m, lay) && Abs(d2, m, lay) == AbsOf(c, m, lay)
  {
    hide WriteBack, Logical, Stk.Get, Boundary, Ie, Tor, Minus, Answer;
    var w := WriteBack(d2);
    assert AbsOf(w, m, lay) == AbsOf(c, m, lay);
    BoundaryInv(a, irq, d2, m, lay);
  }

  function PUnderCycle1(c: Dp, m: Main, irq: Option<Vector>, device: Word): Dp
    requires c.Valid() && m.Valid()
  {
    var a := Nextstate(MarkPhia(c, c.ps.ext), irq);
    var v := Answer(m, Presented(a, device));
    a.(ps := RunderStep(a.ps), hold := a.ps.ext, tor := FromHold, writeback := Nop,
       aluout := Plus(a.bbus, a.tbus), dhold := v, dbus := v)
  }

  function PUnderCycle2(c: Dp, m: Main, irq: Option<Vector>, device: Word): Dp
    requires c.Valid() && m.Valid()
  {
    var a := Nextstate(PUnder2Phia(c), irq);
    var v := Answer(m, Presented(a, device));
    HoldPhib(a, PsUnderflow).(dhold := v, dbus := v)
  }

  lemma FlatPUnder(d: Dp, m: Main, chip: Chip, irq: Option<Vector>, device: Word)
    requires d.Valid() && m.Valid()
    ensures d.next.TPUnder1? ==> FlatCycle(d, m, chip, irq, device) == (PUnderCycle1(Start(d), m, irq, device), m)
    ensures d.next.TPUnder2? ==> FlatCycle(d, m, chip, irq, device) == (PUnderCycle2(Start(d), m, irq, device), m)
  {
    hide WriteBack, Nextstate, Answer, Plus, Stk.Get;
  }

  /** The two cycles of a fill, up to the write-back that puts the entry into the buffer. */
  lemma PUnderShape(c: Dp, m: Main, irq1: Option<Vector>, device1: Word, irq2: Option<Vector>, device2: Word)
    requires c.Valid() && m.Valid() && c.state.TPUnder1?
    ensures var d1 := PUnderCycle1(c, m, irq1, device1);
            var a := PUnder2Phia(Start(d1));
            var d2 := PUnderCycle2(Start(d1), m, irq2, device2);
            var w := WriteBack(d2);
            var v := Answer(m, Request(c.ps.ext, true, false, 0, device2));
            var s := RunderStep(c.ps).(ext := Plus(c.ps.ext, 4));
            && d1.Valid() && d1.next.TPUnder2? && a.ps == s && a.rs == c.rs && w.rs == c.rs && w.ps == s.Put(4, v)
            && d2.Valid() && d2.next == w.next == Boundary(a, irq2).next && Tor(d2) == w.rs.Get(0)
            && (w.psw, w.y, w.flag, w.udr, w.pc, w.ir) == (c.psw, c.y, c.flag, c.udr, c.pc, c.ir)
            && w.actualie == c.actualie && (d2.rcache, d2.pcache) == (c.rcache, c.pcache)
            && (a.actualie, a.rcache, a.pcache) == (c.actualie, c.rcache, c.pcache)
  {
    hide Boundary, Answer;
  }

  lemma PFillMemory(c: Dp, m: Main, lay: Layout, device: Word)
    requires Settled(c, m, lay) && Fits(AbsOf(c, m, lay), lay) && c.ps.Count() == 4
    ensures c.ps.ext + 4 < TWO32 && m.Covers(c.ps.ext)
    ensures var v := Answer(m, Request(c.ps.ext, true, false, 0, device));
            && RunderStep(c.ps).(ext := Plus(c.ps.ext, 4)).Put(4, v) == Filled(c.ps, v)
            && Placed(Filled(c.ps, v), lay.p) && Filled(c.ps, v).Count() == 5
            && Logical(Filled(c.ps, v), m, lay.p) == Logical(c.ps, m, lay.p)
  {
    hide Logical, Main.Fetch, Stk.Get;
    assert c.ps.top == c.ps.under;
    FillKeepsLogical(c.ps, m, lay.p);
  }

  /** Two cycles bring back the entry nearest the buffer of the parameter stack. */
  lemma PFill(d: Dp, m: Main, lay: Layout, chip: Chip, irq1: Option<Vector>, device1: Word, irq2: Option<Vector>, device2: Word)
    requires Inv(d, m, lay) && d.next.TPUnder1?
    ensures var (d1, m1) := FlatCycle(d, m, chip, irq1, device1);
            var (d2, m2) := FlatCycle(d1, m1, chip, irq2, device2);
            m2 == m && Inv(d2, m2, lay) && Abs(d2, m2, lay) == Abs(d, m, lay)
  {
    StartInOrder(d, m, lay);
    var c := Start(d);
    var d1 := PUnderCycle1(c, m, irq1, device1);
    var d2 := PUnderCycle2(Start(d1), m, irq2, device2);
    PUnderShape(c, m, irq1, device1, irq2, device2);
    FlatPUnder(d, m, chip, irq1, device1);
    FlatPUnder(d1, m, chip, irq2, device2);
    PFillMemory(c, m, lay, device2);
    hide Minus, Plus, Answer, Placed, Depth, Area.Valid, Fits, Filled, RunderStep, Stk.Put, AbsOf, Settled,
      Stk.Count, Start, FlatCycle,
      PUnderCycle1, PUnderCycle2, WriteBack, Logical, Stk.Get, Nextstate, Inv, Abs, Ie, PUnder2Phia, Boundary, Tor;
    PFillEnds(c, PUnder2Phia(Start(d1)), d2, m, lay, irq2, device2);
  }

  lemma PFillEnds(c: Dp, a: Dp, d2: Dp, m: Main, lay: Layout, irq: Option<Vector>, device: Word)
    requires Settled(c, m, lay) && Fits(AbsOf(c, m, lay), lay) && a.Valid() && d2.Valid() && c.ps.ext + 4 < TWO32
    requires var w := WriteBack(d2);
             var v := Answer(m, Request(c.ps.ext, true, false, 0, device));
             var s := RunderStep(c.ps).(ext := Plus(c.ps.ext, 4));
             && Placed(Filled(c.ps, v), lay.p) && Filled(c.ps, v).Count() == 5
             && Logical(Filled(c.ps, v), m, lay.p) == Logical(c.ps, m, lay.p)
             && a.ps == s && a.rs == c.rs && w.rs == c.rs && w.ps == s.Put(4, v) == Filled(c.ps, v)
             && d2.next == w.next == Boundary(a, irq).next && Tor(d2) == w.rs.Get(0)
             && (w.psw, w.y, w.flag, w.udr, w.pc, w.ir) == (c.psw, c.y, c.flag, c.udr, c.pc, c.ir)
             && w.actualie == c.actualie && (d2.rcache, d2.pcache) == (true, true)
             && (a.actualie, a.rcache, a.pcache) == (c.actualie, true, true) && c.actualie == Ie(c.psw)
    ensures Inv(d2, m, lay) && Abs(d2, m, lay) == AbsOf(c, m, lay)
  {
    hide WriteBack, Logical, Stk.Get, Boundary, Ie, Tor, Minus, Answer;
    var w := WriteBack(d2);
    assert AbsOf(w, m, lay) == AbsOf(c, m, lay);
    BoundaryInv(a, irq, d2, m, lay);
  }
}
