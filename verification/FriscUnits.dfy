/** The two machines as the simulators keep them: registers, latches and stack buffers changed in
    place by the phases of each cycle. */
module FriscUnits {
  import opened Word32
  import opened Registers
  import opened StackCache
  import opened StackBuffers
  import opened Frisc
  import FriscPlain
  import FriscPiped
  import opened PipelineEquivalence
  import FriscRefinement
  import FriscRuns

  /** The registers and memory that both machines have. */
  class RegisterFile {
    const ps: StackBuffer
    const rs: StackBuffer
    var psw: Word
    var ssw: Word
    var actualie: bool
    var udr: seq<Word>
    var icr: seq<Word>
    var y: Word
    var flag: bool
    var pca: Word
    var pcb: Word
    var intvector: Word
    var mem: Memory
    var cycle: nat

    constructor (c: Core)
      requires c.Valid()
      ensures Valid() && Core() == c && fresh(ps) && fresh(rs) && fresh(ps.cells) && fresh(rs.cells)
    {
      ps := new StackBuffer(c.ps);
      rs := new StackBuffer(c.rs);
      psw, ssw, actualie, udr, icr, y, flag := c.psw, c.ssw, c.actualie, c.udr, c.icr, c.y, c.flag;
      pca, pcb, intvector, mem, cycle := c.pca, c.pcb, c.intvector, c.mem, c.cycle;
    }

    ghost function Core(): Core
      reads this, ps, rs, ps.cells, rs.cells
    {
      Frisc.Core(ps.Value(), rs.Value(), psw, ssw, actualie, udr, icr, y, flag, pca, pcb, intvector, mem, cycle)
    }

    ghost predicate Valid()
      reads this, ps, rs, ps.cells, rs.cells
    {
      ps != rs && ps.cells != rs.cells && ps.Valid() && rs.Valid() && |udr| == 4 && |icr| == 3
    }

    method StackStatus() returns (v: Word)
      requires Valid()
      ensures v == Status(Core())
    {
      hide LowHalf;
      v := LowHalf(ssw, rs.over + 0x10 * rs.top + 0x100 * ps.over + 0x1000 * ps.top);
    }

    method Read(r: Reg, iar: Word) returns (v: Word)
      requires Valid()
      ensures v == Readreg(Core(), r, iar)
    {
      hide Status;
      match r {
        case S(k) => v := ps.Get(k);
        case R(k) => v := rs.Get(k);
        case IAR => v := iar;
        case PSW => v := psw;
        case ZERO => v := 0;
        case Y => v := y;
        case U(k) =>
          v := 0;
          var cpselect := Cpselect(psw);
          if cpselect == 0 {
            v := udr[k];
          } else if cpselect == 1 {
            if k == 0 {
              v := rs.external;
            } else if k == 1 {
              v := ps.external;
            } else if k == 2 {
              v := StackStatus();
            }
          } else if cpselect == 2 && k < 3 {
            v := icr[k];
          }
      }
    }

    method Write(r: Reg, v: Word)
      requires Valid()
      modifies this, ps, rs, ps.cells, rs.cells
      ensures Valid() && Core() == Writereg(old(Core()), r, v)
    {
      match r {
        case S(k) => ps.Put(k, v);
        case R(k) => rs.Put(k, v);
        case IAR =>
        case PSW => psw := v % 0x40;
        case ZERO =>
        case Y => y := v;
        case U(k) => WriteCoprocessor(k, v);
      }
    }

    method WriteCoprocessor(k: Near, v: Word)
      requires Valid()
      modifies this, ps, rs
      ensures Valid() && Core() == Writereg(old(Core()), U(k), v)
    {
      var cpselect := Cpselect(psw);
      if cpselect == 0 {
        udr := udr[k := v];
      } else if cpselect == 1 {
        if k == 0 {
          rs.SetExternal(v);
        } else if k == 1 {
          ps.SetExternal(v);
        } else if k == 2 {
          ssw := v;
          rs.SetMarkers((v / 0x10) % 0x10, v % 0x10);
          ps.SetMarkers((v / 0x1000) % 0x10, (v / 0x100) % 0x10);
        }
      } else if cpselect == 2 && k < 3 {
        icr := icr[k := v];
      }
    }

    /** Bus T: an operand from the instruction or the top of the parameter stack. */
    method OperandT(ir: Instr) returns (v: Word)
      requires Valid()
      ensures v == Tsource(Core(), ir)
    {
      if ir.kind.Lal? || ir.kind.Load? || ir.kind.Store? {
        v := Wrap(ir.offset);
      } else if ir.kind.Lah? {
        v := Wrap(ir.offset * 0x1_0000);
      } else if ir.class_.Shift? && ir.imm {
        v := ir.literal;
      } else {
        v := ps.Get(0);
      }
    }

    method MoveStacks(ir: Instr)
      requires Valid()
      modifies ps, rs
      ensures Valid() && Core() == Stackop(old(Core()), ir)
    {
      match ir.kind {
        case Colon => rs.Move(Push);
        case Branch =>
        case QBranch =>
        case _ =>
          ps.Move(ir.pop);
          rs.Move(ir.rop);
      }
    }

    method Between(i: Input) returns (next: CycleType)
      requires Valid()
      ensures next == Boundary(Core(), i)
    {
      var rcache, pcache := (ssw / 0x1_0000) % 2 == 1, (ssw / 0x2_0000) % 2 == 1;
      if rcache && rs.top == rs.over {
        next := TRsDec;
      } else if rcache && rs.top == rs.under {
        next := TRsLoad;
      } else if pcache && ps.top == ps.over {
        next := TPsDec;
      } else if pcache && ps.top == ps.under {
        next := TPsLoad;
      } else if actualie && i.irq.Some? {
        next := TInt;
      } else if i.busrequest {
        next := TGrant;
      } else {
        next := TExec;
      }
    }

    method Following(state: CycleType, ir: Instr, i: Input) returns (next: CycleType)
      requires Valid()
      ensures next == Nextstate(state, ir, Core(), i)
    {
      hide Boundary;
      match state {
        case TInt => next := TExec;
        case TGrant => next := if i.busrequest then TGrant else if actualie && i.irq.Some? then TInt else TExec;
        case TExec =>
          if ir.kind.Load? {
            next := TLoad;
          } else if ir.kind.Store? {
            next := TStore;
          } else {
            next := Between(i);
          }
        case TRsDec => next := TRsStore;
        case TRsLoad => next := TRsInc;
        case TPsDec => next := TPsStore;
        case TPsLoad => next := TPsInc;
        case _ => next := Between(i);
      }
    }

    /** Ends a cycle: the next state, with the vector of an interrupt that it takes. */
    method EndCycle(state: CycleType, ir: Instr, i: Input) returns (next: CycleType)
      requires Valid()
      modifies this
      ensures Valid() && next == Nextstate(state, ir, old(Core()), i)
      ensures Core() == old(Advance(Core(), Nextstate(state, ir, Core(), i), i))
    {
      hide Nextstate;
      next := Following(state, ir, i);
      intvector := if next.TInt? then i.irq.value else intvector;
      pcb := Plus(pca, 1);
      cycle := cycle + 1;
    }

    method DisableInterrupts()
      requires Valid()
      modifies this
      ensures Valid() && Core() == ClearIe(old(Core()))
    {
      if Ie(psw) {
        psw := psw - 0x10;
      }
    }
  }

  /** The unpipelined machine. */
  class UnpipelinedUnit {
    const regs: RegisterFile
    var state: CycleType
    var ir: Instr
    var oldir: Instr
    var alua: Word
    var alub: Word
    var aluout: Word
    var barrelout: Word
    var portaddr: Word
    var portvalue: Word

    constructor (p: FriscPlain.Plain)
      requires p.core.Valid()
      ensures Valid() && Snap() == p && fresh(regs) && fresh(Stacks())
    {
      regs := new RegisterFile(p.core);
      state, ir, oldir, alua, alub, aluout := p.state, p.ir, p.oldir, p.alua, p.alub, p.aluout;
      barrelout, portaddr, portvalue := p.barrelout, p.portaddr, p.portvalue;
    }

    ghost function Stacks(): set<object> {
      {regs.ps, regs.rs, regs.ps.cells, regs.rs.cells}
    }

    ghost predicate Valid()
      reads this, regs, regs.ps, regs.rs, regs.ps.cells, regs.rs.cells
    {
      regs.Valid()
    }

    ghost function Snap(): (s: FriscPlain.Plain)
      reads this, regs, regs.ps, regs.rs, regs.ps.cells, regs.rs.cells
      ensures Valid() ==> s.core.Valid()
    {
      FriscPlain.Plain(state, regs.Core(), ir, oldir, alua, alub, aluout, barrelout, portaddr, portvalue)
    }

    method Address() returns (abus: Word)
      requires Valid()
      ensures abus == FriscPlain.Asrca(Snap())
    {
      match ir.kind {
        case Colon => abus := ir.dest;
        case Branch => abus := ir.dest;
        case QBranch => abus := if regs.flag then regs.pcb else ir.dest;
        case _ =>
          if ir.ret {
            abus := regs.rs.Get(0);
          } else {
            abus := regs.pcb;
          }
      }
    }

    method OperandB() returns (bbus: Word)
      requires Valid()
      ensures bbus == FriscPlain.Bsrca(Snap())
    {
      hide Readreg;
      if Flow(ir.kind) {
        bbus := regs.pcb;
      } else {
        bbus := regs.Read(ir.reg1, regs.pcb);
      }
    }

    method ExecPhia()
      requires Valid()
      modifies this, regs, Stacks()
      ensures Valid() && Snap() == FriscPlain.ExecPhia(old(Snap()))
    {
      hide Readreg, Stackop, FriscPlain.Asrca, FriscPlain.Bsrca, Tsource;
      var abus := Address();
      var bbus := OperandB();
      var tbus := regs.OperandT(ir);
      alub, alua, portaddr := bbus, tbus, abus;
      regs.pca := abus;
      regs.MoveStacks(ir);
    }

    method Phia()
      requires Valid()
      modifies this, regs, Stacks()
      ensures Valid() && Snap() == FriscPlain.Phia(old(Snap()))
    {
      hide Readreg, FriscPlain.ExecPhia;
      regs.actualie := Ie(regs.psw);
      match state {
        case TInt =>
          portaddr := regs.intvector;
          regs.DisableInterrupts();
        case TGrant =>
        case TExec => ExecPhia();
        case TLoad => portaddr := aluout;
        case TStore =>
          portaddr := aluout;
          portvalue := regs.Read(oldir.reg2, regs.pcb);
        case TRsDec => portaddr, alub := regs.pcb, regs.rs.external;
        case TRsStore =>
          portaddr := regs.rs.external;
          portvalue := regs.rs.Oldest();
        case TRsLoad => portaddr := regs.rs.external;
        case TRsInc => portaddr, alub := regs.pcb, regs.rs.external;
        case TPsDec => portaddr, alub := regs.pcb, regs.ps.external;
        case TPsStore =>
          portaddr := regs.ps.external;
          portvalue := regs.ps.Oldest();
        case TPsLoad => portaddr := regs.ps.external;
        case TPsInc => portaddr, alub := regs.pcb, regs.ps.external;
      }
    }

    method Finish(i: Input)
      requires Valid()
      modifies this, regs, Stacks()
      ensures Valid() && Snap() == FriscPlain.Finish(old(Snap()), old(Snap()).core, i)
    {
      hide Nextstate;
      state := regs.EndCycle(state, ir, i);
    }

    /** Writes what the instruction computed. */
    method Bdest(v: Word)
      requires Valid()
      modifies regs, Stacks()
      ensures Valid() && Snap() == old(Snap().(core := FriscPlain.Bdest(Snap().core, ir, v)))
    {
      hide Writereg;
      match ir.kind {
        case Colon => regs.rs.Put(0, v);
        case Branch =>
        case QBranch =>
        case Load =>
        case Store =>
        case _ => regs.Write(ir.reg2, v);
      }
    }

    method BusB(alucond: bool) returns (bbus: Word)
      ensures bbus == FriscPlain.Bsrcb(ir, AluOut(aluout, alucond, 0, false), barrelout)
    {
      bbus := aluout;
      if ir.kind.Micro? {
        if ir.class_.Test? {
          bbus := if alucond then TWO32 - 1 else 0;
        } else if ir.class_.Shift? {
          bbus := barrelout;
        }
      }
    }

    /** The ALU and barrel shifter outputs, y and flag, and the value for bus B. */
    method Compute(chip: Chip) returns (bbus: Word)
      requires Valid()
      modifies this, regs, Stacks()
      ensures Valid()
      ensures var p := old(Snap());
              var out := Alu(chip, p.ir, p.alua, p.alub, p.core.y, p.core.flag);
              var barrel := Barrel(chip, p.ir, p.alua, p.alub);
              && Snap() == p.(aluout := out.result, barrelout := barrel, core := p.core.(y := out.y, flag := out.flag))
              && bbus == FriscPlain.Bsrcb(p.ir, out, barrel)
    {
      hide Alu, Barrel;
      var out := Alu(chip, ir, alua, alub, regs.y, regs.flag);
      aluout := out.result;
      regs.y, regs.flag := out.y, out.flag;
      barrelout := Barrel(chip, ir, alua, alub);
      bbus := BusB(out.cond);
    }

    method ExecPhib(chip: Chip, i: Input)
      requires Valid()
      modifies this, regs, Stacks()
      ensures Valid() && Snap() == FriscPlain.ExecPhib(old(Snap()), chip, i)
    {
      hide Writereg, Nextstate, FriscPlain.Bdest, FriscPlain.Bsrcb, Alu, Barrel;
      var bbus := Compute(chip);
      Bdest(bbus);
      Finish(i);
      oldir := ir;
      portvalue := regs.mem.Fetch(portaddr);
      ir := chip.decode(portvalue);
    }

    /** Phase b of the first cycle of a spill. */
    method SpillFirst(s: StackBuffer, i: Input)
      requires Valid() && (s == regs.rs || s == regs.ps)
      modifies this, regs, Stacks()
      ensures Valid()
      ensures Snap() == if s == regs.rs then FriscPlain.RsDecPhib(old(Snap()), i) else FriscPlain.PsDecPhib(old(Snap()), i)
    {
      hide Nextstate;
      portvalue := regs.mem.Fetch(portaddr);
      aluout := Minus(alub, 1);
      s.MoveMarkers(Push);
      s.SetExternal(aluout);
      Finish(i);
    }

    /** Phase b of the first cycle of a fill. */
    method FillFirst(s: StackBuffer, i: Input)
      requires Valid() && (s == regs.rs || s == regs.ps)
      modifies this, regs, Stacks()
      ensures Valid()
      ensures Snap() == if s == regs.rs then FriscPlain.RsLoadPhib(old(Snap()), i) else FriscPlain.PsLoadPhib(old(Snap()), i)
    {
      hide Nextstate;
      portvalue := regs.mem.Fetch(portaddr);
      s.MoveMarkers(Pop);
      s.Put(4, portvalue);
      Finish(i);
    }

    /** Phase b of the second cycle of a fill. */
    method FillSecond(s: StackBuffer, i: Input)
      requires Valid() && (s == regs.rs || s == regs.ps)
      modifies this, regs, Stacks()
      ensures Valid()
      ensures Snap() == if s == regs.rs then FriscPlain.RsIncPhib(old(Snap()), i) else FriscPlain.PsIncPhib(old(Snap()), i)
    {
      hide Nextstate;
      portvalue := regs.mem.Fetch(portaddr);
      aluout := Plus(alub, 1);
      s.SetExternal(aluout);
      Finish(i);
    }

    method LoadPhib(i: Input)
      requires Valid()
      modifies this, regs, Stacks()
      ensures Valid() && Snap() == FriscPlain.LoadPhib(old(Snap()), i)
    {
      hide Nextstate, Writereg;
      portvalue := regs.mem.Fetch(portaddr);
      regs.Write(oldir.reg2, portvalue);
      Finish(i);
    }

    method StorePhib(i: Input)
      requires Valid()
      modifies this, regs, Stacks()
      ensures Valid() && Snap() == FriscPlain.StorePhib(old(Snap()), i)
    {
      hide Nextstate;
      regs.mem := regs.mem.Store(portaddr, portvalue);
      Finish(i);
    }

    method IntPhib(chip: Chip)
      requires Valid()
      modifies this, regs
      ensures Valid() && Snap() == FriscPlain.IntPhib(old(Snap()), chip, Input(false, None))
    {
      regs.pcb, regs.cycle := regs.pca, regs.cycle + 1;
      state := TExec;
      portvalue := regs.mem.Fetch(portaddr);
      ir := chip.decode(portvalue);
    }

    method Phib(chip: Chip, i: Input)
      requires Valid()
      modifies this, regs, Stacks()
      ensures Valid() && Snap() == FriscPlain.Phib(old(Snap()), chip, i)
    {
      hide FriscPlain.ExecPhib, FriscPlain.LoadPhib, FriscPlain.StorePhib, FriscPlain.RsDecPhib, FriscPlain.RsLoadPhib,
           FriscPlain.RsIncPhib, FriscPlain.PsDecPhib, FriscPlain.PsLoadPhib, FriscPlain.PsIncPhib, FriscPlain.Finish;
      match state {
        case TInt => IntPhib(chip);
        case TGrant => Finish(i);
        case TExec => ExecPhib(chip, i);
        case TLoad => LoadPhib(i);
        case TRsDec => SpillFirst(regs.rs, i);
        case TRsLoad => FillFirst(regs.rs, i);
        case TRsInc => FillSecond(regs.rs, i);
        case TPsDec => SpillFirst(regs.ps, i);
        case TPsLoad => FillFirst(regs.ps, i);
        case TPsInc => FillSecond(regs.ps, i);
        case _ => StorePhib(i);
      }
    }

    method Cycle(chip: Chip, i: Input)
      requires Valid()
      modifies this, regs, Stacks()
      ensures Valid() && Snap() == FriscPlain.Cycle(old(Snap()), chip, i)
    {
      hide *;
      Phia();
      Phib(chip, i);
      PlainPhases(old(Snap()), chip, i);
    }

    /** A cycle for each of the inputs. */
    method Run(chip: Chip, inputs: seq<Input>)
      requires Valid()
      modifies this, regs, Stacks()
      ensures Valid() && Snap() == FriscPlain.Run(old(Snap()), chip, inputs)
    {
      hide *;
      var k := 0;
      PlainRunEnd(Snap(), chip, inputs);
      while k < |inputs|
        invariant k <= |inputs| && Valid() && old(Snap()).core.Valid()
        invariant Snap().core.Valid() && FriscPlain.Run(Snap(), chip, inputs[k..]) == FriscPlain.Run(old(Snap()), chip, inputs)
      {
        PlainRunStep(Snap(), chip, inputs, k);
        Cycle(chip, inputs[k]);
        k := k + 1;
      }
      PlainRunEnd(Snap(), chip, inputs);
    }
  }

  /** The pipelined machine. */
  class PipelinedUnit {
    const regs: RegisterFile
    var state: CycleType
    var ira: Instr
    var irb: Instr
    var irholda: Instr
    var irholdb: Instr
    var oldir: Instr
    var pchold: Word
    var hold: Word
    var aluout: Word
    var barrelout: Word
    var dhold: Word
    var torptr: TorSource
    var writeback: FriscPiped.Writeback
    var portaddr: Word

    constructor (q: FriscPiped.Piped)
      requires q.core.Valid()
      ensures Valid() && Snap() == q && fresh(regs) && fresh(Stacks())
    {
      regs := new RegisterFile(q.core);
      state, ira, irb, irholda, irholdb, oldir := q.state, q.ira, q.irb, q.irholda, q.irholdb, q.oldir;
      pchold, hold, aluout, barrelout, dhold := q.pchold, q.hold, q.aluout, q.barrelout, q.dhold;
      torptr, writeback, portaddr := q.tor, q.writeback, q.portaddr;
    }

    ghost function Stacks(): set<object> {
      {regs.ps, regs.rs, regs.ps.cells, regs.rs.cells}
    }

    ghost predicate Valid()
      reads this, regs, regs.ps, regs.rs, regs.ps.cells, regs.rs.cells
    {
      regs.Valid()
    }

    ghost function Snap(): (s: FriscPiped.Piped)
      reads this, regs, regs.ps, regs.rs, regs.ps.cells, regs.rs.cells
      ensures Valid() ==> s.core.Valid()
    {
      FriscPiped.Piped(state, regs.Core(), ira, irb, irholda, irholdb, oldir, pchold, hold, aluout, barrelout, dhold,
                       torptr, writeback, portaddr)
    }

    /** Carries out the pending write-back. */
    method WriteBack()
      requires Valid()
      modifies regs, Stacks()
      ensures Valid() && Snap() == old(Snap().(core := FriscPiped.Committed(Snap())))
    {
      hide Writereg;
      match writeback {
        case Nop =>
        case AluWriteback => regs.Write(oldir.reg2, aluout);
        case AluWritebackTor => regs.rs.Put(0, aluout);
        case ShiftWriteback => regs.Write(oldir.reg2, barrelout);
        case LoadWriteback => regs.Write(oldir.reg2, dhold);
        case RsUnderflow => regs.rs.Put(4, dhold);
        case PsUnderflow => regs.ps.Put(4, dhold);
      }
    }

    method Address() returns (abus: Word)
      requires Valid()
      ensures abus == FriscPiped.Asrca(Snap())
    {
      match irb.kind {
        case Colon => abus := irb.dest;
        case Branch => abus := irb.dest;
        case QBranch => abus := if regs.flag then regs.pcb else irb.dest;
        case _ =>
          if irb.ret {
            match torptr {
              case FromHold => abus := hold;
              case FromAluout => abus := aluout;
              case FromBarrel => abus := barrelout;
              case FromDhold => abus := dhold;
            }
          } else {
            abus := regs.pcb;
          }
      }
    }

    method Begin()
      requires Valid()
      modifies this, regs, Stacks()
      ensures Valid() && Snap() == FriscPiped.Start(old(Snap()))
    {
      hide Writereg;
      var ie := Ie(regs.psw);
      irholda, ira, pchold := irholdb, irb, regs.pcb;
      WriteBack();
      regs.actualie := ie;
    }

    method Phia()
      requires Valid()
      modifies this, regs, Stacks()
      ensures Valid() && Snap() == FriscPiped.Phia(old(Snap()))
    {
      hide FriscPiped.Start, FriscPiped.Asrca;
      Begin();
      match state {
        case TInt =>
          portaddr := regs.intvector;
          regs.DisableInterrupts();
        case TGrant =>
        case TExec =>
          portaddr := Address();
          regs.pca := portaddr;
        case TLoad => portaddr := aluout;
        case TStore => portaddr := aluout;
        case TRsDec => portaddr := regs.pcb;
        case TRsStore =>
          portaddr := aluout;
          regs.rs.SetExternal(aluout);
        case TRsLoad => portaddr := regs.pcb;
        case TRsInc =>
          portaddr := hold;
          regs.rs.SetExternal(aluout);
        case TPsDec => portaddr := regs.pcb;
        case TPsStore =>
          portaddr := aluout;
          regs.ps.SetExternal(aluout);
        case TPsLoad => portaddr := regs.pcb;
        case TPsInc =>
          portaddr := hold;
          regs.ps.SetExternal(aluout);
      }
    }

    method Finish(i: Input)
      requires Valid()
      modifies this`state, regs
      ensures Valid() && Snap() == FriscPiped.Finish(old(Snap()), old(Snap()).core, i)
    {
      hide Nextstate;
      state := regs.EndCycle(state, ira, i);
    }

    /** Points at the latch that has the top of the return stack and sets the write-back. */
    method ExecCleanup()
      requires Valid()
      modifies this`torptr, this`writeback
      ensures Valid() && Snap() == FriscPiped.Execcleanup(old(Snap()))
    {
      var tor0 := ira.reg2 == R(0);
      match ira.kind {
        case Colon => torptr, writeback := FromAluout, FriscPiped.AluWritebackTor;
        case Lal => torptr, writeback := if tor0 then FromAluout else FromHold, FriscPiped.AluWriteback;
        case Lah => torptr, writeback := if tor0 then FromAluout else FromHold, FriscPiped.AluWriteback;
        case Micro =>
          if ira.class_.Shift? {
            torptr := if tor0 then FromBarrel else FromHold;
            writeback := FriscPiped.ShiftWriteback;
          } else {
            torptr := if tor0 then FromAluout else FromHold;
            writeback := FriscPiped.AluWriteback;
          }
        case _ => torptr, writeback := FromHold, FriscPiped.Nop;
      }
    }

    method OperandB() returns (bbus: Word)
      requires Valid()
      ensures bbus == FriscPiped.Bsrcb(Snap())
    {
      hide Readreg;
      if Flow(ira.kind) {
        bbus := pchold;
      } else {
        bbus := regs.Read(ira.reg1, pchold);
      }
    }

    /** The operands are read, the stacks moved, and the ALU and barrel shifter outputs latched. */
    method Compute(chip: Chip)
      requires Valid()
      modifies this`hold, this`aluout, this`barrelout, regs, Stacks()
      ensures Valid()
      ensures var q := old(Snap());
              var a, b := Tsource(q.core, q.ira), FriscPiped.Bsrcb(q);
              var out := Alu(chip, q.ira, a, b, q.core.y, q.core.flag);
              var c := Stackop(q.core, q.ira).(y := out.y, flag := out.flag);
              Snap() == q.(core := c, hold := c.rs.Get(0), aluout := FriscPiped.Result(q.ira, out),
                           barrelout := Barrel(chip, q.ira, a, b))
    {
      hide Alu, Barrel, FriscPiped.Bsrcb, Tsource, Stackop, FriscPiped.Result;
      var bbus := OperandB();
      var abus := regs.OperandT(ira);
      regs.MoveStacks(ira);
      hold := regs.rs.Get(0);
      LatchAlu(Alu(chip, ira, abus, bbus, regs.y, regs.flag), Barrel(chip, ira, abus, bbus));
    }

    method LatchAlu(out: AluOut, barrel: Word)
      requires Valid()
      modifies this`aluout, this`barrelout, regs`y, regs`flag
      ensures Valid()
      ensures var q := old(Snap());
              Snap() == q.(core := q.core.(y := out.y, flag := out.flag), aluout := FriscPiped.Result(q.ira, out),
                           barrelout := barrel)
    {
      hide FriscPiped.Result;
      aluout, barrelout := FriscPiped.Result(ira, out), barrel;
      regs.y, regs.flag := out.y, out.flag;
    }

    method LatchInstruction(chip: Chip)
      requires Valid()
      modifies this`oldir, this`irholdb, this`irb
      ensures Valid()
      ensures var q := old(Snap()); var fetched := chip.decode(q.core.mem.Fetch(q.portaddr));
              Snap() == q.(oldir := q.ira, irholdb := fetched,
                           irb := if q.ira.kind.Load? || q.ira.kind.Store? then q.irb else fetched)
    {
      oldir := ira;
      irholdb := chip.decode(regs.mem.Fetch(portaddr));
      if !ira.kind.Load? && !ira.kind.Store? {
        irb := irholdb;
      }
    }

    method ExecPhib(chip: Chip, i: Input)
      requires Valid()
      modifies this, regs, Stacks()
      ensures Valid() && Snap() == FriscPiped.ExecPhib(old(Snap()), chip, i)
    {
      hide Alu, Barrel, Stackop, FriscPiped.Bsrcb, FriscPiped.Result, Tsource, Nextstate;
      Instruct(chip);
      ExecCleanup();
      Finish(i);
    }

    /** The latches of an instruction's first cycle. */
    method Instruct(chip: Chip)
      requires Valid()
      modifies this, regs, Stacks()
      ensures Valid()
      ensures var q := old(Snap());
              var a, b := Tsource(q.core, q.ira), FriscPiped.Bsrcb(q);
              var out := Alu(chip, q.ira, a, b, q.core.y, q.core.flag);
              var c := Stackop(q.core, q.ira).(y := out.y, flag := out.flag);
              var fetched := chip.decode(q.core.mem.Fetch(q.portaddr));
              Snap() == q.(core := c, hold := c.rs.Get(0), aluout := FriscPiped.Result(q.ira, out),
                           barrelout := Barrel(chip, q.ira, a, b), oldir := q.ira, irholdb := fetched,
                           irb := if q.ira.kind.Load? || q.ira.kind.Store? then q.irb else fetched)
    {
      hide Alu, Barrel, Stackop, FriscPiped.Bsrcb, FriscPiped.Result, Tsource;
      Compute(chip);
      LatchInstruction(chip);
    }

    method HoldTop(w: FriscPiped.Writeback)
      requires Valid()
      modifies this`hold, this`torptr, this`writeback, this`irb
      ensures Valid() && Snap() == FriscPiped.HoldPhib(old(Snap()), w)
    {
      hold := regs.rs.Get(0);
      torptr, writeback, irb := FromHold, w, irholda;
    }

    method StorePhib(v: Word, i: Input)
      requires Valid()
      modifies this, regs, Stacks()
      ensures Valid() && Snap() == FriscPiped.StorePhib(old(Snap()), v, i)
    {
      hide Nextstate;
      HoldTop(FriscPiped.Nop);
      regs.mem := regs.mem.Store(portaddr, v);
      Finish(i);
    }

    /** The first cycle of a spill moves the markers and finds the new external pointer. */
    method SpillFirst(s: StackBuffer, i: Input)
      requires Valid() && (s == regs.rs || s == regs.ps)
      modifies this, regs, Stacks()
      ensures Valid()
      ensures var q := old(Snap()); var ext := if s == regs.rs then q.core.rs.ext else q.core.ps.ext;
              var c := if s == regs.rs then q.core.(rs := OverStep(q.core.rs)) else q.core.(ps := OverStep(q.core.ps));
              Snap() == FriscPiped.Finish(FriscPiped.HoldPhib(q, FriscPiped.Nop).(aluout := Minus(ext, 1)), c, i)
    {
      hide Nextstate;
      aluout := Minus(s.external, 1);
      HoldTop(FriscPiped.Nop);
      s.MoveMarkers(Push);
      Finish(i);
    }

    method LatchPointer(ext: Word)
      requires Valid()
      modifies this`hold, this`aluout, this`writeback, this`irb
      ensures Valid()
      ensures Snap() == old(Snap()).(hold := ext, aluout := Plus(ext, 1), writeback := FriscPiped.Nop, irb := irholda)
    {
      hold, aluout, writeback, irb := ext, Plus(ext, 1), FriscPiped.Nop, irholda;
    }

    method FillFirst(s: StackBuffer, i: Input)
      requires Valid() && (s == regs.rs || s == regs.ps)
      modifies this, regs, Stacks()
      ensures Valid()
      ensures var q := old(Snap()); var ext := if s == regs.rs then q.core.rs.ext else q.core.ps.ext;
              var c := if s == regs.rs then q.core.(rs := UnderStep(q.core.rs)) else q.core.(ps := UnderStep(q.core.ps));
              Snap() == FriscPiped.UnderPhib(q, ext, c, i)
    {
      hide Nextstate;
      LatchPointer(s.external);
      s.MoveMarkers(Pop);
      Finish(i);
    }

    method FillSecond(w: FriscPiped.Writeback, i: Input)
      requires Valid()
      modifies this, regs
      ensures Valid()
      ensures var q := old(Snap());
              Snap() == FriscPiped.Finish(FriscPiped.HoldPhib(q, w).(dhold := q.core.mem.Fetch(q.portaddr)), q.core, i)
    {
      hide Nextstate;
      dhold := regs.mem.Fetch(portaddr);
      HoldTop(w);
      Finish(i);
    }

    method Loadphib(i: Input)
      requires Valid()
      modifies this, regs
      ensures Valid() && Snap() == FriscPiped.LoadPhib(old(Snap()), i)
    {
      hide Nextstate;
      dhold := regs.mem.Fetch(portaddr);
      HoldTop(FriscPiped.LoadWriteback);
      if ira.reg2 == R(0) {
        torptr := FromDhold;
      }
      Finish(i);
    }

    method Intphib(chip: Chip)
      requires Valid()
      modifies this, regs
      ensures Valid() && Snap() == FriscPiped.IntPhib(old(Snap()), chip)
    {
      HoldTop(FriscPiped.Nop);
      regs.pcb, regs.cycle := regs.pca, regs.cycle + 1;
      state := TExec;
      irb := chip.decode(regs.mem.Fetch(portaddr));
    }

    method Phib(chip: Chip, i: Input)
      requires Valid()
      modifies this, regs, Stacks()
      ensures Valid() && Snap() == FriscPiped.Phib(old(Snap()), chip, i)
    {
      hide Readreg, FriscPiped.ExecPhib, FriscPiped.StorePhib, FriscPiped.LoadPhib, FriscPiped.IntPhib,
           FriscPiped.UnderPhib, FriscPiped.Finish, FriscPiped.HoldPhib, OverStep, UnderStep;
      match state {
        case TInt => Intphib(chip);
        case TGrant => Finish(i);
        case TExec => ExecPhib(chip, i);
        case TLoad => Loadphib(i);
        case TStore =>
          var v := regs.Read(ira.reg2, pchold);
          StorePhib(v, i);
        case TRsDec => SpillFirst(regs.rs, i);
        case TPsDec => SpillFirst(regs.ps, i);
        case TRsStore =>
          var v := regs.rs.Oldest();
          StorePhib(v, i);
        case TPsStore =>
          var v := regs.ps.Oldest();
          StorePhib(v, i);
        case TRsLoad => FillFirst(regs.rs, i);
        case TPsLoad => FillFirst(regs.ps, i);
        case TRsInc => FillSecond(FriscPiped.RsUnderflow, i);
        case TPsInc => FillSecond(FriscPiped.PsUnderflow, i);
      }
    }

    method Cycle(chip: Chip, i: Input)
      requires Valid()
      modifies this, regs, Stacks()
      ensures Valid() && Snap() == FriscPiped.Cycle(old(Snap()), chip, i)
    {
      hide *;
      Phia();
      Phib(chip, i);
      PipedPhases(old(Snap()), chip, i);
    }

    /** A cycle for each of the inputs. */
    method Run(chip: Chip, inputs: seq<Input>)
      requires Valid()
      modifies this, regs, Stacks()
      ensures Valid() && Snap() == FriscPiped.Run(old(Snap()), chip, inputs)
    {
      hide *;
      var k := 0;
      PipedRunEnd(Snap(), chip, inputs);
      while k < |inputs|
        invariant k <= |inputs| && Valid() && old(Snap()).core.Valid()
        invariant Snap().core.Valid() && FriscPiped.Run(Snap(), chip, inputs[k..]) == FriscPiped.Run(old(Snap()), chip, inputs)
      {
        PipedRunStep(Snap(), chip, inputs, k);
        Cycle(chip, inputs[k]);
        k := k + 1;
      }
      PipedRunEnd(Snap(), chip, inputs);
    }
  }

  lemma {:induction false} PlainPhases(p: FriscPlain.Plain, chip: Chip, i: Input)
    requires p.core.Valid()
    ensures FriscPlain.Cycle(p, chip, i) == FriscPlain.Phib(FriscPlain.Phia(p), chip, i)
  {
  }

  lemma {:induction false} PlainRunEnd(p: FriscPlain.Plain, chip: Chip, inputs: seq<Input>)
    requires p.core.Valid()
    ensures inputs[0..] == inputs && FriscPlain.Run(p, chip, inputs[|inputs|..]) == p
  {
  }

  lemma {:induction false} PlainRunStep(p: FriscPlain.Plain, chip: Chip, inputs: seq<Input>, k: nat)
    requires p.core.Valid() && k < |inputs|
    ensures FriscPlain.Run(p, chip, inputs[k..]) == FriscPlain.Run(FriscPlain.Cycle(p, chip, inputs[k]), chip, inputs[k + 1..])
  {
    hide FriscPlain.Cycle;
    assert inputs[k..][1..] == inputs[k + 1..];
  }

  lemma {:induction false} PipedPhases(p: FriscPiped.Piped, chip: Chip, i: Input)
    requires p.core.Valid()
    ensures FriscPiped.Cycle(p, chip, i) == FriscPiped.Phib(FriscPiped.Phia(p), chip, i)
  {
  }

  lemma {:induction false} PipedRunEnd(p: FriscPiped.Piped, chip: Chip, inputs: seq<Input>)
    requires p.core.Valid()
    ensures inputs[0..] == inputs && FriscPiped.Run(p, chip, inputs[|inputs|..]) == p
  {
  }

  lemma {:induction false} PipedRunStep(p: FriscPiped.Piped, chip: Chip, inputs: seq<Input>, k: nat)
    requires p.core.Valid() && k < |inputs|
    ensures FriscPiped.Run(p, chip, inputs[k..]) == FriscPiped.Run(FriscPiped.Cycle(p, chip, inputs[k]), chip, inputs[k + 1..])
  {
    hide FriscPiped.Cycle;
    assert inputs[k..][1..] == inputs[k + 1..];
  }

  /** The two machines side by side: started on the same instruction with the same registers and
      memory, and run for the same cycles, they end with the same state, memory and cycle count,
      and at an instruction with the same registers. */
  method RunBoth(plain: UnpipelinedUnit, piped: PipelinedUnit, chip: Chip, inputs: seq<Input>)
    requires plain.Valid() && piped.Valid() && {plain.regs} + plain.Stacks() !! {piped.regs} + piped.Stacks()
    requires Aligned(plain.Snap(), piped.Snap()) && InStepRun(plain.Snap(), chip, inputs)
    modifies plain, plain.regs, plain.Stacks(), piped, piped.regs, piped.Stacks()
    ensures plain.Valid() && piped.Valid()
    ensures plain.state == piped.state && plain.regs.mem == piped.regs.mem
    ensures plain.regs.cycle == piped.regs.cycle == old(plain.regs.cycle) + |inputs|
    ensures plain.state.TExec? ==> Aligned(plain.Snap(), piped.Snap())
  {
    hide FriscPlain.Run, FriscPiped.Run, Aligned, InStepRun;
    PipelineEquivalent(plain.Snap(), piped.Snap(), chip, inputs);
    plain.Run(chip, inputs);
    piped.Run(chip, inputs);
  }

  lemma {:induction false} SnapIs(plain: UnpipelinedUnit, piped: PipelinedUnit)
    ensures plain.Snap().state == plain.state && plain.Snap().core.mem == plain.regs.mem
    ensures piped.Snap().state == piped.state && piped.Snap().core.mem == piped.regs.mem && piped.Snap().irb == piped.irb
  {
  }

  /** The two machines side by side execute a disciplined program: once the run ends with an instruction,
      the registers and stacks of the one, and of the other with its pending write made, and the memory
      of both are those that the events leave. */
  method ExecuteBoth(plain: UnpipelinedUnit, piped: PipelinedUnit, chip: Chip, inputs: seq<Input>,
                     ghost lay: FriscRefinement.Layout) returns (ghost es: seq<FriscRuns.Event>, ghost k: nat)
    requires plain.Valid() && piped.Valid() && {plain.regs} + plain.Stacks() !! {piped.regs} + piped.Stacks()
    requires Aligned(plain.Snap(), piped.Snap()) && FriscRefinement.Inv(plain.Snap(), lay)
    requires FriscRuns.Disciplined(FriscRefinement.Abs(plain.Snap(), lay), plain.regs.mem, chip, lay)
    modifies plain, plain.regs, plain.Stacks(), piped, piped.regs, piped.Stacks()
    ensures plain.Valid() && piped.Valid() && |inputs| - 1 <= k <= |inputs|
    ensures FriscRuns.LegalRun(old(FriscRefinement.Abs(plain.Snap(), lay)), old(plain.regs.mem), chip, lay, es)
    ensures plain.state == piped.state && plain.regs.mem == piped.regs.mem
    ensures k == |inputs| ==>
              var (m, mem) := FriscRuns.After(old(FriscRefinement.Abs(plain.Snap(), lay)), old(plain.regs.mem), chip, lay, es);
              && FriscRefinement.Inv(plain.Snap(), lay) && FriscRefinement.Abs(plain.Snap(), lay) == m && plain.regs.mem == mem
              && (piped.state.TExec? ==>
                    var c := FriscPiped.Committed(piped.Snap());
                    FriscRefinement.Ordered(c, lay) && FriscRefinement.AbsOf(c, piped.irb, lay) == m)
  {
    hide FriscPlain.Run, FriscPiped.Run, Aligned, InStepRun, FriscRefinement.Inv, FriscRefinement.Abs, FriscRefinement.Ordered,
         FriscRefinement.AbsOf, FriscRuns.Disciplined, FriscRuns.LegalRun, FriscRuns.After, FriscPiped.Committed;
    ghost var p, q := plain.Snap(), piped.Snap();
    SnapIs(plain, piped);
    FriscRuns.AlignedIs(p, q);
    es, k := FriscRuns.PlainRefinesIsa(p, lay, chip, inputs);
    FriscRuns.DisciplinedInStep(p, lay, chip, inputs);
    PipelineEquivalent(p, q, chip, inputs);
    plain.Run(chip, inputs);
    piped.Run(chip, inputs);
    SnapIs(plain, piped);
    assert inputs[..|inputs|] == inputs;
    if piped.state.TExec? {
      FriscRuns.AlignedIs(plain.Snap(), piped.Snap());
    }
    if k == |inputs| {
      FriscRefinement.InvIs(plain.Snap(), lay);
    }
  }
}
