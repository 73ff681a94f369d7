/** The SC32 datapath as the simulator keeps it: registers, latches and stack buffers changed in
    place by the two phases of each cycle. */
module Sc32Unit {
  import opened Word32
  import opened Registers
  import opened MainMemory
  import opened StackCache
  import opened StackBuffers
  import opened Sc32

  /** The bus latches that phase a sets together. */
  datatype Buses = Buses(a: Word, b: Word, t: Word, d: Word, read: bool, bytemode: bool)

  /** The latches that phase b leaves for the next write-back. */
  datatype Pending = Pending(hold: Word, torptr: TorSource, writeback: Writeback)

  class Datapath {
    const ps: StackBuffer
    const rs: StackBuffer
    var state: CycleType
    var newstate: CycleType
    var psw: Word
    var actualie: bool
    var rcache: bool
    var pcache: bool
    var aluout: Word
    var barrelout: Word
    var dhold: Word
    var y: Word
    var flag: bool
    var ir: Instr
    var oldir: Instr
    var udr: seq<Word>
    var pc: Word
    var intvector: Vector
    var bus: Buses
    var pending: Pending

    constructor (d: Dp)
      requires d.Valid()
      ensures Valid() && Snap() == d && fresh(ps) && fresh(rs) && fresh(ps.cells) && fresh(rs.cells)
    {
      ps := new StackBuffer(d.ps);
      rs := new StackBuffer(d.rs);
      state, newstate, psw, actualie, rcache, pcache := d.state, d.next, d.psw, d.actualie, d.rcache, d.pcache;
      aluout, barrelout, dhold, y, flag := d.aluout, d.barrelout, d.dhold, d.y, d.flag;
      ir, oldir, udr, pc, intvector := d.ir, d.oldir, d.udr, d.pc, d.intvector;
      pending := Pending(d.hold, d.tor, d.writeback);
      bus := Buses(d.abus, d.bbus, d.tbus, d.dbus, d.read, d.bytemode);
    }

    ghost function Snap(): Dp
      reads this, ps, rs, ps.cells, rs.cells
    {
      Dp(state, newstate, ps.Value(), rs.Value(), psw, actualie, rcache, pcache, pending.hold, aluout, barrelout,
         dhold, y, flag, ir, oldir, udr, pc, pending.torptr, pending.writeback,
         bus.a, bus.b, bus.t, bus.d, bus.read, bus.bytemode, intvector)
    }

    ghost predicate Valid()
      reads this, ps, rs, ps.cells, rs.cells
    {
      ps != rs && ps.cells != rs.cells && ps.Valid() && rs.Valid() && |udr| == 4
    }

    method Readreg(r: Reg) returns (v: Word)
      requires Valid()
      ensures v == ReadReg(Snap(), r)
    {
      match r {
        case S(k) => v := ps.Get(k);
        case R(k) => v := rs.Get(k);
        case U(k) => v := udr[k];
        case IAR => v := pc;
        case PSW => v := psw;
        case ZERO => v := 0;
        case Y => v := y;
      }
    }

    method SetPsw(v: Word)
      requires Valid()
      modifies this`psw, this`actualie
      ensures Valid() && Snap() == old(Snap()).(psw := v, actualie := Ie(v))
    {
      psw, actualie := v, Ie(v);
    }

    method Writereg(r: Reg, wbus: Word)
      requires Valid()
      modifies this`udr, this`psw, this`actualie, this`y, ps.cells, rs.cells
      ensures Valid() && Snap() == WriteReg(old(Snap()), r, wbus)
    {
      hide Ie, Stk.Put, StackBuffer.Value, StackBuffer.Valid;
      match r {
        case S(k) => ps.Put(k, wbus);
        case R(k) => rs.Put(k, wbus);
        case U(k) => udr := udr[k := wbus];
        case PSW => SetPsw(wbus % 0x40);
        case Y => y := wbus;
        case _ =>
      }
    }

    /** Carries out the pending write-back. */
    method DoWriteback()
      requires Valid()
      modifies this`udr, this`psw, this`actualie, this`y, ps.cells, rs.cells
      ensures Valid() && Snap() == WriteBack(old(Snap()))
    {
      hide WriteReg;
      match pending.writeback {
        case RsUnderflow => rs.Put(4, dhold);
        case PsUnderflow => ps.Put(4, dhold);
        case AluWriteback => Writereg(oldir.reg2, aluout);
        case AluToTor => Writereg(R(0), aluout);
        case AluToTos => Writereg(S(0), aluout);
        case ShiftWriteback => Writereg(oldir.reg2, barrelout);
        case LoadWriteback => Writereg(oldir.reg2, dhold);
        case Nop => Writereg(ZERO, aluout);
      }
    }

    method MoveStacks()
      requires Valid()
      modifies ps, rs
      ensures Valid() && Snap() == Stackop(old(Snap()))
    {
      if ir.kind.Flow? {
        match ir.brtype {
          case Colon => rs.Move(Push);
          case Does => ps.Move(Push);
          case _ =>
        }
      } else {
        ps.Move(ir.pop);
        rs.Move(ir.rop);
      }
    }

    // Phase a

    method BusA() returns (v: Word)
      requires Valid()
      ensures v == Asrc(Snap())
    {
      if ir.kind.Flow? {
        v := ir.dest;
      } else if !ir.ret {
        v := pc;
      } else {
        match pending.torptr {
          case FromHold => v := pending.hold;
          case FromAluout => v := aluout;
          case FromBarrel => v := barrelout;
          case FromDhold => v := dhold;
        }
      }
    }

    method BusB() returns (v: Word)
      requires Valid()
      ensures v == Bsrc(Snap())
    {
      if ir.kind.Flow? {
        v := pc;
      } else {
        v := Readreg(ir.reg1);
      }
    }

    method TosOrLiteral() returns (v: Word)
      requires Valid()
      ensures v == if ir.shift && ir.imm then ir.literal else ps.Value().Get(0)
    {
      if ir.shift && ir.imm {
        v := ir.literal;
      } else {
        v := ps.Get(0);
      }
    }

    method BusT() returns (v: Word)
      requires Valid()
      ensures v == Tsrc(Snap())
    {
      match ir.kind {
        case Lah => v := Wrap(ir.offset * 0x1_0000);
        case Flow => v := TosOrLiteral();
        case Micro => v := TosOrLiteral();
        case _ => v := Wrap(ir.offset);
      }
    }

    method Execphia()
      requires Valid()
      modifies this`bus, ps, rs
      ensures Valid() && Snap() == ExecPhia(old(Snap()))
    {
      hide Asrc, Bsrc, Tsrc, Stackop;
      var a := BusA();
      var b := BusB();
      var t := BusT();
      bus := Buses(a, b, t, bus.d, true, false);
      MoveStacks();
    }

    method Storephia()
      requires Valid()
      modifies this`bus
      ensures Valid() && Snap() == StorePhia(old(Snap()))
    {
      hide ReadReg;
      var v := Readreg(oldir.reg2);
      var bytemode := oldir.kind.StoreByte?;
      bus := Buses(aluout, v, bus.t, if bytemode then Spread(v % 256) else v, false, bytemode);
    }

    method Intphia()
      requires Valid()
      modifies this`bus, this`actualie, this`psw, rs
      ensures Valid() && Snap() == IntPhia(old(Snap()))
    {
      bus := Buses(Wrap(intvector * 4), pc, 4, bus.d, true, false);
      actualie := false;
      psw := ClearIe(psw);
      rs.Move(Push);
    }

    /** The next instruction is fetched and discarded while an external pointer moves. */
    method Refetch(ext: Word)
      requires Valid()
      modifies this`bus
      ensures Valid() && Snap() == MarkPhia(old(Snap()), ext)
    {
      bus := Buses(pc, ext, 4, bus.d, true, false);
    }

    /** The second cycle of a spill writes the oldest entry below the external pointer. */
    method SpillPhia(s: StackBuffer)
      requires Valid() && (s == ps || s == rs)
      modifies this`bus, s
      ensures Valid() && Snap() == if s == rs then ROver2Phia(old(Snap())) else POver2Phia(old(Snap()))
    {
      var v := s.Oldest();
      s.SetExternal(aluout);
      bus := Buses(aluout, v, bus.t, v, false, false);
    }

    /** The second cycle of a fill reads at the old external pointer. */
    method FillPhia(s: StackBuffer)
      requires Valid() && (s == ps || s == rs)
      modifies this`bus, s
      ensures Valid() && Snap() == if s == rs then RUnder2Phia(old(Snap())) else PUnder2Phia(old(Snap()))
    {
      bus := bus.(a := pending.hold, read := true, bytemode := false);
      s.SetExternal(aluout);
    }

    method CyclePhia()
      requires Valid()
      modifies this`bus, this`actualie, this`psw, ps, rs
      ensures Valid() && Snap() == PhiaOf(old(Snap()))
    {
      hide ExecPhia, StorePhia, IntPhia, MarkPhia, ROver2Phia, POver2Phia, RUnder2Phia, PUnder2Phia;
      match state {
        case TInt => Intphia();
        case TExec => Execphia();
        case TLoad => bus := bus.(a := aluout, read := true, bytemode := oldir.kind.LoadByte?);
        case TStore => Storephia();
        case TSquash => bus := bus.(a := aluout, read := true, bytemode := false);
        case TROver1 => Refetch(rs.external);
        case TRUnder1 => Refetch(rs.external);
        case TPOver1 => Refetch(ps.external);
        case TPUnder1 => Refetch(ps.external);
        case TROver2 => SpillPhia(rs);
        case TRUnder2 => FillPhia(rs);
        case TPOver2 => SpillPhia(ps);
        case TPUnder2 => FillPhia(ps);
      }
    }

    /** Whether the instruction in progress is about to change the interrupt enable. */
    method Suppressed() returns (suppress: bool)
      requires Valid()
      ensures suppress == IntSuppress(Snap())
    {
      suppress := false;
      if state.TExec? && (ir.kind.Micro? || ir.kind.Lah? || ir.kind.Lal?) {
        suppress := ir.reg2.PSW?;
      } else if state.TLoad? {
        suppress := oldir.reg2.PSW?;
      }
    }

    method Finished(irq: Option<Vector>)
      requires Valid()
      modifies this`newstate, this`intvector
      ensures Valid() && Snap() == Boundary(old(Snap()), irq)
    {
      hide IntSuppress;
      if rcache && rs.top == rs.over {
        newstate := TROver1;
      } else if rcache && rs.top == rs.under {
        newstate := TRUnder1;
      } else if pcache && ps.top == ps.over {
        newstate := TPOver1;
      } else if pcache && ps.top == ps.under {
        newstate := TPUnder1;
      } else {
        var suppress := Suppressed();
        if actualie && !suppress && irq.Some? {
          newstate, intvector := TInt, irq.value;
        } else {
          newstate := TExec;
        }
      }
    }

    method SetNewstate(t: CycleType)
      requires Valid()
      modifies this`newstate
      ensures Valid() && Snap() == old(Snap()).(next := t)
    {
      newstate := t;
    }

    method SetNextstate(irq: Option<Vector>)
      requires Valid()
      modifies this`newstate, this`intvector
      ensures Valid() && Snap() == Nextstate(old(Snap()), irq)
    {
      hide Boundary;
      match state {
        case TExec =>
          if ir.kind.Load? || ir.kind.LoadByte? {
            SetNewstate(TLoad);
          } else if ir.kind.Store? || ir.kind.StoreByte? {
            SetNewstate(TStore);
          } else if ir.kind.Flow? && ir.brtype.QBranch? && flag {
            SetNewstate(TSquash);
          } else {
            Finished(irq);
          }
        case TROver1 => SetNewstate(TROver2);
        case TRUnder1 => SetNewstate(TRUnder2);
        case TPOver1 => SetNewstate(TPOver2);
        case TPUnder1 => SetNewstate(TPUnder2);
        case _ => Finished(irq);
      }
    }

    /** Phase a of a cycle. */
    method PhaseA(irq: Option<Vector>)
      requires Valid()
      modifies this, ps, rs, ps.cells, rs.cells
      ensures Valid() && Snap() == Dpphia(old(Snap()), irq)
    {
      hide WriteBack, PhiaOf, Nextstate;
      DoWriteback();
      state := newstate;
      CyclePhia();
      SetNextstate(irq);
    }

    // Phase b

    method HoldRs()
      requires Valid()
      modifies this`pending
      ensures Valid() && Snap() == old(Snap()).(hold := old(Snap()).rs.Get(0))
    {
      var hold := rs.Get(0);
      pending := pending.(hold := hold);
    }

    method AluLatches(out: AluOut)
      requires Valid()
      modifies this`aluout, this`barrelout, this`y
      ensures Valid() && Snap() == old(Snap()).(aluout := out.result, barrelout := out.barrel, y := out.y)
    {
      aluout, barrelout, y := out.result, out.barrel, out.y;
    }

    method SetFlag(b: bool)
      requires Valid()
      modifies this`flag
      ensures Valid() && Snap() == old(Snap()).(flag := b)
    {
      flag := b;
    }

    method Compute(chip: Chip)
      requires Valid()
      modifies this`pending, this`aluout, this`barrelout, this`y, this`flag
      ensures Valid()
      ensures var d := old(Snap());
              Snap() == Computed(d, AluOf(chip, d.ir, d.tbus, d.bbus, d.y, d.flag))
    {
      hide AluOf, Stk.Get;
      var out := AluOf(chip, ir, bus.t, bus.b, y, flag);
      HoldRs();
      AluLatches(out);
      if ir.kind.Micro? && ir.setflag {
        SetFlag(out.flinput);
      }
    }

    /** The latch that anticipates the top of the return stack, and the write-back to come. */
    method Anticipate() returns (torptr: TorSource, writeback: Writeback)
      requires Valid()
      ensures (torptr, writeback) == Sc32.Cleanup(ir)
    {
      torptr, writeback := FromHold, Nop;
      var tor0 := ir.reg2 == R(0);
      match ir.kind {
        case Flow =>
          if ir.brtype.Colon? {
            torptr, writeback := FromAluout, AluToTor;
          } else if ir.brtype.Does? {
            writeback := AluToTos;
          }
        case Micro =>
          writeback := if ir.shift then ShiftWriteback else AluWriteback;
          torptr := if !tor0 then FromHold else if ir.shift then FromBarrel else FromAluout;
        case Lal => torptr, writeback := if tor0 then FromAluout else FromHold, AluWriteback;
        case Lah => torptr, writeback := if tor0 then FromAluout else FromHold, AluWriteback;
        case _ =>
      }
    }

    /** The executed instruction is kept for its write-back, the fetched one comes next. */
    method NextInstruction(chip: Chip, data: Word)
      requires Valid()
      modifies this`pc, this`bus, this`ir, this`oldir
      ensures Valid() && Snap() == Fetched(old(Snap()), chip, data)
    {
      oldir := ir;
      Latch(chip, data);
    }

    /** The program counter and the fetched instruction. */
    method Latch(chip: Chip, data: Word)
      requires Valid()
      modifies this`pc, this`bus, this`ir
      ensures Valid()
      ensures Snap() == old(Snap()).(pc := Plus(old(Snap()).abus, 4), dbus := data, ir := chip.decode(data))
    {
      pc := Plus(bus.a, 4);
      bus := bus.(d := data);
      ir := chip.decode(data);
    }

    method Cleanup()
      requires Valid()
      modifies this`pending
      ensures Valid() && Snap() == Execcleanup(old(Snap()))
    {
      hide Sc32.Cleanup;
      var torptr, writeback := Anticipate();
      pending := pending.(torptr := torptr, writeback := writeback);
    }

    method Execphib(chip: Chip, data: Word)
      requires Valid()
      modifies this
      ensures Valid() && Snap() == ExecPhib(old(Snap()), chip, data)
    {
      hide AluOf, Execcleanup, Computed, Fetched;
      Compute(chip);
      Cleanup();
      NextInstruction(chip, data);
    }

    method HoldTop(w: Writeback)
      requires Valid()
      modifies this`pending
      ensures Valid() && Snap() == HoldPhib(old(Snap()), w)
    {
      var hold := rs.Get(0);
      pending := Pending(hold, FromHold, w);
    }

    /** The first cycle of a spill: the markers, and the address below the external pointer. */
    method SpillPhib(s: StackBuffer)
      requires Valid() && (s == ps || s == rs)
      modifies this`aluout, this`pending, s
      ensures Valid()
      ensures Snap() == if s == rs then ROver1Phib(old(Snap())) else POver1Phib(old(Snap()))
    {
      s.MoveMarkers(Push);
      aluout := Minus(bus.b, bus.t);
      HoldTop(Nop);
    }

    /** The first cycle of a fill keeps the external pointer, where the entry is to come from. */
    method FillsPhib(s: StackBuffer)
      requires Valid() && (s == ps || s == rs)
      modifies this`aluout, this`pending, s
      ensures Valid()
      ensures Snap() == if s == rs then RUnder1Phib(old(Snap())) else PUnder1Phib(old(Snap()))
    {
      s.MoveMarkers(Pop);
      aluout := Plus(bus.b, bus.t);
      pending := Pending(s.external, FromHold, Nop);
    }

    method Loadphib(data: Word)
      requires Valid()
      modifies this`bus, this`dhold, this`pending
      ensures Valid() && Snap() == LoadPhib(old(Snap()), data)
    {
      var hold := rs.Get(0);
      pending := Pending(hold, if oldir.reg2 == R(0) then FromDhold else FromHold, LoadWriteback);
      dhold := if oldir.kind.LoadByte? then ByteAt(data, bus.a % 4) else data;
      bus := bus.(d := data);
    }

    method DataIn(data: Word)
      requires Valid()
      modifies this`bus, this`dhold
      ensures Valid() && Snap() == Latched(old(Snap()), data)
    {
      dhold := data;
      bus := bus.(d := data);
    }

    method Intphib(chip: Chip, data: Word)
      requires Valid()
      modifies this
      ensures Valid() && Snap() == IntPhib(old(Snap()), chip, data)
    {
      aluout := Minus(bus.b, bus.t);
      var hold := rs.Get(0);
      pending := Pending(hold, FromAluout, AluToTor);
      Latch(chip, data);
    }

    method Squashphib(chip: Chip, data: Word)
      requires Valid()
      modifies this
      ensures Valid() && Snap() == SquashPhib(old(Snap()), chip, data)
    {
      HoldTop(Nop);
      Latch(chip, data);
    }

    /** Phase b of a cycle; `data` is what the access of phase a has brought. */
    method PhaseB(chip: Chip, data: Word)
      requires Valid()
      modifies this, ps, rs
      ensures Valid() && Snap() == Dpphib(old(Snap()), chip, data)
    {
      hide ExecPhib, LoadPhib, IntPhib, SquashPhib, HoldPhib, ROver1Phib, RUnder1Phib, POver1Phib, PUnder1Phib, Latched;
      match state {
        case TExec => Execphib(chip, data);
        case TInt => Intphib(chip, data);
        case TLoad => Loadphib(data);
        case TSquash => Squashphib(chip, data);
        case TROver1 =>
          SpillPhib(rs);
          DataIn(data);
        case TRUnder1 =>
          FillsPhib(rs);
          DataIn(data);
        case TPOver1 =>
          SpillPhib(ps);
          DataIn(data);
        case TPUnder1 =>
          FillsPhib(ps);
          DataIn(data);
        case TRUnder2 =>
          HoldTop(RsUnderflow);
          DataIn(data);
        case TPUnder2 =>
          HoldTop(PsUnderflow);
          DataIn(data);
        case _ =>
          HoldTop(Nop);
          DataIn(data);
      }
    }
  }
}
