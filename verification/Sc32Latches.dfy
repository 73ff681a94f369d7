/** What the latches of the SC32 datapath hold in every run, with the stack caches on or off, whatever
    the memory answers, whatever the program does, and with the stack registers rewritten by stores. */
module Sc32Latches {
  import opened Word32
  import opened Registers
  import opened StackCache
  import opened Sc32

  /** The stack registers as a store to the chip's own I/O space can leave them. */
  datatype Setup = Setup(ps: Stk, rs: Stk, rcache: bool, pcache: bool)

  /** What one cycle is given: a pending interrupt, the word that an access brings, and what a store
      makes of the stack registers. */
  datatype Turn = Turn(irq: Option<Vector>, dbus: Word, store: Option<Setup>)

  /** The datapath after phase a and the access. */
  function Accessed(d: Dp, t: Turn): (a: Dp)
    requires d.Valid()
    ensures a.Valid()
  {
    var a := Dpphia(d, t.irq);
    if a.state.TStore? && t.store.Some? && t.store.value.ps.Valid() && t.store.value.rs.Valid() then
      var s := t.store.value;
      a.(ps := s.ps, rs := s.rs, rcache := s.rcache, pcache := s.pcache)
    else a
  }

  function DpCycle(d: Dp, chip: Chip, t: Turn): (e: Dp)
    requires d.Valid()
    ensures e.Valid()
  {
    Dpphib(Accessed(d, t), chip, t.dbus)
  }

  function DpRun(d: Dp, chip: Chip, ts: seq<Turn>): (e: Dp)
    requires d.Valid()
    ensures e.Valid()
  {
    if ts == [] then d else DpCycle(DpRun(d, chip, ts[..|ts| - 1]), chip, ts[|ts| - 1])
  }

  // The anticipated top of the return stack

  predicate TopAnticipated(d: Dp)
    requires d.Valid()
  {
    Tor(d) == WriteBack(d).rs.Get(0)
  }

  /** The top of the return stack after the pending write-back. */
  function TopAfter(d: Dp): Word
    requires d.Valid()
  {
    match d.writeback
    case AluWriteback => if d.oldir.reg2 == R(0) then d.aluout else d.rs.Get(0)
    case ShiftWriteback => if d.oldir.reg2 == R(0) then d.barrelout else d.rs.Get(0)
    case LoadWriteback => if d.oldir.reg2 == R(0) then d.dhold else d.rs.Get(0)
    case AluToTor => d.aluout
    case _ => d.rs.Get(0)
  }

  lemma {:induction false} TopAfterIs(d: Dp)
    requires d.Valid()
    ensures WriteBack(d).rs.Get(0) == TopAfter(d)
  {
    PutGet(d.rs, 4, d.dhold);
    TopWritten(d, PendingReg(d), PendingValue(d));
    hide Stk.Get, Stk.Put, WriteReg;
  }

  lemma {:induction false} PutGet(s: Stk, k: nat, v: Word)
    requires s.Valid() && k < SIZE
    ensures s.Put(k, v).Get(0) == if k == 0 then v else s.Get(0)
  {
  }

  lemma {:induction false} TopWritten(d: Dp, r: Reg, v: Word)
    requires d.Valid()
    ensures WriteReg(d, r, v).rs.Get(0) == if r == R(0) then v else d.rs.Get(0)
  {
    match r {
      case R(k) => PutGet(d.rs, k, v);
      case _ =>
    }
    hide Stk.Get, Stk.Put;
  }

  /** The register that phase b of an execute cycle leaves to be written; ZERO is a sink. */
  function Destination(ir: Instr): Reg {
    match ir.kind
    case Flow => (match ir.brtype case Colon => R(0) case Does => S(0) case _ => ZERO)
    case Micro => ir.reg2
    case Lal => ir.reg2
    case Lah => ir.reg2
    case _ => ZERO
  }

  /** The write-back that an execute cycle leaves pending, and the latch that anticipates it. */
  lemma {:induction false} CleanupAnticipates(ir: Instr, e: Dp)
    requires e.Valid() && e.oldir == ir && (e.tor, e.writeback) == Sc32.Cleanup(ir)
    ensures var v := if ir.kind.Micro? && ir.shift then e.barrelout else e.aluout;
            && WriteBack(e) == WriteReg(e, Destination(ir), v)
            && Tor(e) == if Destination(ir) == R(0) then v else e.hold
  {
    match ir.kind {
      case Flow => FlowAnticipates(ir, e);
      case Micro => MicroAnticipates(ir, e);
      case _ => OtherAnticipates(ir, e);
    }
    hide *;
  }

  lemma {:induction false} FlowAnticipates(ir: Instr, e: Dp)
    requires e.Valid() && e.oldir == ir && ir.kind.Flow? && (e.tor, e.writeback) == Sc32.Cleanup(ir)
    ensures WriteBack(e) == WriteReg(e, Destination(ir), e.aluout)
    ensures Tor(e) == if Destination(ir) == R(0) then e.aluout else e.hold
  {
    hide Stk.Get, WriteReg;
  }

  lemma {:induction false} MicroAnticipates(ir: Instr, e: Dp)
    requires e.Valid() && e.oldir == ir && ir.kind.Micro? && (e.tor, e.writeback) == Sc32.Cleanup(ir)
    ensures var v := if ir.shift then e.barrelout else e.aluout;
            && WriteBack(e) == WriteReg(e, Destination(ir), v)
            && Tor(e) == if Destination(ir) == R(0) then v else e.hold
  {
    hide Stk.Get, WriteReg;
  }

  lemma {:induction false} OtherAnticipates(ir: Instr, e: Dp)
    requires e.Valid() && e.oldir == ir && !ir.kind.Flow? && !ir.kind.Micro? && (e.tor, e.writeback) == Sc32.Cleanup(ir)
    ensures WriteBack(e) == WriteReg(e, Destination(ir), e.aluout)
    ensures Tor(e) == if Destination(ir) == R(0) then e.aluout else e.hold
  {
    hide Stk.Get, WriteReg;
  }

  lemma {:induction false} ComputedIs(d: Dp, out: AluOut)
    requires d.Valid()
    ensures Computed(d, out) == d.(hold := d.rs.Get(0), aluout := out.result, barrelout := out.barrel, y := out.y,
                                   flag := if d.ir.kind.Micro? && d.ir.setflag then out.flinput else d.flag)
  {
    hide Stk.Get;
  }

  lemma {:induction false} FetchedIs(d: Dp, chip: Chip, dbus: Word)
    ensures Fetched(d, chip, dbus)
         == d.(pc := Plus(d.abus, 4), oldir := d.ir, ir := chip.decode(dbus), dbus := dbus)
  {
    hide Plus;
  }

  lemma {:induction false} CleanupIs(d: Dp)
    ensures Execcleanup(d) == d.(tor := Sc32.Cleanup(d.ir).0, writeback := Sc32.Cleanup(d.ir).1)
  {
    hide Sc32.Cleanup;
  }

  /** What phase b of an execute cycle does. */
  lemma {:induction false} ExecIs(d: Dp, chip: Chip, dbus: Word)
    requires d.Valid()
    ensures var out := AluOf(chip, d.ir, d.tbus, d.bbus, d.y, d.flag);
            ExecPhib(d, chip, dbus) ==
              d.(hold := d.rs.Get(0), aluout := out.result, barrelout := out.barrel, y := out.y,
                 flag := if d.ir.kind.Micro? && d.ir.setflag then out.flinput else d.flag,
                 tor := Sc32.Cleanup(d.ir).0, writeback := Sc32.Cleanup(d.ir).1,
                 pc := Plus(d.abus, 4), oldir := d.ir, ir := chip.decode(dbus), dbus := dbus)
  {
    var c := Computed(d, AluOf(chip, d.ir, d.tbus, d.bbus, d.y, d.flag));
    ComputedIs(d, AluOf(chip, d.ir, d.tbus, d.bbus, d.y, d.flag));
    CleanupIs(c);
    FetchedIs(Execcleanup(c), chip, dbus);
    hide AluOf, Execcleanup, Sc32.Cleanup, Computed, Fetched, Plus, Stk.Get;
  }

  lemma {:induction false} ExecAnticipates(d: Dp, chip: Chip, dbus: Word)
    requires d.Valid()
    ensures TopAnticipated(ExecPhib(d, chip, dbus))
  {
    var e := ExecPhib(d, chip, dbus);
    ExecIs(d, chip, dbus);
    CleanupAnticipates(d.ir, e);
    TopWritten(e, Destination(d.ir), if d.ir.kind.Micro? && d.ir.shift then e.barrelout else e.aluout);
    hide Tor, WriteBack, WriteReg, Stk.Get, ExecPhib, Destination, Sc32.Cleanup, AluOf, Plus;
  }

  lemma {:induction false} AnticipatedIs(e: Dp)
    requires e.Valid()
    ensures TopAnticipated(e) <==> Tor(e) == TopAfter(e)
  {
    TopAfterIs(e);
    hide Tor, WriteBack, TopAfter;
  }

  lemma {:induction false} LoadAnticipates(d: Dp, dbus: Word)
    requires d.Valid()
    ensures TopAnticipated(LoadPhib(d, dbus))
  {
    AnticipatedIs(LoadPhib(d, dbus));
    hide TopAnticipated, Stk.Get, WriteBack;
  }

  lemma {:induction false} HoldAnticipates(d: Dp, w: Writeback, dbus: Word)
    requires d.Valid() && (w.Nop? || w.RsUnderflow? || w.PsUnderflow?)
    ensures TopAnticipated(Latched(HoldPhib(d, w), dbus))
  {
    AnticipatedIs(Latched(HoldPhib(d, w), dbus));
    hide TopAnticipated, Stk.Get, WriteBack;
  }

  lemma {:induction false} OverAnticipates(d: Dp, dbus: Word)
    requires d.Valid()
    ensures TopAnticipated(Latched(ROver1Phib(d), dbus)) && TopAnticipated(Latched(POver1Phib(d), dbus))
  {
    AnticipatedIs(Latched(ROver1Phib(d), dbus));
    AnticipatedIs(Latched(POver1Phib(d), dbus));
    RoverTop(d.rs);
    hide TopAnticipated, Stk.Get, WriteBack, RoverStep;
  }

  lemma {:induction false} RoverTop(s: Stk)
    requires s.Valid()
    ensures RoverStep(s).Get(0) == s.Get(0)
  {
  }

  /** Phase b of every kind of cycle but the first of a fill anticipates the top rightly. */
  lemma {:induction false} PhibAnticipates(a: Dp, chip: Chip, dbus: Word)
    requires a.Valid() && !a.state.TRUnder1? && !a.state.TPUnder1?
    ensures TopAnticipated(Dpphib(a, chip, dbus))
  {
    hide ExecPhib, LoadPhib, TopAnticipated, IntPhib, SquashPhib, HoldPhib, Latched, ROver1Phib, POver1Phib;
    match a.state {
      case TExec => ExecAnticipates(a, chip, dbus);
      case TLoad => LoadAnticipates(a, dbus);
      case TInt => IntAnticipates(a, chip, dbus);
      case TSquash => SquashAnticipates(a, chip, dbus);
      case TRUnder2 => HoldAnticipates(a, RsUnderflow, dbus);
      case TPUnder2 => HoldAnticipates(a, PsUnderflow, dbus);
      case TROver1 => OverAnticipates(a, dbus);
      case TPOver1 => OverAnticipates(a, dbus);
      case _ => HoldAnticipates(a, Nop, dbus);
    }
  }

  lemma {:induction false} IntAnticipates(a: Dp, chip: Chip, dbus: Word)
    requires a.Valid()
    ensures TopAnticipated(IntPhib(a, chip, dbus))
  {
    AnticipatedIs(IntPhib(a, chip, dbus));
    hide TopAnticipated, Stk.Get, WriteBack;
  }

  lemma {:induction false} SquashAnticipates(a: Dp, chip: Chip, dbus: Word)
    requires a.Valid()
    ensures TopAnticipated(SquashPhib(a, chip, dbus))
  {
    AnticipatedIs(SquashPhib(a, chip, dbus));
    hide TopAnticipated, Stk.Get, WriteBack;
  }

  /** Phase b leaves the choice of phase a alone, and a fill's first cycle has only one. */
  lemma {:induction false} NextKept(d: Dp, chip: Chip, t: Turn)
    requires d.Valid()
    ensures var a, e := Accessed(d, t), DpCycle(d, chip, t);
            && a.state == d.next && e.state == a.state && e.next == a.next
            && (a.state.TRUnder1? ==> a.next.TRUnder2?) && (a.state.TPUnder1? ==> a.next.TPUnder2?)
  {
    PhiaState(d, t.irq);
    PhibState(Accessed(d, t), chip, t.dbus);
    hide Dpphia, Dpphib;
  }

  lemma {:induction false} PhiaState(d: Dp, irq: Option<Vector>)
    requires d.Valid()
    ensures var a := Dpphia(d, irq);
            && a.state == d.next && (a.state.TRUnder1? ==> a.next.TRUnder2?) && (a.state.TPUnder1? ==> a.next.TPUnder2?)
  {
    hide WriteBack, PhiaOf, Boundary;
  }

  lemma {:induction false} PhibState(a: Dp, chip: Chip, dbus: Word)
    requires a.Valid()
    ensures var e := Dpphib(a, chip, dbus); e.state == a.state && e.next == a.next
  {
    hide Dpphib;
  }

  /** In every run, at every execute cycle after the first, the latch that stands for the top of the
      return stack holds it, once the pending write-back is made. */
  lemma {:induction false} TopAlwaysAnticipated(d: Dp, chip: Chip, ts: seq<Turn>)
    requires d.Valid() && (ts == [] ==> TopAnticipated(d))
    ensures var e := DpRun(d, chip, ts);
            e.next.TExec? ==> TopAnticipated(e) && Tor(Start(e)) == Start(e).rs.Get(0)
  {
    if ts != [] {
      var n := |ts| - 1;
      var before := DpRun(d, chip, ts[..n]);
      NextKept(before, chip, ts[n]);
      var a := Accessed(before, ts[n]);
      hide Dpphib, TopAnticipated, Accessed;
      if !a.state.TRUnder1? && !a.state.TPUnder1? {
        PhibAnticipates(a, chip, ts[n].dbus);
      }
    }
    StartKeepsTor(DpRun(d, chip, ts));
  }

  lemma {:induction false} StartKeepsTor(d: Dp)
    requires d.Valid()
    ensures Tor(Start(d)) == Tor(d) && Start(d).rs == WriteBack(d).rs && Start(d).pc == d.pc && Start(d).ir == d.ir
    ensures TopAnticipated(d) ==> Tor(Start(d)) == Start(d).rs.Get(0)
  {
    hide Stk.Get, Stk.Put, WriteBack;
  }

  // The instruction register

  /** A cycle that takes an instruction latches the word at the address on the bus, and moves the
      program counter past it; every other cycle leaves both alone. */
  lemma {:induction false} FetchLatches(d: Dp, chip: Chip, t: Turn)
    requires d.Valid()
    ensures var a, e := Accessed(d, t), DpCycle(d, chip, t);
            if Fetches(d.next) then a.read && !a.bytemode && e.ir == chip.decode(t.dbus) && e.pc == Plus(a.abus, 4)
            else e.ir == d.ir && e.pc == d.pc
  {
    PhiaFetch(d, t.irq);
    PhibFetch(Accessed(d, t), chip, t.dbus);
    hide Dpphia, Dpphib;
  }

  lemma {:induction false} PhiaFetch(d: Dp, irq: Option<Vector>)
    requires d.Valid()
    ensures var a := Dpphia(d, irq);
            a.state == d.next && a.ir == d.ir && a.pc == d.pc && (Fetches(d.next) ==> a.read && !a.bytemode)
  {
    hide PhiaOf, WriteBack, Nextstate;
  }

  lemma {:induction false} PhibFetch(a: Dp, chip: Chip, dbus: Word)
    requires a.Valid()
    ensures var e := Dpphib(a, chip, dbus);
            if Fetches(a.state) then e.ir == chip.decode(dbus) && e.pc == Plus(a.abus, 4)
            else e.ir == a.ir && e.pc == a.pc
  {
    hide Dpphib;
  }

  datatype Fetch = Fetch(address: Word, word: Word)

  /** The last instruction taken in a run: where from, and what was there. */
  function LastFetch(d: Dp, chip: Chip, ts: seq<Turn>): Option<Fetch>
    requires d.Valid()
  {
    if ts == [] then None
    else
      var n := |ts| - 1;
      var before := DpRun(d, chip, ts[..n]);
      if Fetches(before.next) then Some(Fetch(Accessed(before, ts[n]).abus, ts[n].dbus))
      else LastFetch(d, chip, ts[..n])
  }

  lemma {:induction false} BackFour(a: Word)
    ensures Minus(Plus(a, 4), 4) == a
  {
  }

  /** From the first execute cycle on, the instruction register holds the word last taken, and it was
      taken from the address four below the program counter. */
  lemma {:induction false} IrIsFetched(d: Dp, chip: Chip, ts: seq<Turn>)
    requires d.Valid()
    ensures var e := DpRun(d, chip, ts);
            match LastFetch(d, chip, ts)
            case Some(f) => e.ir == chip.decode(f.word) && Minus(e.pc, 4) == f.address
            case None => e.ir == d.ir && e.pc == d.pc
  {
    if ts != [] {
      var n := |ts| - 1;
      var before := DpRun(d, chip, ts[..n]);
      hide DpCycle, Accessed, Plus, Minus;
      IrIsFetched(d, chip, ts[..n]);
      FetchLatches(before, chip, ts[n]);
      BackFour(Accessed(before, ts[n]).abus);
    }
  }

  lemma {:induction false} ExecIsFetch(d: Dp, chip: Chip, ts: seq<Turn>, k: nat)
    requires d.Valid() && k < |ts| && DpRun(d, chip, ts[..k]).next.TExec?
    ensures LastFetch(d, chip, ts).Some?
  {
    hide DpCycle, Accessed;
    var n := |ts| - 1;
    if k < n {
      assert ts[..n][..k] == ts[..k];
      ExecIsFetch(d, chip, ts[..n], k);
    }
  }

  // What follows for branches and interrupts

  /** Where a conditional branch goes, without prediction. */
  function BranchTarget(c: Dp): Word {
    if c.flag then c.pc else c.ir.dest
  }

  /** The registers that a program sees, but for the program counter and the instruction. */
  predicate SameRegisters(c: Dp, d: Dp) {
    c.ps == d.ps && c.rs == d.rs && c.psw == d.psw && c.y == d.y && c.flag == d.flag && c.udr == d.udr
  }

  /** The execute cycle of a conditional branch fetches from its destination, and is followed by a
      squash cycle exactly if the flag is set. */
  lemma {:induction false} BranchPredicted(d: Dp, chip: Chip, t: Turn)
    requires d.Valid() && d.next.TExec? && d.ir.kind.Flow? && d.ir.brtype.QBranch?
    ensures var c, a, e := Start(d), Accessed(d, t), DpCycle(d, chip, t);
            && a.abus == d.ir.dest && e.writeback.Nop? && SameRegisters(e, c) && e.aluout == d.pc
            && (e.next.TSquash? <==> c.flag)
  {
    StartKeepsTor(d);
    hide WriteBack, Boundary, Stk.Get;
  }

  /** The squash cycle takes the instruction at the address that the branch left in the ALU output. */
  lemma {:induction false} SquashResumes(d: Dp, chip: Chip, t: Turn)
    requires d.Valid() && d.next.TSquash? && d.writeback.Nop?
    ensures var a, e := Accessed(d, t), DpCycle(d, chip, t);
            a.abus == d.aluout && e.writeback.Nop? && SameRegisters(e, d)
  {
    hide Boundary, Stk.Get;
  }

  /** A conditional branch, predicted taken and squashed when it is not, leaves the instruction at the
      target that it would have without prediction, and the registers as they were: it falls through
      to the address after the one it was itself fetched from. */
  lemma {:induction false} BranchGoes(d: Dp, chip: Chip, ts: seq<Turn>, t1: Turn, t2: Turn)
    requires d.Valid()
    requires var b := DpRun(d, chip, ts);
             b.next.TExec? && b.ir.kind.Flow? && b.ir.brtype.QBranch? && LastFetch(d, chip, ts).Some?
    ensures var b := DpRun(d, chip, ts);
            var c := Start(b);
            var d1 := DpCycle(b, chip, t1);
            var (e, word) := if c.flag then (DpCycle(d1, chip, t2), t2.dbus) else (d1, t1.dbus);
            && SameRegisters(e, c) && e.writeback.Nop? && !e.next.TSquash?
            && Minus(e.pc, 4) == BranchTarget(c) && e.ir == chip.decode(word)
            && c.pc == Plus(LastFetch(d, chip, ts).value.address, 4)
  {
    hide *;
    var b := DpRun(d, chip, ts);
    IrIsFetched(d, chip, ts);
    PlusBack(b.pc, LastFetch(d, chip, ts).value.address);
    StartKeepsTor(b);
    ExecFetches(b, chip, t1);
    BranchPredicted(b, chip, t1);
    TargetIs(Start(b));
    BackFour(Accessed(b, t1).abus);
    var d1 := DpCycle(b, chip, t1);
    if Start(b).flag {
      SquashResumes(d1, chip, t2);
      ExecFetches(d1, chip, t2);
      BackFour(Accessed(d1, t2).abus);
      SquashesOnce(d1, chip, t2);
      SameAgain(DpCycle(d1, chip, t2), d1, Start(b));
    }
  }

  lemma {:induction false} TargetIs(c: Dp)
    ensures BranchTarget(c) == if c.flag then c.pc else c.ir.dest
  {
  }

  lemma {:induction false} PlusBack(pc: Word, a: Word)
    requires Minus(pc, 4) == a
    ensures pc == Plus(a, 4)
  {
  }

  lemma {:induction false} ExecFetches(d: Dp, chip: Chip, t: Turn)
    requires d.Valid() && (d.next.TExec? || d.next.TSquash? || d.next.TInt?)
    ensures var a, e := Accessed(d, t), DpCycle(d, chip, t); e.ir == chip.decode(t.dbus) && e.pc == Plus(a.abus, 4)
  {
    hide Accessed, DpCycle;
    FetchLatches(d, chip, t);
  }

  lemma {:induction false} SquashesOnce(d: Dp, chip: Chip, t: Turn)
    requires d.Valid() && d.next.TSquash?
    ensures !DpCycle(d, chip, t).next.TSquash?
  {
    NextKept(d, chip, t);
    hide WriteBack, Dpphib;
  }

  lemma {:induction false} SameAgain(x: Dp, y: Dp, z: Dp)
    requires SameRegisters(x, y) && SameRegisters(y, z)
    ensures SameRegisters(x, z)
  {
  }

  /** An interrupt pushes the address that the instruction in the instruction register, the first one
      not executed, was fetched from, and takes the instruction at its vector. */
  lemma {:induction false} InterruptReturns(d: Dp, chip: Chip, ts: seq<Turn>, t: Turn)
    requires d.Valid()
    requires DpRun(d, chip, ts).next.TInt? && LastFetch(d, chip, ts).Some?
    ensures var b, f := DpRun(d, chip, ts), LastFetch(d, chip, ts).value;
            var e := DpCycle(b, chip, t);
            && b.ir == chip.decode(f.word) && WriteBack(e).rs == Start(b).rs.PushTop().Put(0, f.address)
            && e.pc == Plus(Wrap(b.intvector * 4), 4) && e.ir == chip.decode(t.dbus)
            && WriteBack(e).ps == Start(b).ps && !Ie(WriteBack(e).psw)
  {
    hide *;
    var b := DpRun(d, chip, ts);
    IrIsFetched(d, chip, ts);
    ExecFetches(b, chip, t);
    InterruptCycle(b, chip, t);
  }

  lemma {:induction false} InterruptCycle(d: Dp, chip: Chip, t: Turn)
    requires d.Valid() && d.next.TInt?
    ensures var a, w := Accessed(d, t), WriteBack(DpCycle(d, chip, t));
            && a.abus == Wrap(d.intvector * 4) && w.rs == Start(d).rs.PushTop().Put(0, Minus(d.pc, 4))
            && w.ps == Start(d).ps && w.psw == ClearIe(Start(d).psw) && !Ie(w.psw)
  {
    StartKeepsTor(d);
    IeCleared(Start(d).psw);
    hide Boundary, Stk.Get, ClearIe, Ie, Minus;
  }

  lemma {:induction false} IeCleared(psw: Word)
    ensures !Ie(ClearIe(psw))
  {
  }
}
