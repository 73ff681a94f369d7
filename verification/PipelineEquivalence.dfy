/** The pipelined machine does what the unpipelined one does, cycle by cycle. */
module PipelineEquivalence {
  import opened Division
  import opened Word32
  import opened Registers
  import opened StackCache
  import opened Frisc
  import opened FriscPlain
  import opened FriscPiped

  /** The registers that the unpipelined machine has where the pipelined one is: those after the
      pending write-back, except between the two cycles of a spill or a fill. */
  ghost function Ahead(q: Piped): (c: Core)
    requires q.core.Valid()
    ensures c.Valid()
  {
    match q.state
    case TRsStore => q.core.(rs := q.core.rs.(ext := q.aluout))
    case TPsStore => q.core.(ps := q.core.ps.(ext := q.aluout))
    case TRsInc => q.core.(rs := q.core.rs.Put(4, q.core.mem.Fetch(q.core.rs.ext)))
    case TPsInc => q.core.(ps := q.core.ps.Put(4, q.core.mem.Fetch(q.core.ps.ext)))
    case _ => Committed(q)
  }

  predicate SecondCycle(s: CycleType) {
    s.TRsStore? || s.TPsStore? || s.TRsInc? || s.TPsInc? || s.TLoad? || s.TStore?
  }

  ghost predicate Latches(p: Plain, q: Piped)
    requires q.core.Valid()
  {
    && (SecondCycle(q.state) ==> q.writeback.Nop?)
    && (q.state.TRsInc? ==> q.hold == q.core.rs.ext && q.aluout == Plus(q.core.rs.ext, 1))
    && (q.state.TPsInc? ==> q.hold == q.core.ps.ext && q.aluout == Plus(q.core.ps.ext, 1))
    && (q.state.TLoad? || q.state.TStore? ==> q.irb == q.oldir == p.oldir && p.aluout == q.aluout)
    && (!q.state.TLoad? && !q.state.TStore? ==> q.irb == p.ir)
    && (!q.state.TExec? && !q.state.TGrant? ==> q.irholdb == p.ir)
    && (!q.state.TRsInc? && !q.state.TPsInc? ==> Tor(q) == Committed(q).rs.Get(0))
  }

  /** The pending write-back does not turn interrupts on. */
  predicate PendingOff(q: Piped)
    requires q.core.Valid()
  {
    !Ie(Committed(q).psw)
  }

  /** Interrupts off, the same state, and the same registers. */
  ghost predicate Related(p: Plain, q: Piped) {
    && p.core.Valid() && q.core.Valid()
    && !Ie(q.core.psw) && !q.core.actualie
    && p.state == q.state && !q.state.TInt?
    && PendingOff(q)
    && p.core == Ahead(q)
    && Latches(p, q)
  }

  // What keeps the machines in step

  predicate Writes(ir: Instr) {
    ir.kind.Micro? || ir.kind.Lal? || ir.kind.Lah?
  }

  /** Whether it makes no difference that the choice of the next cycle comes before the write, and
      that the top of the return stack was anticipated. */
  predicate Harmless(c: Core, r: Reg, v: Word, state: CycleType, ir: Instr, i: Input)
    requires c.Valid()
  {
    var d := Writereg(c, r, v);
    && Nextstate(state, ir, d, i) == Nextstate(state, ir, c, i) && !Ie(d.psw)
    && (r == R(0) || d.rs.Get(0) == c.rs.Get(0))
  }

  /** The registers in phase b of a first cycle, before anything is written back. */
  ghost function ExecCore(p: Plain, chip: Chip): (c: Core)
    requires p.core.Valid()
    ensures c.Valid()
  {
    var p1 := FriscPlain.Phia(p);
    var out := Alu(chip, p.ir, p1.alua, p1.alub, p1.core.y, p1.core.flag);
    p1.core.(y := out.y, flag := out.flag)
  }

  /** What a first cycle writes. */
  ghost function ExecValue(p: Plain, chip: Chip): Word
    requires p.core.Valid()
  {
    var p1 := FriscPlain.Phia(p);
    var out := Alu(chip, p.ir, p1.alua, p1.alub, p1.core.y, p1.core.flag);
    FriscPlain.Bsrcb(p.ir, out, Barrel(chip, p.ir, p1.alua, p1.alub))
  }

  /** The register that this cycle of the unpipelined machine writes, if any, is harmless. */
  ghost predicate InStep(p: Plain, chip: Chip, i: Input)
    requires p.core.Valid()
  {
    && (p.state.TExec? && Writes(p.ir) ==>
          Harmless(ExecCore(p, chip), p.ir.reg2, ExecValue(p, chip), TExec, p.ir, i))
    && (p.state.TLoad? ==> Harmless(p.core, p.oldir.reg2, p.core.mem.Fetch(p.aluout), TLoad, p.ir, i))
  }

  /** What a write to anything but the status words leaves alone. */
  lemma WriteFrame(c: Core, r: Reg, v: Word)
    requires c.Valid() && !StatusWrite(c, r)
    ensures var c' := Writereg(c, r, v);
            && c'.psw == c.psw && c'.ssw == c.ssw && c'.actualie == c.actualie && c'.flag == c.flag
            && c'.pca == c.pca && c'.pcb == c.pcb && c'.intvector == c.intvector && c'.mem == c.mem
            && c'.cycle == c.cycle && c'.rs.top == c.rs.top && c'.rs.over == c.rs.over
            && c'.rs.under == c.rs.under && c'.ps.top == c.ps.top && c'.ps.over == c.ps.over
            && c'.ps.under == c.ps.under
            && c'.rs.Get(0) == if r == R(0) then v else c.rs.Get(0)
  {
  }

  /** Writing a register commutes with everything the end of a cycle changes. */
  lemma WriteLater(c: Core, r: Reg, v: Word, pcb: Word, iv: Word, n: nat)
    requires c.Valid()
    ensures Writereg(c.(pcb := pcb, intvector := iv, cycle := n), r, v)
            == Writereg(c, r, v).(pcb := pcb, intvector := iv, cycle := n)
  {
  }

  lemma WriteTwice(c: Core, r: Reg, v: Word)
    requires c.Valid()
    ensures var c' := Writereg(c, r, v);
            && Writereg(c', r, v) == c' && c'.pcb == c.pcb && c'.actualie == c.actualie
            && c'.mem == c.mem && c'.cycle == c.cycle && c'.intvector == c.intvector && c'.pca == c.pca
  {
    match r {
      case S(k) => assert c.ps.Put(k, v).Put(k, v) == c.ps.Put(k, v);
      case R(k) => assert c.rs.Put(k, v).Put(k, v) == c.rs.Put(k, v);
      case U(k) =>
      case _ =>
    }
  }

  /** Writes to anything but the status words are harmless. */
  lemma {:induction false} TameIsHarmless(c: Core, r: Reg, v: Word, state: CycleType, ir: Instr, i: Input)
    requires c.Valid() && !Ie(c.psw) && !StatusWrite(c, r)
    ensures Harmless(c, r, v, state, ir, i)
  {
    WriteFrame(c, r, v);
    hide Writereg;
  }

  /** The write-back after the end of a cycle is the write before it. */
  lemma WriteAtEnd(c: Core, r: Reg, v: Word, state: CycleType, ir: Instr, i: Input)
    requires c.Valid() && !c.actualie
    ensures var next := Nextstate(state, ir, c, i); var c' := Writereg(c, r, v);
            !next.TInt? && Writereg(Advance(c, next, i), r, v) == Advance(c', next, i)
  {
    WriteTwice(c, r, v);
    hide Writereg;
    var next := Nextstate(state, ir, c, i);
    WriteLater(c, r, v, Plus(c.pca, 1), c.intvector, c.cycle + 1);
  }

  /** What a pending write-back leaves alone, and that making it twice is making it once. */
  lemma CommitFrame(q: Piped)
    requires q.core.Valid()
    ensures var c := Committed(q);
            && c.pcb == q.core.pcb && c.actualie == q.core.actualie && c.mem == q.core.mem && c.cycle == q.core.cycle
            && c == Committed(q.(core := c))
  {
    match q.writeback {
      case AluWriteback => WriteTwice(q.core, q.oldir.reg2, q.aluout);
      case ShiftWriteback => WriteTwice(q.core, q.oldir.reg2, q.barrelout);
      case LoadWriteback => WriteTwice(q.core, q.oldir.reg2, q.dhold);
      case _ => hide Writereg;
    }
  }

  /** The pending write-back at the end of a cycle that does nothing else to the registers. */
  lemma CommitLater(q: Piped, pcb: Word, iv: Word, n: nat)
    requires q.core.Valid()
    ensures Committed(q.(core := q.core.(pcb := pcb, intvector := iv, cycle := n)))
            == Committed(q).(pcb := pcb, intvector := iv, cycle := n)
  {
    hide Writereg;
    match q.writeback {
      case AluWriteback => WriteLater(q.core, q.oldir.reg2, q.aluout, pcb, iv, n);
      case ShiftWriteback => WriteLater(q.core, q.oldir.reg2, q.barrelout, pcb, iv, n);
      case LoadWriteback => WriteLater(q.core, q.oldir.reg2, q.dhold, pcb, iv, n);
      case _ =>
    }
  }

  /** Phase a of a cycle that is not the second of a spill or fill starts from equal registers. */
  lemma StartEqual(p: Plain, q: Piped)
    requires Related(p, q)
    requires !q.state.TRsStore? && !q.state.TPsStore? && !q.state.TRsInc? && !q.state.TPsInc?
    ensures Start(q).core == p.core && p.core.(actualie := Ie(p.core.psw)) == p.core
    ensures Tor(Start(q)) == p.core.rs.Get(0) && Start(q).pchold == p.core.pcb
    ensures !Ie(p.core.psw) && !p.core.actualie
  {
    CommitFrame(q);
  }

  lemma Relate(p: Plain, q: Piped)
    requires p.core.Valid() && q.core.Valid()
    requires q.state == p.state && !Ie(q.core.psw) && !q.core.actualie
    requires q.state in {TExec, TGrant, TRsDec, TPsDec, TRsLoad, TPsLoad} || (Loading(q.state) && q.writeback.Nop?)
    requires !Ie(p.core.psw) && p.core == Committed(q) && Tor(q) == Committed(q).rs.Get(0)
    requires Loading(q.state) ==> q.irb == q.oldir == p.oldir && p.aluout == q.aluout
    requires !Loading(q.state) ==> q.irb == p.ir
    requires !q.state.TExec? && !q.state.TGrant? ==> q.irholdb == p.ir
    ensures Related(p, q)
  {
    CommitFrame(q);
  }

  /** The machines are related after a cycle exactly if the unpipelined one is in the same state,
      with interrupts off and the top of its return stack anticipated. */
  lemma {:induction false} RelateExactly(p: Plain, q: Piped)
    requires p.core.Valid() && q.core.Valid() && !Ie(q.core.psw) && !q.core.actualie
    requires q.state in {TExec, TGrant, TRsDec, TPsDec, TRsLoad, TPsLoad} || (Loading(q.state) && q.writeback.Nop?)
    requires q.state == p.state ==> p.core == Committed(q)
    requires Loading(q.state) ==> q.irb == q.oldir == p.oldir && p.aluout == q.aluout
    requires !Loading(q.state) ==> q.irb == p.ir
    requires !q.state.TExec? && !q.state.TGrant? ==> q.irholdb == p.ir
    ensures Related(p, q) <==> p.state == q.state && !Ie(p.core.psw) && Tor(q) == p.core.rs.Get(0)
  {
    if p.state == q.state && !Ie(p.core.psw) && Tor(q) == p.core.rs.Get(0) {
      Relate(p, q);
    }
    hide Writereg;
  }

  predicate Loading(s: CycleType) {
    s.TLoad? || s.TStore?
  }

  lemma SameCommitted(q: Piped, q1: Piped, s: CycleType)
    requires q.core.Valid() && q == q1.(state := s)
    ensures Committed(q) == Committed(q1) && Tor(q) == Tor(q1)
  {
  }

  lemma GrantCycle(p: Plain, q: Piped, chip: Chip, i: Input)
    requires Related(p, q) && p.state.TGrant?
    ensures Related(FriscPlain.Cycle(p, chip, i), FriscPiped.Cycle(q, chip, i))
  {
    hide *;
    RelatedValid(p, q);
    GrantLatches(p, q);
    StartEqual(p, q);
    GrantWaits(p, q, chip, i);
    StartsCommitted(q);
    NextOfGrant(p.ir, p.core, i);
    GrantEnds(p, Start(q), Nextstate(TGrant, p.ir, p.core, i), i);
  }

  lemma {:induction false} RelatedValid(p: Plain, q: Piped)
    requires Related(p, q)
    ensures p.core.Valid() && q.core.Valid() && !Ie(q.core.psw) && !q.core.actualie && q.state == p.state
  {
    hide Ahead, Latches, PendingOff, Ie;
  }

  lemma {:induction false} GrantEnds(p: Plain, q: Piped, next: CycleType, i: Input)
    requires p.core.Valid() && q.core == p.core && Committed(q) == q.core && Tor(q) == p.core.rs.Get(0) && q.irb == p.ir
    requires next in {TGrant, TExec} && !Ie(p.core.psw) && !p.core.actualie
    ensures var c := Advance(p.core, next, i);
            Related(p.(core := c, state := next), q.(core := c, state := next))
  {
    var c := Advance(p.core, next, i);
    var q1 := q.(core := c);
    CommitAdvanced(q, next, i);
    AdvanceLeaves(p.core, next, i);
    TorIgnoresCore(q, c);
    hide Writereg, Related, Committed, Tor, Ie, Advance;
    SameCommitted(q1.(state := next), q1, next);
    Relate(p.(core := c, state := next), q1.(state := next));
  }

  lemma {:induction false} AdvanceKeeps(c: Core, next: CycleType, i: Input)
    requires !next.TInt?
    ensures Advance(c, next, i) == c.(pcb := Plus(c.pca, 1), intvector := c.intvector, cycle := c.cycle + 1)
  {
  }

  lemma {:induction false} CommitAdvanced(q: Piped, next: CycleType, i: Input)
    requires q.core.Valid() && Committed(q) == q.core && !next.TInt?
    ensures var c := Advance(q.core, next, i); c.Valid() && Committed(q.(core := c)) == c
  {
    hide *;
    var pcb, n := Plus(q.core.pca, 1), q.core.cycle + 1;
    AdvanceLeaves(q.core, next, i);
    AdvanceKeeps(q.core, next, i);
    CommitLater(q, pcb, q.core.intvector, n);
    assert Advance(q.core, next, i) == q.core.(pcb := pcb, intvector := q.core.intvector, cycle := n);
  }

  lemma {:induction false} AdvanceLeaves(c: Core, next: CycleType, i: Input)
    requires !next.TInt?
    ensures var d := Advance(c, next, i);
            d.rs == c.rs && d.psw == c.psw && d.actualie == c.actualie && (c.Valid() ==> d.Valid())
  {
  }

  lemma {:induction false} NextOfGrant(ir: Instr, c: Core, i: Input)
    requires !c.actualie
    ensures Nextstate(TGrant, ir, c, i) in {TGrant, TExec}
  {
  }

  lemma {:induction false} TorIgnoresCore(q: Piped, c: Core)
    ensures Tor(q.(core := c)) == Tor(q)
  {
  }

  lemma {:induction false} GrantLatches(p: Plain, q: Piped)
    requires Related(p, q) && p.state.TGrant?
    ensures p.core.Valid() && q.core.Valid() && !q.core.actualie && Start(q).irb == p.ir && q.state.TGrant?
    ensures !Start(q).core.actualie && Start(q).state.TGrant?
  {
    CommitFrame(q);
    hide Committed;
  }

  lemma {:induction false} StartsCommitted(q: Piped)
    requires q.core.Valid() && !Ie(q.core.psw) && !q.core.actualie
    ensures Committed(Start(q)) == Start(q).core
  {
    CommitFrame(q);
    SameCommitted(Start(q).(state := q.state), Start(q), q.state);
    CommittedOf(Start(q), q.(core := Committed(q)));
    hide Committed;
  }

  lemma {:induction false} CommittedOf(q: Piped, q1: Piped)
    requires q.core.Valid() && q.core == q1.core && q.writeback == q1.writeback && q.oldir == q1.oldir
    requires q.aluout == q1.aluout && q.barrelout == q1.barrelout && q.dhold == q1.dhold
    ensures Committed(q) == Committed(q1)
  {
    hide Writereg;
  }

  /** While the buses are granted only the clock goes on. */
  lemma {:induction false} GrantWaits(p: Plain, q: Piped, chip: Chip, i: Input)
    requires Related(p, q) && p.state.TGrant? && Start(q).core == p.core && p.core.(actualie := Ie(p.core.psw)) == p.core
    requires !p.core.actualie
    ensures var next := Nextstate(TGrant, p.ir, p.core, i);
            && !next.TInt?
            && FriscPlain.Cycle(p, chip, i) == p.(core := Advance(p.core, next, i), state := next)
            && FriscPiped.Cycle(q, chip, i) == Start(q).(core := Advance(p.core, next, i), state := next)
  {
    hide Writereg, Latches, Ahead, Committed, Boundary;
  }

  lemma ExecOperands(p: Plain, q: Piped)
    requires Related(p, q) && p.state.TExec?
    ensures var p1, q1 := FriscPlain.Phia(p), FriscPiped.Phia(q);
            && p1.ir == q1.ira == p.ir && p1.portaddr == q1.portaddr
            && p1.core == Stackop(q1.core, p.ir) && q1.core == p.core.(pca := p1.portaddr)
            && p1.alua == Tsource(q1.core, p.ir) && p1.alub == FriscPiped.Bsrcb(q1)
  {
    StartEqual(p, q);
  }

  /** Both ways of writing what the first cycle computes: at once, or as the pending write-back. */
  lemma ExecWrites(c: Core, q: Piped, chip: Chip, a: Word, b: Word, out: AluOut, state: CycleType, i: Input)
    requires c.Valid() && !c.actualie && !Ie(c.psw)
    requires q.hold == c.rs.Get(0) && q.oldir == q.ira
    requires q.aluout == Result(q.ira, out) && q.barrelout == Barrel(chip, q.ira, a, b)
    ensures var v := FriscPlain.Bsrcb(q.ira, out, Barrel(chip, q.ira, a, b));
            var d := Bdest(c, q.ira, v);
            var next := Nextstate(state, q.ira, c, i);
            var q' := Execcleanup(q.(core := Advance(c, next, i)));
            && !next.TInt? && Committed(q') == Advance(d, next, i) && d.mem == c.mem && d.actualie == c.actualie
            && (Nextstate(state, q.ira, d, i) == next && !Ie(d.psw) && Tor(q') == d.rs.Get(0)
                <==> (Writes(q.ira) ==> Harmless(c, q.ira.reg2, v, state, q.ira, i)))
  {
    var v := FriscPlain.Bsrcb(q.ira, out, Barrel(chip, q.ira, a, b));
    var next := Nextstate(state, q.ira, c, i);
    CleanupKeeps(q.(core := Advance(c, next, i)));
    NoInterrupt(state, q.ira, c, i);
    if Writes(q.ira) {
      WriteAtEnd(c, q.ira.reg2, v, state, q.ira, i);
      WriteTwice(c, q.ira.reg2, v);
      TopWritten(c, q.ira.reg2, v);
      WritesLater(Execcleanup(q.(core := Advance(c, next, i))), chip, a, b, out);
    } else {
      WritesNothing(c, q, v, out, next, i);
    }
    hide Writereg, Execcleanup, Committed, Nextstate, Ie, FriscPlain.Bsrcb, Result, Barrel, Tor;
  }

  lemma {:induction false} NoInterrupt(state: CycleType, ir: Instr, c: Core, i: Input)
    requires !c.actualie
    ensures !Nextstate(state, ir, c, i).TInt?
  {
    hide Nextstate;
  }

  lemma {:induction false} CleanupKeeps(q: Piped)
    ensures var e := Execcleanup(q);
            && e.core == q.core && e.ira == q.ira && e.oldir == q.oldir && e.hold == q.hold && e.aluout == q.aluout
            && e.barrelout == q.barrelout
            && e.tor == Execcleanup(e).tor && e.writeback == Execcleanup(e).writeback
  {
  }

  /** The pending write-back of an instruction that writes a register is that write. */
  lemma {:induction false} WritesLater(q: Piped, chip: Chip, a: Word, b: Word, out: AluOut)
    requires q.core.Valid() && Writes(q.ira) && q.oldir == q.ira
    requires q.tor == Execcleanup(q).tor && q.writeback == Execcleanup(q).writeback
    requires q.aluout == Result(q.ira, out) && q.barrelout == Barrel(chip, q.ira, a, b)
    ensures var v := FriscPlain.Bsrcb(q.ira, out, Barrel(chip, q.ira, a, b));
            Committed(q) == Writereg(q.core, q.ira.reg2, v) && Tor(q) == if q.ira.reg2 == R(0) then v else q.hold
  {
    hide Writereg, Barrel;
  }

  lemma {:induction false} WritesNothing(c: Core, q: Piped, v: Word, out: AluOut, next: CycleType, i: Input)
    requires c.Valid() && !c.actualie && !next.TInt? && !Writes(q.ira) && q.hold == c.rs.Get(0)
    requires q.aluout == Result(q.ira, out) && (q.ira.kind.Colon? ==> v == q.aluout)
    ensures var d := Bdest(c, q.ira, v);
            var q' := Execcleanup(q.(core := Advance(c, next, i)));
            && Committed(q') == Advance(d, next, i) && d.mem == c.mem && d.actualie == c.actualie && d.psw == c.psw
            && Tor(q') == d.rs.Get(0)
            && forall state :: Nextstate(state, q.ira, d, i) == Nextstate(state, q.ira, c, i)
  {
    hide Writereg, Result;
  }

  lemma {:induction false} TopWritten(c: Core, r: Reg, v: Word)
    requires c.Valid()
    ensures r == R(0) ==> Writereg(c, r, v).rs.Get(0) == v
  {
  }

  /** The pipelined machine's latches at the same point. */
  ghost function ExecLatches(p: Plain, q: Piped, chip: Chip): Piped
    requires p.core.Valid() && q.core.Valid()
  {
    var p1, q1 := FriscPlain.Phia(p), FriscPiped.Phia(q);
    var out := Alu(chip, p.ir, p1.alua, p1.alub, p1.core.y, p1.core.flag);
    var fetched := chip.decode(p.core.mem.Fetch(p1.portaddr));
    q1.(hold := ExecCore(p, chip).rs.Get(0), aluout := Result(p.ir, out),
        barrelout := Barrel(chip, p.ir, p1.alua, p1.alub), oldir := p.ir, irholdb := fetched,
        irb := if p.ir.kind.Load? || p.ir.kind.Store? then q1.irb else fetched)
  }

  lemma ExecPiped(p: Plain, q: Piped, chip: Chip, i: Input)
    requires Related(p, q) && p.state.TExec?
    ensures var c, q2 := ExecCore(p, chip), ExecLatches(p, q, chip);
            var next := Nextstate(TExec, p.ir, c, i);
            FriscPiped.Cycle(q, chip, i) == Execcleanup(q2.(core := Advance(c, next, i))).(state := next)
  {
    ExecOperands(p, q);
    hide Writereg, Readreg, Nextstate, Stackop, FriscPlain.Phia, FriscPiped.Phia, Latches, Ahead;
  }

  lemma ExecPlain(p: Plain, chip: Chip, i: Input)
    requires p.core.Valid() && p.state.TExec?
    ensures var p1, c, p' := FriscPlain.Phia(p), ExecCore(p, chip), FriscPlain.Cycle(p, chip, i);
            var out := Alu(chip, p.ir, p1.alua, p1.alub, p1.core.y, p1.core.flag);
            var d := Bdest(c, p.ir, FriscPlain.Bsrcb(p.ir, out, Barrel(chip, p.ir, p1.alua, p1.alub)));
            var next := Nextstate(TExec, p.ir, d, i);
            && p'.core == Advance(d, next, i) && p'.state == next && p'.oldir == p.ir && p'.aluout == out.result
            && p'.ir == chip.decode(d.mem.Fetch(p1.portaddr))
  {
    assert FriscPlain.Phia(p).ir == p.ir;
    hide Writereg, Readreg, Nextstate, Stackop, FriscPlain.Phia, Bdest;
  }

  lemma ExecFacts(p: Plain, q: Piped, chip: Chip)
    requires Related(p, q) && p.state.TExec?
    ensures var p1, c, q2 := FriscPlain.Phia(p), ExecCore(p, chip), ExecLatches(p, q, chip);
            var out := Alu(chip, p.ir, p1.alua, p1.alub, p1.core.y, p1.core.flag);
            && q2.ira == p.ir && q2.oldir == p.ir && q2.hold == c.rs.Get(0)
            && q2.aluout == Result(p.ir, out) && q2.barrelout == Barrel(chip, p.ir, p1.alua, p1.alub)
            && !c.actualie && c.mem == p.core.mem && !Ie(c.psw)
            && q2.irholdb == chip.decode(c.mem.Fetch(p1.portaddr))
            && q2.irb == if p.ir.kind.Load? || p.ir.kind.Store? then p.ir else q2.irholdb
  {
    StartEqual(p, q);
    ExecOperands(p, q);
    hide Writereg, Readreg, Latches, Ahead;
  }

  lemma {:induction false} ExecNext(ir: Instr, c: Core, i: Input)
    requires !c.actualie
    ensures var s := Nextstate(TExec, ir, c, i);
            && (Loading(s) <==> ir.kind.Load? || ir.kind.Store?)
            && (s in {TExec, TGrant, TRsDec, TPsDec, TRsLoad, TPsLoad} || Loading(s))
  {
  }

  lemma {:induction false} CleanupNop(q: Piped)
    ensures q.ira.kind.Load? || q.ira.kind.Store? ==> Execcleanup(q).writeback.Nop?
  {
  }

  /** The first cycle of an instruction keeps the machines in step exactly if its write is harmless. */
  lemma ExecCycle(p: Plain, q: Piped, chip: Chip, i: Input)
    requires Related(p, q) && p.state.TExec?
    ensures Related(FriscPlain.Cycle(p, chip, i), FriscPiped.Cycle(q, chip, i)) <==> InStep(p, chip, i)
  {
    ExecFacts(p, q, chip);
    ExecPiped(p, q, chip, i);
    ExecPlain(p, chip, i);
    var p1, c, q2 := FriscPlain.Phia(p), ExecCore(p, chip), ExecLatches(p, q, chip);
    hide Writereg, Readreg, Stackop, FriscPlain.Cycle, FriscPiped.Cycle, FriscPlain.Phia, FriscPiped.Phia, Bdest,
         ExecCore, Start, ExecLatches, Alu, Barrel, Boundary, Ie, Related, Latches, Ahead, Committed, PendingOff, Tor,
         Result, Nextstate, Execcleanup, Harmless, Writes;
    ExecWrites(c, q2, chip, p1.alua, p1.alub, Alu(chip, p.ir, p1.alua, p1.alub, p1.core.y, p1.core.flag), TExec, i);
    var p', q' := FriscPlain.Cycle(p, chip, i), FriscPiped.Cycle(q, chip, i);
    ExecNext(p.ir, c, i);
    CleanupNop(q2.(core := q'.core));
    SameCommitted(q', Execcleanup(q2.(core := q'.core)), q'.state);
    RelateExactly(p', q');
  }

  lemma LoadCycle(p: Plain, q: Piped, chip: Chip, i: Input)
    requires Related(p, q) && p.state.TLoad?
    ensures Related(FriscPlain.Cycle(p, chip, i), FriscPiped.Cycle(q, chip, i)) <==> InStep(p, chip, i)
  {
    StartEqual(p, q);
    var v := p.core.mem.Fetch(p.aluout);
    WriteAtEnd(p.core, p.oldir.reg2, v, TLoad, p.ir, i);
    WriteTwice(p.core, p.oldir.reg2, v);
    TopWritten(p.core, p.oldir.reg2, v);
    hide Writereg;
  }

  lemma StoreCycle(p: Plain, q: Piped, chip: Chip, i: Input)
    requires Related(p, q) && p.state.TStore?
    ensures Related(FriscPlain.Cycle(p, chip, i), FriscPiped.Cycle(q, chip, i))
  {
    StartEqual(p, q);
    hide Writereg, Readreg;
  }

  lemma SpillFirst(p: Plain, q: Piped, chip: Chip, i: Input)
    requires Related(p, q) && (p.state.TRsDec? || p.state.TPsDec?)
    ensures Related(FriscPlain.Cycle(p, chip, i), FriscPiped.Cycle(q, chip, i))
  {
    StartEqual(p, q);
    hide Writereg;
  }

  lemma SpillSecond(p: Plain, q: Piped, chip: Chip, i: Input)
    requires Related(p, q) && (p.state.TRsStore? || p.state.TPsStore?)
    ensures Related(FriscPlain.Cycle(p, chip, i), FriscPiped.Cycle(q, chip, i))
  {
    hide Writereg;
  }

  lemma FillFirst(p: Plain, q: Piped, chip: Chip, i: Input)
    requires Related(p, q) && (p.state.TRsLoad? || p.state.TPsLoad?)
    ensures Related(FriscPlain.Cycle(p, chip, i), FriscPiped.Cycle(q, chip, i))
  {
    StartEqual(p, q);
    hide Writereg;
  }

  lemma RsFillSecond(p: Plain, q: Piped, chip: Chip, i: Input)
    requires Related(p, q) && p.state.TRsInc?
    ensures Related(FriscPlain.Cycle(p, chip, i), FriscPiped.Cycle(q, chip, i))
  {
    hide Writereg, Stk.Get;
    var p', q' := FriscPlain.Cycle(p, chip, i), FriscPiped.Cycle(q, chip, i);
    PutBelowTop(q'.core.rs, q'.dhold);
    assert q'.core.rs.Get(0) == q'.hold;
    assert p'.core == Committed(q');
    hide Related, Latches, Ahead, Committed;
    Relate(p', q');
  }

  lemma PsFillSecond(p: Plain, q: Piped, chip: Chip, i: Input)
    requires Related(p, q) && p.state.TPsInc?
    ensures Related(FriscPlain.Cycle(p, chip, i), FriscPiped.Cycle(q, chip, i))
  {
    hide Writereg, Stk.Get;
    var p', q' := FriscPlain.Cycle(p, chip, i), FriscPiped.Cycle(q, chip, i);
    assert q'.core.rs.Get(0) == q'.hold;
    assert p'.core == Committed(q');
    hide Related, Latches, Ahead, Committed;
    Relate(p', q');
  }

  lemma PutBelowTop(s: Stk, v: Word)
    requires s.Valid()
    ensures s.Put(4, v).Get(0) == s.Get(0)
  {
  }

  /** One cycle keeps the machines related exactly if its write is harmless, whatever the DMA
      requests. */
  lemma CycleRelated(p: Plain, q: Piped, chip: Chip, i: Input)
    requires Related(p, q)
    ensures Related(FriscPlain.Cycle(p, chip, i), FriscPiped.Cycle(q, chip, i)) <==> InStep(p, chip, i)
  {
    hide FriscPlain.Cycle, FriscPiped.Cycle;
    match p.state {
      case TGrant => GrantCycle(p, q, chip, i);
      case TExec => ExecCycle(p, q, chip, i);
      case TLoad => LoadCycle(p, q, chip, i);
      case TStore => StoreCycle(p, q, chip, i);
      case TRsDec => SpillFirst(p, q, chip, i);
      case TPsDec => SpillFirst(p, q, chip, i);
      case TRsStore => SpillSecond(p, q, chip, i);
      case TPsStore => SpillSecond(p, q, chip, i);
      case TRsLoad => FillFirst(p, q, chip, i);
      case TPsLoad => FillFirst(p, q, chip, i);
      case TRsInc => RsFillSecond(p, q, chip, i);
      case TPsInc => PsFillSecond(p, q, chip, i);
    }
  }

  /** Every register write of the run is harmless. */
  ghost predicate InStepRun(p: Plain, chip: Chip, inputs: seq<Input>)
    requires p.core.Valid()
    decreases |inputs|
  {
    inputs == [] || (InStep(p, chip, inputs[0]) && InStepRun(FriscPlain.Cycle(p, chip, inputs[0]), chip, inputs[1..]))
  }

  lemma {:induction false} RunRelated(p: Plain, q: Piped, chip: Chip, inputs: seq<Input>)
    requires Related(p, q) && InStepRun(p, chip, inputs)
    ensures Related(FriscPlain.Run(p, chip, inputs), FriscPiped.Run(q, chip, inputs))
    decreases |inputs|
  {
    assert p.core.Valid() && q.core.Valid();
    hide FriscPlain.Cycle, FriscPiped.Cycle, Related, InStep;
    if inputs != [] {
      CycleRelated(p, q, chip, inputs[0]);
      RunRelated(FriscPlain.Cycle(p, chip, inputs[0]), FriscPiped.Cycle(q, chip, inputs[0]), chip, inputs[1..]);
    }
  }

  /** Related after every cycle of a run. */
  ghost predicate AlwaysRelated(p: Plain, q: Piped, chip: Chip, inputs: seq<Input>)
    requires p.core.Valid() && q.core.Valid()
    decreases |inputs|
  {
    Related(p, q) &&
    (inputs == [] ||
     AlwaysRelated(FriscPlain.Cycle(p, chip, inputs[0]), FriscPiped.Cycle(q, chip, inputs[0]), chip, inputs[1..]))
  }

  /** The machines are in step throughout a run exactly if all its writes are harmless. */
  lemma {:induction false} InStepExactly(p: Plain, q: Piped, chip: Chip, inputs: seq<Input>)
    requires Related(p, q)
    ensures AlwaysRelated(p, q, chip, inputs) <==> InStepRun(p, chip, inputs)
    decreases |inputs|
  {
    assert p.core.Valid() && q.core.Valid();
    hide FriscPlain.Cycle, FriscPiped.Cycle, Related, InStep;
    if inputs != [] {
      CycleRelated(p, q, chip, inputs[0]);
      if InStep(p, chip, inputs[0]) {
        InStepExactly(FriscPlain.Cycle(p, chip, inputs[0]), FriscPiped.Cycle(q, chip, inputs[0]), chip, inputs[1..]);
      }
    }
  }

  /** Reset leaves the machines related if memory, registers and stack buffers agree. */
  lemma ResetRelated(p: Plain, q: Piped, chip: Chip)
    requires p.core == q.core && q.core.Valid()
    ensures Related(FriscPlain.Reset(p, chip), FriscPiped.Reset(q, chip))
  {
    var high := (p.core.psw / 0x40) * 0x40;
    assert !Ie(high + 0x20) by {
      assert high + 0x20 == 0x10 * (4 * (p.core.psw / 0x40) + 2);
    }
  }

  /** Both machines are about to execute the same instruction, with interrupts off: registers, stacks
      and memory after the pending write-back are those of the unpipelined machine, and the top of
      the return stack is anticipated rightly. The stack caches may be on or off. */
  ghost predicate Aligned(p: Plain, q: Piped) {
    && p.core.Valid() && q.core.Valid() && p.state.TExec? && q.state.TExec?
    && !Ie(p.core.psw) && !Ie(q.core.psw) && !q.core.actualie
    && p.core == Committed(q) && q.irb == p.ir && Tor(q) == p.core.rs.Get(0)
  }

  lemma {:induction false} AlignedIsRelated(p: Plain, q: Piped)
    ensures Aligned(p, q) ==> Related(p, q)
    ensures Related(p, q) && p.state.TExec? ==> Aligned(p, q)
  {
    if Aligned(p, q) {
      Relate(p, q);
    }
    hide Writereg;
  }

  lemma {:induction false} SameMemory(p: Plain, q: Piped)
    requires Related(p, q)
    ensures p.core.mem == q.core.mem && p.core.cycle == q.core.cycle && p.state == q.state
  {
    CommitFrame(q);
    hide Writereg;
  }

  /** From any two aligned states, over any number of cycles of spills, fills, loads, stores and DMA,
      for any instruction encoding, ALU and barrel shifter: while the register writes are harmless the
      two machines are in the same state in the same cycle with the same memory, and at every
      instruction they are aligned again. */
  lemma {:induction false} PipelineEquivalent(p: Plain, q: Piped, chip: Chip, inputs: seq<Input>)
    requires Aligned(p, q) && InStepRun(p, chip, inputs)
    ensures var p', q' := FriscPlain.Run(p, chip, inputs), FriscPiped.Run(q, chip, inputs);
            && p'.state == q'.state && p'.core.mem == q'.core.mem
            && p'.core.cycle == q'.core.cycle == p.core.cycle + |inputs|
            && (p'.state.TExec? ==> Aligned(p', q'))
  {
    AlignedIsRelated(p, q);
    RunRelated(p, q, chip, inputs);
    CycleCount(p, chip, inputs);
    hide FriscPlain.Run, FriscPiped.Run, Related, Aligned;
    SameMemory(FriscPlain.Run(p, chip, inputs), FriscPiped.Run(q, chip, inputs));
    AlignedIsRelated(FriscPlain.Run(p, chip, inputs), FriscPiped.Run(q, chip, inputs));
  }

  /** A reset aligns the machines, if memory and registers agree. */
  lemma {:induction false} ResetAligns(p: Plain, q: Piped, chip: Chip)
    requires p.core == q.core && q.core.Valid()
    ensures Aligned(FriscPlain.Reset(p, chip), FriscPiped.Reset(q, chip))
  {
    ResetRelated(p, q, chip);
    AlignedIsRelated(FriscPlain.Reset(p, chip), FriscPiped.Reset(q, chip));
  }

  /** Writes to the processor status word are harmless exactly if they leave interrupts off; they
      select the stack registers, too. */
  lemma {:induction false} SelectingIsHarmless(c: Core, v: Word, state: CycleType, ir: Instr, i: Input)
    requires c.Valid()
    ensures Harmless(c, PSW, v, state, ir, i) <==> !Ie(v % 0x40)
    ensures Cpselect(Writereg(c, PSW, v).psw) == v % 0x10
  {
    LowDigit(v);
    hide Ie;
  }

  lemma {:induction false} LowDigit(v: Word)
    ensures (v % 0x40) % 0x10 == v % 0x10
  {
    hide *;
    var k, q, x := v % 0x40, v / 0x40, (v % 0x40) / 0x10;
    assert v == 0x10 * (4 * q + x) + k % 0x10;
    QuotientIs(v, 0x10, 4 * q + x, k % 0x10);
  }

  /** Turning the stack caches on: writing a status word that keeps the top of the return stack where
      it is, with neither cache at a limit, is harmless, and leaves both caches on. */
  lemma {:induction false} CachesTurnOn(p: Plain, q: Piped, chip: Chip, i: Input)
    requires Aligned(p, q) && Writes(p.ir) && p.ir.reg2 == U(2) && Cpselect(p.core.psw) == 1
    requires !Rcache(p.core.ssw) && !Pcache(p.core.ssw)
    requires var v := ExecValue(p, chip);
             var rover, rtop, pover, ptop := v % 0x10, (v / 0x10) % 0x10, (v / 0x100) % 0x10, (v / 0x1000) % 0x10;
             && Rcache(v) && Pcache(v) && rtop == ExecCore(p, chip).rs.top
             && rtop != rover && rtop != (rover + 4) % 0x10 && ptop != pover && ptop != (pover + 4) % 0x10
    ensures InStep(p, chip, i)
    ensures var p', q' := FriscPlain.Cycle(p, chip, i), FriscPiped.Cycle(q, chip, i);
            Related(p', q') && Rcache(p'.core.ssw) && Pcache(p'.core.ssw)
  {
    AlignedIsRelated(p, q);
    CycleRelated(p, q, chip, i);
    ExecPlain(p, chip, i);
    ExecCoreFrame(p, chip);
    hide FriscPlain.Cycle, FriscPiped.Cycle, Related, ExecCore, ExecValue, Aligned;
    StatusWritten(ExecCore(p, chip), ExecValue(p, chip), p.ir, i);
  }

  lemma {:induction false} ExecCoreFrame(p: Plain, chip: Chip)
    requires p.core.Valid() && p.state.TExec?
    ensures var c := ExecCore(p, chip);
            c.psw == p.core.psw && c.ssw == p.core.ssw && c.actualie == Ie(p.core.psw)
  {
    hide Readreg, Tsource, Alu, Barrel;
  }

  lemma {:induction false} StatusWritten(c: Core, v: Word, ir: Instr, i: Input)
    requires c.Valid() && Cpselect(c.psw) == 1 && !Rcache(c.ssw) && !Pcache(c.ssw) && !Ie(c.psw)
    requires Writes(ir) && ir.reg2 == U(2)
    requires var rover, rtop, pover, ptop := v % 0x10, (v / 0x10) % 0x10, (v / 0x100) % 0x10, (v / 0x1000) % 0x10;
             && rtop == c.rs.top && rtop != rover && rtop != (rover + 4) % 0x10
             && ptop != pover && ptop != (pover + 4) % 0x10
    ensures Harmless(c, U(2), v, TExec, ir, i) && Bdest(c, ir, v).ssw == v
  {
  }

  lemma CycleCounts(p: Plain, chip: Chip, i: Input)
    requires p.core.Valid()
    ensures FriscPlain.Cycle(p, chip, i).core.cycle == p.core.cycle + 1
  {
    PhiaCounts(p);
    hide FriscPlain.Phia, FriscPlain.Phib;
  }

  lemma {:induction false} PhiaCounts(p: Plain)
    requires p.core.Valid()
    ensures FriscPlain.Phia(p).core.cycle == p.core.cycle
  {
    hide Readreg, Tsource, FriscPlain.Asrca, FriscPlain.Bsrca, Frisc.Stackop;
  }

  lemma {:induction false} CycleCount(p: Plain, chip: Chip, inputs: seq<Input>)
    requires p.core.Valid()
    ensures FriscPlain.Run(p, chip, inputs).core.cycle == p.core.cycle + |inputs|
    decreases |inputs|
  {
    hide FriscPlain.Cycle;
    if inputs != [] {
      CycleCounts(p, chip, inputs[0]);
      CycleCount(FriscPlain.Cycle(p, chip, inputs[0]), chip, inputs[1..]);
    }
  }

  /** A status write that is not harmless: enabling the return stack cache with a full stack makes the
      unpipelined machine spill at once and the pipelined one run another instruction first. */
  lemma StatusWriteDiffers(p: Plain, q: Piped, chip: Chip, i: Input)
    requires Related(p, q) && p.state.TExec? && i == Input(false, None)
    requires p.ir.kind.Lah? && p.ir.reg2 == U(2) && Cpselect(p.core.psw) == 1
    requires p.ir.reg1.ZERO? && p.ir.pop.Keep? && p.ir.rop.Keep? && !Rcache(p.core.ssw) && !Pcache(p.core.ssw)
    requires p.ir.offset == 1
    ensures FriscPlain.Cycle(p, chip, i).state.TRsDec? && FriscPiped.Cycle(q, chip, i).state.TExec?
  {
    ExecOperands(p, q);
    ExecPiped(p, q, chip, i);
    ExecPlain(p, chip, i);
    EnableWord(p, q, chip);
    FullAtOnce(ExecCore(p, chip), p.ir, i);
    hide *;
  }

  /** The word that the instruction above loads. */
  lemma {:induction false} EnableWord(p: Plain, q: Piped, chip: Chip)
    requires Related(p, q) && p.state.TExec?
    requires p.ir.kind.Lah? && p.ir.reg1.ZERO? && p.ir.pop.Keep? && p.ir.rop.Keep? && p.ir.offset == 1
    ensures var p1, c := FriscPlain.Phia(p), ExecCore(p, chip);
            var out := Alu(chip, p.ir, p1.alua, p1.alub, p1.core.y, p1.core.flag);
            && FriscPlain.Bsrcb(p.ir, out, Barrel(chip, p.ir, p1.alua, p1.alub)) == 0x1_0000
            && c.psw == p.core.psw && c.ssw == p.core.ssw && !c.actualie
  {
    StartEqual(p, q);
    hide Writereg, Latches, Ahead, Committed, FriscPlain.Asrca, Ie;
  }

  lemma {:induction false} FullAtOnce(c: Core, ir: Instr, i: Input)
    requires c.Valid() && ir.kind.Lah? && ir.reg2 == U(2) && Cpselect(c.psw) == 1 && i == Input(false, None)
    requires !Rcache(c.ssw) && !Pcache(c.ssw)
    ensures Nextstate(TExec, ir, Bdest(c, ir, 0x1_0000), i).TRsDec? && Nextstate(TExec, ir, c, i).TExec?
  {
  }
}
