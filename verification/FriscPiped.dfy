/** The pipelined machine: a result waits for the next cycle to be written back, and the top of
    the return stack is anticipated meanwhile. */
module FriscPiped {
  import opened Word32
  import opened Registers
  import opened StackCache
  import opened Frisc

  /** The function that the next phase a calls first. */
  datatype Writeback = Nop | AluWriteback | AluWritebackTor | ShiftWriteback | LoadWriteback
                     | RsUnderflow | PsUnderflow

  datatype Piped = Piped(state: CycleType, core: Core, ira: Instr, irb: Instr, irholda: Instr, irholdb: Instr,
                         oldir: Instr, pchold: Word, hold: Word, aluout: Word, barrelout: Word, dhold: Word,
                         tor: TorSource, writeback: Writeback, portaddr: Word)

  function Tor(q: Piped): Word {
    match q.tor
    case FromHold => q.hold
    case FromAluout => q.aluout
    case FromBarrel => q.barrelout
    case FromDhold => q.dhold
  }

  /** The registers after the pending write-back. */
  function Committed(q: Piped): (c: Core)
    requires q.core.Valid()
    ensures c.Valid()
  {
    match q.writeback
    case Nop => q.core
    case AluWriteback => Writereg(q.core, q.oldir.reg2, q.aluout)
    case AluWritebackTor => q.core.(rs := q.core.rs.Put(0, q.aluout))
    case ShiftWriteback => Writereg(q.core, q.oldir.reg2, q.barrelout)
    case LoadWriteback => Writereg(q.core, q.oldir.reg2, q.dhold)
    case RsUnderflow => q.core.(rs := q.core.rs.Put(4, q.dhold))
    case PsUnderflow => q.core.(ps := q.core.ps.Put(4, q.dhold))
  }

  // Phase a

  function Asrca(q: Piped): Word {
    match q.irb.kind
    case Colon => q.irb.dest
    case Branch => q.irb.dest
    case QBranch => if q.core.flag then q.core.pcb else q.irb.dest
    case _ => if q.irb.ret then Tor(q) else q.core.pcb
  }

  function ExecPhia(q: Piped): Piped {
    q.(portaddr := Asrca(q), core := q.core.(pca := Asrca(q)))
  }

  /** What every phase a begins with: the latches clocked on phase a and the pending write-back. */
  function Start(q: Piped): (q': Piped)
    requires q.core.Valid()
    ensures q'.core.Valid() && q'.state == q.state
  {
    var ie := Ie(q.core.psw);
    q.(irholda := q.irholdb, ira := q.irb, pchold := q.core.pcb, core := Committed(q).(actualie := ie))
  }

  function Phia(q0: Piped): (q': Piped)
    requires q0.core.Valid()
    ensures q'.core.Valid() && q'.state == q0.state
  {
    var q := Start(q0);
    match q.state
    case TInt => q.(portaddr := q.core.intvector, core := ClearIe(q.core))
    case TGrant => q
    case TExec => ExecPhia(q)
    case TLoad => q.(portaddr := q.aluout)
    case TStore => q.(portaddr := q.aluout)
    case TRsDec => q.(portaddr := q.core.pcb)
    case TRsStore => q.(portaddr := q.aluout, core := q.core.(rs := q.core.rs.(ext := q.aluout)))
    case TRsLoad => q.(portaddr := q.core.pcb)
    case TRsInc => q.(portaddr := q.hold, core := q.core.(rs := q.core.rs.(ext := q.aluout)))
    case TPsDec => q.(portaddr := q.core.pcb)
    case TPsStore => q.(portaddr := q.aluout, core := q.core.(ps := q.core.ps.(ext := q.aluout)))
    case TPsLoad => q.(portaddr := q.core.pcb)
    case TPsInc => q.(portaddr := q.hold, core := q.core.(ps := q.core.ps.(ext := q.aluout)))
  }

  // Phase b

  function Bsrcb(q: Piped): Word
    requires q.core.Valid()
  {
    if Flow(q.ira.kind) then q.pchold else Readreg(q.core, q.ira.reg1, q.pchold)
  }

  /** Where the top of the return stack will be, and which write-back the next phase a makes. */
  function Execcleanup(q: Piped): (q': Piped)
    ensures q' == q.(tor := q'.tor, writeback := q'.writeback)
  {
    var tor0 := q.ira.reg2 == R(0);
    match q.ira.kind
    case Colon => q.(tor := FromAluout, writeback := AluWritebackTor)
    case Branch => q.(tor := FromHold, writeback := Nop)
    case QBranch => q.(tor := FromHold, writeback := Nop)
    case Load => q.(tor := FromHold, writeback := Nop)
    case Store => q.(tor := FromHold, writeback := Nop)
    case Lal => q.(tor := if tor0 then FromAluout else FromHold, writeback := AluWriteback)
    case Lah => q.(tor := if tor0 then FromAluout else FromHold, writeback := AluWriteback)
    case Micro =>
      if q.ira.class_.Shift? then q.(tor := if tor0 then FromBarrel else FromHold, writeback := ShiftWriteback)
      else q.(tor := if tor0 then FromAluout else FromHold, writeback := AluWriteback)
  }

  /** The ALU output; a test instruction turns its condition into a truth value here. */
  function Result(ir: Instr, out: AluOut): Word {
    if ir.kind.Micro? && ir.class_.Test? then (if out.cond then TWO32 - 1 else 0) else out.result
  }

  function Finish(q: Piped, c: Core, i: Input): Piped {
    var next := Nextstate(q.state, q.ira, c, i);
    q.(core := Advance(c, next, i), state := next)
  }

  function ExecPhib(q: Piped, chip: Chip, i: Input): (q': Piped)
    requires q.core.Valid()
    ensures q'.core.Valid()
  {
    var b := Bsrcb(q);
    var a := Tsource(q.core, q.ira);
    var out := Alu(chip, q.ira, a, b, q.core.y, q.core.flag);
    var fetched := chip.decode(q.core.mem.Fetch(q.portaddr));
    var c := Stackop(q.core, q.ira).(y := out.y, flag := out.flag);
    Finish(Execcleanup(q.(hold := c.rs.Get(0), aluout := Result(q.ira, out), barrelout := Barrel(chip, q.ira, a, b),
                          oldir := q.ira, irholdb := fetched,
                          irb := if q.ira.kind.Load? || q.ira.kind.Store? then q.irb else fetched)),
           c, i)
  }

  /** Phase b of a cycle after which the anticipated top is the real one. */
  function HoldPhib(q: Piped, w: Writeback): Piped
    requires q.core.Valid()
  {
    q.(hold := q.core.rs.Get(0), tor := FromHold, writeback := w, irb := q.irholda)
  }

  function LoadPhib(q: Piped, i: Input): (q': Piped)
    requires q.core.Valid()
    ensures q'.core.Valid()
  {
    Finish(q.(dhold := q.core.mem.Fetch(q.portaddr), writeback := LoadWriteback, hold := q.core.rs.Get(0),
              tor := if q.ira.reg2 == R(0) then FromDhold else FromHold, irb := q.irholda),
           q.core, i)
  }

  function StorePhib(q: Piped, v: Word, i: Input): Piped
    requires q.core.Valid()
  {
    Finish(HoldPhib(q, Nop), q.core.(mem := q.core.mem.Store(q.portaddr, v)), i)
  }

  function IntPhib(q: Piped, chip: Chip): Piped
    requires q.core.Valid()
  {
    q.(writeback := Nop, hold := q.core.rs.Get(0), tor := FromHold,
       core := q.core.(pcb := q.core.pca, cycle := q.core.cycle + 1), state := TExec,
       irb := chip.decode(q.core.mem.Fetch(q.portaddr)))
  }

  /** The first cycle of a fill takes the old external pointer as the address of the second. */
  function UnderPhib(q: Piped, ext: Word, c: Core, i: Input): Piped {
    Finish(q.(hold := ext, aluout := Plus(ext, 1), writeback := Nop, irb := q.irholda), c, i)
  }

  function Phib(q: Piped, chip: Chip, i: Input): (q': Piped)
    requires q.core.Valid()
    ensures q'.core.Valid()
  {
    match q.state
    case TInt => IntPhib(q, chip)
    case TGrant => Finish(q, q.core, i)
    case TExec => ExecPhib(q, chip, i)
    case TLoad => LoadPhib(q, i)
    case TStore => StorePhib(q, Readreg(q.core, q.ira.reg2, q.pchold), i)
    case TRsDec => Finish(HoldPhib(q, Nop).(aluout := Minus(q.core.rs.ext, 1)),
                          q.core.(rs := OverStep(q.core.rs)), i)
    case TRsStore => StorePhib(q, q.core.rs.buf[Inc(q.core.rs.top)], i)
    case TRsLoad => UnderPhib(q, q.core.rs.ext, q.core.(rs := UnderStep(q.core.rs)), i)
    case TRsInc => Finish(HoldPhib(q, RsUnderflow).(dhold := q.core.mem.Fetch(q.portaddr)), q.core, i)
    case TPsDec => Finish(HoldPhib(q, Nop).(aluout := Minus(q.core.ps.ext, 1)),
                          q.core.(ps := OverStep(q.core.ps)), i)
    case TPsStore => StorePhib(q, q.core.ps.buf[Inc(q.core.ps.top)], i)
    case TPsLoad => UnderPhib(q, q.core.ps.ext, q.core.(ps := UnderStep(q.core.ps)), i)
    case TPsInc => Finish(HoldPhib(q, PsUnderflow).(dhold := q.core.mem.Fetch(q.portaddr)), q.core, i)
  }

  function Cycle(q: Piped, chip: Chip, i: Input): (q': Piped)
    requires q.core.Valid()
    ensures q'.core.Valid()
  {
    Phib(Phia(q), chip, i)
  }

  function Run(q: Piped, chip: Chip, inputs: seq<Input>): (q': Piped)
    requires q.core.Valid()
    ensures q'.core.Valid()
    decreases |inputs|
  {
    if inputs == [] then q else Run(Cycle(q, chip, inputs[0]), chip, inputs[1..])
  }

  function Reset(q: Piped, chip: Chip): Piped
    requires q.core.Valid()
  {
    var c := ResetCore(q.core);
    var ir0 := chip.decode(0);
    q.(state := TExec, core := c, ira := ir0, irb := chip.decode(c.mem.Fetch(IBROMBOTTOM)), irholda := ir0,
       irholdb := ir0, hold := c.rs.Get(0), tor := FromHold, writeback := Nop, portaddr := IBROMBOTTOM)
  }
}
