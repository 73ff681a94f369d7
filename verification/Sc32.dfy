/** The SC32 datapath: what phase a and phase b of every kind of cycle do to the registers,
    the two stack caches and the buses. */
module Sc32 {
  import opened Word32
  import opened Registers
  import opened MainMemory
  import opened StackCache
  import opened CacheBus

  datatype Kind = Flow | Micro | Lal | Lah | Load | LoadByte | Store | StoreByte

  datatype BranchType = Colon | Does | Branch | QBranch

  /** A decoded instruction: the union of the fields of all formats. */
  datatype Instr = Instr(kind: Kind, brtype: BranchType, dest: Word, ret: bool, reg1: Reg, reg2: Reg,
                         pop: StackOp, rop: StackOp, offset: Offset, shift: bool, imm: bool, literal: Word,
                         setflag: bool, code: Word)

  /** What the ALU and the barrel shifter make of one micro instruction. */
  datatype AluOut = AluOut(result: Word, barrel: Word, flinput: bool, y: Word)

  /** The parts of the chip that the properties hold for whatever they are: the instruction
      encoding, and the ALU as a function of instruction, bus T, bus B, y and flag. */
  datatype Chip = Chip(decode: Word -> Instr, alu: (Instr, Word, Word, Word, bool) -> AluOut)

  /** The number of an interrupt line: its bit in the interrupt mask. */
  type Vector = v: int | 0 <= v < 32

  datatype CycleType = TInt | TExec | TLoad | TStore | TSquash
                     | TROver1 | TROver2 | TRUnder1 | TRUnder2 | TPOver1 | TPOver2 | TPUnder1 | TPUnder2

  /** The register write-back pending from the previous cycle. */
  datatype Writeback = Nop | AluWriteback | AluToTor | AluToTos | ShiftWriteback | LoadWriteback
                     | RsUnderflow | PsUnderflow

  datatype Dp = Dp(state: CycleType, next: CycleType, ps: Stk, rs: Stk, psw: Word, actualie: bool,
                   rcache: bool, pcache: bool, hold: Word, aluout: Word, barrelout: Word, dhold: Word,
                   y: Word, flag: bool, ir: Instr, oldir: Instr, udr: seq<Word>, pc: Word,
                   tor: TorSource, writeback: Writeback,
                   abus: Word, bbus: Word, tbus: Word, dbus: Word, read: bool, bytemode: bool, intvector: Vector)
  {
    predicate Valid() {
      ps.Valid() && rs.Valid() && |udr| == 4
    }
  }

  /** The cache enable bit. */
  predicate CacheEnabled(psw: Word) {
    (psw / 8) % 2 == 1
  }

  function ClearIe(psw: Word): Word {
    if Ie(psw) then psw - 0x10 else psw
  }

  function ReadReg(d: Dp, r: Reg): Word
    requires d.Valid()
  {
    match r
    case S(k) => d.ps.Get(k)
    case R(k) => d.rs.Get(k)
    case U(k) => d.udr[k]
    case IAR => d.pc
    case PSW => d.psw
    case ZERO => 0
    case Y => d.y
  }

  function WriteReg(d: Dp, r: Reg, wbus: Word): (d': Dp)
    requires d.Valid()
    ensures d'.Valid()
    ensures d' == d.(ps := d'.ps, rs := d'.rs, udr := d'.udr, psw := d'.psw, actualie := d'.actualie, y := d'.y)
  {
    match r
    case S(k) => d.(ps := d.ps.Put(k, wbus))
    case R(k) => d.(rs := d.rs.Put(k, wbus))
    case U(k) => d.(udr := d.udr[k := wbus])
    case PSW => d.(psw := wbus % 0x40, actualie := Ie(wbus % 0x40))
    case Y => d.(y := wbus)
    case _ => d
  }

  /** The register that the pending write-back writes; ZERO is a sink. */
  function PendingReg(d: Dp): Reg {
    match d.writeback
    case AluWriteback => d.oldir.reg2
    case ShiftWriteback => d.oldir.reg2
    case LoadWriteback => d.oldir.reg2
    case AluToTor => R(0)
    case AluToTos => S(0)
    case _ => ZERO
  }

  function PendingValue(d: Dp): Word {
    match d.writeback
    case ShiftWriteback => d.barrelout
    case LoadWriteback => d.dhold
    case _ => d.aluout
  }

  /** Carries out the pending write-back: a register, or the entry that a fill has brought. */
  function WriteBack(d: Dp): (d': Dp)
    requires d.Valid()
    ensures d'.Valid()
    ensures d' == d.(ps := d'.ps, rs := d'.rs, udr := d'.udr, psw := d'.psw, actualie := d'.actualie, y := d'.y)
  {
    hide WriteReg, Stk.Put;
    match d.writeback
    case RsUnderflow => d.(rs := d.rs.Put(4, d.dhold))
    case PsUnderflow => d.(ps := d.ps.Put(4, d.dhold))
    case _ => WriteReg(d, PendingReg(d), PendingValue(d))
  }

  /** The registers at the start of the next cycle. */
  function Start(d: Dp): (d': Dp)
    requires d.Valid()
    ensures d'.Valid()
  {
    WriteBack(d).(state := d.next)
  }

  /** The anticipated top of the return stack. */
  function Tor(d: Dp): Word {
    match d.tor
    case FromHold => d.hold
    case FromAluout => d.aluout
    case FromBarrel => d.barrelout
    case FromDhold => d.dhold
  }

  /** The kind of cycle in progress and the instruction it belongs to. */
  predicate SameInstruction(d: Dp, d': Dp) {
    d'.state == d.state && d'.ir == d.ir && d'.oldir == d.oldir && d'.pc == d.pc
  }

  /** The cycles that take an instruction. */
  predicate Fetches(s: CycleType) {
    s.TExec? || s.TSquash? || s.TInt?
  }

  // Phase a

  function Asrc(d: Dp): Word {
    if d.ir.kind.Flow? then d.ir.dest else if d.ir.ret then Tor(d) else d.pc
  }

  function Bsrc(d: Dp): Word
    requires d.Valid()
  {
    if d.ir.kind.Flow? then d.pc else ReadReg(d, d.ir.reg1)
  }

  function Tsrc(d: Dp): Word
    requires d.Valid()
  {
    match d.ir.kind
    case Lah => Wrap(d.ir.offset * 0x1_0000)
    case Flow => if d.ir.shift && d.ir.imm then d.ir.literal else d.ps.Get(0)
    case Micro => if d.ir.shift && d.ir.imm then d.ir.literal else d.ps.Get(0)
    case _ => Wrap(d.ir.offset)
  }

  function Stackop(d: Dp): (d': Dp)
    requires d.Valid()
    ensures d'.Valid() && d' == d.(ps := d'.ps, rs := d'.rs)
  {
    if d.ir.kind.Flow? then
      match d.ir.brtype
      case Colon => d.(rs := d.rs.PushTop())
      case Does => d.(ps := d.ps.PushTop())
      case _ => d
    else
      d.(ps := StackMove(d.ps, d.ir.pop), rs := StackMove(d.rs, d.ir.rop))
  }

  function ExecPhia(d: Dp): (d': Dp)
    requires d.Valid()
    ensures d'.Valid() && d'.read && !d'.bytemode
    ensures d' == d.(ps := d'.ps, rs := d'.rs, abus := d'.abus, read := d'.read, bytemode := d'.bytemode,
                     bbus := d'.bbus, tbus := d'.tbus)
    ensures SameInstruction(d, d')
  {
    Stackop(d.(abus := Asrc(d), read := true, bytemode := false, bbus := Bsrc(d), tbus := Tsrc(d)))
  }

  function LoadPhia(d: Dp): (d': Dp)
    ensures d.Valid() ==> d'.Valid()
    ensures d'.read && SameInstruction(d, d')
  {
    d.(abus := d.aluout, read := true, bytemode := d.oldir.kind.LoadByte?)
  }

  function StorePhia(d: Dp): (d': Dp)
    requires d.Valid()
    ensures d'.Valid() && SameInstruction(d, d')
  {
    var v := ReadReg(d, d.oldir.reg2);
    d.(abus := d.aluout, read := false, bytemode := d.oldir.kind.StoreByte?, bbus := v,
       dbus := if d.oldir.kind.StoreByte? then Spread(v % 256) else v)
  }

  function SquashPhia(d: Dp): (d': Dp)
    ensures d.Valid() ==> d'.Valid()
    ensures d'.read && !d'.bytemode && SameInstruction(d, d')
  {
    d.(abus := d.aluout, read := true, bytemode := false)
  }

  function IntPhia(d: Dp): (d': Dp)
    ensures d.Valid() ==> d'.Valid()
    ensures d'.read && !d'.bytemode && SameInstruction(d, d')
  {
    d.(abus := Wrap(d.intvector * 4), read := true, bytemode := false, bbus := d.pc, tbus := 4,
       actualie := false, psw := ClearIe(d.psw), rs := d.rs.PushTop())
  }

  /** The first cycle of a spill or a fill refetches the next instruction and discards it. */
  function MarkPhia(d: Dp, ext: Word): (d': Dp)
    ensures d.Valid() ==> d'.Valid()
    ensures d'.read && SameInstruction(d, d')
  {
    d.(abus := d.pc, read := true, bytemode := false, bbus := ext, tbus := 4)
  }

  function ROver2Phia(d: Dp): (d': Dp)
    requires d.Valid()
    ensures d'.Valid() && !d'.bytemode && SameInstruction(d, d')
  {
    var v := d.rs.buf[Inc(d.rs.top)];
    d.(rs := d.rs.(ext := d.aluout), abus := d.aluout, read := false, bytemode := false, bbus := v, dbus := v)
  }

  function POver2Phia(d: Dp): (d': Dp)
    requires d.Valid()
    ensures d'.Valid() && !d'.bytemode && SameInstruction(d, d')
  {
    var v := d.ps.buf[Inc(d.ps.top)];
    d.(ps := d.ps.(ext := d.aluout), abus := d.aluout, read := false, bytemode := false, bbus := v, dbus := v)
  }

  function RUnder2Phia(d: Dp): (d': Dp)
    ensures d.Valid() ==> d'.Valid()
    ensures d'.read && SameInstruction(d, d')
  {
    d.(abus := d.hold, read := true, bytemode := false, rs := d.rs.(ext := d.aluout))
  }

  function PUnder2Phia(d: Dp): (d': Dp)
    ensures d.Valid() ==> d'.Valid()
    ensures d'.read && SameInstruction(d, d')
  {
    d.(abus := d.hold, read := true, bytemode := false, ps := d.ps.(ext := d.aluout))
  }

  /** Whether the instruction in progress is about to change the interrupt enable. */
  predicate IntSuppress(d: Dp) {
    || (d.state.TExec? && (d.ir.kind.Micro? || d.ir.kind.Lah? || d.ir.kind.Lal?) && d.ir.reg2.PSW?)
    || (d.state.TLoad? && d.oldir.reg2.PSW?)
  }

  /** The next cycle when the instruction is finished: spill and fill, return stack first, then
      a pending interrupt (`irq` is its vector), then the next instruction. */
  function Boundary(d: Dp, irq: Option<Vector>): (d': Dp)
    ensures d' == d.(next := d'.next, intvector := d'.intvector)
  {
    if d.rcache && d.rs.top == d.rs.over then d.(next := TROver1)
    else if d.rcache && d.rs.top == d.rs.under then d.(next := TRUnder1)
    else if d.pcache && d.ps.top == d.ps.over then d.(next := TPOver1)
    else if d.pcache && d.ps.top == d.ps.under then d.(next := TPUnder1)
    else if d.actualie && !IntSuppress(d) && irq.Some? then d.(next := TInt, intvector := irq.value)
    else d.(next := TExec)
  }

  function Nextstate(d: Dp, irq: Option<Vector>): (d': Dp)
    ensures d' == d.(next := d'.next, intvector := d'.intvector)
  {
    match d.state
    case TExec =>
      if d.ir.kind.Load? || d.ir.kind.LoadByte? then d.(next := TLoad)
      else if d.ir.kind.Store? || d.ir.kind.StoreByte? then d.(next := TStore)
      else if d.ir.kind.Flow? && d.ir.brtype.QBranch? && d.flag then d.(next := TSquash)
      else Boundary(d, irq)
    case TROver1 => d.(next := TROver2)
    case TRUnder1 => d.(next := TRUnder2)
    case TPOver1 => d.(next := TPOver2)
    case TPUnder1 => d.(next := TPUnder2)
    case _ => Boundary(d, irq)
  }

  function PhiaOf(d: Dp): (d': Dp)
    requires d.Valid()
    ensures d'.Valid() && SameInstruction(d, d') && (!d'.read && d'.bytemode ==> d.state.TStore?)
    ensures Fetches(d.state) ==> d'.read && !d'.bytemode
  {
    hide IntPhia, ExecPhia, LoadPhia, StorePhia, SquashPhia, MarkPhia, ROver2Phia, RUnder2Phia, POver2Phia,
      PUnder2Phia;
    match d.state
    case TInt => IntPhia(d)
    case TExec => ExecPhia(d)
    case TLoad => LoadPhia(d)
    case TStore => StorePhia(d)
    case TSquash => SquashPhia(d)
    case TROver1 => MarkPhia(d, d.rs.ext)
    case TROver2 => ROver2Phia(d)
    case TRUnder1 => MarkPhia(d, d.rs.ext)
    case TRUnder2 => RUnder2Phia(d)
    case TPOver1 => MarkPhia(d, d.ps.ext)
    case TPOver2 => POver2Phia(d)
    case TPUnder1 => MarkPhia(d, d.ps.ext)
    case TPUnder2 => PUnder2Phia(d)
  }

  /** Phase a: the write-back of the previous cycle, the cycle's own work, the next state. */
  function Dpphia(d: Dp, irq: Option<Vector>): (d': Dp)
    requires d.Valid()
    ensures d'.Valid()
  {
    Nextstate(PhiaOf(Start(d)), irq)
  }

  // Phase b; `dbus` is what the access of phase a has brought

  /** A phase b that leaves the next instruction alone. */
  predicate Remains(d: Dp, d': Dp) {
    && d'.state == d.state && d'.next == d.next && d'.ir == d.ir && d'.pc == d.pc && d'.abus == d.abus
    && d'.intvector == d.intvector
  }

  /** A phase b that takes the next instruction: the word from the address on the bus, which the
      program counter is moved past. */
  predicate Takes(d: Dp, d': Dp, chip: Chip, dbus: Word) {
    && d'.state == d.state && d'.next == d.next && d'.ir == chip.decode(dbus) && d'.pc == Plus(d.abus, 4)
    && d'.intvector == d.intvector
  }

  /** The sources of the ALU result and flag of the executing instruction. */
  function AluOf(chip: Chip, ir: Instr, tbus: Word, bbus: Word, y: Word, flag: bool): AluOut {
    match ir.kind
    case Flow => AluOut(bbus, bbus, flag, y)
    case Micro => chip.alu(ir, tbus, bbus, y, flag)
    case _ => AluOut(Plus(tbus, bbus), bbus, flag, y)
  }

  /** The latch that will hold the top of the return stack, and the write-back to come. */
  function Cleanup(ir: Instr): (TorSource, Writeback) {
    var tor0 := ir.reg2 == R(0);
    match ir.kind
    case Flow =>
      (match ir.brtype
       case Colon => (FromAluout, AluToTor)
       case Does => (FromHold, AluToTos)
       case _ => (FromHold, Nop))
    case Micro =>
      if ir.shift then (if tor0 then FromBarrel else FromHold, ShiftWriteback)
      else (if tor0 then FromAluout else FromHold, AluWriteback)
    case Lal => (if tor0 then FromAluout else FromHold, AluWriteback)
    case Lah => (if tor0 then FromAluout else FromHold, AluWriteback)
    case _ => (FromHold, Nop)
  }

  function Execcleanup(d: Dp): (d': Dp)
    ensures d' == d.(tor := d'.tor, writeback := d'.writeback) && (d.Valid() ==> d'.Valid())
  {
    d.(tor := Cleanup(d.ir).0, writeback := Cleanup(d.ir).1)
  }

  /** The latches that the ALU and the barrel shifter drive. */
  function Computed(d: Dp, out: AluOut): (d': Dp)
    requires d.Valid()
    ensures d'.Valid()
    ensures Remains(d, d')
  {
    d.(hold := d.rs.Get(0), aluout := out.result, barrelout := out.barrel, y := out.y,
       flag := if d.ir.kind.Micro? && d.ir.setflag then out.flinput else d.flag)
  }

  /** The fetched word becomes the next instruction. */
  function Fetched(d: Dp, chip: Chip, dbus: Word): (d': Dp)
    ensures d.Valid() ==> d'.Valid()
    ensures Takes(d, d', chip, dbus)
  {
    d.(pc := Plus(d.abus, 4), oldir := d.ir, ir := chip.decode(dbus), dbus := dbus)
  }

  function ExecPhib(d: Dp, chip: Chip, dbus: Word): (d': Dp)
    requires d.Valid()
    ensures d'.Valid()
    ensures Takes(d, d', chip, dbus)
  {
    hide AluOf, Execcleanup, Computed, Fetched;
    Fetched(Execcleanup(Computed(d, AluOf(chip, d.ir, d.tbus, d.bbus, d.y, d.flag))), chip, dbus)
  }

  function LoadPhib(d: Dp, dbus: Word): (d': Dp)
    requires d.Valid()
    ensures d'.Valid()
    ensures Remains(d, d')
  {
    d.(dhold := if d.oldir.kind.LoadByte? then ByteAt(dbus, d.abus % 4) else dbus, dbus := dbus,
       writeback := LoadWriteback, hold := d.rs.Get(0),
       tor := if d.oldir.reg2 == R(0) then FromDhold else FromHold)
  }

  /** Phase b of a cycle that leaves only the top of the return stack to anticipate. */
  function HoldPhib(d: Dp, w: Writeback): (d': Dp)
    requires d.Valid()
    ensures d'.Valid()
    ensures Remains(d, d')
  {
    d.(hold := d.rs.Get(0), tor := FromHold, writeback := w)
  }

  function SquashPhib(d: Dp, chip: Chip, dbus: Word): (d': Dp)
    requires d.Valid()
    ensures d'.Valid()
    ensures Takes(d, d', chip, dbus)
  {
    HoldPhib(d, Nop).(pc := Plus(d.abus, 4), ir := chip.decode(dbus), dbus := dbus)
  }

  function IntPhib(d: Dp, chip: Chip, dbus: Word): (d': Dp)
    requires d.Valid()
    ensures d'.Valid()
    ensures Takes(d, d', chip, dbus)
  {
    d.(pc := Plus(d.abus, 4), aluout := Minus(d.bbus, d.tbus), tor := FromAluout, writeback := AluToTor,
       hold := d.rs.Get(0), ir := chip.decode(dbus), dbus := dbus)
  }

  function RoverStep(s: Stk): (s': Stk)
    ensures s.Valid() ==> s'.Valid()
  {
    s.(over := Inc(s.over), under := Inc(s.under))
  }

  function RunderStep(s: Stk): (s': Stk)
    ensures s.Valid() ==> s'.Valid()
  {
    s.(over := Dec(s.over), under := Dec(s.under))
  }

  /** Phase b of the first cycle of a spill: the markers move up, the pointer down. */
  function ROver1Phib(d: Dp): (d': Dp)
    requires d.Valid()
    ensures d'.Valid()
    ensures Remains(d, d')
  {
    HoldPhib(d, Nop).(rs := RoverStep(d.rs), aluout := Minus(d.bbus, d.tbus))
  }

  function POver1Phib(d: Dp): (d': Dp)
    requires d.Valid()
    ensures d'.Valid()
    ensures Remains(d, d')
  {
    HoldPhib(d, Nop).(ps := RoverStep(d.ps), aluout := Minus(d.bbus, d.tbus))
  }

  /** Phase b of the first cycle of a fill, which keeps the address to load from. */
  function RUnder1Phib(d: Dp): (d': Dp)
    requires d.Valid()
    ensures d'.Valid()
    ensures Remains(d, d')
  {
    d.(rs := RunderStep(d.rs), hold := d.rs.ext, tor := FromHold, writeback := Nop, aluout := Plus(d.bbus, d.tbus))
  }

  function PUnder1Phib(d: Dp): (d': Dp)
    requires d.Valid()
    ensures d'.Valid()
    ensures Remains(d, d')
  {
    d.(ps := RunderStep(d.ps), hold := d.ps.ext, tor := FromHold, writeback := Nop, aluout := Plus(d.bbus, d.tbus))
  }

  /** What the access has brought, in the data latch. */
  function Latched(d: Dp, dbus: Word): (d': Dp)
    ensures d.Valid() ==> d'.Valid()
    ensures Remains(d, d')
  {
    d.(dhold := dbus, dbus := dbus)
  }

  function Dpphib(d: Dp, chip: Chip, dbus: Word): (d': Dp)
    requires d.Valid()
    ensures d'.Valid()
    ensures if Fetches(d.state) then Takes(d, d', chip, dbus) else Remains(d, d')
  {
    hide ExecPhib, IntPhib, SquashPhib, LoadPhib, HoldPhib, ROver1Phib, POver1Phib, RUnder1Phib, PUnder1Phib,
      Latched;
    match d.state
    case TInt => IntPhib(d, chip, dbus)
    case TExec => ExecPhib(d, chip, dbus)
    case TLoad => LoadPhib(d, dbus)
    case TStore => Latched(HoldPhib(d, Nop), dbus)
    case TSquash => SquashPhib(d, chip, dbus)
    case TROver1 => Latched(ROver1Phib(d), dbus)
    case TROver2 => Latched(HoldPhib(d, Nop), dbus)
    case TRUnder1 => Latched(RUnder1Phib(d), dbus)
    case TRUnder2 => Latched(HoldPhib(d, RsUnderflow), dbus)
    case TPOver1 => Latched(POver1Phib(d), dbus)
    case TPOver2 => Latched(HoldPhib(d, Nop), dbus)
    case TPUnder1 => Latched(PUnder1Phib(d), dbus)
    case TPUnder2 => Latched(HoldPhib(d, PsUnderflow), dbus)
  }

  /** The access that phase a presents; `device` answers outside external memory. */
  function Presented(d: Dp, device: Word): Request {
    Request(d.abus, d.read, d.bytemode, if d.read then 0 else d.dbus, device)
  }
}
