/** What the unpipelined and the pipelined cell-addressed FRISC machines have in common: the
    registers, memory and the rules by which one cycle follows another. */
module Frisc {
  import opened Word32
  import opened Registers
  import opened StackCache

  datatype Kind = Colon | Branch | QBranch | Micro | Load | Store | Lal | Lah

  datatype Class = AluClass | Test | StepClass | Shift

  datatype Instr = Instr(kind: Kind, class_: Class, dest: Word, ret: bool, reg1: Reg, reg2: Reg,
                         pop: StackOp, rop: StackOp, offset: Offset, imm: bool, literal: Word, code: Word)

  /** Result, selected condition, and the new y and flag of a micro instruction. */
  datatype AluOut = AluOut(result: Word, cond: bool, y: Word, flag: bool)

  /** What both machines use alike and the comparison holds for whatever it is: the instruction
      encoding, the ALU and the barrel shifter. */
  datatype Chip = Chip(decode: Word -> Instr, alu: (Instr, Word, Word, Word, bool) -> AluOut,
                       barrel: (Instr, Word, Word) -> Word)

  /** Memory by cell address; `rest` answers where there is no memory to write. */
  datatype Memory = Memory(ram: map<Word, Word>, rest: Word -> Word) {
    function Fetch(a: Word): Word {
      if a in ram then ram[a] else rest(a)
    }

    function Store(a: Word, v: Word): Memory {
      if a in ram then this.(ram := ram[a := v]) else this
    }
  }

  /** The state that programs can see, with the cycle count. */
  datatype Core = Core(ps: Stk, rs: Stk, psw: Word, ssw: Word, actualie: bool, udr: seq<Word>, icr: seq<Word>,
                       y: Word, flag: bool, pca: Word, pcb: Word, intvector: Word,
                       mem: Memory, cycle: nat)
  {
    predicate Valid() {
      ps.Valid() && rs.Valid() && |udr| == 4 && |icr| == 3
    }
  }

  datatype CycleType = TInt | TGrant | TExec | TLoad | TStore
                     | TRsDec | TRsStore | TRsLoad | TRsInc | TPsDec | TPsStore | TPsLoad | TPsInc

  /** What the outside presents in a cycle: a DMA request and a pending interrupt's vector. */
  datatype Input = Input(busrequest: bool, irq: Option<Word>)

  function Cpselect(psw: Word): int {
    psw % 0x10
  }

  predicate Rcache(ssw: Word) {
    (ssw / 0x1_0000) % 2 == 1
  }

  predicate Pcache(ssw: Word) {
    (ssw / 0x2_0000) % 2 == 1
  }

  /** A word with its low half replaced. */
  function LowHalf(x: Word, fields: nat): Word
    requires fields < 0x1_0000
  {
    (x / 0x1_0000) * 0x1_0000 + fields
  }

  /** The stack status word with the current stack tops and overflow markers. */
  function Status(c: Core): Word {
    var fields := c.rs.over + 0x10 * c.rs.top + 0x100 * c.ps.over + 0x1000 * c.ps.top;
    LowHalf(c.ssw, fields)
  }

  /** A register as read; `iar` is the program counter copy that instructions see. */
  function Readreg(c: Core, r: Reg, iar: Word): Word
    requires c.Valid()
  {
    match r
    case S(k) => c.ps.Get(k)
    case R(k) => c.rs.Get(k)
    case IAR => iar
    case PSW => c.psw
    case ZERO => 0
    case Y => c.y
    case U(k) =>
      if Cpselect(c.psw) == 0 then c.udr[k]
      else if Cpselect(c.psw) == 1 then
        (if k == 0 then c.rs.ext else if k == 1 then c.ps.ext else if k == 2 then Status(c) else 0)
      else if Cpselect(c.psw) == 2 && k < 3 then c.icr[k]
      else 0
  }

  /** A stack with its markers set from the status word. */
  function Marked(s: Stk, top: Slot, over: Slot): (s': Stk)
    ensures s.Valid() ==> s'.Valid()
  {
    s.(top := top, over := over, under := if over < 12 then over + 4 else over - 12)
  }

  function Writereg(c: Core, r: Reg, v: Word): (c': Core)
    requires c.Valid()
    ensures c'.Valid()
    ensures c'.cycle == c.cycle
  {
    match r
    case S(k) => c.(ps := c.ps.Put(k, v))
    case R(k) => c.(rs := c.rs.Put(k, v))
    case IAR => c
    case PSW => c.(psw := v % 0x40)
    case ZERO => c
    case Y => c.(y := v)
    case U(k) =>
      if Cpselect(c.psw) == 0 then c.(udr := c.udr[k := v])
      else if Cpselect(c.psw) == 1 then
        (if k == 0 then c.(rs := c.rs.(ext := v))
         else if k == 1 then c.(ps := c.ps.(ext := v))
         else if k == 2 then
           c.(ssw := v, rs := Marked(c.rs, (v / 0x10) % 0x10, v % 0x10),
              ps := Marked(c.ps, (v / 0x1000) % 0x10, (v / 0x100) % 0x10))
         else c)
      else if Cpselect(c.psw) == 2 && k < 3 then c.(icr := c.icr[k := v])
      else c
  }

  /** Whether writing register r changes the processor or the stack status word. */
  predicate StatusWrite(c: Core, r: Reg) {
    r.PSW? || (r == U(2) && Cpselect(c.psw) == 1)
  }

  function Stackop(c: Core, ir: Instr): (c': Core)
    ensures c' == c.(ps := c'.ps, rs := c'.rs)
    ensures c.Valid() ==> c'.Valid()
  {
    match ir.kind
    case Colon => c.(rs := c.rs.PushTop())
    case Branch => c
    case QBranch => c
    case _ => c.(ps := StackMove(c.ps, ir.pop), rs := StackMove(c.rs, ir.rop))
  }

  predicate Flow(k: Kind) {
    k.Colon? || k.Branch? || k.QBranch?
  }

  /** The second operand of the ALU, from the instruction or the top of the parameter stack. */
  function Tsource(c: Core, ir: Instr): Word
    requires c.Valid()
  {
    if ir.kind.Lal? || ir.kind.Load? || ir.kind.Store? then Wrap(ir.offset)
    else if ir.kind.Lah? then Wrap(ir.offset * 0x1_0000)
    else if ir.class_.Shift? && ir.imm then ir.literal
    else c.ps.Get(0)
  }

  function Alu(chip: Chip, ir: Instr, a: Word, b: Word, y: Word, flag: bool): AluOut {
    if Flow(ir.kind) then AluOut(b, false, y, flag)
    else if ir.kind.Micro? then chip.alu(ir, a, b, y, flag)
    else AluOut(Plus(a, b), false, y, flag)
  }

  function Barrel(chip: Chip, ir: Instr, a: Word, b: Word): Word {
    if ir.kind.Micro? then chip.barrel(ir, a, b) else b
  }

  /** The cycle after the last one of an instruction: return stack spill or fill, parameter stack
      spill or fill, interrupt, DMA, or the next instruction. */
  function Boundary(c: Core, i: Input): (s: CycleType)
    ensures s.TInt? ==> c.actualie && i.irq.Some?
  {
    if Rcache(c.ssw) && c.rs.top == c.rs.over then TRsDec
    else if Rcache(c.ssw) && c.rs.top == c.rs.under then TRsLoad
    else if Pcache(c.ssw) && c.ps.top == c.ps.over then TPsDec
    else if Pcache(c.ssw) && c.ps.top == c.ps.under then TPsLoad
    else if c.actualie && i.irq.Some? then TInt
    else if i.busrequest then TGrant
    else TExec
  }

  function Nextstate(state: CycleType, ir: Instr, c: Core, i: Input): (s: CycleType)
    ensures s.TInt? ==> c.actualie && i.irq.Some?
  {
    match state
    case TInt => TExec
    case TGrant => if i.busrequest then TGrant else if c.actualie && i.irq.Some? then TInt else TExec
    case TExec => if ir.kind.Load? then TLoad else if ir.kind.Store? then TStore else Boundary(c, i)
    case TRsDec => TRsStore
    case TRsLoad => TRsInc
    case TPsDec => TPsStore
    case TPsLoad => TPsInc
    case _ => Boundary(c, i)
  }

  /** The bookkeeping that ends a cycle: the program counter, the vector of an interrupt that is
      being taken, the cycle count. */
  function Advance(c: Core, next: CycleType, i: Input): Core
    requires next.TInt? ==> i.irq.Some?
  {
    c.(pcb := Plus(c.pca, 1), intvector := if next.TInt? then i.irq.value else c.intvector, cycle := c.cycle + 1)
  }

  /** Acknowledging an interrupt disables further ones. */
  function ClearIe(c: Core): Core {
    c.(psw := if Ie(c.psw) then c.psw - 0x10 else c.psw)
  }

  const IBROMBOTTOM: Word := 0x1000_0000

  /** The registers after a reset: empty stacks, caches and interrupts off, the boot ROM mapped in
      and about to run. */
  function ResetCore(c: Core): (c': Core)
    ensures c.Valid() ==> c'.Valid()
  {
    c.(rs := Marked(c.rs, SIZE - 1, 0), ps := Marked(c.ps, SIZE - 1, 0),
       ssw := (c.ssw / 0x4_0000) * 0x4_0000 + 0xF0F0, psw := (c.psw / 0x40) * 0x40 + 0x20,
       actualie := false, y := 0, flag := false, pca := IBROMBOTTOM, pcb := IBROMBOTTOM + 1, cycle := 0)
  }

  function OverStep(s: Stk): (s': Stk)
    ensures s.Valid() ==> s'.Valid()
  {
    s.(over := Inc(s.over), under := Inc(s.under))
  }

  function UnderStep(s: Stk): (s': Stk)
    ensures s.Valid() ==> s'.Valid()
  {
    s.(over := Dec(s.over), under := Dec(s.under))
  }
}
