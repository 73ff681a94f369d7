/** The cell-addressed instruction set as its programmer sees it: two unbounded stacks, one
    instruction at a time, no spill, fill or DMA cycles, no pipeline. */
module FriscIsa {
  import opened Word32
  import opened Registers
  import Frisc

  /** `ir` is the instruction about to be executed and `at` the cell it was fetched from; stacks are
      held top first. */
  datatype Machine = Machine(ps: seq<Word>, rs: seq<Word>, psw: Word, y: Word, flag: bool, udr: seq<Word>,
                             icr: seq<Word>, at: Word, ir: Frisc.Instr)
  {
    predicate Valid() {
      |ps| >= 4 && |rs| >= 4 && |udr| == 4 && |icr| == 3
    }

    /** A register; the low four bits of the status word select what the four registers U are. Those of
        selection 1, which tell of the stack caches, hold `cop`. */
    function Get(r: Reg, cop: Word): Word
      requires Valid()
    {
      match r
      case S(k) => ps[k]
      case R(k) => rs[k]
      case IAR => (at + 1) % 0x1_0000_0000
      case PSW => psw
      case ZERO => 0
      case Y => y
      case U(k) =>
        match psw % 16
        case 0 => udr[k]
        case 1 => cop
        case 2 => if k < 3 then icr[k] else 0
        case _ => 0
    }

    function Set(r: Reg, v: Word): Machine
      requires Valid()
    {
      match r
      case S(k) => this.(ps := ps[k := v])
      case R(k) => this.(rs := rs[k := v])
      case PSW => this.(psw := v % 64)
      case Y => this.(y := v)
      case U(k) =>
        if psw % 16 == 0 then this.(udr := udr[k := v])
        else if psw % 16 == 2 && k < 3 then this.(icr := icr[k := v])
        else this
      case _ => this
    }
  }

  /** What one instruction finds that the programmer's machine does not have: the registers of the stack
      caches, when it reads its operand and when it stores, and what a push exposes. */
  datatype Env = Env(cop: Word, stored: Word, pjunk: Word, rjunk: Word)

  function Moved(s: seq<Word>, op: StackOp, junk: Word): seq<Word>
    requires |s| > 0
  {
    match op
    case Keep => s
    case Push => [junk] + s
    case Pop => s[1..]
  }

  predicate Flows(ir: Frisc.Instr) {
    ir.kind.Colon? || ir.kind.Branch? || ir.kind.QBranch?
  }

  predicate Writes(ir: Frisc.Instr) {
    ir.kind.Micro? || ir.kind.Lal? || ir.kind.Lah? || ir.kind.Load?
  }

  /** Where control goes next. */
  function Target(i: Machine): Word
    requires i.Valid()
  {
    if i.ir.kind.QBranch? && i.flag then (i.at + 1) % 0x1_0000_0000
    else if Flows(i.ir) then i.ir.dest
    else if i.ir.ret then i.rs[0]
    else (i.at + 1) % 0x1_0000_0000
  }

  /** The address of a load or store and the value of a literal. */
  function Sum(i: Machine, env: Env): Word
    requires i.Valid()
  {
    (i.Get(i.ir.reg1, env.cop) + i.ir.offset * (if i.ir.kind.Lah? then 0x1_0000 else 1)) % 0x1_0000_0000
  }

  /** The first operand of the ALU and the shift count. */
  function First(i: Machine): Word
    requires i.Valid()
  {
    if i.ir.class_.Shift? && i.ir.imm then i.ir.literal else i.ps[0]
  }

  /** What a micro instruction computes, y and flag among it. */
  function Outcome(i: Machine, chip: Frisc.Chip, env: Env): Frisc.AluOut
    requires i.Valid()
  {
    chip.alu(i.ir, First(i), i.Get(i.ir.reg1, env.cop), i.y, i.flag)
  }

  /** What a literal or a micro instruction writes: a test leaves all ones or nothing. */
  function Result(i: Machine, chip: Frisc.Chip, env: Env): Word
    requires i.Valid()
  {
    if !i.ir.kind.Micro? then Sum(i, env)
    else match i.ir.class_
      case Test => if Outcome(i, chip, env).cond then 0xFFFF_FFFF else 0
      case Shift => chip.barrel(i.ir, First(i), i.Get(i.ir.reg1, env.cop))
      case _ => Outcome(i, chip, env).result
  }

  /** The next instruction is fetched, the stacks move and a call leaves its return address, before any
      result is written. */
  function Advance(i: Machine, mem: Frisc.Memory, chip: Frisc.Chip, env: Env): Machine
    requires i.Valid()
  {
    var i1 := i.(at := Target(i), ir := chip.decode(mem.Fetch(Target(i))));
    match i.ir.kind
    case Colon => i1.(rs := [(i.at + 1) % 0x1_0000_0000] + i.rs)
    case Branch => i1
    case QBranch => i1
    case Micro =>
      i1.(ps := Moved(i.ps, i.ir.pop, env.pjunk), rs := Moved(i.rs, i.ir.rop, env.rjunk),
          y := Outcome(i, chip, env).y, flag := Outcome(i, chip, env).flag)
    case _ => i1.(ps := Moved(i.ps, i.ir.pop, env.pjunk), rs := Moved(i.rs, i.ir.rop, env.rjunk))
  }

  /** One instruction. */
  function Execute(i: Machine, mem: Frisc.Memory, chip: Frisc.Chip, env: Env): Machine
    requires i.Valid() && Advance(i, mem, chip, env).Valid()
  {
    var j := Advance(i, mem, chip, env);
    if i.ir.kind.Load? then j.Set(i.ir.reg2, mem.Fetch(Sum(i, env)))
    else if Writes(i.ir) then j.Set(i.ir.reg2, Result(i, chip, env))
    else j
  }

  /** The memory after one instruction: a store takes its register as it is once the stacks have moved. */
  function Memory(i: Machine, mem: Frisc.Memory, chip: Frisc.Chip, env: Env): Frisc.Memory
    requires i.Valid() && Advance(i, mem, chip, env).Valid()
  {
    if i.ir.kind.Store? then
      mem.Store(Sum(i, env), Advance(i, mem, chip, env).Get(i.ir.reg2, env.stored))
    else mem
  }
}
