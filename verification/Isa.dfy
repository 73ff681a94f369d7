/** The instruction set as its programmer sees it: two unbounded stacks, one instruction at a
    time, no spill or fill cycles, no delayed write-back, no squashed fetch. */
module Isa {
  import opened Word32
  import opened Registers
  import opened MainMemory
  import opened CacheBus
  import opened CacheRefinement
  import opened Sc32

  /** `ir` is the instruction about to be executed and `at` the address it was fetched from;
      stacks are held top first. */
  datatype Machine = Machine(ps: seq<Word>, rs: seq<Word>, psw: Word, y: Word, flag: bool, udr: seq<Word>,
                             at: Word, ir: Instr)
  {
    /** Deep enough for every register of the instruction set to exist. */
    predicate Valid() {
      |ps| >= 4 && |rs| >= 4 && |udr| == 4
    }

    function Get(r: Reg, pc: Word): Word
      requires Valid()
    {
      match r
      case S(k) => ps[k]
      case R(k) => rs[k]
      case U(k) => udr[k]
      case IAR => pc
      case PSW => psw
      case ZERO => 0
      case Y => y
    }

    function Set(r: Reg, v: Word): Machine
      requires Valid()
    {
      match r
      case S(k) => this.(ps := ps[k := v])
      case R(k) => this.(rs := rs[k := v])
      case U(k) => this.(udr := udr[k := v])
      case PSW => this.(psw := v % 0x40)
      case Y => this.(y := v)
      case _ => this
    }
  }

  /** What the environment contributes to one instruction: the devices' answers to its fetch
      and its data access, and what a push exposes before the register is written. */
  datatype Env = Env(fetch: Word, data: Word, pjunk: Word, rjunk: Word)

  function Moved(s: seq<Word>, op: StackOp, junk: Word): seq<Word>
    requires |s| > 0
  {
    match op
    case Keep => s
    case Push => [junk] + s
    case Pop => s[1..]
  }

  /** Where control goes next: a conditional branch falls through when the flag is set. */
  function Target(i: Machine): Word
    requires i.Valid()
  {
    if i.ir.kind.Flow? then (if i.ir.brtype.QBranch? && i.flag then Plus(i.at, 4) else i.ir.dest)
    else if i.ir.ret then i.rs[0]
    else Plus(i.at, 4)
  }

  function OperandB(i: Machine): Word
    requires i.Valid()
  {
    if i.ir.kind.Flow? then Plus(i.at, 4) else i.Get(i.ir.reg1, Plus(i.at, 4))
  }

  function OperandT(i: Machine): Word
    requires i.Valid()
  {
    match i.ir.kind
    case Lah => Wrap(i.ir.offset * 0x1_0000)
    case Flow => if i.ir.shift && i.ir.imm then i.ir.literal else i.ps[0]
    case Micro => if i.ir.shift && i.ir.imm then i.ir.literal else i.ps[0]
    case _ => Wrap(i.ir.offset)
  }

  /** The address of a load or store, and the value of a literal: a register and the offset, which a
      high literal shifts to the upper half. */
  function Sum(i: Machine): Word
    requires i.Valid()
  {
    (i.Get(i.ir.reg1, Plus(i.at, 4)) + i.ir.offset * (if i.ir.kind.Lah? then 0x1_0000 else 1)) % 0x1_0000_0000
  }

  /** What an instruction computes; for a call the return address. */
  function Operands(i: Machine, chip: Chip): AluOut
    requires i.Valid()
  {
    match i.ir.kind
    case Flow => AluOut(Plus(i.at, 4), Plus(i.at, 4), i.flag, i.y)
    case Micro => chip.alu(i.ir, OperandT(i), OperandB(i), i.y, i.flag)
    case _ => AluOut(Sum(i), OperandB(i), i.flag, i.y)
  }

  /** The next instruction is fetched and the stack pointers move, before any result is written. */
  function Advance(i: Machine, m: Main, chip: Chip, env: Env): Machine
    requires i.Valid() && m.Valid()
  {
    var t := Target(i);
    var out := Operands(i, chip);
    var i1 := i.(at := t, ir := chip.decode(Answer(m, Request(t, true, false, 0, env.fetch))), y := out.y,
                 flag := if i.ir.kind.Micro? && i.ir.setflag then out.flinput else i.flag);
    if i.ir.kind.Flow? then
      match i.ir.brtype
      case Colon => i1.(rs := [Plus(i.at, 4)] + i.rs)
      case Does => i1.(ps := [Plus(i.at, 4)] + i.ps)
      case _ => i1
    else i1.(ps := Moved(i.ps, i.ir.pop, env.pjunk), rs := Moved(i.rs, i.ir.rop, env.rjunk))
  }

  /** The access that a store makes once the stack pointers have moved; `i` is that state. */
  function StoreOf(i: Machine, ir: Instr, a: Word, device: Word): Request
    requires i.Valid()
  {
    var v := i.Get(ir.reg2, Plus(i.at, 4));
    if ir.kind.StoreByte? then Request(a, false, true, Spread(v % 256), device)
    else Request(a, false, false, v, device)
  }

  function LoadOf(ir: Instr, a: Word, device: Word): Request {
    Request(a, true, ir.kind.LoadByte?, 0, device)
  }

  function Loaded(m: Main, ir: Instr, a: Word, device: Word): Word
    requires m.Valid()
  {
    var w := Answer(m, LoadOf(ir, a, device));
    if ir.kind.LoadByte? then ByteAt(w, a % 4) else w
  }

  /** One instruction. */
  function Execute(i: Machine, m: Main, chip: Chip, env: Env): Machine
    requires i.Valid() && m.Valid() && Advance(i, m, chip, env).Valid()
  {
    var out := Operands(i, chip);
    var i1 := Advance(i, m, chip, env);
    match i.ir.kind
    case Flow => i1
    case Micro => i1.Set(i.ir.reg2, if i.ir.shift then out.barrel else out.result)
    case Lal => i1.Set(i.ir.reg2, out.result)
    case Lah => i1.Set(i.ir.reg2, out.result)
    case Load => i1.Set(i.ir.reg2, Loaded(m, i.ir, out.result, env.data))
    case LoadByte => i1.Set(i.ir.reg2, Loaded(m, i.ir, out.result, env.data))
    case _ => i1
  }

  predicate IsStore(ir: Instr) {
    ir.kind.Store? || ir.kind.StoreByte?
  }

  /** The memory after one instruction. */
  function Memory(i: Machine, m: Main, chip: Chip, env: Env): Main
    requires i.Valid() && m.Valid() && Advance(i, m, chip, env).Valid()
  {
    if IsStore(i.ir) then
      Apply(m, StoreOf(Advance(i, m, chip, env), i.ir, Operands(i, chip).result, env.data))
    else m
  }

  /** An interrupt is a call of its vector whose return address is the first instruction not
      yet executed. */
  function Interrupt(i: Machine, m: Main, chip: Chip, vector: Vector, device: Word): Machine
    requires m.Valid()
  {
    var t := Wrap(vector * 4);
    i.(rs := [i.at] + i.rs, psw := ClearIe(i.psw), at := t,
       ir := chip.decode(Answer(m, Request(t, true, false, 0, device))))
  }

  // What the instructions do, in numbers

  /** A load takes the cell at the sum of its register and its offset into its other register. */
  lemma {:induction false} LoadMeans(i: Machine, m: Main, chip: Chip, env: Env)
    requires i.Valid() && m.Valid() && Advance(i, m, chip, env).Valid() && i.ir.kind.Load?
    requires m.Covers((i.ir.offset + i.Get(i.ir.reg1, Plus(i.at, 4))) % 0x1_0000_0000)
    ensures var a := (i.ir.offset + i.Get(i.ir.reg1, Plus(i.at, 4))) % 0x1_0000_0000;
            Execute(i, m, chip, env) == Advance(i, m, chip, env).Set(i.ir.reg2, m.Fetch(a))
  {
    hide Advance, Machine.Set, Machine.Get;
  }

  /** A load of a byte counts the bytes of a cell from the most significant one. */
  lemma {:induction false} LoadByteMeans(i: Machine, m: Main, chip: Chip, env: Env)
    requires i.Valid() && m.Valid() && Advance(i, m, chip, env).Valid() && i.ir.kind.LoadByte?
    requires m.Covers((i.ir.offset + i.Get(i.ir.reg1, Plus(i.at, 4))) % 0x1_0000_0000)
    ensures var a := (i.ir.offset + i.Get(i.ir.reg1, Plus(i.at, 4))) % 0x1_0000_0000;
            var w := m.Fetch(a);
            var b := if a % 4 == 0 then w / 0x100_0000 else if a % 4 == 1 then w / 0x1_0000 % 0x100
                     else if a % 4 == 2 then w / 0x100 % 0x100 else w % 0x100;
            Execute(i, m, chip, env) == Advance(i, m, chip, env).Set(i.ir.reg2, b)
  {
    hide Advance, Machine.Set, Machine.Get, Main.Fetch;
  }

  /** A store puts its other register, as it is once the stacks have moved, into the cell at that sum,
      and into no other. */
  lemma {:induction false} StoreMeans(i: Machine, m: Main, chip: Chip, env: Env, b: Word)
    requires i.Valid() && m.Valid() && Advance(i, m, chip, env).Valid() && i.ir.kind.Store? && m.Covers(b)
    requires m.Covers((i.ir.offset + i.Get(i.ir.reg1, Plus(i.at, 4))) % 0x1_0000_0000)
    ensures var a := (i.ir.offset + i.Get(i.ir.reg1, Plus(i.at, 4))) % 0x1_0000_0000;
            var j := Advance(i, m, chip, env);
            && Execute(i, m, chip, env) == j && Memory(i, m, chip, env).Valid() && Memory(i, m, chip, env).Covers(b)
            && Memory(i, m, chip, env).Fetch(b)
               == if b / 4 == a / 4 then j.Get(i.ir.reg2, Plus(j.at, 4)) else m.Fetch(b)
  {
    var a := (i.ir.offset + i.Get(i.ir.reg1, Plus(i.at, 4))) % 0x1_0000_0000;
    var j := Advance(i, m, chip, env);
    assert Operands(i, chip).result == a;
    FetchStore(m, a, j.Get(i.ir.reg2, Plus(j.at, 4)), b);
    hide Advance, Machine.Get, Main.Fetch, Main.Store, Operands, Plus;
  }

  /** A store of a byte changes that byte of the cell only. */
  lemma {:induction false} StoreByteMeans(i: Machine, m: Main, chip: Chip, env: Env, b: Word)
    requires i.Valid() && m.Valid() && Advance(i, m, chip, env).Valid() && i.ir.kind.StoreByte? && m.Covers(b)
    requires m.Covers((i.ir.offset + i.Get(i.ir.reg1, Plus(i.at, 4))) % 0x1_0000_0000)
    ensures var a := (i.ir.offset + i.Get(i.ir.reg1, Plus(i.at, 4))) % 0x1_0000_0000;
            var j := Advance(i, m, chip, env);
            && Execute(i, m, chip, env) == j && Memory(i, m, chip, env).Valid() && Memory(i, m, chip, env).Covers(b)
            && ByteAt(Memory(i, m, chip, env).Fetch(b), b % 4)
               == if a == b then j.Get(i.ir.reg2, Plus(j.at, 4)) % 0x100 else ByteAt(m.Fetch(b), b % 4)
  {
    var a := (i.ir.offset + i.Get(i.ir.reg1, Plus(i.at, 4))) % 0x1_0000_0000;
    var j := Advance(i, m, chip, env);
    assert Operands(i, chip).result == a;
    var v := j.Get(i.ir.reg2, Plus(j.at, 4)) % 0x100;
    SpreadLow(v);
    FetchStore(m, a, PutByte(m.Fetch(a), a % 4, v), b);
    PutByteBytes(m.Fetch(a), a % 4, v, b % 4);
    if a / 4 == b / 4 {
      FetchSame(m, a, b);
    }
    hide Advance, Machine.Get, Main.Fetch, Main.Store, Operands, Plus, ByteAt, PutByte, Spread;
  }

  lemma {:induction false} SpreadLow(v: Byte)
    ensures Spread(v) % 256 == v
  {
    SpreadBytes(v, 3);
  }

  /** A literal is that sum, a high literal the sum with its offset in the upper half. */
  lemma {:induction false} LiteralMeans(i: Machine, m: Main, chip: Chip, env: Env)
    requires i.Valid() && m.Valid() && Advance(i, m, chip, env).Valid() && (i.ir.kind.Lal? || i.ir.kind.Lah?)
    ensures var x := i.Get(i.ir.reg1, Plus(i.at, 4));
            var v := if i.ir.kind.Lal? then (i.ir.offset + x) % 0x1_0000_0000 else (0x1_0000 * i.ir.offset + x) % 0x1_0000_0000;
            Execute(i, m, chip, env) == Advance(i, m, chip, env).Set(i.ir.reg2, v)
  {
    hide Advance, Machine.Set, Machine.Get;
  }

  /** Apart from its result an instruction that is no branch goes to the next cell or, as a return, to
      the top of the return stack, and moves the stacks as its two fields say. */
  lemma {:induction false} AdvanceMeans(i: Machine, m: Main, chip: Chip, env: Env)
    requires i.Valid() && m.Valid() && !i.ir.kind.Flow?
    ensures var j := Advance(i, m, chip, env);
            && j.at == (if i.ir.ret then i.rs[0] else (i.at + 4) % 0x1_0000_0000)
            && (i.ir.pop.Pop? ==> j.ps == i.ps[1..]) && (i.ir.pop.Push? ==> j.ps[1..] == i.ps) && (i.ir.pop.Keep? ==> j.ps == i.ps)
            && (i.ir.rop.Pop? ==> j.rs == i.rs[1..]) && (i.ir.rop.Push? ==> j.rs[1..] == i.rs) && (i.ir.rop.Keep? ==> j.rs == i.rs)
            && j.psw == i.psw && j.udr == i.udr && (!i.ir.kind.Micro? ==> j.y == i.y && j.flag == i.flag)
            && (m.Covers(j.at) ==> j.ir == chip.decode(m.Fetch(j.at)))
  {
    hide Sum, OperandT, OperandB, Main.Fetch;
  }

  /** Calls push the address after their own, branches only go to their destination. */
  lemma {:induction false} FlowMeans(i: Machine, m: Main, chip: Chip, env: Env)
    requires i.Valid() && m.Valid() && i.ir.kind.Flow? && Advance(i, m, chip, env).Valid()
    ensures var j := Execute(i, m, chip, env); var next := (i.at + 4) % 0x1_0000_0000;
            && j.at == (if i.ir.brtype.QBranch? && i.flag then next else i.ir.dest)
            && j.ps == (if i.ir.brtype.Does? then [next] + i.ps else i.ps)
            && j.rs == (if i.ir.brtype.Colon? then [next] + i.rs else i.rs)
            && j.psw == i.psw && j.udr == i.udr && j.y == i.y && j.flag == i.flag
            && (m.Covers(j.at) ==> j.ir == chip.decode(m.Fetch(j.at)))
  {
    hide Main.Fetch;
  }

  /** An interrupt clears bit 4 of the status word, which says that interrupts are on, and goes to the
      cell of its line. */
  lemma {:induction false} InterruptMeans(i: Machine, m: Main, chip: Chip, vector: Vector, device: Word, low: nat, high: nat)
    requires m.Valid() && m.Covers(4 * vector) && low < 16 && i.psw == low + 16 + 32 * high
    ensures Ie(i.psw) && !Ie(low + 32 * high)
    ensures Interrupt(i, m, chip, vector, device)
         == i.(rs := [i.at] + i.rs, psw := low + 32 * high, at := 4 * vector, ir := chip.decode(m.Fetch(4 * vector)))
  {
    assert i.psw / 16 == 1 + 2 * high && (low + 32 * high) / 16 == 2 * high;
  }
}
