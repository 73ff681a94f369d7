/** The unpipelined machine: every result is written in the cycle that computes it. */
module FriscPlain {
  import opened Word32
  import opened Registers
  import opened StackCache
  import opened Frisc

  datatype Plain = Plain(state: CycleType, core: Core, ir: Instr, oldir: Instr, alua: Word, alub: Word,
                         aluout: Word, barrelout: Word, portaddr: Word, portvalue: Word)

  // Phase a

  function Asrca(p: Plain): Word
    requires p.core.Valid()
  {
    match p.ir.kind
    case Colon => p.ir.dest
    case Branch => p.ir.dest
    case QBranch => if p.core.flag then p.core.pcb else p.ir.dest
    case _ => if p.ir.ret then p.core.rs.Get(0) else p.core.pcb
  }

  function Bsrca(p: Plain): Word
    requires p.core.Valid()
  {
    if Flow(p.ir.kind) then p.core.pcb else Readreg(p.core, p.ir.reg1, p.core.pcb)
  }

  function ExecPhia(p: Plain): (p': Plain)
    requires p.core.Valid()
    ensures p'.core.Valid()
  {
    var a := Asrca(p);
    p.(portaddr := a, alub := Bsrca(p), alua := Tsource(p.core, p.ir), core := Stackop(p.core.(pca := a), p.ir))
  }

  function StorePhia(p: Plain): Plain
    requires p.core.Valid()
  {
    p.(portaddr := p.aluout, portvalue := Readreg(p.core, p.oldir.reg2, p.core.pcb))
  }

  function Phia(p0: Plain): (p': Plain)
    requires p0.core.Valid()
    ensures p'.core.Valid() && p'.state == p0.state
  {
    var p := p0.(core := p0.core.(actualie := Ie(p0.core.psw)));
    match p.state
    case TInt => p.(portaddr := p.core.intvector, core := ClearIe(p.core))
    case TGrant => p
    case TExec => ExecPhia(p)
    case TLoad => p.(portaddr := p.aluout)
    case TStore => StorePhia(p)
    case TRsDec => p.(portaddr := p.core.pcb, alub := p.core.rs.ext)
    case TRsStore => p.(portaddr := p.core.rs.ext, portvalue := p.core.rs.buf[Inc(p.core.rs.top)])
    case TRsLoad => p.(portaddr := p.core.rs.ext)
    case TRsInc => p.(portaddr := p.core.pcb, alub := p.core.rs.ext)
    case TPsDec => p.(portaddr := p.core.pcb, alub := p.core.ps.ext)
    case TPsStore => p.(portaddr := p.core.ps.ext, portvalue := p.core.ps.buf[Inc(p.core.ps.top)])
    case TPsLoad => p.(portaddr := p.core.ps.ext)
    case TPsInc => p.(portaddr := p.core.pcb, alub := p.core.ps.ext)
  }

  // Phase b

  /** The value that an instruction writes at the end of its first cycle. */
  function Bsrcb(ir: Instr, out: AluOut, barrel: Word): Word {
    if !ir.kind.Micro? then out.result
    else match ir.class_
      case Test => if out.cond then TWO32 - 1 else 0
      case Shift => barrel
      case _ => out.result
  }

  function Bdest(c: Core, ir: Instr, v: Word): (c': Core)
    requires c.Valid()
    ensures c'.Valid()
  {
    match ir.kind
    case Colon => c.(rs := c.rs.Put(0, v))
    case Branch => c
    case QBranch => c
    case Load => c
    case Store => c
    case _ => Writereg(c, ir.reg2, v)
  }

  function Finish(p: Plain, c: Core, i: Input): (p': Plain)
    ensures p'.core.cycle == c.cycle + 1 && (c.Valid() ==> p'.core.Valid())
  {
    hide Nextstate;
    var next := Nextstate(p.state, p.ir, c, i);
    p.(core := Advance(c, next, i), state := next)
  }

  function ExecPhib(p: Plain, chip: Chip, i: Input): (p': Plain)
    requires p.core.Valid()
    ensures p'.core.Valid() && p'.core.cycle == p.core.cycle + 1
  {
    var out := Alu(chip, p.ir, p.alua, p.alub, p.core.y, p.core.flag);
    var barrel := Barrel(chip, p.ir, p.alua, p.alub);
    var c := Bdest(p.core.(y := out.y, flag := out.flag), p.ir, Bsrcb(p.ir, out, barrel));
    Finish(p, c, i).(aluout := out.result, barrelout := barrel, oldir := p.ir,
                     ir := chip.decode(c.mem.Fetch(p.portaddr)), portvalue := c.mem.Fetch(p.portaddr))
  }

  function LoadPhib(p: Plain, i: Input): (p': Plain)
    requires p.core.Valid()
    ensures p'.core.Valid() && p'.core.cycle == p.core.cycle + 1
  {
    var v := p.core.mem.Fetch(p.portaddr);
    Finish(p.(portvalue := v), Writereg(p.core, p.oldir.reg2, v), i)
  }

  function StorePhib(p: Plain, i: Input): (p': Plain)
    requires p.core.Valid()
    ensures p'.core.Valid() && p'.core.cycle == p.core.cycle + 1
  {
    Finish(p, p.core.(mem := p.core.mem.Store(p.portaddr, p.portvalue)), i)
  }

  function IntPhib(p: Plain, chip: Chip, i: Input): (p': Plain)
    requires p.core.Valid()
    ensures p'.core.Valid() && p'.core.cycle == p.core.cycle + 1
  {
    var v := p.core.mem.Fetch(p.portaddr);
    p.(core := p.core.(pcb := p.core.pca, cycle := p.core.cycle + 1), state := TExec, ir := chip.decode(v),
       portvalue := v)
  }

  function RsDecPhib(p: Plain, i: Input): (p': Plain)
    requires p.core.Valid()
    ensures p'.core.Valid() && p'.core.cycle == p.core.cycle + 1
  {
    var e := Minus(p.alub, 1);
    Finish(p.(aluout := e, portvalue := p.core.mem.Fetch(p.portaddr)),
           p.core.(rs := OverStep(p.core.rs).(ext := e)), i)
  }

  function RsLoadPhib(p: Plain, i: Input): (p': Plain)
    requires p.core.Valid()
    ensures p'.core.Valid() && p'.core.cycle == p.core.cycle + 1
  {
    var v := p.core.mem.Fetch(p.portaddr);
    Finish(p.(portvalue := v), p.core.(rs := UnderStep(p.core.rs).Put(4, v)), i)
  }

  function RsIncPhib(p: Plain, i: Input): (p': Plain)
    requires p.core.Valid()
    ensures p'.core.Valid() && p'.core.cycle == p.core.cycle + 1
  {
    var e := Plus(p.alub, 1);
    Finish(p.(aluout := e, portvalue := p.core.mem.Fetch(p.portaddr)), p.core.(rs := p.core.rs.(ext := e)), i)
  }

  function PsDecPhib(p: Plain, i: Input): (p': Plain)
    requires p.core.Valid()
    ensures p'.core.Valid() && p'.core.cycle == p.core.cycle + 1
  {
    var e := Minus(p.alub, 1);
    Finish(p.(aluout := e, portvalue := p.core.mem.Fetch(p.portaddr)),
           p.core.(ps := OverStep(p.core.ps).(ext := e)), i)
  }

  function PsLoadPhib(p: Plain, i: Input): (p': Plain)
    requires p.core.Valid()
    ensures p'.core.Valid() && p'.core.cycle == p.core.cycle + 1
  {
    var v := p.core.mem.Fetch(p.portaddr);
    Finish(p.(portvalue := v), p.core.(ps := UnderStep(p.core.ps).Put(4, v)), i)
  }

  function PsIncPhib(p: Plain, i: Input): (p': Plain)
    requires p.core.Valid()
    ensures p'.core.Valid() && p'.core.cycle == p.core.cycle + 1
  {
    var e := Plus(p.alub, 1);
    Finish(p.(aluout := e, portvalue := p.core.mem.Fetch(p.portaddr)), p.core.(ps := p.core.ps.(ext := e)), i)
  }

  function Phib(p: Plain, chip: Chip, i: Input): (p': Plain)
    requires p.core.Valid()
    ensures p'.core.Valid() && p'.core.cycle == p.core.cycle + 1
  {
    hide IntPhib, ExecPhib, LoadPhib, StorePhib, RsDecPhib, RsLoadPhib, RsIncPhib, PsDecPhib, PsLoadPhib, PsIncPhib,
      Finish;
    match p.state
    case TInt => IntPhib(p, chip, i)
    case TGrant => Finish(p, p.core, i)
    case TExec => ExecPhib(p, chip, i)
    case TLoad => LoadPhib(p, i)
    case TStore => StorePhib(p, i)
    case TRsDec => RsDecPhib(p, i)
    case TRsStore => StorePhib(p, i)
    case TRsLoad => RsLoadPhib(p, i)
    case TRsInc => RsIncPhib(p, i)
    case TPsDec => PsDecPhib(p, i)
    case TPsStore => StorePhib(p, i)
    case TPsLoad => PsLoadPhib(p, i)
    case TPsInc => PsIncPhib(p, i)
  }

  function Cycle(p: Plain, chip: Chip, i: Input): (p': Plain)
    requires p.core.Valid()
    ensures p'.core.Valid()
  {
    Phib(Phia(p), chip, i)
  }

  function Run(p: Plain, chip: Chip, inputs: seq<Input>): (p': Plain)
    requires p.core.Valid()
    ensures p'.core.Valid()
    decreases |inputs|
  {
    if inputs == [] then p else Run(Cycle(p, chip, inputs[0]), chip, inputs[1..])
  }

  function Reset(p: Plain, chip: Chip): Plain {
    var c := ResetCore(p.core);
    p.(state := TExec, core := c, ir := chip.decode(c.mem.Fetch(IBROMBOTTOM)), portaddr := IBROMBOTTOM)
  }
}
