/** How the unpipelined machine comes to a state in order, and that its disciplined programs exist. */
module FriscStart {
  import opened Word32
  import opened Division
  import opened Registers
  import opened StackCache
  import opened Frisc
  import opened FriscPlain
  import FriscPiped
  import opened PipelineEquivalence
  import opened FriscRefinement
  import opened FriscRuns
  import FriscIsa

  /** Five to fifteen entries cached, the rest in the reserved memory. */
  predicate Begins(s: Stk, g: Region) {
    FriscRefinement.Placed(s, g) && 5 <= s.Count() <= 15
  }

  /** A stack status word turns both caches on, each in such a place. */
  predicate Starts(v: Word, c: Core, lay: Layout)
    requires c.Valid()
  {
    && Rcache(v) && Pcache(v) && lay.Valid(c.mem)
    && Begins(Marked(c.rs, (v / 0x10) % 0x10, v % 0x10), lay.r)
    && Begins(Marked(c.ps, (v / 0x1000) % 0x10, (v / 0x100) % 0x10), lay.p)
  }

  /** The instruction that writes it, with interrupts off, brings the machine into order. */
  lemma {:induction false} StatusWriteStarts(p: Plain, chip: Chip, i: Input, lay: Layout)
    requires p.core.Valid() && p.state.TExec? && !Ie(p.core.psw)
    requires Writes(p.ir) && p.ir.reg2 == U(2) && p.core.psw % 16 == 1
    requires Starts(ExecValue(p, chip), ExecCore(p, chip), lay)
    ensures Inv(FriscPlain.Cycle(p, chip, i), lay)
  {
    var c, v, p1 := ExecCore(p, chip), ExecValue(p, chip), FriscPlain.Cycle(p, chip, i);
    ExecPlain(p, chip, i);
    ExecCoreFrame(p, chip);
    ValueIs(p, chip);
    var d := Writereg(c, U(2), v);
    StatusSets(c, v, lay, p1.ir);
    hide *;
    NextNoInt(TExec, p.ir, d, i);
    WriteIs(c, p.ir, v);
    BoundaryInv(p1, d, TExec, p.ir, i, lay);
  }

  lemma {:induction false} WriteIs(c: Core, ir: Instr, v: Word)
    requires c.Valid() && Writes(ir)
    ensures Bdest(c, ir, v) == Writereg(c, ir.reg2, v) && !ir.kind.Load? && !ir.kind.Store?
  {
    hide Writereg;
  }

  lemma {:induction false} StatusSets(c: Core, v: Word, lay: Layout, ir: Instr)
    requires c.Valid() && c.psw % 16 == 1 && !Ie(c.psw) && !c.actualie && Starts(v, c, lay)
    ensures var d := Writereg(c, U(2), v); Ordered(d, lay) && Fits(AbsOf(d, ir, lay), lay) && !d.actualie
  {
    hide FriscRefinement.Logical, Stk.Count, Rcache, Pcache, FriscRefinement.Placed, Layout.Valid;
    var d := Writereg(c, U(2), v);
    LogicalLengths(d, lay);
  }

  lemma {:induction false} LogicalLengths(d: Core, lay: Layout)
    requires d.Valid() && lay.Valid(d.mem) && FriscRefinement.Placed(d.ps, lay.p) && FriscRefinement.Placed(d.rs, lay.r)
    requires 5 <= d.ps.Count() <= 15 && 5 <= d.rs.Count() <= 15
    ensures 5 <= |FriscRefinement.Logical(d.ps, d.mem, lay.p)| <= 15 + lay.p.cap
    ensures 5 <= |FriscRefinement.Logical(d.rs, d.mem, lay.r)| <= 15 + lay.r.cap
  {
    hide Stk.Count;
  }

  /** The stack status word by its fields: tops, overflow markers, and one bit that turns each cache on. */
  predicate Fields(v: Word, rover: Slot, rtop: Slot, pover: Slot, ptop: Slot, r: nat, p: nat, high: nat) {
    r <= 1 && p <= 1 && v == rover + 0x10 * rtop + 0x100 * pover + 0x1000 * ptop + 0x1_0000 * r + 0x2_0000 * p + 0x4_0000 * high
  }

  lemma {:induction false} FieldsAre(v: Word, rover: Slot, rtop: Slot, pover: Slot, ptop: Slot, r: nat, p: nat, high: nat)
    requires Fields(v, rover, rtop, pover, ptop, r, p, high)
    ensures (Rcache(v) <==> r == 1) && (Pcache(v) <==> p == 1)
    ensures v % 0x10 == rover && (v / 0x10) % 0x10 == rtop && (v / 0x100) % 0x10 == pover && (v / 0x1000) % 0x10 == ptop
  {
    hide Stk.Count;
    var h := r + 2 * p + 4 * high;
    FieldIs(v, 1, 0, rover, rtop + 0x10 * (pover + 0x10 * (ptop + 0x10 * h)));
    FieldIs(v, 0x10, rover, rtop, pover + 0x10 * (ptop + 0x10 * h));
    FieldIs(v, 0x100, rover + 0x10 * rtop, pover, ptop + 0x10 * h);
    FieldIs(v, 0x1000, rover + 0x10 * rtop + 0x100 * pover, ptop, h);
    QuotientIs(v, 0x1_0000, h, rover + 0x10 * rtop + 0x100 * pover + 0x1000 * ptop);
    QuotientIs(v, 0x2_0000, p + 2 * high, rover + 0x10 * rtop + 0x100 * pover + 0x1000 * ptop + 0x1_0000 * r);
  }

  lemma {:induction false} FieldIs(v: Word, unit: nat, low: nat, field: Slot, high: nat)
    requires unit > 0 && low < unit && v == low + unit * (field + 0x10 * high)
    ensures v / unit == field + 0x10 * high && (v / unit) % 0x10 == field
  {
    QuotientIs(v, unit, field + 0x10 * high, low);
  }

  /** Writing back the status word that was read changes neither stack nor whether its cache is on. */
  lemma {:induction false} StatusReadBack(c: Core, iar: Word)
    requires c.Valid() && c.psw % 16 == 1
    ensures var d := Writereg(c, U(2), Readreg(c, U(2), iar));
            d.ps == c.ps && d.rs == c.rs && (Rcache(d.ssw) <==> Rcache(c.ssw)) && (Pcache(d.ssw) <==> Pcache(c.ssw))
  {
    var v := Readreg(c, U(2), iar);
    var h := c.ssw / 0x1_0000;
    assert v == 0x1_0000 * h + c.rs.over + 0x10 * c.rs.top + 0x100 * c.ps.over + 0x1000 * c.ps.top;
    var r, p, high := h % 2, (h / 2) % 2, h / 4;
    FieldsAre(v, c.rs.over, c.rs.top, c.ps.over, c.ps.top, r, p, high);
  }

  // A disciplined program

  /** Three words of a program: push a literal, pop it into memory, jump back. */
  datatype Program = Program(push: Word, store: Word, jump: Word)

  const LOOP: Word := 0x100
  const RESULT: Word := 0x200
  const LAYOUT: Layout := Layout(Region(0x400, 2), Region(0x800, 2))

  predicate Encodes(chip: Chip, p: Program) {
    var push, store, jump := chip.decode(p.push), chip.decode(p.store), chip.decode(p.jump);
    && push.kind.Lal? && !push.ret && push.reg1.ZERO? && push.reg2 == S(0) && push.pop.Push? && push.rop.Keep?
    && store.kind.Store? && !store.ret && store.reg1.ZERO? && store.pop.Pop? && store.rop.Keep? && store.offset == RESULT
    && jump.kind.Branch? && jump.dest == LOOP
  }

  predicate InMemory(mem: Memory, p: Program) {
    && LOOP in mem.ram && mem.ram[LOOP] == p.push && LOOP + 1 in mem.ram && mem.ram[LOOP + 1] == p.store
    && LOOP + 2 in mem.ram && mem.ram[LOOP + 2] == p.jump
  }

  /** In the loop, with one value more on the parameter stack between the push and the store. */
  predicate Looping(m: FriscIsa.Machine, chip: Chip, p: Program) {
    && m.psw == 0 && |m.rs| == 5 && |m.udr| == 4 && |m.icr| == 3
    && ((m.at == LOOP && m.ir == chip.decode(p.push) && |m.ps| == 5)
     || (m.at == LOOP + 1 && m.ir == chip.decode(p.store) && |m.ps| == 6)
     || (m.at == LOOP + 2 && m.ir == chip.decode(p.jump) && |m.ps| == 5))
  }

  predicate Busy(m: FriscIsa.Machine, mem: Memory, chip: Chip, p: Program) {
    Encodes(chip, p) && InMemory(mem, p) && Looping(m, chip, p)
  }

  lemma {:induction false} BusyStays(m: FriscIsa.Machine, mem: Memory, chip: Chip, p: Program, e: Event)
    requires Busy(m, mem, chip, p) && Legal(m, mem, chip, LAYOUT, e)
    ensures var (j, n) := Happen(m, mem, chip, LAYOUT, e); Busy(j, n, chip, p)
  {
  }

  lemma {:induction false} BusyRuns(m: FriscIsa.Machine, mem: Memory, chip: Chip, p: Program, es: seq<Event>)
    requires Busy(m, mem, chip, p) && LegalRun(m, mem, chip, LAYOUT, es)
    ensures Good(After(m, mem, chip, LAYOUT, es).0, LAYOUT)
    decreases |es|
  {
    hide Busy, Happen, Legal, Good;
    if es == [] {
      BusyGood(m, mem, chip, p);
    } else {
      BusyStays(m, mem, chip, p, es[0]);
      var (j, n) := Happen(m, mem, chip, LAYOUT, es[0]);
      BusyRuns(j, n, chip, p, es[1..]);
    }
  }

  lemma {:induction false} BusyGood(m: FriscIsa.Machine, mem: Memory, chip: Chip, p: Program)
    requires Busy(m, mem, chip, p)
    ensures Good(m, LAYOUT)
  {
  }

  lemma {:induction false} BusyIsDisciplined(m: FriscIsa.Machine, mem: Memory, chip: Chip, p: Program)
    requires Busy(m, mem, chip, p)
    ensures Disciplined(m, mem, chip, LAYOUT)
  {
    hide Busy, Good;
    forall es | LegalRun(m, mem, chip, LAYOUT, es)
      ensures Good(After(m, mem, chip, LAYOUT, es).0, LAYOUT)
    {
      BusyRuns(m, mem, chip, p, es);
    }
  }

  /** Five zeroes cached, and nothing spilled. */
  function Held(ext: Word): Stk {
    Stk([0, 0, 0, 0, 0, 0, 0, 0, 0, 0, 0, 0, 0, 0, 0, 0], 5, 0, 4, ext)
  }

  function Image(p: Program): Memory {
    Memory(map[LOOP := p.push, LOOP + 1 := p.store, LOOP + 2 := p.jump, RESULT := 0, 0x3FE := 0, 0x3FF := 0,
               0x7FE := 0, 0x7FF := 0], _ => 0)
  }

  lemma {:induction false} ImageIs(p: Program)
    ensures InMemory(Image(p), p) && LAYOUT.Valid(Image(p))
  {
  }

  /** About to execute the jump of the loop, with five entries in each stack cache. */
  function AtJump(p: Program): Core {
    Core(Held(0x400), Held(0x800), 0, 0x3_0000, false, [0, 0, 0, 0], [0, 0, 0], 0, false, LOOP + 2, LOOP + 3, 0, Image(p), 0)
  }

  lemma {:induction false} HeldIs()
    ensures Held(0x400).Valid() && Held(0x800).Valid() && Held(0x400).Count() == 5 && Held(0x800).Count() == 5
    ensures FriscRefinement.Placed(Held(0x400), LAYOUT.p) && FriscRefinement.Placed(Held(0x800), LAYOUT.r)
    ensures Held(0x800).Get(0) == 0
  {
  }

  /** In every encoding that has the three instructions there are aligned states of the two machines, in
      order, whose program is disciplined. */
  lemma {:induction false} DisciplineExists(chip: Chip, p: Program) returns (x: Plain, y: FriscPiped.Piped)
    requires Encodes(chip, p)
    ensures Aligned(x, y) && Inv(x, LAYOUT) && Disciplined(Abs(x, LAYOUT), x.core.mem, chip, LAYOUT)
    ensures Busy(Abs(x, LAYOUT), x.core.mem, chip, p)
  {
    var ir, c := chip.decode(p.jump), AtJump(p);
    x := Plain(TExec, c, ir, ir, 0, 0, 0, 0, 0, 0);
    y := FriscPiped.Piped(TExec, c, ir, ir, ir, ir, ir, 0, 0, 0, 0, 0, FromHold, FriscPiped.Nop, 0);
    JumpInOrder(x, chip, p);
    assert Aligned(x, y) by {
      HeldIs();
    }
    hide Busy, Aligned, Inv;
    BusyIsDisciplined(Abs(x, LAYOUT), x.core.mem, chip, p);
  }

  lemma {:induction false} JumpInOrder(x: Plain, chip: Chip, p: Program)
    requires Encodes(chip, p) && x.state.TExec? && x.core == AtJump(p) && x.ir == chip.decode(p.jump)
    ensures Inv(x, LAYOUT) && Busy(Abs(x, LAYOUT), x.core.mem, chip, p)
  {
    HeldIs();
    ImageIs(p);
    LogicalLengths(x.core, LAYOUT);
    hide FriscRefinement.Logical, Stk.Count, FriscRefinement.Placed, Layout.Valid, Encodes, InMemory;
  }

  const PUSH := Instr(Lal, AluClass, 0, false, ZERO, S(0), Push, Keep, 7, false, 0, 0)
  const STORE := Instr(Store, AluClass, 0, false, ZERO, S(0), Pop, Keep, RESULT, false, 0, 0)
  const JUMP := Instr(Branch, AluClass, LOOP, false, ZERO, ZERO, Keep, Keep, 0, false, 0, 0)

  lemma {:induction false} EncodingExists() returns (chip: Chip, p: Program)
    ensures Encodes(chip, p)
  {
    chip := Chip(w => if w == 0 then PUSH else if w == 1 then STORE else JUMP, (i, a, b, y, f) => AluOut(0, false, 0, false),
                 (i, a, b) => 0);
    p := Program(0, 1, 2);
  }
}
