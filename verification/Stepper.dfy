/** The multiply and divide steps of the ALU, and the adder flags they rest on. */
module Stepper {
  import opened Word32
  import opened Powers

  datatype Flags = Flags(n: bool, z: bool, v: bool, c: bool)

  const NOFLAGS := Flags(false, false, false, false)

  function AsBit(b: bool): int {
    if b then 1 else 0
  }

  /** The adder: the sum, with overflow and carry ORed into the flags. */
  function Addop(t: Word, b: Word, cin: bool, f: Flags): (r: (Word, Flags))
    ensures r.1.n == f.n && r.1.z == f.z
  {
    var result := Wrap(t + b + AsBit(cin));
    (result, f.(v := f.v || (Neg(t) && Neg(b) && !Neg(result)) || (!Neg(t) && !Neg(b) && Neg(result)),
                c := f.c || (Neg(t) && Neg(b)) || (!Neg(result) && (Neg(t) || Neg(b)))))
  }

  /** Carry is the 33rd bit of the sum, overflow says that the signed sum left the cell, and N
      exclusive-or V is the sign of the exact signed sum. */
  lemma AddopExact(t: Word, b: Word, cin: bool)
    ensures var (r, f) := Addop(t, b, cin, NOFLAGS);
            && t + b + AsBit(cin) == r + TWO32 * AsBit(f.c)
            && (f.v <==> !(-MSB <= Signed(t) + Signed(b) + AsBit(cin) < MSB))
            && (Neg(r) != f.v <==> Signed(t) + Signed(b) + AsBit(cin) < 0)
            && Signed(t) + Signed(b) + AsBit(cin)
               == Signed(r) + if !f.v then 0 else if Neg(r) then TWO32 else -TWO32
  {
  }

  function WithSign(r: Word, f: Flags): Flags {
    f.(n := f.n || Neg(r), z := f.z || r == 0)
  }

  datatype Cond = CLEAR | EQUAL | NEG | COUT | OVFLOW | LESS | ULESSEQ | LESSEQ
                | SET | NEQUAL | NBAR | CBAR | VBAR | GREATEREQ | UGREATER | GREATER

  predicate ALUcond(c: Cond, f: Flags) {
    match c
    case CLEAR => false
    case EQUAL => f.z
    case NEG => f.n
    case COUT => f.c
    case OVFLOW => f.v
    case LESS => f.n != f.v
    case ULESSEQ => !f.c || f.z
    case LESSEQ => f.n != f.v || f.z
    case SET => true
    case NEQUAL => !f.z
    case NBAR => !f.n
    case CBAR => !f.c
    case VBAR => !f.v
    case GREATEREQ => !(f.n != f.v)
    case UGREATER => !(!f.c || f.z)
    case GREATER => !(f.n != f.v || f.z)
  }

  /** After `x - y` the conditions compare x with y, as signed or as unsigned cells. */
  lemma ConditionsCompare(x: Word, y: Word)
    ensures var (r, f0) := Addop(x, Not(y), true, NOFLAGS); var f := WithSign(r, f0);
            && r == Minus(x, y)
            && (ALUcond(EQUAL, f) <==> x == y) && (ALUcond(NEQUAL, f) <==> x != y)
            && (ALUcond(LESS, f) <==> Signed(x) < Signed(y))
            && (ALUcond(LESSEQ, f) <==> Signed(x) <= Signed(y))
            && (ALUcond(GREATER, f) <==> Signed(x) > Signed(y))
            && (ALUcond(GREATEREQ, f) <==> Signed(x) >= Signed(y))
            && (ALUcond(ULESSEQ, f) <==> x <= y) && (ALUcond(UGREATER, f) <==> x > y)
            && (ALUcond(CBAR, f) <==> x < y) && (ALUcond(COUT, f) <==> x >= y)
  {
    ComparedFlags(x, y);
    hide Addop, Not, Signed, Neg, Minus;
  }

  /** The conditions on sign and overflow alone, and the two constant ones. */
  lemma ConditionsOfSigns(x: Word, y: Word)
    ensures var (r, f0) := Addop(x, Not(y), true, NOFLAGS); var f := WithSign(r, f0);
            && (ALUcond(NEG, f) <==> r >= 0x8000_0000) && (ALUcond(NBAR, f) <==> r < 0x8000_0000)
            && (ALUcond(OVFLOW, f) <==> !(-0x8000_0000 <= Signed(x) - Signed(y) < 0x8000_0000))
            && (ALUcond(VBAR, f) <==> -0x8000_0000 <= Signed(x) - Signed(y) < 0x8000_0000)
            && !ALUcond(CLEAR, f) && ALUcond(SET, f)
  {
    ComparedFlags(x, y);
    hide Addop, Not, Signed, Neg, Minus;
  }

  /** The flags of a subtraction. */
  lemma ComparedFlags(x: Word, y: Word)
    ensures var (r, f0) := Addop(x, Not(y), true, NOFLAGS); var f := WithSign(r, f0);
            && r == Minus(x, y) && (f.z <==> x == y) && (f.c <==> x >= y) && (f.n != f.v <==> Signed(x) < Signed(y))
            && (Signed(x) == Signed(y) <==> x == y) && (f.n <==> r >= 0x8000_0000)
            && (f.v <==> !(-0x8000_0000 <= Signed(x) - Signed(y) < 0x8000_0000))
  {
    AddopExact(x, Not(y), true);
    hide Addop;
  }

  // The step instructions

  datatype StepOp = StepB | Cadd | Div | Mul

  datatype FlagSource = FlAluCond | FlY1 | FlDivHelp

  datatype YControl = YNop | YLeft | YRight

  /** A step instruction. The right shift of y takes in what only a multiply step shifts out,
      and the divide help looks at what only the left shifter shifts out. */
  datatype StepInstr = StepInstr(left: bool, step: StepOp, fsrc: FlagSource, ycont: YControl, cond: Cond)
  {
    predicate Valid() {
      (ycont.YRight? ==> step.Mul?) && (fsrc.FlDivHelp? ==> left)
    }
  }

  datatype StepResult = StepResult(result: Word, y: Word, flinput: bool, alucond: bool)

  /** Arithmetic shift right by one place. */
  function Asr(x: Word): Word {
    if Neg(x) then x / 2 + MSB else x / 2
  }

  /** Logical shift right by one place with a bit shifted in. */
  function ShiftIn(x: Word, rightsin: bool): Word {
    x / 2 + if rightsin then MSB else 0
  }

  function BoothIndex(y: Word, flag: bool): (k: int)
    ensures 0 <= k < 8
  {
    2 * (y % 4) + AsBit(flag)
  }

  predicate Lsb(x: Word) {
    x % 2 == 1
  }

  function Booth1(a: Word, b: Word, y: Word, flag: bool, f: Flags, out: bool): (Word, Flags, bool) {
    var k := BoothIndex(y, flag);
    if k == 0 || k == 7 then (Asr(a), f, Lsb(a))
    else if k == 1 || k == 2 then
      var (r, f1) := Addop(a, b, false, f); (r, f1, out)
    else if k == 3 then
      var (r, f1) := Addop(Asr(a), b, false, f); (r, f1, Lsb(a))
    else if k == 4 then
      var (r, f1) := Addop(Asr(a), Not(b), true, f); (r, f1, Lsb(a))
    else
      var (r, f1) := Addop(a, Not(b), true, f); (r, f1, out)
  }

  function Booth2(r: Word, y: Word, flag: bool, rightsin: bool, out: bool): (Word, bool) {
    var k := BoothIndex(y, flag);
    if k == 1 || k == 2 || k == 5 || k == 6 then (ShiftIn(r, rightsin), Lsb(r)) else (r, out)
  }

  function LeftShifted(i: StepInstr, bbus: Word, y: Word): Word {
    if i.left then Wrap(2 * bbus) + AsBit(Neg(y)) else bbus
  }

  function MulStep(t: Word, b: Word, y: Word, flag: bool, cond: Cond): (Word, Flags, bool, bool) {
    var (r1, f1, out1) := Booth1(t, b, y, flag, NOFLAGS, false);
    var f := WithSign(r1, f1);
    var rightsin := f.n != f.v;
    var (r2, out) := Booth2(r1, y, flag, rightsin, out1);
    (ShiftIn(r2, rightsin), f, out, Lsb(r2))
  }

  function StepAlu(i: StepInstr, t: Word, b: Word, y: Word, flag: bool): (Word, Flags, bool, bool) {
    match i.step
    case StepB => (var (r, f) := Addop(0, b, false, NOFLAGS); (r, WithSign(r, f), false, false))
    case Cadd => (var (r, f) := Addop(if !flag then t else 0, b, false, NOFLAGS);
                  (r, WithSign(r, f), false, false))
    case Div => (var (r, f) := if flag then Addop(Not(t), b, true, NOFLAGS)
                               else Addop(t, b, false, NOFLAGS);
                 (r, WithSign(r, f), false, false))
    case Mul => MulStep(t, b, y, flag, i.cond)
  }

  predicate FlagInput(i: StepInstr, f: Flags, shiftleftout: bool, y: Word, flag: bool) {
    match i.fsrc
    case FlAluCond => ALUcond(i.cond, f)
    case FlY1 => Lsb(y / 2)
    case FlDivHelp => if flag then shiftleftout || f.c else shiftleftout && f.c
  }

  function NextY(i: StepInstr, y: Word, flag: bool, boothout: bool, rightout: bool): Word {
    match i.ycont
    case YNop => y
    case YLeft => Wrap(2 * y) + AsBit(flag)
    case YRight => y / 4 + (if boothout then MSB / 2 else 0) + (if rightout then MSB else 0)
  }

  /** One step: the result, the new y and the flag input, from buses T and B, y and flag. */
  function Step(i: StepInstr, t: Word, bbus: Word, y: Word, flag: bool): StepResult {
    var (r, f, boothout, rightout) := StepAlu(i, t, LeftShifted(i, bbus, y), y, flag);
    StepResult(r, NextY(i, y, flag, boothout, rightout), FlagInput(i, f, Neg(bbus), y, flag), ALUcond(i.cond, f))
  }

  /** The steps that only add: bus B, shifted left through y if asked to, alone or with bus T when the
      flag is clear. */
  lemma {:induction false} AddingStep(i: StepInstr, t: Word, bbus: Word, y: Word, flag: bool)
    requires i.step.StepB? || i.step.Cadd?
    ensures var b := if i.left then (2 * bbus + (if y >= 0x8000_0000 then 1 else 0)) % 0x1_0000_0000 else bbus;
            Step(i, t, bbus, y, flag).result == (b + if i.step.Cadd? && !flag then t else 0) % 0x1_0000_0000
  {
    ShiftedLeft(i, bbus, y);
    AddedExactly(t, LeftShifted(i, bbus, y), flag);
    hide Addop, LeftShifted, NextY, FlagInput;
  }

  /** What y and the flag input become, in numbers. */
  lemma {:induction false} StepOutputs(i: StepInstr, t: Word, bbus: Word, y: Word, flag: bool)
    ensures i.ycont.YNop? ==> Step(i, t, bbus, y, flag).y == y
    ensures i.ycont.YLeft? ==> Step(i, t, bbus, y, flag).y == (2 * y + (if flag then 1 else 0)) % 0x1_0000_0000
    ensures i.fsrc.FlY1? ==> (Step(i, t, bbus, y, flag).flinput <==> y % 4 >= 2)
    ensures i.fsrc.FlAluCond? ==> Step(i, t, bbus, y, flag).flinput == Step(i, t, bbus, y, flag).alucond
  {
    SecondBit(y);
    LeftWithFlag(y, flag);
    hide StepAlu, LeftShifted, ALUcond, Lsb, Wrap;
  }

  lemma {:induction false} SecondBit(y: Word)
    ensures Lsb(y / 2) <==> y % 4 >= 2
  {
  }

  lemma {:induction false} LeftWithFlag(y: Word, flag: bool)
    ensures Wrap(2 * y) + AsBit(flag) == (2 * y + (if flag then 1 else 0)) % 0x1_0000_0000
  {
  }

  lemma {:induction false} ShiftedLeft(i: StepInstr, bbus: Word, y: Word)
    ensures LeftShifted(i, bbus, y)
         == if i.left then (2 * bbus + (if y >= 0x8000_0000 then 1 else 0)) % 0x1_0000_0000 else bbus
  {
    LeftWithFlag(bbus, Neg(y));
    hide Wrap;
  }

  lemma {:induction false} AddedExactly(t: Word, b: Word, flag: bool)
    ensures Addop(0, b, false, NOFLAGS).0 == b
    ensures Addop(if !flag then t else 0, b, false, NOFLAGS).0 == (b + if !flag then t else 0) % 0x1_0000_0000
  {
  }

  // Multiplication

  /** The multiply step: accumulator on bus T, multiplicand on bus B, flag loaded from bit 1 of y. */
  function MulInstr(cond: Cond): StepInstr {
    StepInstr(false, Mul, FlY1, YRight, cond)
  }

  /** The radix-4 digit that the low bits of y and the flag stand for. */
  function Digit(y: Word, flag: bool): (m: int)
    ensures -2 <= m <= 2
  {
    y % 2 - 2 * ((y / 2) % 2) + AsBit(flag)
  }

  function TimesDigit(m: int, d: int): int {
    if m == -2 then -2 * d else if m == -1 then -d else if m == 0 then 0 else if m == 1 then d else 2 * d
  }

  lemma AsrExact(x: Word)
    ensures Signed(x) == 2 * Signed(Asr(x)) + AsBit(Lsb(x))
  {
  }

  lemma ShiftInExact(x: Word, v: bool)
    ensures var e := Signed(x) + if !v then 0 else if Neg(x) then TWO32 else -TWO32;
            e == 2 * Signed(ShiftIn(x, Neg(x) != v)) + AsBit(Lsb(x))
  {
  }

  lemma NotExact(x: Word)
    ensures Signed(Not(x)) + 1 == -Signed(x)
  {
  }

  lemma MulStepKept(acc: Word, d: Word, y: Word, flag: bool, cond: Cond)
    requires BoothIndex(y, flag) in {0, 7}
    ensures var (r, f, o0, o1) := MulStep(acc, d, y, flag, cond);
            4 * Signed(r) + AsBit(o0) + 2 * AsBit(o1) == Signed(acc)
  {
    AsrExact(acc);
    ShiftInExact(Asr(acc), false);
  }

  lemma MulStepOnce(acc: Word, d: Word, y: Word, flag: bool, cond: Cond)
    requires BoothIndex(y, flag) in {1, 2, 5, 6}
    ensures var (r, f, o0, o1) := MulStep(acc, d, y, flag, cond);
            4 * Signed(r) + AsBit(o0) + 2 * AsBit(o1)
            == Signed(acc) + if BoothIndex(y, flag) < 4 then Signed(d) else -Signed(d)
  {
    var plus := BoothIndex(y, flag) < 4;
    var b := if plus then d else Not(d);
    NotExact(d);
    AddopExact(acc, b, !plus);
    var (r1, f1) := Addop(acc, b, !plus, NOFLAGS);
    MulStepOnceForm(acc, d, y, flag, cond);
    hide MulStep, Signed, Addop, Not, BoothIndex, ShiftIn;
    ShiftTwice(r1, f1.v);
  }

  lemma MulStepOnceForm(acc: Word, d: Word, y: Word, flag: bool, cond: Cond)
    requires BoothIndex(y, flag) in {1, 2, 5, 6}
    ensures var plus := BoothIndex(y, flag) < 4;
            var (r1, f1) := Addop(acc, if plus then d else Not(d), !plus, NOFLAGS);
            var rightsin := Neg(r1) != f1.v;
            var r2 := ShiftIn(r1, rightsin);
            var (r, f, o0, o1) := MulStep(acc, d, y, flag, cond);
            r == ShiftIn(r2, rightsin) && o0 == Lsb(r1) && o1 == Lsb(r2)
  {
    BoothOnce(acc, d, y, flag);
    var plus := BoothIndex(y, flag) < 4;
    var a := Addop(acc, if plus then d else Not(d), !plus, NOFLAGS);
    hide *;
    OnceShifted(acc, d, y, flag, cond, a.0, a.1);
  }

  lemma OnceShifted(acc: Word, d: Word, y: Word, flag: bool, cond: Cond, r1: Word, f1: Flags)
    requires BoothIndex(y, flag) in {1, 2, 5, 6} && !f1.n
    requires Booth1(acc, d, y, flag, NOFLAGS, false) == (r1, f1, false)
    ensures var rightsin := Neg(r1) != f1.v;
            var r2 := ShiftIn(r1, rightsin);
            var m := MulStep(acc, d, y, flag, cond);
            m.0 == ShiftIn(r2, rightsin) && m.2 == Lsb(r1) && m.3 == Lsb(r2)
  {
    hide Booth1, ShiftIn, Lsb, Neg, BoothIndex;
  }

  lemma BoothOnce(acc: Word, d: Word, y: Word, flag: bool)
    requires BoothIndex(y, flag) in {1, 2, 5, 6}
    ensures var plus := BoothIndex(y, flag) < 4;
            var (r, f) := Addop(acc, if plus then d else Not(d), !plus, NOFLAGS);
            Booth1(acc, d, y, flag, NOFLAGS, false) == (r, f, false)
  {
    hide Addop, Not, BoothIndex;
  }

  lemma ShiftTwice(x: Word, v: bool)
    ensures var rightsin := Neg(x) != v;
            var r2 := ShiftIn(x, rightsin);
            4 * Signed(ShiftIn(r2, rightsin)) + AsBit(Lsb(x)) + 2 * AsBit(Lsb(r2))
            == Signed(x) + if !v then 0 else if Neg(x) then TWO32 else -TWO32
  {
    ShiftInExact(x, v);
    ShiftInExact(ShiftIn(x, Neg(x) != v), false);
  }

  lemma MulStepTwice(acc: Word, d: Word, y: Word, flag: bool, cond: Cond)
    requires BoothIndex(y, flag) in {3, 4}
    ensures var (r, f, o0, o1) := MulStep(acc, d, y, flag, cond);
            4 * Signed(r) + AsBit(o0) + 2 * AsBit(o1)
            == Signed(acc) + if BoothIndex(y, flag) == 3 then 2 * Signed(d) else -2 * Signed(d)
  {
    var plus := BoothIndex(y, flag) == 3;
    var b := if plus then d else Not(d);
    NotExact(d);
    AsrExact(acc);
    AddopExact(Asr(acc), b, !plus);
    var (r1, f1) := Addop(Asr(acc), b, !plus, NOFLAGS);
    assert Booth1(acc, d, y, flag, NOFLAGS, false) == (r1, f1, Lsb(acc));
    hide Booth1, Signed, Addop, Not, Asr;
    ShiftInExact(r1, f1.v);
  }

  /** The exact meaning of one multiply step: accumulator plus digit times multiplicand, divided
      by four; the two bits that drop out enter y from the left. */
  lemma MulStepExact(acc: Word, d: Word, y: Word, flag: bool, cond: Cond)
    ensures var r := Step(MulInstr(cond), acc, d, y, flag);
            var out := r.y / 0x4000_0000;
            && r.y == y / 4 + 0x4000_0000 * out && 0 <= out < 4
            && 4 * Signed(r.result) + out == Signed(acc) + TimesDigit(Digit(y, flag), Signed(d))
            && (r.flinput <==> Lsb(y / 2))
  {
    MulStepValue(acc, d, y, flag, cond);
    hide MulStep, TimesDigit, Digit, Signed;
    var (r, f, o0, o1) := MulStep(acc, d, y, flag, cond);
    var out := AsBit(o0) + 2 * AsBit(o1);
    OutBits(y / 4, out);
    assert Step(MulInstr(cond), acc, d, y, flag).y == y / 4 + 0x4000_0000 * out;
  }

  lemma MulStepValue(acc: Word, d: Word, y: Word, flag: bool, cond: Cond)
    ensures var (r, f, o0, o1) := MulStep(acc, d, y, flag, cond);
            4 * Signed(r) + AsBit(o0) + 2 * AsBit(o1) == Signed(acc) + TimesDigit(Digit(y, flag), Signed(d))
  {
    DigitCases(y, flag);
    hide MulStep, Signed, Digit;
    var k := BoothIndex(y, flag);
    if k == 0 || k == 7 {
      MulStepKept(acc, d, y, flag, cond);
    } else if k == 3 || k == 4 {
      MulStepTwice(acc, d, y, flag, cond);
    } else {
      MulStepOnce(acc, d, y, flag, cond);
    }
  }

  lemma DigitCases(y: Word, flag: bool)
    ensures var k := BoothIndex(y, flag); var m := Digit(y, flag);
            && (k in {0, 7} ==> m == 0) && (k in {1, 2} ==> m == 1) && (k in {5, 6} ==> m == -1)
            && (k == 3 ==> m == 2) && (k == 4 ==> m == -2)
  {
    LowBits(y);
  }

  lemma LowBits(y: Word)
    ensures y % 2 == (y % 4) % 2 && (y / 2) % 2 == (y % 4) / 2
  {
    var q, e := y / 4, y % 4;
    assert y == 2 * (2 * q + e / 2) + e % 2;
    assert y / 2 == 2 * q + e / 2;
  }

  lemma OutBits(low: int, out: int)
    requires 0 <= low < 0x4000_0000 && 0 <= out < 4
    ensures (low + 0x4000_0000 * out) / 0x4000_0000 == out
  {
  }

  datatype StepState = StepState(acc: Word, y: Word, flag: bool)

  /** A run of n multiply steps, each result going back to the accumulator. */
  function MulSteps(n: nat, s: StepState, d: Word, cond: Cond): StepState {
    if n == 0 then s else MulSteps(n - 1, AfterMul(s, d, cond), d, cond)
  }

  function AfterMul(s: StepState, d: Word, cond: Cond): StepState {
    var r := Step(MulInstr(cond), s.acc, d, s.y, s.flag);
    StepState(r.result, r.y, r.flinput)
  }

  function Pow4(n: nat): (p: int)
    ensures p >= 1
  {
    if n == 0 then 1 else 4 * Pow4(n - 1)
  }

  lemma {:induction false} Pow4Split(m: nat, n: nat)
    ensures Pow4(m) * Pow4(n) == Pow4(m + n)
  {
    if m > 0 {
      Pow4Split(m - 1, n);
    }
  }

  /** A number with a digit put above it. */
  function Above(low: int, unit: int, digit: int): int {
    low + unit * digit
  }

  /** The multiplicand times the multiplier read so far; a pending carry counts one at `unit`. */
  function ReadProduct(k: int, low: int, unit: int, carry: int): int {
    k * (low - unit * carry)
  }

  /** y holds the unread multiplier `hi`, below `T`, and above it the product bits `p` found so far;
      accumulator and `p` together are the multiplicand `k` times what has been read. */
  predicate Halfway(hi: int, lo: int, p: int, T: int, P: int, y: int, acc: int, flag: bool, k: int) {
    && 0 <= hi < T && y == Above(hi, T, p)
    && 0 <= lo < P && 0 <= p < P
    && (flag <==> 2 * lo >= P)
    && Above(p, P, acc) == ReadProduct(k, lo, P, AsBit(flag))
  }

  /** With n steps to go. */
  ghost predicate Multiplying(n: nat, s: StepState, d: Word, hi: int, lo: int, p: int)
    requires n <= 16
  {
    Halfway(hi, lo, p, Pow4(n), Pow4(16 - n), s.y, Signed(s.acc), s.flag, Signed(d))
  }

  lemma MultiplyingStep(n: nat, s: StepState, d: Word, hi: int, lo: int, p: int, r: StepResult)
    requires 0 < n <= 16 && Multiplying(n, s, d, hi, lo, p)
    requires var out := r.y / 0x4000_0000;
             && r.y == s.y / 4 + 0x4000_0000 * out && 0 <= out < 4
             && 4 * Signed(r.result) + out == Signed(s.acc) + TimesDigit(Digit(s.y, s.flag), Signed(d))
             && (r.flinput <==> Lsb(s.y / 2))
    ensures Multiplying(n - 1, StepState(r.result, r.y, r.flinput), d, hi / 4, Above(lo, Pow4(16 - n), hi % 4),
                        Above(p, Pow4(16 - n), r.y / 0x4000_0000))
  {
    MultiplyingIs(n, s, d, hi, lo, p);
    var s1 := StepState(r.result, r.y, r.flinput);
    MultiplyingIs(n - 1, s1, d, hi / 4, Above(lo, Pow4(16 - n), hi % 4), Above(p, Pow4(16 - n), r.y / 0x4000_0000));
    hide *;
    Pow4Quarter(n);
    DigitValue(s.y, s.flag, Signed(d));
    HalfwayStep(hi, lo, p, Pow4(n - 1), Pow4(n), Pow4(16 - n), Pow4(17 - n), s.y, Signed(s.acc), s.flag, Signed(d),
                r.y / 0x4000_0000, Signed(r.result), r.flinput);
  }

  lemma MultiplyingIs(n: nat, s: StepState, d: Word, hi: int, lo: int, p: int)
    requires n <= 16
    ensures Multiplying(n, s, d, hi, lo, p)
       <==> Halfway(hi, lo, p, Pow4(n), Pow4(16 - n), s.y, Signed(s.acc), s.flag, Signed(d))
  {
  }

  lemma Pow4Quarter(n: nat)
    requires 0 < n <= 16
    ensures Quartered(Pow4(n - 1), Pow4(n), Pow4(16 - n), Pow4(17 - n))
  {
    Pow4Around(n);
    hide Pow4;
  }

  /** Powers of four around a digit of a cell. */
  predicate Quartered(Q: int, T: int, P: int, U: int) {
    T == 4 * Q && U == 4 * P && Q * P == 0x4000_0000
  }

  lemma HalfwayStep(hi: int, lo: int, p: int, Q: int, T: int, P: int, U: int, y: Word, acc: int, flag: bool, k: int,
                    out: int, acc': int, flag': bool)
    requires Halfway(hi, lo, p, T, P, y, acc, flag, k) && Quartered(Q, T, P, U) && 0 <= out < 4
    requires 4 * acc' + out == acc + TimesDigit(Digit(y, flag), k)
    requires TimesDigit(Digit(y, flag), k) == DigitTimes(y % 4, AsBit(y % 4 >= 2), AsBit(flag), k)
    requires flag' <==> y % 4 >= 2
    ensures Halfway(hi / 4, Above(lo, P, hi % 4), Above(p, P, out), Q, U, y / 4 + 0x4000_0000 * out, acc', flag', k)
  {
    HalfwayBits(y, hi, p, Q, T, P, U, out);
    DigitFits(lo, P, U, hi % 4);
    DigitFits(p, P, U, out);
    NextProduct(acc, acc', out, k, P, p, lo, AsBit(flag), hi % 4, AsBit(hi % 4 >= 2), U);
    hide Above, ReadProduct, Digit, TimesDigit, DigitTimes;
  }

  /** A digit with its carries times a number. */
  function DigitTimes(e: int, carry: int, before: int, k: int): int {
    (e - 4 * carry + before) * k
  }

  lemma HalfwayBits(y: Word, hi: int, p: int, Q: int, T: int, P: int, U: int, out: int)
    requires Quartered(Q, T, P, U) && 0 <= hi < T && y == Above(hi, T, p)
    ensures y % 4 == hi % 4 && 0 <= hi / 4 < Q && U == 4 * P
    ensures y / 4 + 0x4000_0000 * out == Above(hi / 4, Q, Above(p, P, out))
  {
    MultiplyingBits(y, hi, p, Q, P, T, out);
  }

  lemma MultiplyingBits(y: Word, hi: int, p: int, Q: int, P: int, T: int, out: int)
    requires T == 4 * Q && Q * P == 0x4000_0000 && 0 <= hi < T && y == hi + p * T
    ensures y % 4 == hi % 4 && 0 <= hi / 4 < Q
    ensures y / 4 + 0x4000_0000 * out == hi / 4 + (p + P * out) * Q
  {
    QuarterOf(y, hi, p, Q, T);
    Regroup(hi / 4, p, P, out, Q);
  }

  lemma DigitValue(y: Word, flag: bool, k: int)
    ensures var e := y % 4; TimesDigit(Digit(y, flag), k) == DigitTimes(e, AsBit(e >= 2), AsBit(flag), k)
    ensures Lsb(y / 2) <==> y % 4 >= 2
  {
    LowBits(y);
    var e := y % 4;
    assert Digit(y, flag) == e - 4 * AsBit(e >= 2) + AsBit(flag);
  }

  lemma Pow4Around(n: nat)
    requires 0 < n <= 16
    ensures Pow4(n - 1) * Pow4(16 - n) == 0x4000_0000
    ensures Pow4(17 - n) == 4 * Pow4(16 - n) && Pow4(n) == 4 * Pow4(n - 1)
  {
    Pow4Split(n - 1, 16 - n);
    Pow4At15();
  }

  lemma Pow4At15()
    ensures Pow4(15) == 0x4000_0000
  {
    assert Pow4(5) == 0x400;
    assert Pow4(10) == 0x10_0000 by { Pow4Split(5, 5); }
    Pow4Split(5, 10);
  }

  lemma QuarterOf(y: int, hi: int, p: int, Q: int, T: int)
    requires T == 4 * Q && y == hi + p * T && 0 <= hi
    ensures y / 4 == hi / 4 + p * Q && y % 4 == hi % 4
  {
    assert y == 4 * (hi / 4 + p * Q) + hi % 4;
  }

  lemma Regroup(h: int, p: int, P: int, out: int, Q: int)
    requires Q * P == 0x4000_0000
    ensures h + p * Q + 0x4000_0000 * out == h + (p + P * out) * Q
  {
    assert (p + P * out) * Q == p * Q + (Q * P) * out;
  }

  lemma DigitFits(lo: int, P: int, U: int, e: int)
    requires 0 <= lo < P && 0 <= e < 4 && U == 4 * P
    ensures 0 <= Above(lo, P, e) < U
    ensures 2 * Above(lo, P, e) >= U <==> e >= 2
  {
  }

  lemma NextProduct(acc: int, acc': int, out: int, k: int, P: int, p: int, lo: int, f: int, e: int, f': int,
                    T: int)
    requires T == 4 * P
    requires 4 * acc' + out == acc + DigitTimes(e, f', f, k)
    requires Above(p, P, acc) == ReadProduct(k, lo, P, f)
    ensures Above(Above(p, P, out), T, acc') == ReadProduct(k, Above(lo, P, e), T, f')
  {
    calc {
      acc' * T + (p + P * out);
      acc' * (4 * P) + (p + P * out);
      P * (4 * acc' + out) + p;
      P * (acc + (e - 4 * f' + f) * k) + p;
      acc * P + p + P * ((e - 4 * f' + f) * k);
      k * (lo - P * f) + P * ((e - 4 * f' + f) * k);
      k * (lo + P * e - 4 * P * f');
      k * ((lo + P * e) - T * f');
    }
  }

  /** Accumulator and y together hold the exact product of two signed cells. */
  predicate IsProduct(s: StepState, d: Word, y0: Word) {
    Signed(s.acc) * TWO32 + s.y == Signed(d) * Signed(y0)
  }

  lemma MultiplyDone(s: StepState, d: Word, hi: int, lo: int, p: int, y0: Word)
    requires Multiplying(0, s, d, hi, lo, p) && y0 == Join(hi, Pow4(16), lo)
    ensures IsProduct(s, d, y0)
  {
    Pow4At15();
    assert Pow4(16) == TWO32;
    assert Pow4(0) == 1;
    hide Pow4;
    assert hi == 0 && lo == y0 && s.y == p;
  }

  lemma {:induction false} MultiplyRun(n: nat, s: StepState, d: Word, cond: Cond, hi: int, lo: int, p: int, y0: Word)
    requires n <= 16 && Multiplying(n, s, d, hi, lo, p)
    requires y0 == Join(hi, Pow4(16 - n), lo)
    ensures IsProduct(MulSteps(n, s, d, cond), d, y0)
  {
    if n == 0 {
      hide Step;
      MultiplyDone(s, d, hi, lo, p, y0);
    } else {
      var s', unit := AfterMul(s, d, cond), Pow4(16 - n);
      hide Step, Multiplying, AfterMul, Join, Pow4, IsProduct, Above;
      NothingNegative(n, s, d, hi, lo, p);
      MultiplyingNext(n, s, d, cond, hi, lo, p);
      MultiplierNext(n, hi, lo, y0);
      MultiplyRun(n - 1, s', d, cond, hi / 4, Above(lo, unit, hi % 4), Above(p, unit, s'.y / 0x4000_0000), y0);
    }
  }

  lemma MultiplyingNext(n: nat, s: StepState, d: Word, cond: Cond, hi: int, lo: int, p: int)
    requires 0 < n <= 16 && Multiplying(n, s, d, hi, lo, p)
    ensures var s', unit := AfterMul(s, d, cond), Pow4(16 - n);
            Multiplying(n - 1, s', d, hi / 4, Above(lo, unit, hi % 4), Above(p, unit, s'.y / 0x4000_0000))
  {
    hide *;
    MulStepExact(s.acc, d, s.y, s.flag, cond);
    AfterMulIs(s, d, cond);
    MultiplyingStep(n, s, d, hi, lo, p, Step(MulInstr(cond), s.acc, d, s.y, s.flag));
  }

  lemma MultiplierNext(n: nat, hi: int, lo: int, y0: Word)
    requires 0 < n <= 16 && hi >= 0 && y0 == Join(hi, Pow4(16 - n), lo)
    ensures y0 == Join(hi / 4, Pow4(17 - n), Above(lo, Pow4(16 - n), hi % 4))
  {
    hide *;
    Pow4Next(16 - n);
    SameMultiplier(hi, lo, Pow4(16 - n), Pow4(17 - n));
  }

  lemma NothingNegative(n: nat, s: StepState, d: Word, hi: int, lo: int, p: int)
    requires n <= 16 && Multiplying(n, s, d, hi, lo, p)
    ensures hi >= 0
  {
  }

  lemma Pow4Next(n: nat)
    ensures Pow4(n + 1) == 4 * Pow4(n)
  {
  }

  lemma AfterMulIs(s: StepState, d: Word, cond: Cond)
    ensures var r := Step(MulInstr(cond), s.acc, d, s.y, s.flag);
            AfterMul(s, d, cond) == StepState(r.result, r.y, r.flinput)
  {
    hide Step;
  }

  lemma SameMultiplier(hi: int, lo: int, P: int, T: int)
    requires 0 <= hi && T == 4 * P
    ensures Join(hi / 4, T, Above(lo, P, hi % 4)) == Join(hi, P, lo)
  {
    assert hi == 4 * (hi / 4) + hi % 4;
  }

  /** Sixteen multiply steps from a clear accumulator and flag leave the exact signed 64-bit
      product of the multiplicand and the initial y in accumulator and y. */
  lemma MultiplyExact(d: Word, y: Word, cond: Cond)
    ensures var r := MulSteps(16, StepState(0, y, false), d, cond);
            Signed(r.acc) * TWO32 + r.y == Signed(d) * Signed(y)
  {
    Pow4At15();
    assert Pow4(16) == TWO32;
    assert Pow4(0) == 1;
    MultiplyRun(16, StepState(0, y, false), d, cond, y, 0, 0, y);
  }

  // Division

  /** The divide step: divisor on bus T, partial remainder on bus B shifted left with the top bit
      of y, the flag fed from the divide help and shifted into y one step late. */
  function DivInstr(cond: Cond): StepInstr {
    StepInstr(true, Div, FlDivHelp, YLeft, cond)
  }

  /** The step after the last divide step: it corrects the remainder and shifts in the last flag. */
  function FixInstr(fsrc: FlagSource, cond: Cond): StepInstr {
    StepInstr(false, Cadd, fsrc, YLeft, cond)
  }

  /** A run of n divide steps, each result going back to the partial remainder. */
  function DivSteps(n: nat, s: StepState, d: Word, cond: Cond): StepState {
    if n == 0 then s else DivSteps(n - 1, AfterDiv(s, d, cond), d, cond)
  }

  function AfterDiv(s: StepState, d: Word, cond: Cond): StepState {
    var r := Step(DivInstr(cond), d, s.acc, s.y, s.flag);
    StepState(r.result, r.y, r.flinput)
  }

  /** The 33-bit partial remainder: the accumulator below a sign that is clear when the flag is set. */
  function Partial(acc: Word, flag: bool): int {
    if flag then acc else acc - TWO32
  }

  lemma DivStepExact(acc: Word, d: Word, y: Word, flag: bool, cond: Cond)
    requires 0 - d <= Partial(acc, flag) < d
    ensures var r := Step(DivInstr(cond), d, acc, y, flag);
            && Partial(r.result, r.flinput)
               == 2 * Partial(acc, flag) + AsBit(Neg(y)) + (if flag then 0 - d else d)
            && 0 - d <= Partial(r.result, r.flinput) < d
            && r.y == 2 * y - TWO32 * AsBit(Neg(y)) + AsBit(flag)
  {
    if flag {
      DivStepSubtracts(acc, d, y, cond);
    } else {
      DivStepAdds(acc, d, y, cond);
    }
    DivStepY(acc, d, y, flag, cond);
    hide *;
  }

  lemma DivStepY(acc: Word, d: Word, y: Word, flag: bool, cond: Cond)
    ensures Step(DivInstr(cond), d, acc, y, flag).y == 2 * y - TWO32 * AsBit(Neg(y)) + AsBit(flag)
  {
    hide Addop, ALUcond;
  }

  lemma DivStepAdds(acc: Word, d: Word, y: Word, cond: Cond)
    requires 0 - d <= Partial(acc, false) < d
    ensures var r := Step(DivInstr(cond), d, acc, y, false);
            && Partial(r.result, r.flinput) == 2 * Partial(acc, false) + AsBit(Neg(y)) + d
            && 0 - d <= Partial(r.result, r.flinput) < d
  {
    var b := LeftShifted(DivInstr(cond), acc, y);
    assert b == 2 * acc - TWO32 * AsBit(Neg(acc)) + AsBit(Neg(y));
    AddopExact(d, b, false);
    hide ALUcond;
  }

  lemma DivStepSubtracts(acc: Word, d: Word, y: Word, cond: Cond)
    requires 0 - d <= Partial(acc, true) < d
    ensures var r := Step(DivInstr(cond), d, acc, y, true);
            && Partial(r.result, r.flinput) == 2 * Partial(acc, true) + AsBit(Neg(y)) - d
            && 0 - d <= Partial(r.result, r.flinput) < d
  {
    var b := LeftShifted(DivInstr(cond), acc, y);
    assert b == 2 * acc - TWO32 * AsBit(Neg(acc)) + AsBit(Neg(y));
    AddopExact(Not(d), b, true);
    hide ALUcond;
  }

  /** With n steps to go: y holds the unread low bits of the dividend above the flags found so
      far, and the bits read are divisor times the digits those flags stand for plus remainder. */
  ghost predicate Dividing(n: nat, s: StepState, d: Word, num: int, low: int, q: int)
    requires n <= 32
  {
    && 0 <= low < Pow2(n) && 0 <= q < Pow2(32 - n) && s.y == low * Pow2(32 - n) + q
    && 0 - d <= Partial(s.acc, s.flag) < d
    && num == d * (2 * q - Pow2(32 - n) + 1) + Partial(s.acc, s.flag)
  }

  lemma DividingStep(n: nat, s: StepState, d: Word, num: int, low: int, q: int, r: StepResult)
    requires 0 < n <= 32 && Dividing(n, s, d, num, low, q)
    requires && Partial(r.result, r.flinput)
                == 2 * Partial(s.acc, s.flag) + AsBit(Neg(s.y)) + (if s.flag then 0 - d else d)
             && 0 - d <= Partial(r.result, r.flinput) < d
             && r.y == 2 * s.y - TWO32 * AsBit(Neg(s.y)) + AsBit(s.flag)
    ensures Dividing(n - 1, StepState(r.result, r.y, r.flinput), d, 2 * num + AsBit(Neg(s.y)),
                     low - Pow2(n - 1) * AsBit(Neg(s.y)), 2 * q + AsBit(s.flag))
  {
    var P, Q, b, f := Pow2(32 - n), Pow2(n - 1), AsBit(Neg(s.y)), AsBit(s.flag);
    hide Pow2, Partial;
    Pow2Around(n);
    TopBit(s.y, low, P, q, Q);
    assert (low - Q * b) * Pow2(33 - n) + (2 * q + f) == 2 * s.y - TWO32 * b + f by { DropBit(low, Q, b, P, q, Pow2(33 - n)); }
    NextQuotient(d, q, P, f, b, num, Partial(s.acc, s.flag), Partial(r.result, r.flinput));
  }

  lemma NextQuotient(d: int, q: int, P: int, f: int, b: int, num: int, rem: int, rem': int)
    requires num == d * (2 * q - P + 1) + rem
    requires f == 0 || f == 1
    requires rem' == 2 * rem + b + if f == 1 then -d else d
    ensures 2 * num + b == d * (2 * (2 * q + f) - 2 * P + 1) + rem'
  {
    assert d * (2 * (2 * q + f) - 2 * P + 1) == 2 * (d * (2 * q - P + 1)) + d * (2 * f - 1);
  }

  lemma DivideDone(s: StepState, d: Word, num: int, low: int, q: int, all: int)
    requires Dividing(0, s, d, num, low, q) && all == Join(num, Pow2(0), low)
    ensures Dividing(0, s, d, all, 0, s.y)
  {
    assert Pow2(0) == 1;
    hide Pow2;
    assert low == 0 && s.y == q && all == num;
  }

  lemma {:induction false} DivideRun(n: nat, s: StepState, d: Word, cond: Cond, num: int, low: int, q: int, all: int)
    requires n <= 32 && Dividing(n, s, d, num, low, q)
    requires all == Join(num, Pow2(n), low)
    ensures var r := DivSteps(n, s, d, cond); Dividing(0, r, d, all, 0, r.y)
    decreases n
  {
    if n == 0 {
      hide Step;
      DivideDone(s, d, num, low, q, all);
    } else {
      hide Step, Dividing, Join, Pow2, AfterDiv;
      var s', b := AfterDiv(s, d, cond), AsBit(Neg(s.y));
      DividingNext(n, s, d, cond, num, low, q, all);
      DivideRun(n - 1, s', d, cond, 2 * num + b, low - Pow2(n - 1) * b, 2 * q + AsBit(s.flag), all);
    }
  }

  lemma DividingNext(n: nat, s: StepState, d: Word, cond: Cond, num: int, low: int, q: int, all: int)
    requires 0 < n <= 32 && Dividing(n, s, d, num, low, q) && all == Join(num, Pow2(n), low)
    ensures var s', b := AfterDiv(s, d, cond), AsBit(Neg(s.y));
            && Dividing(n - 1, s', d, 2 * num + b, low - Pow2(n - 1) * b, 2 * q + AsBit(s.flag))
            && all == Join(2 * num + b, Pow2(n - 1), low - Pow2(n - 1) * b)
  {
    DivStepExact(s.acc, d, s.y, s.flag, cond);
    Pow2Around(n);
    SameDividend(num, AsBit(Neg(s.y)), Pow2(n - 1), low, Pow2(n));
    hide Step, Dividing, Partial, Pow2, Join;
    DividingStep(n, s, d, num, low, q, Step(DivInstr(cond), d, s.acc, s.y, s.flag));
  }

  /** From a clear sign and a high dividend word below the divisor, 32 divide steps and the fixing
      step leave the exact quotient in y and the exact remainder as the result. */
  lemma DivideExact(high: Word, low: Word, d: Word, cond: Cond, fix: StepInstr)
    requires high < d && fix.Valid()
    requires fix == FixInstr(fix.fsrc, fix.cond)
    ensures var s := DivSteps(32, StepState(high, low, true), d, cond);
            var r := Step(fix, d, s.acc, s.y, s.flag);
            high * TWO32 + low == d * r.y + r.result && r.result < d
  {
    Pow2At32();
    assert Pow2(0) == 1;
    DivideRun(32, StepState(high, low, true), d, cond, high, low, 0, high * TWO32 + low);
    hide DivSteps;
    var s := DivSteps(32, StepState(high, low, true), d, cond);
    FixExact(s, d, high * TWO32 + low, fix);
  }

  lemma FixExact(s: StepState, d: Word, num: int, fix: StepInstr)
    requires Dividing(0, s, d, num, 0, s.y) && num >= 0
    requires fix == FixInstr(fix.fsrc, fix.cond)
    ensures var r := Step(fix, d, s.acc, s.y, s.flag);
            num == d * r.y + r.result && r.result < d
  {
    Pow2At32();
    FixStep(s, d, fix);
    hide Step, Wrap;
    FixQuotient(s.y, d, num, s.acc, s.flag);
  }

  lemma FixStep(s: StepState, d: Word, fix: StepInstr)
    requires fix == FixInstr(fix.fsrc, fix.cond)
    ensures var r := Step(fix, d, s.acc, s.y, s.flag);
            r.result == Wrap((if s.flag then 0 else d) + s.acc) && r.y == Wrap(2 * s.y) + AsBit(s.flag)
  {
    AddopExact(if s.flag then 0 else d, s.acc, false);
  }

  lemma FixQuotient(y: Word, d: Word, num: int, acc: Word, flag: bool)
    requires num == d * (2 * y - TWO32 + 1) + Partial(acc, flag) && num >= 0
    requires 0 - d <= Partial(acc, flag) < d
    ensures var rest := Wrap((if flag then 0 else d) + acc);
            num == d * (Wrap(2 * y) + AsBit(flag)) + rest && rest < d
  {
    var t := 2 * y - TWO32 + 1;
    NotNegative(d, t, num, Partial(acc, flag));
    var quot := if flag then t else t - 1;
    assert Wrap(2 * y) + AsBit(flag) == quot;
    assert d * (t - 1) == d * t - d;
    assert Wrap((if flag then 0 else d) + acc) == Partial(acc, flag) + if flag then 0 else d;
  }

  lemma NotNegative(d: int, t: int, num: int, rem: int)
    requires num == d * t + rem && num >= 0 && -d <= rem < d
    ensures t >= 0 && (rem < 0 ==> t >= 1)
  {
    if t < 0 {
      Scale(d, t, -1);
    } else if t == 0 {
      assert num == rem;
    }
  }

  lemma Scale(d: int, a: int, b: int)
    requires 0 <= d && a <= b
    ensures d * a <= d * b
  {
  }

  // The unit that performs the steps

  class StepUnit {
    var y: Word
    var flag: bool
    var flinput: bool
    var alucond: bool

    /** Adds and ORs overflow and carry into the flags. */
    method AddInto(t: Word, b: Word, cin: bool, flags: Flags) returns (result: Word, f: Flags)
      ensures (result, f) == Addop(t, b, cin, flags)
    {
      f := flags;
      if cin {
        result := Wrap(t + b + 1);
      } else {
        result := Wrap(t + b);
      }
      if (Neg(t) && Neg(b) && !Neg(result)) || (!Neg(t) && !Neg(b) && Neg(result)) {
        f := f.(v := true);
      }
      if (Neg(t) && Neg(b)) || (!Neg(result) && (Neg(t) || Neg(b))) {
        f := f.(c := true);
      }
    }

    method BoothAdd(t: Word, b: Word, flags: Flags, out0: bool) returns (result: Word, f: Flags, out: bool)
      ensures (result, f, out) == Booth1(t, b, y, flag, flags, out0)
    {
      var a := t;
      f, out := flags, out0;
      var index := 2 * (y % 4) + (if flag then 1 else 0);
      if index == 0 || index == 7 || index == 3 || index == 4 {
        out, a := Lsb(a), Asr(a);
      }
      if index == 0 || index == 7 {
        result := a;
      } else if index < 4 {
        result, f := AddInto(a, b, false, f);
      } else {
        result, f := AddInto(a, Not(b), true, f);
      }
    }

    method BoothShift(r: Word, rightsin: bool, out0: bool) returns (result: Word, out: bool)
      ensures (result, out) == Booth2(r, y, flag, rightsin, out0)
    {
      result, out := r, out0;
      var index := 2 * (y % 4) + (if flag then 1 else 0);
      if index == 1 || index == 2 || index == 5 || index == 6 {
        out, result := Lsb(r), ShiftIn(r, rightsin);
      }
    }

    method Alu(i: StepInstr, t: Word, b: Word) returns (result: Word, f: Flags, boothout: bool, rightout: bool)
      ensures (result, f, boothout, rightout) == StepAlu(i, t, b, y, flag)
    {
      f, boothout, rightout := NOFLAGS, false, false;
      match i.step {
        case StepB => result, f := AddInto(0, b, false, f);
        case Cadd => result, f := AddInto(if !flag then t else 0, b, false, f);
        case Div =>
          if flag {
            result, f := AddInto(Not(t), b, true, f);
          } else {
            result, f := AddInto(t, b, false, f);
          }
        case Mul => result, f, boothout := BoothAdd(t, b, f, false);
      }
      f := WithSign(result, f);
      if i.step.Mul? {
        var rightsin := f.n != f.v;
        result, boothout := BoothShift(result, rightsin, boothout);
        rightout := Lsb(result);
        result := ShiftIn(result, rightsin);
      }
    }

    method ShiftY(i: StepInstr, boothout: bool, rightout: bool)
      modifies this`y
      ensures y == old(NextY(i, y, flag, boothout, rightout))
    {
      match i.ycont {
        case YNop =>
        case YLeft =>
          y := Wrap(2 * y);
          if flag {
            y := y + 1;
          }
        case YRight =>
          y := y / 4;
          if boothout {
            y := y + MSB / 2;
          }
          if rightout {
            y := y + MSB;
          }
      }
    }

    /** One step instruction; y, the flag input and the selected condition are registers. */
    method Microstep(i: StepInstr, t: Word, bbus: Word) returns (result: Word)
      requires i.Valid()
      modifies this
      ensures StepResult(result, y, flinput, alucond) == old(Step(i, t, bbus, y, flag))
      ensures flag == old(flag)
    {
      hide StepAlu, NextY;
      var b, shiftleftout := bbus, false;
      if i.left {
        shiftleftout := Neg(bbus);
        b := Wrap(2 * bbus);
        if Neg(y) {
          b := b + 1;
        }
      }
      var f, boothout, rightout;
      result, f, boothout, rightout := Alu(i, t, b);
      alucond := ALUcond(i.cond, f);
      match i.fsrc {
        case FlAluCond => flinput := alucond;
        case FlY1 => flinput := Lsb(y / 2);
        case FlDivHelp => flinput := if flag then shiftleftout || f.c else shiftleftout && f.c;
      }
      ShiftY(i, boothout, rightout);
    }
  }
}
