/** Structured Forth programs: what they mean, the cells that stand for them, and the proof that
    the inner interpreter gives those cells that meaning. */
module ControlFlow {
  import opened Word32
  import opened InnerInterpreter

  // Structured programs

  datatype Prog =
    | Skip
    | Seq(first: Prog, second: Prog)
    | Call(word: nat)
    | Literal(value: Word)
    | If(yes: Prog)
    | IfElse(yes: Prog, no: Prog)
    | BeginAgain(body: Prog)
    | BeginUntil(body: Prog)
    | BeginWhile(cond: Prog, body: Prog)
    | DoLoop(body: Prog)
    | DoPlusLoop(body: Prog)
    | LeaveLoop
    | Sel(arms: Arms)

  /** The cases of a selection: what stands before the case, its test (compared with the selector
      when `equal`), and what it does; then what follows the last case. */
  datatype Arms = Last(final: Prog) | Arm(pre: Prog, test: Prog, equal: bool, body: Prog, rest: Arms)

  /** How a program ends within a budget of interpreted cells: done with some left, out of budget,
      or stuck where the interpreter would be (an empty stack, or a word that does not return). */
  datatype Outcome = Done(s: St, left: nat) | Out | Stuck

  /** A word other than the control words: its effect, if it returns. */
  type Words = (nat, St) -> Option<St>

  function Spend(s: Option<St>, n: nat): (r: Outcome)
    ensures r.Done? ==> r.left < n
  {
    if n == 0 then Out else match s case Some(s1) => Done(s1, n - 1) case None => Stuck
  }

  function Drop(s: St): Option<St> {
    if s.ds == [] then None else Some(s.(ds := s.ds[1..]))
  }

  function Dup(s: St): Option<St> {
    if s.ds == [] then None else Some(Push(s, s.ds[0]))
  }

  function Equals(s: St): Option<St> {
    if |s.ds| < 2 then None
    else Some(s.(ds := [if s.ds[1] == s.ds[0] then TWO32 - 1 else 0] + s.ds[2..]))
  }

  /** The meaning of a program. */
  function Eval(p: Prog, s: St, n: nat, w: Words): (r: Outcome)
    ensures r.Done? ==> r.left <= n
    decreases n, p, 0
  {
    match p
    case Skip => Done(s, n)
    case Seq(a, b) =>
      (match Eval(a, s, n, w)
       case Done(s1, left) => Eval(b, s1, left, w)
       case o => o)
    case Call(word) => Spend(w(word, s), n)
    case Literal(v) => Spend(Some(Push(s, v)), n)
    case If(yes) =>
      (match Spend(Drop(s), n)
       case Done(s1, left) => if s.ds[0] != 0 then Eval(yes, s1, left, w) else Done(s1, left)
       case o => o)
    case IfElse(yes, no) =>
      (match Spend(Drop(s), n)
       case Done(s1, left) =>
         if s.ds[0] == 0 then Eval(no, s1, left, w)
         else (match Eval(yes, s1, left, w)
               case Done(s2, left2) => Spend(Some(s2), left2)
               case o => o)
       case o => o)
    case BeginAgain(body) =>
      (match Eval(body, s, n, w)
       case Done(s1, left) => if left == 0 then Out else Eval(p, s1, left - 1, w)
       case o => o)
    case BeginUntil(body) =>
      (match Eval(body, s, n, w)
       case Done(s1, left) =>
         (match Spend(Drop(s1), left)
          case Done(s2, left2) => if s1.ds[0] != 0 then Done(s2, left2) else Eval(p, s2, left2, w)
          case o => o)
       case o => o)
    case BeginWhile(cond, body) =>
      (match Eval(cond, s, n, w)
       case Done(s1, left) =>
         (match Spend(Drop(s1), left)
          case Done(s2, left2) =>
            if s1.ds[0] == 0 then Done(s2, left2)
            else (match Eval(body, s2, left2, w)
                  case Done(s3, left3) => if left3 == 0 then Out else Eval(p, s3, left3 - 1, w)
                  case o => o)
          case o => o)
       case o => o)
    case DoLoop(body) =>
      (match Spend(DoEnter(s), n)
       case Done(s1, left) => EvalLoop(body, false, s1, left, w)
       case o => o)
    case DoPlusLoop(body) =>
      (match Spend(DoEnter(s), n)
       case Done(s1, left) => EvalLoop(body, true, s1, left, w)
       case o => o)
    case LeaveLoop => Spend(None, n)
    case Sel(arms) => EvalArms(arms, s, n, w)
  }

  /** The iterations of a counted loop. */
  function EvalLoop(body: Prog, plus: bool, s: St, n: nat, w: Words): (r: Outcome)
    ensures r.Done? ==> r.left <= n
    decreases n, body, 1
  {
    match Eval(body, s, n, w)
    case Done(s1, left) =>
      if left == 0 then Out
      else (match TurnOf(plus, s1)
            case Leave(s2) => Done(s2, left - 1)
            case Again(s2) => EvalLoop(body, plus, s2, left - 1, w)
            case Underflow => Stuck)
    case o => o
  }

  /** The first case whose test holds on a copy of the selector, which goes away in the end. */
  function EvalArms(arms: Arms, s: St, n: nat, w: Words): (r: Outcome)
    ensures r.Done? ==> r.left <= n
    decreases n, arms, 1
  {
    match arms
    case Last(final) =>
      (match Eval(final, s, n, w)
       case Done(s1, left) => Spend(Drop(s1), left)
       case o => o)
    case Arm(_, _, _, _, _) =>
      (match EvalTest(arms, s, n, w)
       case Done(s1, left) => EvalChoice(arms, s1, left, w)
       case o => o)
  }

  /** The rest of a case, by the flag of its test: its body without the selector, or what follows. */
  function EvalChoice(arm: Arms, s: St, n: nat, w: Words): (r: Outcome)
    requires arm.Arm?
    ensures r.Done? ==> r.left <= n
    decreases n, arm, 0
  {
    match Spend(Drop(s), n)
    case Done(s1, left) =>
      if s.ds[0] == 0 then EvalArms(arm.rest, s1, left, w)
      else (match Spend(Drop(s1), left)
            case Done(s2, left2) =>
              (match Eval(arm.body, s2, left2, w)
               case Done(s3, left3) => Spend(Some(s3), left3)
               case o => o)
            case o => o)
    case o => o
  }

  /** The flag of a case, on top of the selector. */
  function EvalTest(arm: Arms, s: St, n: nat, w: Words): (r: Outcome)
    requires arm.Arm?
    ensures r.Done? ==> r.left <= n
    decreases n, arm, 0
  {
    match Eval(arm.pre, s, n, w)
    case Done(s1, left) =>
      (match Spend(Dup(s1), left)
       case Done(s2, left2) =>
         (match Eval(arm.test, s2, left2, w)
          case Done(s3, left3) => if arm.equal then Spend(Equals(s3), left3) else Done(s3, left3)
          case o => o)
       case o => o)
    case o => o
  }

  /** One case of a selection by value: the selector is compared with the literal; its body runs without
      the selector, or the rest finds the selector again. */
  lemma {:induction false} CaseMeans(v: Word, body: Prog, rest: Arms, s: St, n: nat, w: Words)
    requires n >= 5 && s.ds != []
    ensures EvalArms(Arm(Skip, Literal(v), true, body, rest), s, n, w) ==
              if s.ds[0] != v then EvalArms(rest, s, n - 4, w)
              else match Eval(body, s.(ds := s.ds[1..]), n - 5, w)
                   case Done(s1, left) => if left == 0 then Out else Done(s1, left - 1)
                   case o => o
  {
    var arm := Arm(Skip, Literal(v), true, body, rest);
    CaseTests(v, body, rest, s, n, w);
    var flag: Word := if s.ds[0] == v then 0xFFFF_FFFF else 0;
    var s1 := s.(ds := [flag] + s.ds);
    assert EvalArms(arm, s, n, w) == EvalChoice(arm, s1, n - 3, w);
    assert s1.ds[1..] == s.ds;
    assert Drop(s1) == Some(s) && Drop(s) == Some(s.(ds := s.ds[1..]));
    hide Eval, EvalArms, EvalTest;
  }

  /** Its test leaves a flag on top of the selector. */
  lemma {:induction false} CaseTests(v: Word, body: Prog, rest: Arms, s: St, n: nat, w: Words)
    requires n >= 5 && s.ds != []
    ensures var flag: Word := if s.ds[0] == v then 0xFFFF_FFFF else 0;
            EvalTest(Arm(Skip, Literal(v), true, body, rest), s, n, w) == Done(s.(ds := [flag] + s.ds), n - 3)
  {
    var x := s.ds[0];
    var s2 := s.(ds := [x] + s.ds);
    var s3 := s.(ds := [v, x] + s.ds);
    assert Dup(s) == Some(s2);
    assert Push(s2, v) == s3;
    assert s3.ds[0] == v && s3.ds[1] == x && s3.ds[2..] == s.ds;
    assert Eval(Skip, s, n, w) == Done(s, n);
    assert Eval(Literal(v), s2, n - 1, w) == Done(s3, n - 2);
  }

  // Threaded code

  /** The words that the compiler emits itself, and the others. */
  datatype Op = LITERAL | BRANCH | QBRANCH | DO | LOOP | PLUSLOOP | DUP | DROP | EQUALS | WORD(w: nat)

  /** A cell of a definition as it is written out. */
  datatype Cell = Refer(op: Op) | Value(v: Word) | Target(index: int)

  function Len(p: Prog): nat {
    match p
    case Skip => 0
    case Seq(a, b) => Len(a) + Len(b)
    case Call(_) => 1
    case Literal(_) => 2
    case If(yes) => Len(yes) + 2
    case IfElse(yes, no) => Len(yes) + Len(no) + 4
    case BeginAgain(body) => Len(body) + 2
    case BeginUntil(body) => Len(body) + 2
    case BeginWhile(cond, body) => Len(cond) + Len(body) + 4
    case DoLoop(body) => Len(body) + 3
    case DoPlusLoop(body) => Len(body) + 3
    case LeaveLoop => 1
    case Sel(arms) => ArmsLen(arms)
  }

  function TestLen(arm: Arms): nat
    requires arm.Arm?
    decreases arm, 0
  {
    Len(arm.pre) + 1 + Len(arm.test) + (if arm.equal then 1 else 0)
  }

  function ArmsLen(arms: Arms): nat
    decreases arms, 1
  {
    match arms
    case Last(final) => Len(final) + 1
    case Arm(_, _, _, body, rest) => TestLen(arms) + 3 + Len(body) + 2 + ArmsLen(rest)
  }

  /** The cells of a program placed at index `a`; `x` is where a leave in it goes. */
  function Code(p: Prog, a: int, x: int): (c: seq<Cell>)
    ensures |c| == Len(p)
  {
    match p
    case Skip => []
    case Seq(p1, p2) => Code(p1, a, x) + Code(p2, a + Len(p1), x)
    case Call(w) => [Refer(WORD(w))]
    case Literal(v) => [Refer(LITERAL), Value(v)]
    case If(yes) => [Refer(QBRANCH), Target(a + 2 + Len(yes))] + Code(yes, a + 2, x)
    case IfElse(yes, no) =>
      [Refer(QBRANCH), Target(a + Len(yes) + 4)] + Code(yes, a + 2, x)
      + ([Refer(BRANCH), Target(a + Len(yes) + 4 + Len(no))] + Code(no, a + Len(yes) + 4, x))
    case BeginAgain(body) => Code(body, a, x) + [Refer(BRANCH), Target(a)]
    case BeginUntil(body) => Code(body, a, x) + [Refer(QBRANCH), Target(a)]
    case BeginWhile(cond, body) =>
      Code(cond, a, x) + [Refer(QBRANCH), Target(a + Len(cond) + Len(body) + 4)]
      + (Code(body, a + Len(cond) + 2, x) + [Refer(BRANCH), Target(a)])
    case DoLoop(body) =>
      [Refer(DO)] + Code(body, a + 1, a + Len(body) + 3) + [Refer(LOOP), Target(a + 1)]
    case DoPlusLoop(body) =>
      [Refer(DO)] + Code(body, a + 1, a + Len(body) + 3) + [Refer(PLUSLOOP), Target(a + 1)]
    case LeaveLoop => [Target(x)]
    case Sel(arms) => ArmsCode(arms, a, a + ArmsLen(arms), x)
  }

  function TestCode(arm: Arms, a: int, x: int): (c: seq<Cell>)
    requires arm.Arm?
    ensures |c| == TestLen(arm)
    decreases arm, 0
  {
    Code(arm.pre, a, x) + [Refer(DUP)] + Code(arm.test, a + Len(arm.pre) + 1, x)
    + if arm.equal then [Refer(EQUALS)] else []
  }

  /** The cells of the cases from index `a`; the whole selection ends at `end`. */
  function ArmsCode(arms: Arms, a: int, end: int, x: int): (c: seq<Cell>)
    ensures |c| == ArmsLen(arms)
    decreases arms, 1
  {
    match arms
    case Last(final) => Code(final, a, x) + [Refer(DROP)]
    case Arm(_, _, _, body, rest) =>
      var b := a + TestLen(arms);
      var next := b + 3 + Len(body) + 2;
      TestCode(arms, a, x) + [Refer(QBRANCH), Target(next), Refer(DROP)]
      + (Code(body, b + 3, x) + [Refer(BRANCH), Target(end)] + ArmsCode(rest, next, end, x))
  }

  // The inner interpreter

  datatype Machine = At(ip: int, s: St) | Broken

  function Went(s: Option<St>, ip: int): Machine {
    match s case Some(s1) => At(ip, s1) case None => Broken
  }

  function Turned(t: Turn, out: int, again: int): Machine {
    match t
    case Leave(s) => At(out, s)
    case Again(s) => At(again, s)
    case Underflow => Broken
  }

  /** One step: the word at `ip` and the inline cell that some words have. A cell that is not a
      word reference in that place is not executable. */
  function Step(cells: seq<Cell>, ip: int, s: St, w: Words): Machine
    requires 0 <= ip < |cells|
  {
    if !cells[ip].Refer? then Broken
    else
      match cells[ip].op
      case WORD(k) => Went(w(k, s), ip + 1)
      case DO => Went(DoEnter(s), ip + 1)
      case DUP => Went(Dup(s), ip + 1)
      case DROP => Went(Drop(s), ip + 1)
      case EQUALS => Went(Equals(s), ip + 1)
      case LITERAL =>
        if ip + 1 < |cells| && cells[ip + 1].Value? then At(ip + 2, Push(s, cells[ip + 1].v)) else Broken
      case _ =>
        if ip + 1 < |cells| && cells[ip + 1].Target?
        then Jump(cells[ip].op, ip + 2, cells[ip + 1].index, s)
        else Broken
  }

  /** A word with an inline target, which goes to `target` or past it, to `next`. */
  function Jump(op: Op, next: int, target: int, s: St): Machine {
    if op == QBRANCH then
      match Drop(s)
      case Some(s1) => At(if s.ds[0] != 0 then next else target, s1)
      case None => Broken
    else if op == LOOP then Turned(LoopTurn(s), next, target)
    else if op == PLUSLOOP then Turned(PlusLoopTurn(s), next, target)
    else At(target, s)
  }

  /** `n` steps, or fewer if the end of the cells is reached. */
  function Run(cells: seq<Cell>, ip: int, s: St, n: nat, w: Words): Machine
    decreases n
  {
    if n == 0 || !(0 <= ip < |cells|) then At(ip, s)
    else
      match Step(cells, ip, s, w)
      case Broken => Broken
      case At(ip1, s1) => Run(cells, ip1, s1, n - 1, w)
  }

  // The cells mean what the program means

  /** The cells of `c` stand at index `a`. */
  predicate Holds(cells: seq<Cell>, a: int, c: seq<Cell>) {
    0 <= a && a + |c| <= |cells| && cells[a..a + |c|] == c
  }

  lemma {:induction false} HoldsParts(cells: seq<Cell>, a: int, c: seq<Cell>, d: seq<Cell>)
    requires Holds(cells, a, c + d)
    ensures Holds(cells, a, c) && Holds(cells, a + |c|, d)
  {
    assert cells[a..a + |c|] == (c + d)[..|c|];
    assert cells[a + |c|..a + |c| + |d|] == (c + d)[|c|..];
  }

  /** A range of cell indices. */
  datatype Zone = Zone(lo: int, hi: int)

  /** Out of budget the machine is in the zone; stuck it is stuck; and when the outcome is done it
      goes on at `end` with what is left of the budget. */
  predicate Goes(cells: seq<Cell>, a: int, end: int, z: Zone, s: St, n: nat, w: Words, r: Outcome) {
    match r
    case Done(s1, left) => left <= n && Run(cells, a, s, n, w) == Run(cells, end, s1, left, w)
    case Out => var m := Run(cells, a, s, n, w); m.At? && z.lo <= m.ip < z.hi
    case Stuck => Run(cells, a, s, n, w) == Broken
  }

  lemma {:induction false} Widen(cells: seq<Cell>, a: int, end: int, z: Zone, z1: Zone, s: St, n: nat, w: Words, r: Outcome)
    requires Goes(cells, a, end, z1, s, n, w, r) && z.lo <= z1.lo && z1.hi <= z.hi
    ensures Goes(cells, a, end, z, s, n, w, r)
  {
  }

  /** One part after another. */
  lemma {:induction false} Then(cells: seq<Cell>, a: int, mid: int, end: int, z: Zone, z1: Zone, z2: Zone,
             s: St, n: nat, w: Words, r: Outcome, r2: Outcome)
    requires Goes(cells, a, mid, z1, s, n, w, r)
    requires z.lo <= z1.lo && z1.hi <= z.hi && z.lo <= z2.lo && z2.hi <= z.hi
    requires if r.Done? then Goes(cells, mid, end, z2, r.s, r.left, w, r2) else r2 == r
    ensures Goes(cells, a, end, z, s, n, w, r2)
  {
  }

  /** A word without an inline cell. */
  lemma {:induction false} WordGoes(cells: seq<Cell>, a: int, op: Op, s: St, n: nat, w: Words)
    requires Holds(cells, a, [Refer(op)])
    requires op.WORD? || op.DO? || op.DUP? || op.DROP? || op.EQUALS?
    ensures var effect := match op case WORD(k) => w(k, s) case DO => DoEnter(s) case DUP => Dup(s)
                                   case DROP => Drop(s) case _ => Equals(s);
            Goes(cells, a, a + 1, Zone(a, a + 1), s, n, w, Spend(effect, n))
  {
    assert cells[a] == cells[a..a + 1][0];
  }

  lemma {:induction false} LiteralGoes(cells: seq<Cell>, a: int, v: Word, s: St, n: nat, w: Words)
    requires Holds(cells, a, [Refer(LITERAL), Value(v)])
    ensures Goes(cells, a, a + 2, Zone(a, a + 2), s, n, w, Spend(Some(Push(s, v)), n))
  {
    assert cells[a] == cells[a..a + 2][0] && cells[a + 1] == cells[a..a + 2][1];
  }

  lemma {:induction false} BranchGoes(cells: seq<Cell>, a: int, target: int, s: St, n: nat, w: Words)
    requires Holds(cells, a, [Refer(BRANCH), Target(target)])
    ensures Goes(cells, a, target, Zone(a, a + 2), s, n, w, Spend(Some(s), n))
  {
    assert cells[a] == cells[a..a + 2][0] && cells[a + 1] == cells[a..a + 2][1];
  }

  lemma {:induction false} QBranchGoes(cells: seq<Cell>, a: int, target: int, s: St, n: nat, w: Words)
    requires Holds(cells, a, [Refer(QBRANCH), Target(target)])
    ensures Goes(cells, a, if s.ds == [] || s.ds[0] != 0 then a + 2 else target, Zone(a, a + 2), s, n, w,
                 Spend(Drop(s), n))
  {
    assert cells[a] == cells[a..a + 2][0] && cells[a + 1] == cells[a..a + 2][1];
  }

  /** The end of an iteration: out of the loop or back to `target`. */
  lemma {:induction false} LoopGoes(cells: seq<Cell>, a: int, plus: bool, target: int, s: St, n: nat, w: Words)
    requires Holds(cells, a, [Refer(if plus then PLUSLOOP else LOOP), Target(target)])
    ensures var turn := TurnOf(plus, s);
            Goes(cells, a, if turn.Again? then target else a + 2, Zone(a, a + 2), s, n, w,
                 Spend(if turn.Underflow? then None else Some(turn.s), n))
  {
    assert cells[a] == cells[a..a + 2][0] && cells[a + 1] == cells[a..a + 2][1];
  }

  /** The cell of a leave is not executable. */
  lemma {:induction false} LeaveGoes(cells: seq<Cell>, a: int, x: int, s: St, n: nat, w: Words)
    requires Holds(cells, a, [Target(x)])
    ensures Goes(cells, a, a + 1, Zone(a, a + 1), s, n, w, Spend(None, n))
  {
    assert cells[a] == cells[a..a + 1][0];
  }

  /** Running the cells of a program is evaluating the program. */
  lemma {:induction false} Simulates(p: Prog, cells: seq<Cell>, a: int, x: int, s: St, n: nat, w: Words)
    requires Holds(cells, a, Code(p, a, x))
    ensures Goes(cells, a, a + Len(p), Zone(a, a + Len(p)), s, n, w, Eval(p, s, n, w))
    decreases n, p, 1
  {
    hide Holds, Run, Step;
    match p {
      case Skip => hide Code;
      case Call(k) => WordGoes(cells, a, WORD(k), s, n, w);
      case Literal(v) => LiteralGoes(cells, a, v, s, n, w);
      case Seq(p1, p2) => SimulatesSeq(p1, p2, cells, a, x, s, n, w);
      case If(yes) => SimulatesIf(yes, cells, a, x, s, n, w);
      case IfElse(yes, no) => SimulatesIfElse(yes, no, cells, a, x, s, n, w);
      case BeginAgain(body) => SimulatesAgain(body, cells, a, x, s, n, w);
      case BeginUntil(body) => SimulatesUntil(body, cells, a, x, s, n, w);
      case BeginWhile(cond, body) => SimulatesWhile(cond, body, cells, a, x, s, n, w);
      case DoLoop(body) => SimulatesDo(body, false, cells, a, x, s, n, w);
      case DoPlusLoop(body) => SimulatesDo(body, true, cells, a, x, s, n, w);
      case LeaveLoop => LeaveGoes(cells, a, x, s, n, w);
      case Sel(arms) => SimulatesArms(arms, cells, a, a + ArmsLen(arms), x, s, n, w);
    }
  }

  lemma {:induction false} SeqSteps(p1: Prog, p2: Prog, cells: seq<Cell>, a: int, x: int, s: St, n: nat, w: Words)
    requires Holds(cells, a, Code(Seq(p1, p2), a, x))
    ensures Holds(cells, a, Code(p1, a, x)) && Holds(cells, a + Len(p1), Code(p2, a + Len(p1), x))
    ensures Len(Seq(p1, p2)) == Len(p1) + Len(p2)
    ensures var r := Eval(p1, s, n, w);
            && (r.Done? ==> r.left <= n)
            && Eval(Seq(p1, p2), s, n, w) == if r.Done? then Eval(p2, r.s, r.left, w) else r
  {
    HoldsParts(cells, a, Code(p1, a, x), Code(p2, a + Len(p1), x));
    hide Holds;
  }

  lemma {:induction false} SimulatesSeq(p1: Prog, p2: Prog, cells: seq<Cell>, a: int, x: int, s: St, n: nat, w: Words)
    requires Holds(cells, a, Code(Seq(p1, p2), a, x))
    ensures var end := a + Len(Seq(p1, p2)); Goes(cells, a, end, Zone(a, end), s, n, w, Eval(Seq(p1, p2), s, n, w))
    decreases n, Seq(p1, p2), 0
  {
    hide *;
    SeqSteps(p1, p2, cells, a, x, s, n, w);
    var mid, end := a + Len(p1), a + Len(Seq(p1, p2));
    var r := Eval(p1, s, n, w);
    Simulates(p1, cells, a, x, s, n, w);
    if r.Done? {
      Simulates(p2, cells, mid, x, r.s, r.left, w);
    }
    Then(cells, a, mid, end, Zone(a, end), Zone(a, mid), Zone(mid, end), s, n, w, r, Eval(Seq(p1, p2), s, n, w));
  }

  lemma {:induction false} SimulatesIf(yes: Prog, cells: seq<Cell>, a: int, x: int, s: St, n: nat, w: Words)
    requires Holds(cells, a, Code(If(yes), a, x))
    ensures var end := a + Len(If(yes)); Goes(cells, a, end, Zone(a, end), s, n, w, Eval(If(yes), s, n, w))
    decreases n, If(yes), 0
  {
    hide *;
    IfSteps(yes, cells, a, x, s, n, w);
    var end, r, all := a + 2 + Len(yes), Spend(Drop(s), n), Eval(If(yes), s, n, w);
    QBranchGoes(cells, a, end, s, n, w);
    if r.Done? && s.ds != [] && s.ds[0] != 0 {
      Simulates(yes, cells, a + 2, x, r.s, r.left, w);
      Then(cells, a, a + 2, end, Zone(a, end), Zone(a, a + 2), Zone(a + 2, end), s, n, w, r, all);
    } else {
      if !r.Done? {
        NoEnd(cells, a, if s.ds == [] || s.ds[0] != 0 then a + 2 else end, end, Zone(a, a + 2), s, n, w, r);
      }
      Widen(cells, a, end, Zone(a, end), Zone(a, a + 2), s, n, w, r);
    }
  }

  lemma {:induction false} IfSteps(yes: Prog, cells: seq<Cell>, a: int, x: int, s: St, n: nat, w: Words)
    requires Holds(cells, a, Code(If(yes), a, x))
    ensures Len(If(yes)) == Len(yes) + 2
    ensures Holds(cells, a, [Refer(QBRANCH), Target(a + 2 + Len(yes))]) && Holds(cells, a + 2, Code(yes, a + 2, x))
    ensures var r := Spend(Drop(s), n);
            && (r.Done? ==> s.ds != [] && r.left < n)
            && Eval(If(yes), s, n, w) == if r.Done? && s.ds != [] && s.ds[0] != 0 then Eval(yes, r.s, r.left, w) else r
  {
    HoldsParts(cells, a, [Refer(QBRANCH), Target(a + 2 + Len(yes))], Code(yes, a + 2, x));
    hide Holds;
  }

  lemma {:induction false} SimulatesIfElse(yes: Prog, no: Prog, cells: seq<Cell>, a: int, x: int, s: St, n: nat, w: Words)
    requires Holds(cells, a, Code(IfElse(yes, no), a, x))
    ensures var end := a + Len(IfElse(yes, no));
            Goes(cells, a, end, Zone(a, end), s, n, w, Eval(IfElse(yes, no), s, n, w))
    decreases n, IfElse(yes, no), 0
  {
    var b := a + 2 + Len(yes);
    var end := b + 2 + Len(no);
    hide *;
    IfElseParts(yes, no, cells, a, x);
    IfElseSteps(yes, no, s, n, w);
    var r := Spend(Drop(s), n);
    var all := Eval(IfElse(yes, no), s, n, w);
    var truly := s.ds == [] || s.ds[0] != 0;
    var ry := if r.Done? && truly then Eval(yes, r.s, r.left, w) else r;
    var rest := if ry.Done? then Spend(Some(ry.s), ry.left) else ry;
    var z, zq := Zone(a, end), Zone(a, a + 2);
    QBranchGoes(cells, a, b + 2, s, n, w);
    if r.Done? && truly {
      Simulates(yes, cells, a + 2, x, r.s, r.left, w);
      if ry.Done? {
        BranchGoes(cells, b, end, ry.s, ry.left, w);
      }
      Then(cells, a + 2, b, end, z, Zone(a + 2, b), Zone(b, b + 2), r.s, r.left, w, ry, rest);
      Then(cells, a, a + 2, end, z, zq, z, s, n, w, r, all);
    } else {
      if r.Done? {
        Simulates(no, cells, b + 2, x, r.s, r.left, w);
      }
      Then(cells, a, if truly then a + 2 else b + 2, end, z, zq, Zone(b + 2, end), s, n, w, r, all);
    }
  }

  lemma {:induction false} IfElseSteps(yes: Prog, no: Prog, s: St, n: nat, w: Words)
    ensures var r := Spend(Drop(s), n);
            var truly := s.ds == [] || s.ds[0] != 0;
            var ry := if r.Done? && truly then Eval(yes, r.s, r.left, w) else r;
            var rest := if ry.Done? then Spend(Some(ry.s), ry.left) else ry;
            && Len(IfElse(yes, no)) == Len(yes) + Len(no) + 4
            && Eval(IfElse(yes, no), s, n, w)
               == (if !r.Done? then r else if truly then rest else Eval(no, r.s, r.left, w))
            && (r.Done? ==> r.left < n)
  {
    assert Len(IfElse(yes, no)) == Len(yes) + Len(no) + 4;
    hide Len, EvalLoop, EvalArms, DoEnter;
    if n == 0 {
      assert Eval(IfElse(yes, no), s, n, w) == Out;
    }
  }

  lemma {:induction false} IfElseParts(yes: Prog, no: Prog, cells: seq<Cell>, a: int, x: int)
    requires Holds(cells, a, Code(IfElse(yes, no), a, x))
    ensures var b := a + 2 + Len(yes); var end := b + 2 + Len(no);
            && Holds(cells, a, [Refer(QBRANCH), Target(b + 2)]) && Holds(cells, a + 2, Code(yes, a + 2, x))
            && Holds(cells, b, [Refer(BRANCH), Target(end)]) && Holds(cells, b + 2, Code(no, b + 2, x))
  {
    hide *;
    var b := a + 2 + Len(yes);
    var head, mid := [Refer(QBRANCH), Target(b + 2)], [Refer(BRANCH), Target(b + 2 + Len(no))];
    var code, more := Code(yes, a + 2, x), Code(no, b + 2, x);
    IfElseIs(yes, no, a, x);
    HoldsParts(cells, a, head + code, mid + more);
    HoldsParts(cells, a, head, code);
    HoldsParts(cells, b, mid, more);
  }

  lemma {:induction false} IfElseIs(yes: Prog, no: Prog, a: int, x: int)
    ensures var b := a + 2 + Len(yes);
            Code(IfElse(yes, no), a, x)
            == ([Refer(QBRANCH), Target(b + 2)] + Code(yes, a + 2, x))
               + ([Refer(BRANCH), Target(b + 2 + Len(no))] + Code(no, b + 2, x))
    ensures |Code(yes, a + 2, x)| == Len(yes)
  {
  }

  lemma {:induction false} AgainSteps(body: Prog, s: St, n: nat, w: Words)
    ensures var p := BeginAgain(body);
            var r := Eval(body, s, n, w);
            var rb := if r.Done? then Spend(Some(r.s), r.left) else r;
            && Len(p) == Len(body) + 2
            && Eval(p, s, n, w) == (if rb.Done? then Eval(p, rb.s, rb.left, w) else rb)
            && (rb.Done? ==> rb.left < n)
  {
  }

  lemma {:induction false} AgainParts(body: Prog, cells: seq<Cell>, a: int, x: int)
    requires Holds(cells, a, Code(BeginAgain(body), a, x))
    ensures Holds(cells, a, Code(body, a, x)) && Holds(cells, a + Len(body), [Refer(BRANCH), Target(a)])
  {
    HoldsParts(cells, a, Code(body, a, x), [Refer(BRANCH), Target(a)]);
    hide Holds;
  }

  lemma {:induction false} SimulatesAgain(body: Prog, cells: seq<Cell>, a: int, x: int, s: St, n: nat, w: Words)
    requires Holds(cells, a, Code(BeginAgain(body), a, x))
    ensures var end := a + Len(BeginAgain(body));
            Goes(cells, a, end, Zone(a, end), s, n, w, Eval(BeginAgain(body), s, n, w))
    decreases n, BeginAgain(body), 0
  {
    hide *;
    var p, b, end := BeginAgain(body), a + Len(body), a + Len(body) + 2;
    AgainParts(body, cells, a, x);
    AgainSteps(body, s, n, w);
    var r := Eval(body, s, n, w);
    var rb := if r.Done? then Spend(Some(r.s), r.left) else r;
    var all := Eval(p, s, n, w);
    var z := Zone(a, end);
    Simulates(body, cells, a, x, s, n, w);
    if r.Done? {
      BranchGoes(cells, b, a, r.s, r.left, w);
    }
    Then(cells, a, b, a, z, Zone(a, b), Zone(b, end), s, n, w, r, rb);
    if rb.Done? {
      SimulatesAgain(body, cells, a, x, rb.s, rb.left, w);
    }
    Then(cells, a, a, end, z, z, z, s, n, w, rb, all);
  }

  lemma {:induction false} UntilSteps(body: Prog, s: St, n: nat, w: Words)
    ensures var p := BeginUntil(body);
            var r := Eval(body, s, n, w);
            var rb := if r.Done? then Spend(Drop(r.s), r.left) else r;
            var truly := r.Done? && (r.s.ds == [] || r.s.ds[0] != 0);
            && Len(p) == Len(body) + 2
            && Eval(p, s, n, w) == (if rb.Done? && !truly then Eval(p, rb.s, rb.left, w) else rb)
            && (rb.Done? ==> rb.left < n)
  {
  }

  lemma {:induction false} SimulatesUntil(body: Prog, cells: seq<Cell>, a: int, x: int, s: St, n: nat, w: Words)
    requires Holds(cells, a, Code(BeginUntil(body), a, x))
    ensures var end := a + Len(BeginUntil(body));
            Goes(cells, a, end, Zone(a, end), s, n, w, Eval(BeginUntil(body), s, n, w))
    decreases n, BeginUntil(body), 0
  {
    hide *;
    UntilSteps(body, s, n, w);
    var p, end := BeginUntil(body), a + Len(body) + 2;
    var r := Eval(body, s, n, w);
    var rb := if r.Done? then Spend(Drop(r.s), r.left) else r;
    var truly := r.Done? && (r.s.ds == [] || r.s.ds[0] != 0);
    var z := Zone(a, end);
    UntilTurn(body, cells, a, x, s, n, w, r, rb, truly);
    if rb.Done? && !truly {
      SimulatesUntil(body, cells, a, x, rb.s, rb.left, w);
      Then(cells, a, a, end, z, z, z, s, n, w, rb, Eval(p, s, n, w));
    } else if !truly {
      NoEnd(cells, a, a, end, z, s, n, w, rb);
    }
  }

  /** One turn of a begin-until loop. */
  lemma {:induction false} UntilTurn(body: Prog, cells: seq<Cell>, a: int, x: int, s: St, n: nat, w: Words,
                                     r: Outcome, rb: Outcome, truly: bool)
    requires Holds(cells, a, Code(BeginUntil(body), a, x))
    requires r == Eval(body, s, n, w) && rb == (if r.Done? then Spend(Drop(r.s), r.left) else r)
    requires truly == (r.Done? && (r.s.ds == [] || r.s.ds[0] != 0))
    ensures var end := a + Len(body) + 2;
            Goes(cells, a, if truly then end else a, Zone(a, end), s, n, w, rb)
    decreases n, body, 2
  {
    hide *;
    var b, end := a + Len(body), a + Len(body) + 2;
    UntilParts(body, cells, a, x);
    Simulates(body, cells, a, x, s, n, w);
    if r.Done? {
      QBranchGoes(cells, b, a, r.s, r.left, w);
    }
    Then(cells, a, b, if truly then end else a, Zone(a, end), Zone(a, b), Zone(b, end), s, n, w, r, rb);
  }

  lemma {:induction false} UntilParts(body: Prog, cells: seq<Cell>, a: int, x: int)
    requires Holds(cells, a, Code(BeginUntil(body), a, x))
    ensures Holds(cells, a, Code(body, a, x)) && Holds(cells, a + Len(body), [Refer(QBRANCH), Target(a)])
  {
    HoldsParts(cells, a, Code(body, a, x), [Refer(QBRANCH), Target(a)]);
    hide Holds;
  }

  /** Where a part that is not done would have gone on does not matter. */
  lemma {:induction false} NoEnd(cells: seq<Cell>, a: int, end: int, end1: int, z: Zone, s: St, n: nat, w: Words, r: Outcome)
    requires Goes(cells, a, end, z, s, n, w, r) && !r.Done?
    ensures Goes(cells, a, end1, z, s, n, w, r)
  {
  }

  lemma {:induction false} SimulatesWhile(cond: Prog, body: Prog, cells: seq<Cell>, a: int, x: int, s: St, n: nat, w: Words)
    requires Holds(cells, a, Code(BeginWhile(cond, body), a, x))
    ensures var end := a + Len(BeginWhile(cond, body));
            Goes(cells, a, end, Zone(a, end), s, n, w, Eval(BeginWhile(cond, body), s, n, w))
    decreases n, BeginWhile(cond, body), 0
  {
    var p, b, c := BeginWhile(cond, body), a + Len(cond), a + Len(cond) + 2;
    var d, end := c + Len(body), c + Len(body) + 2;
    hide *;
    WhileParts(cond, body, cells, a, x);
    WhileSteps(cond, body, s, n, w);
    var r := Eval(cond, s, n, w);
    var rq := if r.Done? then Spend(Drop(r.s), r.left) else r;
    var truly := r.Done? && (r.s.ds == [] || r.s.ds[0] != 0);
    var rb := if rq.Done? && truly then Eval(body, rq.s, rq.left, w) else rq;
    var back := if rb.Done? then Spend(Some(rb.s), rb.left) else rb;
    var all := Eval(p, s, n, w);
    var z := Zone(a, end);
    Simulates(cond, cells, a, x, s, n, w);
    if r.Done? {
      QBranchGoes(cells, b, end, r.s, r.left, w);
    }
    Then(cells, a, b, if truly then c else end, z, Zone(a, b), Zone(b, c), s, n, w, r, rq);
    if rq.Done? && truly {
      WhileBody(body, cells, a, c, d, end, x, rq.s, rq.left, w);
      if back.Done? {
        SimulatesWhile(cond, body, cells, a, x, back.s, back.left, w);
      }
      Then(cells, c, a, end, z, Zone(c, end), z, rq.s, rq.left, w, back, all);
      Then(cells, a, c, end, z, z, z, s, n, w, rq, all);
    } else if truly {
      NoEnd(cells, a, c, end, z, s, n, w, rq);
    }
  }

  lemma {:induction false} WhileSteps(cond: Prog, body: Prog, s: St, n: nat, w: Words)
    ensures var p := BeginWhile(cond, body);
            var r := Eval(cond, s, n, w);
            var rq := if r.Done? then Spend(Drop(r.s), r.left) else r;
            var truly := r.Done? && (r.s.ds == [] || r.s.ds[0] != 0);
            var rb := if rq.Done? && truly then Eval(body, rq.s, rq.left, w) else rq;
            var back := if rb.Done? then Spend(Some(rb.s), rb.left) else rb;
            && Len(p) == Len(cond) + Len(body) + 4
            && Eval(p, s, n, w)
               == (if !rq.Done? || !truly then rq else if back.Done? then Eval(p, back.s, back.left, w) else back)
            && (rq.Done? ==> rq.left < n) && (rq.Done? && truly && back.Done? ==> back.left < n)
  {
  }

  lemma {:induction false} WhileParts(cond: Prog, body: Prog, cells: seq<Cell>, a: int, x: int)
    requires Holds(cells, a, Code(BeginWhile(cond, body), a, x))
    ensures var b := a + Len(cond); var c := b + 2; var d := c + Len(body);
            && Holds(cells, a, Code(cond, a, x)) && Holds(cells, b, [Refer(QBRANCH), Target(d + 2)])
            && Holds(cells, c, Code(body, c, x)) && Holds(cells, d, [Refer(BRANCH), Target(a)])
  {
    hide *;
    WhileIs(cond, body, a, x);
    var c := a + Len(cond) + 2;
    var end := c + Len(body) + 2;
    var code, more := Code(cond, a, x), Code(body, c, x);
    HoldsParts(cells, a, code + [Refer(QBRANCH), Target(end)], more + [Refer(BRANCH), Target(a)]);
    HoldsParts(cells, a, code, [Refer(QBRANCH), Target(end)]);
    HoldsParts(cells, c, more, [Refer(BRANCH), Target(a)]);
  }

  lemma {:induction false} WhileIs(cond: Prog, body: Prog, a: int, x: int)
    ensures var c := a + Len(cond) + 2; var end := c + Len(body) + 2;
            Code(BeginWhile(cond, body), a, x)
            == (Code(cond, a, x) + [Refer(QBRANCH), Target(end)]) + (Code(body, c, x) + [Refer(BRANCH), Target(a)])
    ensures |Code(cond, a, x)| == Len(cond) && |Code(body, a + Len(cond) + 2, x)| == Len(body)
  {
  }

  /** The body of a begin-while loop and its branch back. */
  lemma {:induction false} WhileBody(body: Prog, cells: seq<Cell>, a: int, c: int, d: int, end: int, x: int,
                                     s: St, n: nat, w: Words)
    requires d == c + Len(body) && end == d + 2
    requires Holds(cells, c, Code(body, c, x)) && Holds(cells, d, [Refer(BRANCH), Target(a)])
    ensures var rb := Eval(body, s, n, w);
            Goes(cells, c, a, Zone(c, end), s, n, w, if rb.Done? then Spend(Some(rb.s), rb.left) else rb)
    decreases n, body, 2
  {
    hide Holds, Goes, Code, Spend;
    var rb := Eval(body, s, n, w);
    Simulates(body, cells, c, x, s, n, w);
    if rb.Done? {
      BranchGoes(cells, d, a, rb.s, rb.left, w);
    }
    Then(cells, c, d, a, Zone(c, end), Zone(c, d), Zone(d, end), s, n, w, rb,
         if rb.Done? then Spend(Some(rb.s), rb.left) else rb);
  }

  lemma {:induction false} SimulatesDo(body: Prog, plus: bool, cells: seq<Cell>, a: int, x: int, s: St, n: nat, w: Words)
    requires Holds(cells, a, Code(if plus then DoPlusLoop(body) else DoLoop(body), a, x))
    ensures var p := if plus then DoPlusLoop(body) else DoLoop(body);
            var end := a + Len(p); Goes(cells, a, end, Zone(a, end), s, n, w, Eval(p, s, n, w))
    decreases n, if plus then DoPlusLoop(body) else DoLoop(body), 0
  {
    hide *;
    DoParts(body, plus, cells, a, x);
    DoSteps(body, plus, s, n, w);
    var p := if plus then DoPlusLoop(body) else DoLoop(body);
    var end, r, all := a + Len(body) + 3, Spend(DoEnter(s), n), Eval(p, s, n, w);
    WordGoes(cells, a, DO, s, n, w);
    if r.Done? {
      SimulatesLoop(body, plus, cells, a + 1, end, r.s, r.left, w);
    }
    Then(cells, a, a + 1, end, Zone(a, end), Zone(a, a + 1), Zone(a + 1, end), s, n, w, r, all);
  }

  lemma {:induction false} DoParts(body: Prog, plus: bool, cells: seq<Cell>, a: int, x: int)
    requires Holds(cells, a, Code(if plus then DoPlusLoop(body) else DoLoop(body), a, x))
    ensures var end := a + Len(body) + 3;
            && Holds(cells, a, [Refer(DO)]) && Holds(cells, a + 1, Code(body, a + 1, end))
            && Holds(cells, a + 1 + Len(body), [Refer(if plus then PLUSLOOP else LOOP), Target(a + 1)])
  {
    var end := a + Len(body) + 3;
    HoldsParts(cells, a, [Refer(DO)] + Code(body, a + 1, end), [Refer(if plus then PLUSLOOP else LOOP), Target(a + 1)]);
    HoldsParts(cells, a, [Refer(DO)], Code(body, a + 1, end));
    hide Holds;
  }

  lemma {:induction false} DoSteps(body: Prog, plus: bool, s: St, n: nat, w: Words)
    ensures var p := if plus then DoPlusLoop(body) else DoLoop(body);
            var r := Spend(DoEnter(s), n);
            && Len(p) == Len(body) + 3 && (r.Done? ==> r.left < n)
            && Eval(p, s, n, w) == if r.Done? then EvalLoop(body, plus, r.s, r.left, w) else r
  {
    hide EvalLoop, DoEnter;
  }

  lemma {:induction false} LoopSteps(body: Prog, plus: bool, s: St, n: nat, w: Words)
    ensures var r := Eval(body, s, n, w);
            var turn := if r.Done? then TurnOf(plus, r.s) else Underflow;
            var rb := if r.Done? then Spend(if turn.Underflow? then None else Some(turn.s), r.left) else r;
            && EvalLoop(body, plus, s, n, w)
               == (if rb.Done? && turn.Again? then EvalLoop(body, plus, rb.s, rb.left, w) else rb)
            && (rb.Done? ==> rb.left < n)
  {
    hide Eval, TurnOf;
  }

  lemma {:induction false} SimulatesLoop(body: Prog, plus: bool, cells: seq<Cell>, a: int, x: int, s: St, n: nat, w: Words)
    requires Holds(cells, a, Code(body, a, x))
    requires Holds(cells, a + Len(body), [Refer(if plus then PLUSLOOP else LOOP), Target(a)])
    ensures var end := a + Len(body) + 2; Goes(cells, a, end, Zone(a, end), s, n, w, EvalLoop(body, plus, s, n, w))
    decreases n, body, 2
  {
    var b, end := a + Len(body), a + Len(body) + 2;
    hide *;
    LoopSteps(body, plus, s, n, w);
    var r := Eval(body, s, n, w);
    var turn := if r.Done? then TurnOf(plus, r.s) else Underflow;
    var rb := if r.Done? then Spend(if turn.Underflow? then None else Some(turn.s), r.left) else r;
    var all := EvalLoop(body, plus, s, n, w);
    var z := Zone(a, end);
    Simulates(body, cells, a, x, s, n, w);
    if r.Done? {
      LoopGoes(cells, b, plus, a, r.s, r.left, w);
    }
    Then(cells, a, b, if turn.Again? then a else end, z, Zone(a, b), Zone(b, end), s, n, w, r, rb);
    if rb.Done? && turn.Again? {
      SimulatesLoop(body, plus, cells, a, x, rb.s, rb.left, w);
      Then(cells, a, a, end, z, z, z, s, n, w, rb, all);
    } else if turn.Again? {
      NoEnd(cells, a, a, end, z, s, n, w, rb);
    }
  }

  /** A test up to the copy of the selector, and up to its comparison. */
  function Dupped(arm: Arms, s: St, n: nat, w: Words): Outcome
    requires arm.Arm?
  {
    var r := Eval(arm.pre, s, n, w);
    if r.Done? then Spend(Dup(r.s), r.left) else r
  }

  function Tested(arm: Arms, s: St, n: nat, w: Words): Outcome
    requires arm.Arm?
  {
    var r := Dupped(arm, s, n, w);
    if r.Done? then Eval(arm.test, r.s, r.left, w) else r
  }

  lemma {:induction false} TestSteps(arm: Arms, s: St, n: nat, w: Words)
    requires arm.Arm?
    ensures var rd, rt := Dupped(arm, s, n, w), Tested(arm, s, n, w);
            && TestLen(arm) == Len(arm.pre) + 1 + Len(arm.test) + (if arm.equal then 1 else 0)
            && EvalTest(arm, s, n, w) == (if rt.Done? && arm.equal then Spend(Equals(rt.s), rt.left) else rt)
            && (rd.Done? ==> rd.left <= n)
            && rt == if rd.Done? then Eval(arm.test, rd.s, rd.left, w) else rd
  {
    hide Eval;
  }

  lemma {:induction false} TestParts(arm: Arms, cells: seq<Cell>, a: int, x: int)
    requires arm.Arm? && Holds(cells, a, TestCode(arm, a, x))
    ensures var b := a + Len(arm.pre); var c := b + 1; var d := c + Len(arm.test);
            && Holds(cells, a, Code(arm.pre, a, x)) && Holds(cells, b, [Refer(DUP)])
            && Holds(cells, c, Code(arm.test, c, x)) && (arm.equal ==> Holds(cells, d, [Refer(EQUALS)]))
  {
    var pre, test := Code(arm.pre, a, x), Code(arm.test, a + Len(arm.pre) + 1, x);
    var tail := if arm.equal then [Refer(EQUALS)] else [];
    assert TestCode(arm, a, x) == pre + [Refer(DUP)] + test + tail;
    hide Holds, Code, TestCode;
    HoldsParts(cells, a, pre + [Refer(DUP)] + test, tail);
    HoldsParts(cells, a, pre + [Refer(DUP)], test);
    HoldsParts(cells, a, pre, [Refer(DUP)]);
  }

  /** One word more. */
  lemma {:induction false} WordThen(cells: seq<Cell>, a: int, d: int, op: Op, s: St, n: nat, w: Words, r: Outcome, r2: Outcome)
    requires a <= d && Goes(cells, a, d, Zone(a, d), s, n, w, r) && Holds(cells, d, [Refer(op)])
    requires op.DUP? || op.EQUALS?
    requires r2 == if r.Done? then Spend(if op.DUP? then Dup(r.s) else Equals(r.s), r.left) else r
    ensures Goes(cells, a, d + 1, Zone(a, d + 1), s, n, w, r2)
  {
    hide *;
    if r.Done? {
      WordGoes(cells, d, op, r.s, r.left, w);
    }
    Then(cells, a, d, d + 1, Zone(a, d + 1), Zone(a, d), Zone(d, d + 1), s, n, w, r, r2);
  }

  lemma {:induction false} SimulatesTest(arm: Arms, cells: seq<Cell>, a: int, x: int, s: St, n: nat, w: Words)
    requires arm.Arm? && Holds(cells, a, TestCode(arm, a, x))
    ensures var end := a + TestLen(arm); Goes(cells, a, end, Zone(a, end), s, n, w, EvalTest(arm, s, n, w))
    decreases n, arm, 0
  {
    hide *;
    TestParts(arm, cells, a, x);
    TestSteps(arm, s, n, w);
    SimulatesPre(arm, cells, a, x, s, n, w);
    SimulatesTested(arm, cells, a, x, s, n, w, Dupped(arm, s, n, w), Tested(arm, s, n, w));
    if arm.equal {
      WordThen(cells, a, a + Len(arm.pre) + 1 + Len(arm.test), EQUALS, s, n, w, Tested(arm, s, n, w), EvalTest(arm, s, n, w));
    }
  }

  /** The test itself, on the copy of the selector. */
  lemma {:induction false} SimulatesTested(arm: Arms, cells: seq<Cell>, a: int, x: int, s: St, n: nat, w: Words,
                                           rd: Outcome, rt: Outcome)
    requires arm.Arm? && Holds(cells, a + Len(arm.pre) + 1, Code(arm.test, a + Len(arm.pre) + 1, x))
    requires Goes(cells, a, a + Len(arm.pre) + 1, Zone(a, a + Len(arm.pre) + 1), s, n, w, rd)
    requires rt == if rd.Done? then Eval(arm.test, rd.s, rd.left, w) else rd
    requires rd.Done? ==> rd.left <= n
    ensures var d := a + Len(arm.pre) + 1 + Len(arm.test); Goes(cells, a, d, Zone(a, d), s, n, w, rt)
    decreases n, arm.test, 2
  {
    hide *;
    var c := a + Len(arm.pre) + 1;
    var d := c + Len(arm.test);
    if rd.Done? {
      Simulates(arm.test, cells, c, x, rd.s, rd.left, w);
    }
    Then(cells, a, c, d, Zone(a, d), Zone(a, c), Zone(c, d), s, n, w, rd, rt);
  }

  /** What stands before a case, and the copy of the selector for its test. */
  lemma {:induction false} SimulatesPre(arm: Arms, cells: seq<Cell>, a: int, x: int, s: St, n: nat, w: Words)
    requires arm.Arm? && Holds(cells, a, Code(arm.pre, a, x)) && Holds(cells, a + Len(arm.pre), [Refer(DUP)])
    ensures var c := a + Len(arm.pre) + 1; Goes(cells, a, c, Zone(a, c), s, n, w, Dupped(arm, s, n, w))
    decreases n, arm.pre, 2
  {
    hide Holds, Goes, Eval, Code, Len, Spend, Dup;
    Simulates(arm.pre, cells, a, x, s, n, w);
    WordThen(cells, a, a + Len(arm.pre), DUP, s, n, w, Eval(arm.pre, s, n, w), Dupped(arm, s, n, w));
  }

  lemma {:induction false} SimulatesArms(arms: Arms, cells: seq<Cell>, a: int, end: int, x: int, s: St, n: nat, w: Words)
    requires Holds(cells, a, ArmsCode(arms, a, end, x)) && end == a + ArmsLen(arms)
    ensures Goes(cells, a, end, Zone(a, end), s, n, w, EvalArms(arms, s, n, w))
    decreases n, arms, 1
  {
    hide Goes, Holds, Eval, EvalArms;
    match arms {
      case Last(final) => SimulatesLast(final, cells, a, end, x, s, n, w);
      case Arm(_, _, _, _, _) => SimulatesArm(arms, cells, a, end, x, s, n, w);
    }
  }

  lemma {:induction false} SimulatesArm(arms: Arms, cells: seq<Cell>, a: int, end: int, x: int, s: St, n: nat, w: Words)
    requires arms.Arm? && Holds(cells, a, ArmsCode(arms, a, end, x)) && end == a + ArmsLen(arms)
    ensures Goes(cells, a, end, Zone(a, end), s, n, w, EvalArms(arms, s, n, w))
    decreases n, arms, 1, 0
  {
    hide *;
    var b := a + TestLen(arms);
    ArmParts(arms, cells, a, end, x);
    ArmSteps(arms, s, n, w);
    var r := EvalTest(arms, s, n, w);
    SimulatesTest(arms, cells, a, x, s, n, w);
    if r.Done? {
      SimulatesChoice(arms, cells, b, end, x, r.s, r.left, w);
    }
    Then(cells, a, b, end, Zone(a, end), Zone(a, b), Zone(b, end), s, n, w, r, EvalArms(arms, s, n, w));
  }

  lemma {:induction false} ArmSteps(arms: Arms, s: St, n: nat, w: Words)
    requires arms.Arm?
    ensures var r := EvalTest(arms, s, n, w);
            && EvalArms(arms, s, n, w) == (if r.Done? then EvalChoice(arms, r.s, r.left, w) else r)
            && (r.Done? ==> r.left <= n)
            && ArmsLen(arms) == TestLen(arms) + 3 + Len(arms.body) + 2 + ArmsLen(arms.rest)
  {
    hide Eval, EvalTest, EvalChoice;
  }

  lemma {:induction false} SimulatesLast(final: Prog, cells: seq<Cell>, a: int, end: int, x: int, s: St, n: nat, w: Words)
    requires Holds(cells, a, Code(final, a, x) + [Refer(DROP)]) && end == a + Len(final) + 1
    ensures Goes(cells, a, end, Zone(a, end), s, n, w, EvalArms(Last(final), s, n, w))
    decreases n, final, 2
  {
    hide *;
    LastSteps(final, cells, a, x, s, n, w);
    var b, r, all := a + Len(final), Eval(final, s, n, w), EvalArms(Last(final), s, n, w);
    Simulates(final, cells, a, x, s, n, w);
    if r.Done? {
      WordGoes(cells, b, DROP, r.s, r.left, w);
    }
    Then(cells, a, b, end, Zone(a, end), Zone(a, b), Zone(b, end), s, n, w, r, all);
  }

  lemma {:induction false} LastSteps(final: Prog, cells: seq<Cell>, a: int, x: int, s: St, n: nat, w: Words)
    requires Holds(cells, a, Code(final, a, x) + [Refer(DROP)])
    ensures Holds(cells, a, Code(final, a, x)) && Holds(cells, a + Len(final), [Refer(DROP)])
    ensures var r := Eval(final, s, n, w);
            && (r.Done? ==> r.left <= n)
            && EvalArms(Last(final), s, n, w) == if r.Done? then Spend(Drop(r.s), r.left) else r
  {
    HoldsParts(cells, a, Code(final, a, x), [Refer(DROP)]);
    hide Holds, Eval, Code;
  }

  lemma {:induction false} ArmParts(arms: Arms, cells: seq<Cell>, a: int, end: int, x: int)
    requires arms.Arm? && Holds(cells, a, ArmsCode(arms, a, end, x))
    ensures var b := a + TestLen(arms);
            var c := b + 3;
            var next := c + Len(arms.body) + 2;
            && Holds(cells, a, TestCode(arms, a, x))
            && Holds(cells, b, [Refer(QBRANCH), Target(next)]) && Holds(cells, b + 2, [Refer(DROP)])
            && Holds(cells, c, Code(arms.body, c, x)) && Holds(cells, next - 2, [Refer(BRANCH), Target(end)])
            && Holds(cells, next, ArmsCode(arms.rest, next, end, x))
  {
    var b := a + TestLen(arms);
    var next := b + 3 + Len(arms.body) + 2;
    var test, code, more := TestCode(arms, a, x), Code(arms.body, b + 3, x), ArmsCode(arms.rest, next, end, x);
    var mid, tail := [Refer(QBRANCH), Target(next), Refer(DROP)], [Refer(BRANCH), Target(end)];
    assert ArmsCode(arms, a, end, x) == test + mid + (code + tail + more);
    hide Holds, Code, TestCode, ArmsCode;
    HoldsParts(cells, a, test + mid, code + tail + more);
    HoldsParts(cells, a, test, mid);
    assert mid == [Refer(QBRANCH), Target(next)] + [Refer(DROP)];
    HoldsParts(cells, b, [Refer(QBRANCH), Target(next)], [Refer(DROP)]);
    HoldsParts(cells, b + 3, code + tail, more);
    HoldsParts(cells, b + 3, code, tail);
  }

  lemma {:induction false} ChoiceSteps(arm: Arms, s: St, n: nat, w: Words)
    requires arm.Arm?
    ensures var r := Spend(Drop(s), n);
            var truly := s.ds == [] || s.ds[0] != 0;
            var rd := if r.Done? then Spend(Drop(r.s), r.left) else r;
            var rb := if rd.Done? then Eval(arm.body, rd.s, rd.left, w) else rd;
            var rx := if rb.Done? then Spend(Some(rb.s), rb.left) else rb;
            && EvalChoice(arm, s, n, w)
               == (if !r.Done? then r else if truly then rx else EvalArms(arm.rest, r.s, r.left, w))
            && (r.Done? ==> r.left < n) && (rd.Done? ==> rd.left <= n) && (rb.Done? ==> rb.left <= n)
  {
    hide Eval, EvalArms;
  }

  lemma {:induction false} SimulatesChoice(arm: Arms, cells: seq<Cell>, b: int, end: int, x: int, s: St, n: nat, w: Words)
    requires arm.Arm?
    requires var c := b + 3;
             var next := c + Len(arm.body) + 2;
             && Holds(cells, b, [Refer(QBRANCH), Target(next)]) && Holds(cells, b + 2, [Refer(DROP)])
             && Holds(cells, c, Code(arm.body, c, x)) && Holds(cells, next - 2, [Refer(BRANCH), Target(end)])
             && Holds(cells, next, ArmsCode(arm.rest, next, end, x)) && end == next + ArmsLen(arm.rest)
    ensures Goes(cells, b, end, Zone(b, end), s, n, w, EvalChoice(arm, s, n, w))
    decreases n, arm, 0
  {
    var next := b + 3 + Len(arm.body) + 2;
    hide *;
    ChoiceSteps(arm, s, n, w);
    var r := Spend(Drop(s), n);
    QBranchGoes(cells, b, next, s, n, w);
    if s.ds == [] || s.ds[0] != 0 {
      if r.Done? {
        SimulatesChosen(arm.body, cells, b + 2, end, x, r.s, r.left, w);
      }
      Then(cells, b, b + 2, end, Zone(b, end), Zone(b, b + 2), Zone(b + 2, end), s, n, w, r, EvalChoice(arm, s, n, w));
    } else {
      SimulatesOther(arm, cells, b, next, end, x, s, n, w, r);
    }
  }

  /** The case was not chosen: on to the rest. */
  lemma {:induction false} SimulatesOther(arm: Arms, cells: seq<Cell>, b: int, next: int, end: int, x: int,
                                          s: St, n: nat, w: Words, r: Outcome)
    requires arm.Arm? && b + 2 <= next && Goes(cells, b, next, Zone(b, b + 2), s, n, w, r)
    requires Holds(cells, next, ArmsCode(arm.rest, next, end, x)) && end == next + ArmsLen(arm.rest)
    requires r.Done? ==> r.left < n
    requires EvalChoice(arm, s, n, w) == if r.Done? then EvalArms(arm.rest, r.s, r.left, w) else r
    ensures Goes(cells, b, end, Zone(b, end), s, n, w, EvalChoice(arm, s, n, w))
    decreases n, arm.rest, 2
  {
    hide *;
    if r.Done? {
      SimulatesArms(arm.rest, cells, next, end, x, r.s, r.left, w);
    }
    Then(cells, b, next, end, Zone(b, end), Zone(b, b + 2), Zone(next, end), s, n, w, r, EvalChoice(arm, s, n, w));
  }

  /** The body of the chosen case: the selector goes, the body runs, and the selection ends. */
  lemma {:induction false} SimulatesChosen(body: Prog, cells: seq<Cell>, b: int, end: int, x: int, s: St, n: nat, w: Words)
    requires var c := b + 1; var d := c + Len(body);
             && Holds(cells, b, [Refer(DROP)]) && Holds(cells, c, Code(body, c, x))
             && Holds(cells, d, [Refer(BRANCH), Target(end)]) && d + 2 <= end
    ensures var rd := Spend(Drop(s), n);
            var rb := if rd.Done? then Eval(body, rd.s, rd.left, w) else rd;
            var rx := if rb.Done? then Spend(Some(rb.s), rb.left) else rb;
            Goes(cells, b, end, Zone(b, end), s, n, w, rx)
    decreases n, body, 2
  {
    hide *;
    var c := b + 1;
    var d := c + Len(body);
    var rd := Spend(Drop(s), n);
    var rb := if rd.Done? then Eval(body, rd.s, rd.left, w) else rd;
    var rx := if rb.Done? then Spend(Some(rb.s), rb.left) else rb;
    var z := Zone(b, end);
    WordGoes(cells, b, DROP, s, n, w);
    if rd.Done? {
      Simulates(body, cells, c, x, rd.s, rd.left, w);
    }
    Then(cells, b, c, d, z, Zone(b, c), Zone(c, d), s, n, w, rd, rb);
    if rb.Done? {
      BranchGoes(cells, d, end, rb.s, rb.left, w);
    }
    Then(cells, b, d, end, z, z, Zone(d, d + 2), s, n, w, rb, rx);
  }

  /** The meaning theorem: for every program, initial state, meaning of the other words and number
      of steps, the inner interpreter on the program's cells has reached their end exactly if the
      program is done, and then with exactly its stacks; and it is stuck exactly if the program is. */
  lemma {:induction false} CompiledMeaning(p: Prog, x: int, s: St, n: nat, w: Words)
    ensures var r, m := Eval(p, s, n, w), Run(Code(p, 0, x), 0, s, n, w);
            && (forall s1: St :: m == At(Len(p), s1) <==> r.Done? && r.s == s1)
            && (m == Broken <==> r.Stuck?)
            && (r.Out? ==> m.At? && 0 <= m.ip < Len(p))
  {
    var cells := Code(p, 0, x);
    assert cells[0..0 + |cells|] == cells;
    Simulates(p, cells, 0, x, s, n, w);
    hide Eval, Code, Step;
  }

  lemma {:induction false} RunOn(cells: seq<Cell>, ip: int, s: St, n: nat, m: nat, w: Words)
    requires n <= m && Run(cells, ip, s, n, w).At? && Run(cells, ip, s, n, w).ip == |cells|
    ensures Run(cells, ip, s, m, w) == Run(cells, ip, s, n, w)
    decreases n
  {
    hide Step;
    if n > 0 && 0 <= ip < |cells| {
      match Step(cells, ip, s, w) {
        case At(ip1, s1) => RunOn(cells, ip1, s1, n - 1, m - 1, w);
      }
    }
  }

  /** The budget only cuts a program off: once done, more of it changes nothing. */
  lemma {:induction false} MoreBudget(p: Prog, s: St, n: nat, m: nat, w: Words)
    requires n <= m && Eval(p, s, n, w).Done?
    ensures Eval(p, s, m, w).Done? && Eval(p, s, m, w).s == Eval(p, s, n, w).s
  {
    CompiledMeaning(p, 0, s, n, w);
    CompiledMeaning(p, 0, s, m, w);
    assert Run(Code(p, 0, 0), 0, s, n, w) == At(Len(p), Eval(p, s, n, w).s);
    hide Eval, Code, Run;
    RunOn(Code(p, 0, 0), 0, s, n, m, w);
  }
}
