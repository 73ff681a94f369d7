/** The compiler's control words: a one-pass compiler that back-patches branch cells through a
    stack and through a chain of the leaves of the innermost loop. */
module MetaCompiler {
  import opened Word32
  import opened InnerInterpreter
  import opened ControlFlow

  datatype Memtype = ReferCell | LiteralCell | BranchCell

  /** A cell being compiled; its type says which of the values counts. */
  datatype MemCell = MemCell(memtype: Memtype, reference: Op, value: Word, branchindex: nat)

  /** The cell as it will be written out. */
  function View(c: MemCell): Cell {
    match c.memtype
    case ReferCell => Refer(c.reference)
    case LiteralCell => Value(c.value)
    case BranchCell => Target(c.branchindex)
  }

  /** The definition being compiled: its cells, how many there are, and the last leave of the
      innermost loop, or zero. */
  datatype Def = Def(memory: seq<MemCell>, here: nat, clue: nat)

  /** The compiler: the definition and the stack, top last. */
  datatype CS = CS(d: Def, stack: seq<nat>)

  /** The control words of the source text, and the words and numbers between them. */
  datatype Token = WordToken(w: nat) | NumberToken(v: Word)
                 | IF | ELSE | THEN | BEGIN | WHILE | REPEAT | UNTIL | AGAIN
                 | DO_ | LOOP_ | PLUSLOOP_ | LEAVE | SEL | CASE | ARROW | EQARROW | ENDCASE | ENDSEL

  // The compiler's steps; None is an empty stack, or no room for another cell

  function Emit(d: Def, c: MemCell): Option<Def> {
    if d.here < |d.memory| then Some(d.(memory := d.memory[d.here := c], here := d.here + 1)) else None
  }

  /** What the next cell holds from an earlier definition. */
  function Stale(d: Def): MemCell {
    if d.here < |d.memory| then d.memory[d.here] else MemCell(BranchCell, DUP, 0, 0)
  }

  function ReferTo(cs: CS, op: Op): Option<CS> {
    var d :- Emit(cs.d, Stale(cs.d).(memtype := ReferCell, reference := op));
    Some(cs.(d := d))
  }

  function PushTo(cs: CS, n: nat): CS {
    cs.(stack := cs.stack + [n])
  }

  function Top(cs: CS): Option<nat> {
    if cs.stack == [] then None else Some(cs.stack[|cs.stack| - 1])
  }

  function Popped(cs: CS): CS
    requires cs.stack != []
  {
    cs.(stack := cs.stack[..|cs.stack| - 1])
  }

  function Backmark(cs: CS): CS {
    PushTo(cs, cs.d.here)
  }

  function Backresolve(cs: CS): Option<CS> {
    var n :- Top(cs);
    var d :- Emit(cs.d, Stale(cs.d).(memtype := BranchCell, branchindex := n));
    Some(Popped(cs).(d := d))
  }

  function Forwardmark(cs: CS): Option<CS> {
    var d :- Emit(cs.d, Stale(cs.d).(memtype := BranchCell));
    Some(Backmark(cs).(d := d))
  }

  /** The branch cell `n` of the definition sent to `x`. */
  function Redirect(d: Def, n: nat, x: nat): Def
    requires n < |d.memory|
  {
    d.(memory := d.memory[n := d.memory[n].(branchindex := x)])
  }

  function Resolve(d: Def, n: nat): Option<Def> {
    if n < |d.memory| then Some(Redirect(d, n, d.here)) else None
  }

  function Forwardresolve(cs: CS): Option<CS> {
    var n :- Top(cs);
    var d :- Resolve(cs.d, n);
    Some(Popped(cs).(d := d))
  }

  function Forwardmarks(cs: CS): Option<CS> {
    var d :- Emit(cs.d, Stale(cs.d).(memtype := BranchCell, branchindex := cs.d.clue));
    Some(cs.(d := d.(clue := cs.d.here)))
  }

  /** Follows the chain of leaves from `resolve` and sends each to `x`. */
  function Patch(memory: seq<MemCell>, resolve: nat, x: nat): Option<seq<MemCell>>
    decreases resolve
  {
    if resolve == 0 then Some(memory)
    else if resolve < |memory| && memory[resolve].branchindex < resolve then
      Patch(memory[resolve := memory[resolve].(branchindex := x)], memory[resolve].branchindex, x)
    else None
  }

  function Forwardresolves(cs: CS): Option<CS> {
    var m :- Patch(cs.d.memory, cs.d.clue, cs.d.here);
    Some(cs.(d := cs.d.(memory := m)))
  }

  function CIf(cs: CS): Option<CS> {
    var cs1 :- ReferTo(cs, QBRANCH);
    Forwardmark(cs1)
  }

  function CElse(cs: CS): Option<CS> {
    var cs1 :- ReferTo(cs, BRANCH);
    var cs2 :- Forwardmark(cs1);
    var tmp :- Top(cs2);
    var cs3 :- Forwardresolve(Popped(cs2));
    Some(PushTo(cs3, tmp))
  }

  function CWhile(cs: CS): Option<CS> {
    var tmp :- Top(cs);
    var cs1 :- CIf(Popped(cs));
    Some(PushTo(cs1, tmp))
  }

  function CRepeat(cs: CS): Option<CS> {
    var cs1 :- ReferTo(cs, BRANCH);
    var cs2 :- Backresolve(cs1);
    Forwardresolve(cs2)
  }

  function BranchBack(cs: CS, op: Op): Option<CS> {
    var cs1 :- ReferTo(cs, op);
    Backresolve(cs1)
  }

  function CDo(cs: CS): Option<CS> {
    var cs1 :- ReferTo(cs, DO);
    Some(Backmark(PushTo(cs1, cs1.d.clue).(d := cs1.d.(clue := 0))))
  }

  function CLoop(cs: CS, op: Op): Option<CS> {
    var cs1 :- BranchBack(cs, op);
    var cs2 :- Forwardresolves(cs1);
    var outer :- Top(cs2);
    Some(Popped(cs2).(d := cs2.d.(clue := outer)))
  }

  function CArrow(cs: CS): Option<CS> {
    var n :- Top(cs);
    var cs1 :- CIf(PushTo(Popped(cs), n + 1));
    ReferTo(cs1, DROP)
  }

  function CEqArrow(cs: CS): Option<CS> {
    var cs1 :- ReferTo(cs, EQUALS);
    CArrow(cs1)
  }

  /** Swaps the top two of the stack. */
  function Swapped(cs: CS): Option<CS> {
    var n := |cs.stack|;
    if n < 2 then None
    else Some(cs.(stack := cs.stack[..n - 2] + [cs.stack[n - 1], cs.stack[n - 2]]))
  }

  function CEndCase(cs: CS): Option<CS> {
    var cs1 :- CElse(cs);
    Swapped(cs1)
  }

  /** `then`, n times. */
  function Thens(cs: CS, n: nat): Option<CS>
    decreases n
  {
    if n == 0 then Some(cs)
    else
      var cs1 :- Forwardresolve(cs);
      Thens(cs1, n - 1)
  }

  function CEndSel(cs: CS): Option<CS> {
    var cs1 :- ReferTo(cs, DROP);
    var n :- Top(cs1);
    Thens(Popped(cs1), n)
  }

  function CLiteral(cs: CS, v: Word): Option<CS> {
    var cs1 :- ReferTo(cs, LITERAL);
    var d :- Emit(cs1.d, Stale(cs1.d).(memtype := LiteralCell, value := v));
    Some(cs1.(d := d))
  }

  /** What the compiler does for one word of the source text. */
  function Act(t: Token, cs: CS): Option<CS> {
    match t
    case WordToken(w) => ReferTo(cs, WORD(w))
    case NumberToken(v) => CLiteral(cs, v)
    case IF => CIf(cs)
    case ELSE => CElse(cs)
    case THEN => Forwardresolve(cs)
    case BEGIN => Some(Backmark(cs))
    case WHILE => CWhile(cs)
    case REPEAT => CRepeat(cs)
    case UNTIL => BranchBack(cs, QBRANCH)
    case AGAIN => BranchBack(cs, BRANCH)
    case DO_ => CDo(cs)
    case LOOP_ => CLoop(cs, LOOP)
    case PLUSLOOP_ => CLoop(cs, PLUSLOOP)
    case LEAVE => Forwardmarks(cs)
    case SEL => Some(PushTo(cs, 0))
    case CASE => ReferTo(cs, DUP)
    case ARROW => CArrow(cs)
    case EQARROW => CEqArrow(cs)
    case ENDCASE => CEndCase(cs)
    case ENDSEL => CEndSel(cs)
  }

  function Acts(ts: seq<Token>, cs: CS): Option<CS>
    decreases |ts|
  {
    if ts == [] then Some(cs)
    else
      var cs1 :- Act(ts[0], cs);
      Acts(ts[1..], cs1)
  }

  // The source text of a program

  function Text(p: Prog): seq<Token> {
    match p
    case Skip => []
    case Seq(a, b) => Text(a) + Text(b)
    case Call(w) => [WordToken(w)]
    case Literal(v) => [NumberToken(v)]
    case If(yes) => [IF] + Text(yes) + [THEN]
    case IfElse(yes, no) => [IF] + Text(yes) + [ELSE] + Text(no) + [THEN]
    case BeginAgain(body) => [BEGIN] + Text(body) + [AGAIN]
    case BeginUntil(body) => [BEGIN] + Text(body) + [UNTIL]
    case BeginWhile(cond, body) => [BEGIN] + Text(cond) + [WHILE] + Text(body) + [REPEAT]
    case DoLoop(body) => [DO_] + Text(body) + [LOOP_]
    case DoPlusLoop(body) => [DO_] + Text(body) + [PLUSLOOP_]
    case LeaveLoop => [LEAVE]
    case Sel(arms) => [SEL] + ArmsText(arms)
  }

  /** The cases up to and with the end of the selection. */
  function ArmsText(arms: Arms): seq<Token> {
    match arms
    case Last(final) => Text(final) + [ENDSEL]
    case Arm(pre, test, equal, body, rest) =>
      Text(pre) + [CASE] + Text(test) + [if equal then EQARROW else ARROW] + Text(body) + [ENDCASE] + ArmsText(rest)
  }

  /** Whether a leave stands outside the loops of the program. */
  predicate FreeLeave(p: Prog) {
    match p
    case Seq(a, b) => FreeLeave(a) || FreeLeave(b)
    case If(yes) => FreeLeave(yes)
    case IfElse(yes, no) => FreeLeave(yes) || FreeLeave(no)
    case BeginAgain(body) => FreeLeave(body)
    case BeginUntil(body) => FreeLeave(body)
    case BeginWhile(cond, body) => FreeLeave(cond) || FreeLeave(body)
    case LeaveLoop => true
    case Sel(arms) => ArmsFreeLeave(arms)
    case _ => false
  }

  predicate ArmsFreeLeave(arms: Arms) {
    match arms
    case Last(final) => FreeLeave(final)
    case Arm(pre, test, equal, body, rest) =>
      FreeLeave(pre) || FreeLeave(test) || FreeLeave(body) || ArmsFreeLeave(rest)
  }

  // The chain of leaves

  /** The cells of the chain that ends at `c`, oldest first. */
  function Links(memory: seq<MemCell>, c: nat): seq<nat> {
    if c == 0 || c >= |memory| then []
    else if memory[c].branchindex < c then Links(memory, memory[c].branchindex) + [c]
    else [c]
  }

  /** Each cell of the chain refers to an older one, and the oldest to none. */
  predicate Chained(memory: seq<MemCell>, c: nat) {
    c == 0 || (c < |memory| && memory[c].memtype.BranchCell? && memory[c].branchindex < c
               && Chained(memory, memory[c].branchindex))
  }

  lemma {:induction false} LinksBelow(memory: seq<MemCell>, c: nat)
    ensures forall k | k in Links(memory, c) :: 0 < k <= c && k < |memory|
  {
    if c != 0 && c < |memory| && memory[c].branchindex < c {
      LinksBelow(memory, memory[c].branchindex);
    }
  }

  /** Changes outside the chain do not matter to it. */
  lemma {:induction false} LinksKept(memory: seq<MemCell>, memory1: seq<MemCell>, c: nat)
    requires |memory| == |memory1| && forall k: nat | k in Links(memory, c) && k < |memory| :: memory1[k] == memory[k]
    ensures Links(memory1, c) == Links(memory, c)
    ensures Chained(memory, c) ==> Chained(memory1, c)
  {
    if c != 0 && c < |memory| {
      assert c in Links(memory, c);
      if memory[c].branchindex < c {
        assert forall k | k in Links(memory, memory[c].branchindex) :: k in Links(memory, c);
        LinksKept(memory, memory1, memory[c].branchindex);
      }
    }
  }

  /** Patching sends exactly the cells of the chain to `x`. */
  lemma {:induction false} PatchesChain(memory: seq<MemCell>, c: nat, x: nat)
    requires Chained(memory, c)
    ensures Patch(memory, c, x).Some? && |Patch(memory, c, x).value| == |memory|
    ensures forall k | 0 <= k < |memory| ::
              Patch(memory, c, x).value[k]
              == if k in Links(memory, c) then memory[k].(branchindex := x) else memory[k]
    decreases c
  {
    if c != 0 {
      var next := memory[c].branchindex;
      var memory1 := memory[c := memory[c].(branchindex := x)];
      LinksBelow(memory, next);
      LinksKept(memory, memory1, next);
      PatchesChain(memory1, next, x);
    }
  }

  // What compiling part of a program adds to the definition

  predicate Ready(d: Def) {
    d.here <= |d.memory| && (d.clue == 0 || d.clue < d.here) && Chained(d.memory, d.clue)
  }

  predicate Linked(d: Def, k: nat) {
    k in Links(d.memory, d.clue)
  }

  /** `code` has been added after what was there; its leaves, which are to go to `x`, are the new
      cells of the chain. */
  predicate Grown(d: Def, d1: Def, code: seq<Cell>, x: nat) {
    && Ready(d) && Ready(d1) && |d1.memory| == |d.memory| && d1.here == d.here + |code|
    && (forall k: nat | k < d.here :: d1.memory[k] == d.memory[k] && (Linked(d1, k) <==> Linked(d, k)))
    && (forall i: nat | i < |code| ::
          if Linked(d1, d.here + i) then code[i] == Target(x) else View(d1.memory[d.here + i]) == code[i])
  }

  lemma {:induction false} GrownNone(d: Def, x: nat)
    requires Ready(d)
    ensures Grown(d, d, [], x)
  {
  }

  lemma {:induction false} GrownTwice(d: Def, d1: Def, d2: Def, code1: seq<Cell>, code2: seq<Cell>, x: nat)
    requires Grown(d, d1, code1, x) && Grown(d1, d2, code2, x)
    ensures Grown(d, d2, code1 + code2, x)
  {
    hide Linked;
    forall i: nat | i < |code1 + code2|
      ensures if Linked(d2, d.here + i) then (code1 + code2)[i] == Target(x)
              else View(d2.memory[d.here + i]) == (code1 + code2)[i]
    {
      if i >= |code1| {
        assert d.here + i == d1.here + (i - |code1|);
      }
    }
  }

  /** A cell that is not a leave. */
  lemma {:induction false} EmitGrows(d: Def, c: MemCell, x: nat)
    requires Ready(d) && d.here < |d.memory|
    ensures Emit(d, c).Some? && Grown(d, Emit(d, c).value, [View(c)], x) && !Linked(Emit(d, c).value, d.here)
  {
    var d1 := Emit(d, c).value;
    LinksBelow(d.memory, d.clue);
    LinksKept(d.memory, d1.memory, d.clue);
  }

  lemma {:induction false} LeaveGrows(d: Def, x: nat)
    requires Ready(d) && 0 < d.here < |d.memory|
    ensures var c := Stale(d).(memtype := BranchCell, branchindex := d.clue);
            Emit(d, c).Some? && Grown(d, Emit(d, c).value.(clue := d.here), [Target(x)], x)
  {
    var c := Stale(d).(memtype := BranchCell, branchindex := d.clue);
    var d1 := Emit(d, c).value.(clue := d.here);
    LinksBelow(d.memory, d.clue);
    LinksKept(d.memory, d1.memory, d.clue);
  }

  /** A forward branch that has been waiting for its target. */
  lemma {:induction false} RedirectGrows(d: Def, d1: Def, code: seq<Cell>, i: nat, to: nat, x: nat)
    requires Grown(d, d1, code, x) && i < |code| && code[i].Target? && !Linked(d1, d.here + i)
    ensures Grown(d, Redirect(d1, d.here + i, to), code[i := Target(to)], x)
    ensures Links(Redirect(d1, d.here + i, to).memory, d1.clue) == Links(d1.memory, d1.clue)
  {
    var d2 := Redirect(d1, d.here + i, to);
    LinksKept(d1.memory, d2.memory, d1.clue);
    assert forall k: nat :: Linked(d2, k) <==> Linked(d1, k);
  }

  lemma {:induction false} ReferGrows(cs: CS, op: Op, x: nat)
    requires Ready(cs.d) && cs.d.here < |cs.d.memory|
    ensures var r := ReferTo(cs, op);
            r.Some? && Grown(cs.d, r.value.d, [Refer(op)], x) && r.value.stack == cs.stack
            && r.value.d.clue == cs.d.clue
  {
    EmitGrows(cs.d, Stale(cs.d).(memtype := ReferCell, reference := op), x);
  }

  /** The stale index of the cell after the next. */
  function Hole(d: Def): nat {
    if d.here + 1 < |d.memory| then d.memory[d.here + 1].branchindex else 0
  }

  /** A branch word and a forward mark; only the target is missing. */
  function MarkAfter(cs: CS, op: Op): Option<CS> {
    var cs1 :- ReferTo(cs, op);
    Forwardmark(cs1)
  }

  lemma {:induction false} MarkGrows(cs: CS, op: Op, x: nat)
    requires Ready(cs.d) && cs.d.here + 2 <= |cs.d.memory|
    ensures var r := MarkAfter(cs, op);
            && r.Some? && r.value.stack == cs.stack + [cs.d.here + 1] && r.value.d.clue == cs.d.clue
            && Grown(cs.d, r.value.d, [Refer(op), Target(Hole(cs.d))], x) && !Linked(r.value.d, cs.d.here + 1)
  {
    ReferGrows(cs, op, x);
    var cs1 := ReferTo(cs, op).value;
    var c := Stale(cs1.d).(memtype := BranchCell);
    EmitGrows(cs1.d, c, x);
    GrownTwice(cs.d, cs1.d, Emit(cs1.d, c).value, [Refer(op)], [View(c)], x);
    assert [Refer(op)] + [View(c)] == [Refer(op), Target(Hole(cs.d))];
  }

  lemma {:induction false} BranchBackGrows(cs: CS, op: Op, x: nat)
    requires Ready(cs.d) && cs.d.here + 2 <= |cs.d.memory| && cs.stack != []
    ensures var r := BranchBack(cs, op); var n := cs.stack[|cs.stack| - 1];
            && r.Some? && r.value.stack == cs.stack[..|cs.stack| - 1] && r.value.d.clue == cs.d.clue
            && Grown(cs.d, r.value.d, [Refer(op), Target(n)], x)
  {
    ReferGrows(cs, op, x);
    var cs1 := ReferTo(cs, op).value;
    var c := Stale(cs1.d).(memtype := BranchCell, branchindex := cs.stack[|cs.stack| - 1]);
    EmitGrows(cs1.d, c, x);
    GrownTwice(cs.d, cs1.d, Emit(cs1.d, c).value, [Refer(op)], [View(c)], x);
    assert [Refer(op)] + [View(c)] == [Refer(op), Target(c.branchindex)];
  }

  lemma {:induction false} LiteralGrows(cs: CS, v: Word, x: nat)
    requires Ready(cs.d) && cs.d.here + 2 <= |cs.d.memory|
    ensures var r := CLiteral(cs, v);
            && r.Some? && r.value.stack == cs.stack && r.value.d.clue == cs.d.clue
            && Grown(cs.d, r.value.d, [Refer(LITERAL), Value(v)], x)
  {
    ReferGrows(cs, LITERAL, x);
    var cs1 := ReferTo(cs, LITERAL).value;
    var c := Stale(cs1.d).(memtype := LiteralCell, value := v);
    EmitGrows(cs1.d, c, x);
    GrownTwice(cs.d, cs1.d, Emit(cs1.d, c).value, [Refer(LITERAL)], [View(c)], x);
    assert [Refer(LITERAL)] + [View(c)] == [Refer(LITERAL), Value(v)];
  }

  // Source text

  lemma {:induction false} ActsJoin(t1: seq<Token>, t2: seq<Token>, cs: CS)
    ensures Acts(t1 + t2, cs) == var r := Acts(t1, cs); if r.None? then None else Acts(t2, r.value)
    decreases |t1|
  {
    if t1 == [] {
      assert t1 + t2 == t2;
    } else {
      assert (t1 + t2)[0] == t1[0] && (t1 + t2)[1..] == t1[1..] + t2;
      match Act(t1[0], cs) {
        case Some(cs1) => ActsJoin(t1[1..], t2, cs1);
        case None =>
      }
    }
  }

  lemma {:induction false} ActsOne(t: Token, cs: CS)
    ensures Acts([t], cs) == Act(t, cs)
  {
    match Act(t, cs) {
      case Some(cs1) => assert Acts([], cs1) == Some(cs1);
      case None =>
    }
  }

  /** What compiling `code` does to the compiler: the definition grows by it, the stack comes back,
      and so does the chain if there is no leave for an outer loop. */
  predicate Compiled(cs: CS, r: Option<CS>, code: seq<Cell>, x: nat, free: bool) {
    && r.Some? && Grown(cs.d, r.value.d, code, x) && r.value.stack == cs.stack
    && (!free ==> r.value.d.clue == cs.d.clue)
  }

  predicate Fits(cs: CS, n: nat, free: bool) {
    Ready(cs.d) && cs.d.here + n <= |cs.d.memory| && (free ==> cs.d.here > 0)
  }

  lemma {:induction false} Compiles(p: Prog, cs: CS, x: nat)
    requires Fits(cs, Len(p), FreeLeave(p))
    ensures Compiled(cs, Acts(Text(p), cs), Code(p, cs.d.here, x), x, FreeLeave(p))
    decreases p, 1
  {
    match p {
      case Skip => GrownNone(cs.d, x);
      case Call(w) =>
        ActsOne(WordToken(w), cs);
        ReferGrows(cs, WORD(w), x);
      case Literal(v) =>
        ActsOne(NumberToken(v), cs);
        LiteralGrows(cs, v, x);
      case LeaveLoop =>
        ActsOne(LEAVE, cs);
        LeaveGrows(cs.d, x);
      case Seq(p1, p2) => CompilesSeq(p1, p2, cs, x);
      case If(yes) => CompilesIf(yes, cs, x);
      case IfElse(yes, no) => CompilesIfElse(yes, no, cs, x);
      case BeginAgain(body) => CompilesBegin(body, false, cs, x);
      case BeginUntil(body) => CompilesBegin(body, true, cs, x);
      case BeginWhile(cond, body) => CompilesWhile(cond, body, cs, x);
      case DoLoop(body) => CompilesDo(body, false, cs, x);
      case DoPlusLoop(body) => CompilesDo(body, true, cs, x);
      case Sel(arms) => CompilesSel(arms, cs, x);
    }
  }

  lemma {:induction false} CompilesSeq(p1: Prog, p2: Prog, cs: CS, x: nat)
    requires Fits(cs, Len(Seq(p1, p2)), FreeLeave(Seq(p1, p2)))
    ensures Compiled(cs, Acts(Text(Seq(p1, p2)), cs), Code(Seq(p1, p2), cs.d.here, x), x, FreeLeave(Seq(p1, p2)))
    decreases Seq(p1, p2), 0
  {
    ActsJoin(Text(p1), Text(p2), cs);
    hide Linked, Chained, Acts;
    Compiles(p1, cs, x);
    var cs1 := Acts(Text(p1), cs).value;
    Compiles(p2, cs1, x);
    GrownTwice(cs.d, cs1.d, Acts(Text(p2), cs1).value.d, Code(p1, cs.d.here, x), Code(p2, cs1.d.here, x), x);
  }

  function Next(o: Option<CS>, t: Token): Option<CS> {
    var cs :- o;
    Act(t, cs)
  }

  function Nexts(o: Option<CS>, ts: seq<Token>): Option<CS> {
    var cs :- o;
    Acts(ts, cs)
  }

  /** A text between two control words. */
  lemma {:induction false} ActsBetween(t1: Token, ts: seq<Token>, t2: Token, cs: CS)
    ensures Acts([t1] + ts + [t2], cs) == Next(Nexts(Act(t1, cs), ts), t2)
  {
    ActsJoin([t1] + ts, [t2], cs);
    ActsJoin([t1], ts, cs);
    ActsOne(t1, cs);
    match Nexts(Act(t1, cs), ts) {
      case Some(cs2) => ActsOne(t2, cs2);
      case None =>
    }
  }

  /** A forward mark on top of the stack is resolved. */
  lemma {:induction false} ResolveGrows(d: Def, cs: CS, rest: seq<nat>, code: seq<Cell>, i: nat, x: nat)
    requires Grown(d, cs.d, code, x) && i < |code| && code[i].Target? && !Linked(cs.d, d.here + i)
    requires cs.stack == rest + [d.here + i]
    ensures var r := Forwardresolve(cs);
            && r.Some? && r.value.stack == rest && r.value.d.clue == cs.d.clue && r.value.d.here == cs.d.here
            && Grown(d, r.value.d, code[i := Target(cs.d.here)], x)
            && Links(r.value.d.memory, r.value.d.clue) == Links(cs.d.memory, cs.d.clue)
  {
    hide Linked, Links, Chained;
    RedirectGrows(d, cs.d, code, i, cs.d.here, x);
  }

  lemma {:induction false} GrownHere(d: Def, d1: Def, code: seq<Cell>, x: nat)
    requires Grown(d, d1, code, x)
    ensures d1.here == d.here + |code| && |d1.memory| == |d.memory| && Ready(d) && Ready(d1)
  {
  }

  lemma {:induction false} StillUnlinked(d: Def, d1: Def, code: seq<Cell>, x: nat, k: nat)
    requires Grown(d, d1, code, x) && k < d.here && !Linked(d, k)
    ensures !Linked(d1, k)
  {
  }

  /** A branch word and its mark leave room for what follows. */
  lemma {:induction false} MarkFits(cs: CS, op: Op, n: nat, free: bool, x: nat)
    requires Fits(cs, n + 2, free)
    ensures var r := MarkAfter(cs, op);
            && r.Some? && r.value.stack == cs.stack + [cs.d.here + 1] && r.value.d.clue == cs.d.clue
            && r.value.d.here == cs.d.here + 2 && Fits(r.value, n, free)
            && Grown(cs.d, r.value.d, [Refer(op), Target(Hole(cs.d))], x) && !Linked(r.value.d, cs.d.here + 1)
  {
    MarkGrows(cs, op, x);
    hide Chained, Links, MarkAfter, Hole;
  }

  lemma {:induction false} IfText(yes: Prog, cs: CS, a: nat, x: nat)
    ensures Acts(Text(If(yes)), cs) == Next(Nexts(MarkAfter(cs, QBRANCH), Text(yes)), THEN)
    ensures Code(If(yes), a, x) == [Refer(QBRANCH), Target(a + 2 + Len(yes))] + Code(yes, a + 2, x)
    ensures FreeLeave(If(yes)) == FreeLeave(yes) && Len(If(yes)) == Len(yes) + 2
  {
    ActsBetween(IF, Text(yes), THEN, cs);
    assert Act(IF, cs) == MarkAfter(cs, QBRANCH);
  }

  /** A part of a program up to the `then` that resolves an earlier mark. */
  lemma {:induction false} CompilesThen(p: Prog, d: Def, cs: CS, rest: seq<nat>, code: seq<Cell>, i: nat, x: nat)
    requires Fits(cs, Len(p), FreeLeave(p))
    requires Grown(d, cs.d, code, x) && i < |code| && code[i].Target? && !Linked(cs.d, d.here + i)
    requires cs.stack == rest + [d.here + i]
    ensures var r := Next(Nexts(Some(cs), Text(p)), THEN);
            && r.Some? && r.value.stack == rest && (!FreeLeave(p) ==> r.value.d.clue == cs.d.clue)
            && Grown(d, r.value.d, (code + Code(p, cs.d.here, x))[i := Target(cs.d.here + Len(p))], x)
    decreases p, 2
  {
    hide Fits, Ready, Grown, Acts, Code, Text, FreeLeave, Len, MarkAfter, Forwardresolve, Linked, Links, Hole;
    Compiles(p, cs, x);
    var cs1 := Acts(Text(p), cs).value;
    var more := Code(p, cs.d.here, x);
    GrownHere(d, cs.d, code, x);
    GrownHere(cs.d, cs1.d, more, x);
    StillUnlinked(cs.d, cs1.d, more, x, d.here + i);
    GrownTwice(d, cs.d, cs1.d, code, more, x);
    ResolveGrows(d, cs1, rest, code + more, i, x);
  }

  lemma {:induction false} CompilesIf(yes: Prog, cs: CS, x: nat)
    requires Fits(cs, Len(If(yes)), FreeLeave(If(yes)))
    ensures Compiled(cs, Acts(Text(If(yes)), cs), Code(If(yes), cs.d.here, x), x, FreeLeave(If(yes)))
    decreases If(yes), 0
  {
    hide Fits, Ready, Grown, Acts, Code, Text, FreeLeave, Len, MarkAfter, Forwardresolve, Linked, Links, Hole;
    IfText(yes, cs, cs.d.here, x);
    MarkFits(cs, QBRANCH, Len(yes), FreeLeave(yes), x);
    var cs1 := MarkAfter(cs, QBRANCH).value;
    var head, code := [Refer(QBRANCH), Target(Hole(cs.d))], Code(yes, cs1.d.here, x);
    CompilesThen(yes, cs.d, cs1, cs.stack, head, 1, x);
    var end := cs1.d.here + Len(yes);
    assert (head + code)[1 := Target(end)] == [Refer(QBRANCH), Target(end)] + code;
  }

  /** `else`: a new mark for the end, and the old mark resolved behind it. */
  lemma {:induction false} ElseGrows(d: Def, cs: CS, rest: seq<nat>, code: seq<Cell>, i: nat, n: nat, free: bool, x: nat)
    requires Grown(d, cs.d, code, x) && i < |code| && code[i].Target? && !Linked(cs.d, d.here + i)
    requires cs.stack == rest + [d.here + i] && Fits(cs, n + 2, free)
    ensures var r := CElse(cs);
            && r.Some? && r.value.stack == rest + [cs.d.here + 1] && r.value.d.clue == cs.d.clue
            && r.value.d.here == cs.d.here + 2 && Fits(r.value, n, free)
            && Grown(d, r.value.d, code[i := Target(cs.d.here + 2)] + [Refer(BRANCH), Target(Hole(cs.d))], x)
            && !Linked(r.value.d, cs.d.here + 1)
  {
    MarkFits(cs, BRANCH, n, free, x);
    var cs1 := MarkAfter(cs, BRANCH).value;
    var mid := [Refer(BRANCH), Target(Hole(cs.d))];
    assert cs1.stack[..|cs1.stack| - 1] == rest + [d.here + i];
    hide Grown, Hole, Links, Chained;
    GrownHere(d, cs.d, code, x);
    StillUnlinked(cs.d, cs1.d, mid, x, d.here + i);
    GrownTwice(d, cs.d, cs1.d, code, mid, x);
    ResolveGrows(d, Popped(cs1), rest, code + mid, i, x);
    var r := Forwardresolve(Popped(cs1)).value;
    GrownHere(d, r.d, (code + mid)[i := Target(cs1.d.here)], x);
    assert (code + mid)[i := Target(cs1.d.here)] == code[i := Target(cs1.d.here)] + mid;
  }

  lemma {:induction false} IfElseText(yes: Prog, no: Prog, cs: CS)
    ensures Acts(Text(IfElse(yes, no)), cs)
            == Next(Nexts(Next(Nexts(MarkAfter(cs, QBRANCH), Text(yes)), ELSE), Text(no)), THEN)
    ensures FreeLeave(IfElse(yes, no)) == (FreeLeave(yes) || FreeLeave(no))
    ensures Len(IfElse(yes, no)) == Len(yes) + Len(no) + 4
  {
    var front := [IF] + Text(yes) + [ELSE];
    assert Text(IfElse(yes, no)) == front + (Text(no) + [THEN]);
    ActsJoin(front, Text(no) + [THEN], cs);
    ActsBetween(IF, Text(yes), ELSE, cs);
    assert Act(IF, cs) == MarkAfter(cs, QBRANCH);
    hide Act, MarkAfter;
    match Acts(front, cs) {
      case None =>
      case Some(cs3) =>
        ActsJoin(Text(no), [THEN], cs3);
        match Acts(Text(no), cs3) {
          case None =>
          case Some(cs4) => ActsOne(THEN, cs4);
        }
    }
  }

  lemma {:induction false} IfElseCode(yes: Prog, no: Prog, a: nat, x: nat)
    ensures var b := a + 4 + Len(yes);
            Code(IfElse(yes, no), a, x)
            == [Refer(QBRANCH), Target(b)] + Code(yes, a + 2, x)
               + ([Refer(BRANCH), Target(b + Len(no))] + Code(no, b, x))
  {
  }

  lemma {:induction false} CompilesIfElse(yes: Prog, no: Prog, cs: CS, x: nat)
    requires Fits(cs, Len(IfElse(yes, no)), FreeLeave(IfElse(yes, no)))
    ensures Compiled(cs, Acts(Text(IfElse(yes, no)), cs), Code(IfElse(yes, no), cs.d.here, x), x, FreeLeave(IfElse(yes, no)))
    decreases IfElse(yes, no), 0
  {
    hide Fits, Ready, Grown, Acts, Code, Text, FreeLeave, Len, MarkAfter, Forwardresolve, Linked, Links, Hole, CElse;
    var free := FreeLeave(yes) || FreeLeave(no);
    IfElseText(yes, no, cs);
    IfElseCode(yes, no, cs.d.here, x);
    MarkFits(cs, QBRANCH, Len(yes) + Len(no) + 2, free, x);
    var cs1 := MarkAfter(cs, QBRANCH).value;
    FitsLess(cs1, Len(yes) + Len(no) + 2, free, Len(yes), FreeLeave(yes));
    Compiles(yes, cs1, x);
    var cs2 := Acts(Text(yes), cs1).value;
    var head, code := [Refer(QBRANCH), Target(Hole(cs.d))], Code(yes, cs1.d.here, x);
    FitsAfter(cs1, cs2, code, Len(yes) + Len(no) + 2, free, x);
    StillUnlinked(cs1.d, cs2.d, code, x, cs.d.here + 1);
    GrownTwice(cs.d, cs1.d, cs2.d, head, code, x);
    ElseGrows(cs.d, cs2, cs.stack, head + code, 1, Len(no), free, x);
    var cs3 := CElse(cs2).value;
    FitsLess(cs3, Len(no), free, Len(no), FreeLeave(no));
    var b, mid := cs3.d.here, [Refer(BRANCH), Target(Hole(cs2.d))];
    var code3 := (head + code)[1 := Target(b)] + mid;
    CompilesThen(no, cs.d, cs3, cs.stack, code3, |code| + 3, x);
    assert (code3 + Code(no, b, x))[|code| + 3 := Target(b + Len(no))]
        == [Refer(QBRANCH), Target(b)] + code + ([Refer(BRANCH), Target(b + Len(no))] + Code(no, b, x));
  }

  lemma {:induction false} FitsLess(cs: CS, n: nat, free: bool, n1: nat, free1: bool)
    requires Fits(cs, n, free) && n1 <= n && (free1 ==> free)
    ensures Fits(cs, n1, free1)
  {
  }

  lemma {:induction false} FitsAfter(cs: CS, cs1: CS, code: seq<Cell>, n: nat, free: bool, x: nat)
    requires Fits(cs, n, free) && Grown(cs.d, cs1.d, code, x) && |code| <= n
    ensures Fits(cs1, n - |code|, free) && cs1.d.here == cs.d.here + |code|
  {
  }

  lemma {:induction false} BeginText(body: Prog, until: bool, cs: CS, a: nat, x: nat)
    ensures var p := if until then BeginUntil(body) else BeginAgain(body);
            var op := if until then QBRANCH else BRANCH;
            && Acts(Text(p), cs) == Next(Acts(Text(body), Backmark(cs)), if until then UNTIL else AGAIN)
            && Code(p, a, x) == Code(body, a, x) + [Refer(op), Target(a)]
            && FreeLeave(p) == FreeLeave(body) && Len(p) == Len(body) + 2
  {
    ActsBetween(BEGIN, Text(body), if until then UNTIL else AGAIN, cs);
  }

  lemma {:induction false} BackmarkFits(cs: CS, n: nat, free: bool)
    requires Fits(cs, n, free)
    ensures Fits(Backmark(cs), n, free) && Backmark(cs) == CS(cs.d, cs.stack + [cs.d.here])
  {
  }

  lemma {:induction false} CompilesBegin(body: Prog, until: bool, cs: CS, x: nat)
    requires var p := if until then BeginUntil(body) else BeginAgain(body); Fits(cs, Len(p), FreeLeave(p))
    ensures var p := if until then BeginUntil(body) else BeginAgain(body);
            Compiled(cs, Acts(Text(p), cs), Code(p, cs.d.here, x), x, FreeLeave(p))
    decreases if until then BeginUntil(body) else BeginAgain(body), 0
  {
    hide Fits, Ready, Grown, Acts, Code, Text, FreeLeave, Len, Linked, Links, Hole, BranchBack, Backmark;
    var free := FreeLeave(body);
    BeginText(body, until, cs, cs.d.here, x);
    BackmarkFits(cs, Len(body) + 2, free);
    var cs1 := Backmark(cs);
    FitsLess(cs1, Len(body) + 2, free, Len(body), free);
    Compiles(body, cs1, x);
    var cs2 := Acts(Text(body), cs1).value;
    FitsAfter(cs1, cs2, Code(body, cs.d.here, x), Len(body) + 2, free, x);
    BackGrows(cs1.d, cs2, cs.stack, Code(body, cs.d.here, x), if until then QBRANCH else BRANCH, 0, free, x);
  }

  /** A branch back to the mark on top of the stack, after `code`. */
  lemma {:induction false} BackGrows(d: Def, cs: CS, rest: seq<nat>, code: seq<Cell>, op: Op, n: nat, free: bool, x: nat)
    requires Grown(d, cs.d, code, x) && Fits(cs, n + 2, free) && cs.stack != [] && cs.stack[..|cs.stack| - 1] == rest
    ensures var r := BranchBack(cs, op);
            && r.Some? && r.value.stack == rest && r.value.d.clue == cs.d.clue && Fits(r.value, n, free)
            && Grown(d, r.value.d, code + [Refer(op), Target(cs.stack[|rest|])], x)
  {
    BranchBackGrows(cs, op, x);
    hide Grown, BranchBack;
    var r, tail := BranchBack(cs, op).value, [Refer(op), Target(cs.stack[|rest|])];
    FitsAfter(cs, r, tail, n + 2, free, x);
    GrownTwice(d, cs.d, r.d, code, tail, x);
  }

  lemma {:induction false} WhileText(cond: Prog, body: Prog, cs: CS)
    ensures Acts(Text(BeginWhile(cond, body)), cs)
            == Next(Nexts(Next(Acts(Text(cond), Backmark(cs)), WHILE), Text(body)), REPEAT)
    ensures FreeLeave(BeginWhile(cond, body)) == (FreeLeave(cond) || FreeLeave(body))
    ensures Len(BeginWhile(cond, body)) == Len(cond) + Len(body) + 4
  {
    var front := [BEGIN] + Text(cond) + [WHILE];
    assert Text(BeginWhile(cond, body)) == front + (Text(body) + [REPEAT]);
    ActsJoin(front, Text(body) + [REPEAT], cs);
    ActsBetween(BEGIN, Text(cond), WHILE, cs);
    assert Act(BEGIN, cs) == Some(Backmark(cs));
    hide Act, Backmark;
    match Acts(front, cs) {
      case None =>
      case Some(cs3) =>
        ActsJoin(Text(body), [REPEAT], cs3);
        match Acts(Text(body), cs3) {
          case None =>
          case Some(cs4) => ActsOne(REPEAT, cs4);
        }
    }
  }

  lemma {:induction false} WhileCode(cond: Prog, body: Prog, a: nat, x: nat)
    ensures var c := a + Len(cond) + 2;
            Code(BeginWhile(cond, body), a, x)
            == Code(cond, a, x) + [Refer(QBRANCH), Target(c + Len(body) + 2)]
               + (Code(body, c, x) + [Refer(BRANCH), Target(a)])
  {
  }

  /** `while`: a forward mark, slipped under the mark of `begin`. */
  lemma {:induction false} WhileGrows(d: Def, cs: CS, rest: seq<nat>, code: seq<Cell>, n: nat, free: bool, x: nat)
    requires Grown(d, cs.d, code, x) && Fits(cs, n + 2, free) && cs.stack == rest + [d.here]
    ensures var r := CWhile(cs);
            && r.Some? && r.value.stack == rest + [cs.d.here + 1, d.here] && r.value.d.clue == cs.d.clue
            && Fits(r.value, n, free) && r.value.d.here == cs.d.here + 2
            && Grown(d, r.value.d, code + [Refer(QBRANCH), Target(Hole(cs.d))], x)
            && !Linked(r.value.d, cs.d.here + 1)
  {
    var cs1 := Popped(cs);
    assert Fits(cs1, n + 2, free) && cs1.stack == rest;
    MarkFits(cs1, QBRANCH, n, free, x);
    var cs2 := MarkAfter(cs1, QBRANCH).value;
    assert CIf(cs1) == Some(cs2);
    GrownTwice(d, cs1.d, cs2.d, code, [Refer(QBRANCH), Target(Hole(cs.d))], x);
    assert Fits(PushTo(cs2, d.here), n, free);
    hide Fits, Grown, Linked, MarkAfter, CIf;
  }

  /** `repeat`: back to the mark of `begin`, and the mark of `while` resolved. */
  lemma {:induction false} RepeatGrows(d: Def, cs: CS, rest: seq<nat>, code: seq<Cell>, i: nat, n: nat, x: nat)
    requires Grown(d, cs.d, code, x) && i < |code| && code[i].Target? && !Linked(cs.d, d.here + i)
    requires cs.stack == rest + [d.here + i, n] && Fits(cs, 2, false)
    ensures var r := CRepeat(cs);
            && r.Some? && r.value.stack == rest && r.value.d.clue == cs.d.clue
            && Grown(d, r.value.d, (code + [Refer(BRANCH), Target(n)])[i := Target(cs.d.here + 2)], x)
  {
    var mid := [Refer(BRANCH), Target(n)];
    assert cs.stack[..|cs.stack| - 1] == rest + [d.here + i];
    BranchBackGrows(cs, BRANCH, x);
    var cs2 := BranchBack(cs, BRANCH).value;
    assert CRepeat(cs) == Forwardresolve(cs2);
    hide BranchBack, CRepeat, Linked, Grown;
    GrownHere(d, cs.d, code, x);
    GrownHere(cs.d, cs2.d, mid, x);
    StillUnlinked(cs.d, cs2.d, mid, x, d.here + i);
    GrownTwice(d, cs.d, cs2.d, code, mid, x);
    ResolveGrows(d, cs2, rest, code + mid, i, x);
  }

  lemma {:induction false} CompilesWhile(cond: Prog, body: Prog, cs: CS, x: nat)
    requires Fits(cs, Len(BeginWhile(cond, body)), FreeLeave(BeginWhile(cond, body)))
    ensures Compiled(cs, Acts(Text(BeginWhile(cond, body)), cs), Code(BeginWhile(cond, body), cs.d.here, x), x,
                     FreeLeave(BeginWhile(cond, body)))
    decreases BeginWhile(cond, body), 0
  {
    hide Fits, Ready, Grown, Acts, Code, Text, FreeLeave, Len, Linked, Links, Hole, CWhile, CRepeat, Backmark;
    var free, n := FreeLeave(cond) || FreeLeave(body), Len(cond) + Len(body) + 4;
    var a, cs1 := cs.d.here, Backmark(cs);
    WhileText(cond, body, cs);
    WhileCode(cond, body, a, x);
    BackmarkFits(cs, n, free);
    FitsLess(cs1, n, free, Len(cond), FreeLeave(cond));
    Compiles(cond, cs1, x);
    var cs2, code := Acts(Text(cond), cs1).value, Code(cond, a, x);
    FitsAfter(cs1, cs2, code, n, free, x);
    WhileGrows(cs.d, cs2, cs.stack, code, Len(body) + 2, free, x);
    var cs3, tail := CWhile(cs2).value, [Refer(QBRANCH), Target(Hole(cs2.d))];
    CompilesRepeat(body, cs.d, cs3, cs.stack, code + tail, Len(cond) + 1, a, free, x);
    var c, more := cs3.d.here, Code(body, cs3.d.here, x);
    var end := c + Len(body) + 2;
    assert (code + tail + more + [Refer(BRANCH), Target(a)])[Len(cond) + 1 := Target(end)]
        == code + [Refer(QBRANCH), Target(end)] + (more + [Refer(BRANCH), Target(a)]);
  }

  /** The body of a loop up to `repeat`. */
  lemma {:induction false} CompilesRepeat(body: Prog, d: Def, cs: CS, rest: seq<nat>, code: seq<Cell>, i: nat, n: nat,
                                          free: bool, x: nat)
    requires Fits(cs, Len(body) + 2, free) && (FreeLeave(body) ==> free)
    requires Grown(d, cs.d, code, x) && i < |code| && code[i].Target? && !Linked(cs.d, d.here + i)
    requires cs.stack == rest + [d.here + i, n]
    ensures var r := Next(Nexts(Some(cs), Text(body)), REPEAT);
            && r.Some? && r.value.stack == rest && (!FreeLeave(body) ==> r.value.d.clue == cs.d.clue)
            && Grown(d, r.value.d,
                     (code + Code(body, cs.d.here, x) + [Refer(BRANCH), Target(n)])[i := Target(cs.d.here + Len(body) + 2)], x)
    decreases body, 2
  {
    hide Fits, Ready, Grown, Acts, Code, Text, FreeLeave, Len, Linked, Links, CRepeat;
    FitsLess(cs, Len(body) + 2, free, Len(body), FreeLeave(body));
    Compiles(body, cs, x);
    var cs1, more := Acts(Text(body), cs).value, Code(body, cs.d.here, x);
    GrownHere(d, cs.d, code, x);
    FitsAfter(cs, cs1, more, Len(body) + 2, free, x);
    FitsLess(cs1, 2, free, 2, false);
    StillUnlinked(cs.d, cs1.d, more, x, d.here + i);
    GrownTwice(d, cs.d, cs1.d, code, more, x);
    RepeatGrows(d, cs1, rest, code + more, i, n, x);
  }

  lemma {:induction false} LinksAreBranches(memory: seq<MemCell>, c: nat)
    requires Chained(memory, c)
    ensures forall k: nat | k in Links(memory, c) && k < |memory| :: memory[k].memtype.BranchCell?
  {
    if c != 0 {
      LinksAreBranches(memory, memory[c].branchindex);
    }
  }

  /** The end of a counted loop sends its leaves behind it and takes up the outer chain again. */
  lemma {:induction false} LoopCloses(d: Def, d1: Def, d3: Def, cell: Cell, code: seq<Cell>, x: nat)
    requires Grown(d, d1, [cell], x) && !Linked(d1, d.here) && d1.clue == d.clue
    requires Grown(d1.(clue := 0), d3, code, d3.here)
    ensures var m := Patch(d3.memory, d3.clue, d3.here);
            m.Some? && Grown(d, Def(m.value, d3.here, d.clue), [cell] + code, x)
  {
    PatchesChain(d3.memory, d3.clue, d3.here);
    LinksAreBranches(d3.memory, d3.clue);
    var d5 := Def(Patch(d3.memory, d3.clue, d3.here).value, d3.here, d.clue);
    LinksBelow(d.memory, d.clue);
    assert forall k: nat | k < d1.here :: !Linked(d3, k) && d5.memory[k] == d1.memory[k];
    LinksKept(d.memory, d5.memory, d.clue);
    forall i: nat | i < |[cell] + code|
      ensures !Linked(d5, d.here + i) && View(d5.memory[d.here + i]) == ([cell] + code)[i]
    {
      if i > 0 {
        assert d.here + i == d1.here + (i - 1);
      }
    }
  }

  lemma {:induction false} DoGrows(cs: CS, n: nat, x: nat)
    requires Fits(cs, n + 1, false)
    ensures var r, r1 := CDo(cs), ReferTo(cs, DO);
            && r.Some? && r1.Some? && r.value == CS(r1.value.d.(clue := 0), cs.stack + [cs.d.clue] + [cs.d.here + 1])
            && r1.value.d.clue == cs.d.clue && !Linked(r1.value.d, cs.d.here) && r1.value.d.here == cs.d.here + 1
            && Grown(cs.d, r1.value.d, [Refer(DO)], x) && Fits(r.value, n, true)
  {
    ReferGrows(cs, DO, x);
    LinksBelow(cs.d.memory, cs.d.clue);
    EmitGrows(cs.d, Stale(cs.d).(memtype := ReferCell, reference := DO), x);
  }

  lemma {:induction false} DoForm(body: Prog, plus: bool)
    ensures var p := if plus then DoPlusLoop(body) else DoLoop(body);
            Len(p) == Len(body) + 3 && !FreeLeave(p)
  {
  }

  lemma {:induction false} LoopText(body: Prog, plus: bool, cs: CS)
    ensures var p := if plus then DoPlusLoop(body) else DoLoop(body);
            var op := if plus then PLUSLOOP else LOOP;
            && Acts(Text(p), cs) == (var cs2 :- Nexts(CDo(cs), Text(body)); CLoop(cs2, op))
            && !FreeLeave(p) && Len(p) == Len(body) + 3
  {
    hide Text, Acts, Act, CDo, CLoop, FreeLeave, Len, Next;
    var t2 := if plus then PLUSLOOP_ else LOOP_;
    LoopTokens(body, plus);
    DoForm(body, plus);
    ActsBetween(DO_, Text(body), t2, cs);
    LoopActs(cs, Nexts(CDo(cs), Text(body)), plus);
  }

  lemma {:induction false} LoopTokens(body: Prog, plus: bool)
    ensures Text(if plus then DoPlusLoop(body) else DoLoop(body)) == [DO_] + Text(body) + [if plus then PLUSLOOP_ else LOOP_]
  {
  }

  lemma {:induction false} LoopActs(cs: CS, o: Option<CS>, plus: bool)
    ensures Act(DO_, cs) == CDo(cs)
    ensures Next(o, if plus then PLUSLOOP_ else LOOP_)
            == if o.Some? then CLoop(o.value, if plus then PLUSLOOP else LOOP) else None
  {
    hide CDo, CLoop;
  }

  lemma {:induction false} LoopCode(body: Prog, plus: bool, a: nat, x: nat)
    ensures var p := if plus then DoPlusLoop(body) else DoLoop(body);
            var op := if plus then PLUSLOOP else LOOP;
            Code(p, a, x) == [Refer(DO)] + (Code(body, a + 1, a + Len(body) + 3) + [Refer(op), Target(a + 1)])
  {
  }

  lemma {:induction false} CompilesDo(body: Prog, plus: bool, cs: CS, x: nat)
    requires var p := if plus then DoPlusLoop(body) else DoLoop(body); Fits(cs, Len(p), FreeLeave(p))
    ensures var p := if plus then DoPlusLoop(body) else DoLoop(body);
            Compiled(cs, Acts(Text(p), cs), Code(p, cs.d.here, x), x, FreeLeave(p))
    decreases if plus then DoPlusLoop(body) else DoLoop(body), 0
  {
    hide Fits, Ready, Grown, Acts, Code, Text, FreeLeave, Len, Linked, Links, CDo, CLoop, ReferTo, Patch;
    var op := if plus then PLUSLOOP else LOOP;
    var a := cs.d.here;
    LoopText(body, plus, cs);
    LoopCode(body, plus, a, x);
    DoGrows(cs, Len(body) + 2, x);
    var d1, cs1 := ReferTo(cs, DO).value.d, CDo(cs).value;
    FitsLess(cs1, Len(body) + 2, true, Len(body), FreeLeave(body));
    var y, code := a + Len(body) + 3, Code(body, a + 1, a + Len(body) + 3);
    Compiles(body, cs1, y);
    var cs2 := Acts(Text(body), cs1).value;
    FitsAfter(cs1, cs2, code, Len(body) + 2, true, y);
    LoopGrows(cs.d, d1, cs2, cs.stack, code, op, x);
  }

  lemma {:induction false} LoopGrows(d: Def, d1: Def, cs: CS, rest: seq<nat>, code: seq<Cell>, op: Op, x: nat)
    requires Grown(d, d1, [Refer(DO)], x) && !Linked(d1, d.here) && d1.clue == d.clue
    requires Grown(d1.(clue := 0), cs.d, code, cs.d.here + 2) && Fits(cs, 2, true)
    requires cs.stack == rest + [d.clue] + [d.here + 1]
    ensures var r := CLoop(cs, op);
            && r.Some? && r.value.stack == rest && r.value.d.clue == d.clue
            && Grown(d, r.value.d, [Refer(DO)] + (code + [Refer(op), Target(d.here + 1)]), x)
  {
    var y := cs.d.here + 2;
    assert cs.stack[..|cs.stack| - 1] == rest + [d.clue];
    BackGrows(d1.(clue := 0), cs, rest + [d.clue], code, op, 0, true, y);
    var cs1, tail := BranchBack(cs, op).value, [Refer(op), Target(d.here + 1)];
    hide Linked, Links, Chained, BranchBack, Patch, Code, Act, Acts, Fits;
    GrownHere(d1.(clue := 0), cs.d, code, y);
    GrownHere(d1.(clue := 0), cs1.d, code + tail, y);
    LoopCloses(d, d1, cs1.d, Refer(DO), code + tail, x);
    assert (rest + [d.clue])[..|rest|] == rest;
  }

  // Selections

  /** The marks of the cases so far, all sent to `x`. */
  function MarksTo(d: Def, ms: seq<nat>, x: nat): Def {
    d.(memory := seq(|d.memory|, k requires 0 <= k < |d.memory| =>
         if k in ms then d.memory[k].(branchindex := x) else d.memory[k]))
  }

  /** The marks are branch cells of the definition and not leaves. */
  predicate Marked(d: Def, ms: seq<nat>) {
    forall m | m in ms :: m < d.here && m < |d.memory| && !Linked(d, m)
  }

  lemma {:induction false} MarksToNone(d: Def, x: nat)
    ensures MarksTo(d, [], x) == d
  {
    assert MarksTo(d, [], x).memory == d.memory;
  }

  /** Sending earlier marks elsewhere does not matter to what has grown since. */
  lemma {:induction false} MarksToGrown(d: Def, d1: Def, ms: seq<nat>, code: seq<Cell>, to: nat, x: nat)
    requires Grown(d, d1, code, x) && Marked(d, ms)
    ensures Grown(MarksTo(d, ms, to), MarksTo(d1, ms, to), code, x) && Marked(d1, ms)
  {
    hide Linked, Links, Chained;
    MarksStayApart(d, d1, ms, code, x);
    MarksKeepLinks(d, ms, to);
    MarksKeepLinks(d1, ms, to);
  }

  lemma {:induction false} MarksStayApart(d: Def, d1: Def, ms: seq<nat>, code: seq<Cell>, x: nat)
    requires Grown(d, d1, code, x) && Marked(d, ms)
    ensures Marked(d1, ms)
  {
    hide Linked, Ready;
  }

  lemma {:induction false} MarksKeepLinks(d: Def, ms: seq<nat>, to: nat)
    requires Marked(d, ms)
    ensures var e := MarksTo(d, ms, to);
            (Ready(d) ==> Ready(e)) && forall k: nat :: Linked(e, k) <==> Linked(d, k)
  {
    LinksKept(d.memory, MarksTo(d, ms, to).memory, d.clue);
    hide Links, Chained;
  }

  /** `then` for every mark. */
  lemma {:induction false} ThensResolve(cs: CS, rest: seq<nat>, ms: seq<nat>)
    requires cs.stack == rest + ms && forall m | m in ms :: m < |cs.d.memory|
    ensures Thens(cs, |ms|) == Some(CS(MarksTo(cs.d, ms, cs.d.here), rest))
    decreases |ms|
  {
    if ms == [] {
      MarksToNone(cs.d, cs.d.here);
      assert rest + ms == rest;
    } else {
      var n := |ms| - 1;
      var m, ms1 := ms[n], ms[..n];
      assert m in ms && forall k | k in ms1 :: k in ms;
      var d1 := Redirect(cs.d, m, cs.d.here);
      ThenResolves(cs, rest + ms1, m) by {
        assert rest + ms1 + [m] == rest + ms;
      }
      hide Forwardresolve, MarksTo;
      ThensResolve(CS(d1, rest + ms1), rest, ms1);
      MarksToOneMore(cs.d, ms1, m, cs.d.here);
      assert ms1 + [m] == ms;
    }
  }

  lemma {:induction false} ThenResolves(cs: CS, rest: seq<nat>, m: nat)
    requires cs.stack == rest + [m] && m < |cs.d.memory|
    ensures Forwardresolve(cs) == Some(CS(Redirect(cs.d, m, cs.d.here), rest))
  {
    assert cs.stack[..|cs.stack| - 1] == rest;
  }

  lemma {:induction false} MarksToOneMore(d: Def, ms: seq<nat>, m: nat, x: nat)
    requires m < |d.memory|
    ensures MarksTo(d, ms + [m], x) == MarksTo(Redirect(d, m, x), ms, x)
  {
    assert MarksTo(d, ms + [m], x).memory == MarksTo(Redirect(d, m, x), ms, x).memory;
  }

  /** The end of a selection: the selector is dropped and every case's exit resolved. */
  lemma {:induction false} EndSelGrows(cs: CS, rest: seq<nat>, ms: seq<nat>, x: nat)
    requires Fits(cs, 1, false) && Marked(cs.d, ms) && cs.stack == rest + ms + [|ms|]
    ensures var r := CEndSel(cs); var end := cs.d.here + 1;
            && r.Some? && r.value.stack == rest && r.value.d.clue == cs.d.clue
            && Grown(MarksTo(cs.d, ms, end), r.value.d, [Refer(DROP)], x)
  {
    ReferGrows(cs, DROP, x);
    var cs1 := ReferTo(cs, DROP).value;
    MarksToGrown(cs.d, cs1.d, ms, [Refer(DROP)], cs1.d.here, x);
    assert cs1.stack[..|cs1.stack| - 1] == rest + ms;
    hide Linked, Links, Chained, MarksTo;
    ThensResolve(Popped(cs1), rest, ms);
  }

  /** What compiling cases does: earlier marks go to the end, and the cases are added. */
  predicate CompiledArms(cs: CS, r: Option<CS>, rest: seq<nat>, ms: seq<nat>, end: nat, code: seq<Cell>, x: nat, free: bool) {
    && r.Some? && Grown(MarksTo(cs.d, ms, end), r.value.d, code, x) && r.value.stack == rest
    && (!free ==> r.value.d.clue == cs.d.clue)
  }

  lemma {:induction false} CompilesArms(arms: Arms, cs: CS, rest: seq<nat>, ms: seq<nat>, x: nat)
    requires Fits(cs, ArmsLen(arms), ArmsFreeLeave(arms)) && Marked(cs.d, ms) && cs.stack == rest + ms + [|ms|]
    ensures var end := cs.d.here + ArmsLen(arms);
            CompiledArms(cs, Acts(ArmsText(arms), cs), rest, ms, end, ArmsCode(arms, cs.d.here, end, x), x,
                         ArmsFreeLeave(arms))
    decreases arms, 3
  {
    hide CompiledArms, Fits, Grown, Linked, Links, Acts, Code, ArmsCode, Text, ArmsText, Len, ArmsLen;
    match arms {
      case Last(final) => CompilesLast(final, cs, rest, ms, x);
      case Arm(_, _, _, _, _) => CompilesArm(arms, cs, rest, ms, x);
    }
  }

  lemma {:induction false} LastText(final: Prog, cs: CS, a: nat, end: nat, x: nat)
    ensures Acts(ArmsText(Last(final)), cs) == Next(Acts(Text(final), cs), ENDSEL)
    ensures ArmsCode(Last(final), a, end, x) == Code(final, a, x) + [Refer(DROP)]
    ensures ArmsFreeLeave(Last(final)) == FreeLeave(final) && ArmsLen(Last(final)) == Len(final) + 1
  {
    ActsJoin(Text(final), [ENDSEL], cs);
    match Acts(Text(final), cs) {
      case Some(cs1) => ActsOne(ENDSEL, cs1);
      case None =>
    }
  }

  lemma {:induction false} CompilesLast(final: Prog, cs: CS, rest: seq<nat>, ms: seq<nat>, x: nat)
    requires var arms := Last(final); Fits(cs, ArmsLen(arms), ArmsFreeLeave(arms))
    requires Marked(cs.d, ms) && cs.stack == rest + ms + [|ms|]
    ensures var arms := Last(final); var end := cs.d.here + ArmsLen(arms);
            CompiledArms(cs, Acts(ArmsText(arms), cs), rest, ms, end, ArmsCode(arms, cs.d.here, end, x), x, ArmsFreeLeave(arms))
    decreases Last(final), 2
  {
    hide Fits, Ready, Grown, Acts, Code, ArmsCode, Text, ArmsText, FreeLeave, ArmsFreeLeave, Len, ArmsLen, Linked, Links,
         Marked, MarksTo, CEndSel;
    var free, end := FreeLeave(final), cs.d.here + Len(final) + 1;
    LastText(final, cs, cs.d.here, end, x);
    FitsLess(cs, Len(final) + 1, free, Len(final), free);
    Compiles(final, cs, x);
    var cs1, code := Acts(Text(final), cs).value, Code(final, cs.d.here, x);
    FitsAfter(cs, cs1, code, Len(final) + 1, free, x);
    FitsLess(cs1, 1, free, 1, false);
    MarksToGrown(cs.d, cs1.d, ms, code, end, x);
    EndSelGrows(cs1, rest, ms, x);
    GrownTwice(MarksTo(cs.d, ms, end), MarksTo(cs1.d, ms, end), CEndSel(cs1).value.d, code, [Refer(DROP)], x);
  }

  /** The text of a case up to its arrow. */
  function FrontText(arm: Arms): seq<Token>
    requires arm.Arm?
  {
    Text(arm.pre) + [CASE] + Text(arm.test) + [if arm.equal then EQARROW else ARROW]
  }

  /** The cells of a case before it compares or branches. */
  function FrontCode(arm: Arms, a: nat, x: nat): seq<Cell>
    requires arm.Arm?
  {
    Code(arm.pre, a, x) + [Refer(DUP)] + Code(arm.test, a + Len(arm.pre) + 1, x)
  }

  lemma {:induction false} FrontActs(arm: Arms, cs: CS)
    requires arm.Arm?
    ensures Acts(FrontText(arm), cs)
            == Next(Nexts(Next(Acts(Text(arm.pre), cs), CASE), Text(arm.test)), if arm.equal then EQARROW else ARROW)
  {
    var last := if arm.equal then EQARROW else ARROW;
    ActsJoin(Text(arm.pre) + [CASE] + Text(arm.test), [last], cs);
    ActsJoin(Text(arm.pre) + [CASE], Text(arm.test), cs);
    ActsJoin(Text(arm.pre), [CASE], cs);
    hide Act;
    match Acts(Text(arm.pre), cs) {
      case None =>
      case Some(cs1) =>
        ActsOne(CASE, cs1);
        match Nexts(Act(CASE, cs1), Text(arm.test)) {
          case None =>
          case Some(cs2) => ActsOne(last, cs2);
        }
    }
  }

  /** The index that a branch cell holds. */
  function IndexAt(d: Def, k: nat): nat {
    if k < |d.memory| then d.memory[k].branchindex else 0
  }

  lemma {:induction false} IndexAtMark(d: Def, d1: Def, code: seq<Cell>, i: nat, x: nat)
    requires Grown(d, d1, code, x) && i < |code| && code[i].Target? && !Linked(d1, d.here + i)
    ensures code[i] == Target(IndexAt(d1, d.here + i))
  {
    assert View(d1.memory[d.here + i]) == code[i];
  }

  /** What `==>` compiles before its branch. */
  function EqCode(equal: bool): (c: seq<Cell>)
    ensures |c| == if equal then 1 else 0
  {
    if equal then [Refer(EQUALS)] else []
  }

  /** After an arrow: its branch is marked at m, above the count of cases, and stands behind the code. */
  ghost predicate AtArrow(r: Option<CS>, stack: seq<nat>, m: nat, n: nat, free: bool, d: Def, code: seq<Cell>, x: nat) {
    && r.Some? && r.value.stack == stack + [m] && Fits(r.value, n, free)
    && !Linked(r.value.d, m) && r.value.d.here == m + 2
    && Grown(d, r.value.d, code + [Refer(QBRANCH), Target(IndexAt(r.value.d, m)), Refer(DROP)], x)
  }

  /** `=>` and `==>`: one case more, and a mark for the next. */
  lemma {:induction false} ArrowGrows(d: Def, cs: CS, rest: seq<nat>, j: nat, code: seq<Cell>, equal: bool,
                                      n: nat, free: bool, x: nat)
    requires var e := if equal then 1 else 0; Fits(cs, n + e + 3, free)
    requires Grown(d, cs.d, code, x) && cs.stack == rest + [j]
    ensures var r := if equal then CEqArrow(cs) else CArrow(cs);
            AtArrow(r, rest + [j + 1], cs.d.here + |EqCode(equal)| + 1, n, free, d, code + EqCode(equal), x)
            && r.value.d.clue == cs.d.clue
  {
    var eq := EqCode(equal);
    if equal {
      ReferGrows(cs, EQUALS, x);
    } else {
      GrownNone(cs.d, x);
    }
    var cs1 := if equal then ReferTo(cs, EQUALS).value else cs;
    FitsAfter(cs, cs1, eq, n + |eq| + 3, free, x);
    GrownTwice(d, cs.d, cs1.d, code, eq, x);
    hide Grown, Linked, Links, Chained;
    ArrowMarks(cs1, rest, j, n, free, x);
    var r := CArrow(cs1).value;
    var tail := [Refer(QBRANCH), Target(IndexAt(r.d, cs1.d.here + 1)), Refer(DROP)];
    GrownTwice(d, cs1.d, r.d, code + eq, tail, x);
  }

  lemma {:induction false} ArrowMarks(cs: CS, rest: seq<nat>, j: nat, n: nat, free: bool, x: nat)
    requires Fits(cs, n + 3, free) && cs.stack == rest + [j]
    ensures var r := CArrow(cs); var m := cs.d.here + 1;
            && r.Some? && r.value.stack == rest + [j + 1, m] && r.value.d.clue == cs.d.clue && Fits(r.value, n, free)
            && !Linked(r.value.d, m) && r.value.d.here == m + 2
            && Grown(cs.d, r.value.d, [Refer(QBRANCH), Target(IndexAt(r.value.d, m)), Refer(DROP)], x)
  {
    var cs1 := PushTo(Popped(cs), j + 1);
    assert cs1.stack == rest + [j + 1];
    MarkFits(cs1, QBRANCH, n + 1, free, x);
    var cs2 := MarkAfter(cs1, QBRANCH).value;
    assert CIf(cs1) == Some(cs2);
    ReferGrows(cs2, DROP, x);
    var cs3 := ReferTo(cs2, DROP).value;
    var head := [Refer(QBRANCH), Target(Hole(cs.d))];
    assert CArrow(cs) == Some(cs3);
    hide CArrow, MarkAfter, CIf, Linked, Links, Chained, Hole;
    FitsAfter(cs2, cs3, [Refer(DROP)], n + 1, free, x);
    StillUnlinked(cs2.d, cs3.d, [Refer(DROP)], x, cs.d.here + 1);
    GrownTwice(cs1.d, cs2.d, cs3.d, head, [Refer(DROP)], x);
    assert head + [Refer(DROP)] == [Refer(QBRANCH), head[1], Refer(DROP)];
    IndexAtMark(cs1.d, cs3.d, head + [Refer(DROP)], 1, x);
  }

  lemma {:induction false} TestForm(arm: Arms, a: nat, x: nat)
    requires arm.Arm?
    ensures TestLen(arm) == Len(arm.pre) + 1 + Len(arm.test) + |EqCode(arm.equal)|
    ensures TestCode(arm, a, x) == FrontCode(arm, a, x) + EqCode(arm.equal)
  {
    hide Code, Len;
  }

  lemma {:induction false} NextArrow(arm: Arms, cs: CS)
    requires arm.Arm?
    ensures Next(Some(cs), if arm.equal then EQARROW else ARROW) == if arm.equal then CEqArrow(cs) else CArrow(cs)
  {
  }

  /** A case up to its arrow. */
  lemma {:induction false} CompilesFront(arm: Arms, cs: CS, rest: seq<nat>, j: nat, n: nat, free: bool, x: nat)
    requires arm.Arm? && Fits(cs, TestLen(arm) + 3 + n, free) && cs.stack == rest + [j]
    requires FreeLeave(arm.pre) || FreeLeave(arm.test) ==> free
    ensures var r := Acts(FrontText(arm), cs); var m := cs.d.here + TestLen(arm) + 1;
            && AtArrow(r, rest + [j + 1], m, n, free, cs.d, TestCode(arm, cs.d.here, x), x)
            && (!FreeLeave(arm.pre) && !FreeLeave(arm.test) ==> r.value.d.clue == cs.d.clue)
    decreases arm, 1
  {
    hide *;
    var a := cs.d.here;
    TestForm(arm, a, x);
    CompilesTest(arm, cs, n + |EqCode(arm.equal)| + 3, free, x);
    FrontActs(arm, cs);
    var cs3 := Nexts(Next(Acts(Text(arm.pre), cs), CASE), Text(arm.test)).value;
    NextArrow(arm, cs3);
    GrownHere(cs.d, cs3.d, FrontCode(arm, a, x), x);
    FrontLength(arm, a, x);
    ArrowGrows(cs.d, cs3, rest, j, FrontCode(arm, a, x), arm.equal, n, free, x);
  }

  lemma {:induction false} FrontLength(arm: Arms, a: nat, x: nat)
    requires arm.Arm?
    ensures |FrontCode(arm, a, x)| == Len(arm.pre) + 1 + Len(arm.test)
  {
    hide Code;
  }

  lemma {:induction false} CompilesTest(arm: Arms, cs: CS, n: nat, free: bool, x: nat)
    requires arm.Arm? && Fits(cs, Len(arm.pre) + 1 + Len(arm.test) + n, free)
    requires FreeLeave(arm.pre) || FreeLeave(arm.test) ==> free
    ensures var r := Nexts(Next(Acts(Text(arm.pre), cs), CASE), Text(arm.test));
            && r.Some? && r.value.stack == cs.stack && Fits(r.value, n, free)
            && (!FreeLeave(arm.pre) && !FreeLeave(arm.test) ==> r.value.d.clue == cs.d.clue)
            && Grown(cs.d, r.value.d, FrontCode(arm, cs.d.here, x), x)
    decreases arm, 0
  {
    hide *;
    var pre, test, a := arm.pre, arm.test, cs.d.here;
    CompilesPart(pre, cs, 1 + Len(test) + n, free, x);
    var cs1 := Acts(Text(pre), cs).value;
    NextSome(cs1, CASE, Text(test));
    DupGrows(cs.d, cs1, Code(pre, a, x), Len(test) + n, free, x);
    var cs2 := ReferTo(cs1, DUP).value;
    NextSome(cs2, CASE, Text(test));
    CompilesPart(test, cs2, n, free, x);
    FrontIs(arm, a, x);
    GrownTwice(cs.d, cs2.d, Acts(Text(test), cs2).value.d, Code(pre, a, x) + [Refer(DUP)], Code(test, a + Len(pre) + 1, x), x);
  }

  lemma {:induction false} NextSome(cs: CS, t: Token, ts: seq<Token>)
    ensures Next(Some(cs), t) == Act(t, cs) && Nexts(Some(cs), ts) == Acts(ts, cs)
  {
    hide Act, Acts;
  }

  lemma {:induction false} FrontIs(arm: Arms, a: nat, x: nat)
    requires arm.Arm?
    ensures FrontCode(arm, a, x) == (Code(arm.pre, a, x) + [Refer(DUP)]) + Code(arm.test, a + Len(arm.pre) + 1, x)
  {
    hide Code;
  }

  /** A program compiled where there is room for more than itself. */
  lemma {:induction false} CompilesPart(p: Prog, cs: CS, n: nat, free: bool, x: nat)
    requires Fits(cs, Len(p) + n, free) && (FreeLeave(p) ==> free)
    ensures var r := Acts(Text(p), cs);
            && r.Some? && r.value.stack == cs.stack && Fits(r.value, n, free) && r.value.d.here == cs.d.here + Len(p)
            && (!FreeLeave(p) ==> r.value.d.clue == cs.d.clue)
            && Grown(cs.d, r.value.d, Code(p, cs.d.here, x), x)
    decreases p, 2
  {
    hide Fits, Ready, Grown, Acts, Code, Text, FreeLeave, Len;
    FitsLess(cs, Len(p) + n, free, Len(p), FreeLeave(p));
    Compiles(p, cs, x);
    FitsAfter(cs, Acts(Text(p), cs).value, Code(p, cs.d.here, x), Len(p) + n, free, x);
  }

  lemma {:induction false} DupGrows(d: Def, cs: CS, code: seq<Cell>, n: nat, free: bool, x: nat)
    requires Fits(cs, n + 1, free) && Grown(d, cs.d, code, x)
    ensures var r := ReferTo(cs, DUP);
            && Act(CASE, cs) == r && r.Some? && r.value.stack == cs.stack && r.value.d.clue == cs.d.clue
            && Fits(r.value, n, free) && r.value.d.here == cs.d.here + 1
            && Grown(d, r.value.d, code + [Refer(DUP)], x)
  {
    ReferGrows(cs, DUP, x);
    var cs1 := ReferTo(cs, DUP).value;
    FitsAfter(cs, cs1, [Refer(DUP)], n + 1, free, x);
    GrownTwice(d, cs.d, cs1.d, code, [Refer(DUP)], x);
  }

  lemma {:induction false} ArmText(arm: Arms, cs: CS)
    requires arm.Arm?
    ensures Acts(ArmsText(arm), cs)
            == Nexts(Next(Nexts(Acts(FrontText(arm), cs), Text(arm.body)), ENDCASE), ArmsText(arm.rest))
    ensures ArmsFreeLeave(arm)
            == (FreeLeave(arm.pre) || FreeLeave(arm.test) || FreeLeave(arm.body) || ArmsFreeLeave(arm.rest))
    ensures ArmsLen(arm) == TestLen(arm) + 3 + Len(arm.body) + 2 + ArmsLen(arm.rest)
  {
    var front := FrontText(arm);
    assert ArmsText(arm) == front + Text(arm.body) + [ENDCASE] + ArmsText(arm.rest);
    hide Act, Text, FrontText, ArmsText;
    ActsJoin(front + Text(arm.body) + [ENDCASE], ArmsText(arm.rest), cs);
    ActsJoin(front + Text(arm.body), [ENDCASE], cs);
    ActsJoin(front, Text(arm.body), cs);
    match Nexts(Acts(front, cs), Text(arm.body)) {
      case None =>
      case Some(cs1) => ActsOne(ENDCASE, cs1);
    }
  }

  /** `>>`: the exit of the case is marked below the count. */
  lemma {:induction false} EndCaseGrows(d: Def, cs: CS, rest: seq<nat>, j: nat, code: seq<Cell>, i: nat, n: nat, free: bool, x: nat)
    requires Grown(d, cs.d, code, x) && i < |code| && code[i].Target? && !Linked(cs.d, d.here + i)
    requires cs.stack == rest + [j, d.here + i] && Fits(cs, n + 2, free)
    ensures var r := CEndCase(cs); var m := cs.d.here + 1;
            && r.Some? && r.value.stack == rest + [m] + [j] && r.value.d.clue == cs.d.clue
            && r.value.d.here == m + 1 && Fits(r.value, n, free) && !Linked(r.value.d, m)
            && Grown(d, r.value.d, code[i := Target(m + 1)] + [Refer(BRANCH), Target(Hole(cs.d))], x)
  {
    ElseGrows(d, cs, rest + [j], code, i, n, free, x);
    var cs1 := CElse(cs).value;
    assert cs1.stack == rest + [j, cs.d.here + 1];
    assert Swapped(cs1) == Some(CS(cs1.d, rest + [cs.d.here + 1, j]));
    assert rest + [cs.d.here + 1, j] == rest + [cs.d.here + 1] + [j];
    hide Grown, Linked, Links, Chained, CElse, Hole;
  }

  /** A case from its arrow to its end. */
  lemma {:induction false} CompilesCase(body: Prog, d: Def, cs: CS, rest: seq<nat>, j: nat, code: seq<Cell>, i: nat,
                                        n: nat, free: bool, x: nat)
    requires Fits(cs, Len(body) + 2 + n, free) && (FreeLeave(body) ==> free)
    requires Grown(d, cs.d, code, x) && i < |code| && code[i].Target? && !Linked(cs.d, d.here + i)
    requires cs.stack == rest + [j, d.here + i]
    ensures var r := Next(Nexts(Some(cs), Text(body)), ENDCASE); var m := cs.d.here + Len(body) + 1;
            && r.Some? && r.value.stack == rest + [m] + [j] && (!FreeLeave(body) ==> r.value.d.clue == cs.d.clue)
            && r.value.d.here == m + 1 && Fits(r.value, n, free) && !Linked(r.value.d, m)
            && Grown(d, r.value.d,
                     (code + Code(body, cs.d.here, x))[i := Target(m + 1)] + [Refer(BRANCH), Target(IndexAt(r.value.d, m))], x)
    decreases body, 2
  {
    hide Fits, Ready, Grown, Acts, Code, Text, FreeLeave, Len, Linked, Links, CEndCase, Hole, IndexAt;
    FitsLess(cs, Len(body) + 2 + n, free, Len(body), FreeLeave(body));
    Compiles(body, cs, x);
    var cs1, more := Acts(Text(body), cs).value, Code(body, cs.d.here, x);
    GrownHere(d, cs.d, code, x);
    FitsAfter(cs, cs1, more, Len(body) + 2 + n, free, x);
    StillUnlinked(cs.d, cs1.d, more, x, d.here + i);
    GrownTwice(d, cs.d, cs1.d, code, more, x);
    EndCaseGrows(d, cs1, rest, j, code + more, i, n, free, x);
    var m, r := cs1.d.here + 1, CEndCase(cs1).value;
    IndexAtMark(d, r.d, (code + more)[i := Target(m + 1)] + [Refer(BRANCH), Target(Hole(cs1.d))], |code| + Len(body) + 1, x);
  }

  lemma {:induction false} ArmCode(arm: Arms, a: nat, end: nat, x: nat)
    requires arm.Arm?
    ensures var b := a + TestLen(arm); var next := b + 3 + Len(arm.body) + 2;
            ArmsCode(arm, a, end, x)
            == TestCode(arm, a, x) + [Refer(QBRANCH), Target(next), Refer(DROP)]
               + (Code(arm.body, b + 3, x) + [Refer(BRANCH), Target(end)] + ArmsCode(arm.rest, next, end, x))
  {
  }

  lemma {:induction false} CompilesArm(arm: Arms, cs: CS, rest: seq<nat>, ms: seq<nat>, x: nat)
    requires arm.Arm? && Fits(cs, ArmsLen(arm), ArmsFreeLeave(arm))
    requires Marked(cs.d, ms) && cs.stack == rest + ms + [|ms|]
    ensures var end := cs.d.here + ArmsLen(arm);
            CompiledArms(cs, Acts(ArmsText(arm), cs), rest, ms, end, ArmsCode(arm, cs.d.here, end, x), x, ArmsFreeLeave(arm))
    decreases arm, 2
  {
    hide Fits, Ready, Grown, Acts, Code, TestCode, ArmsCode, Text, FrontText, ArmsText, FreeLeave, ArmsFreeLeave,
      Len, TestLen, ArmsLen,
         Linked, Links, Marked, MarksTo, IndexAt, Act, View;
    var a, end, free := cs.d.here, cs.d.here + ArmsLen(arm), ArmsFreeLeave(arm);
    var n := ArmsLen(arm.rest);
    ArmText(arm, cs);
    CompilesFront(arm, cs, rest + ms, |ms|, Len(arm.body) + 2 + n, free, x);
    var cs3, i := Acts(FrontText(arm), cs).value, TestLen(arm) + 1;
    var code := TestCode(arm, a, x) + [Refer(QBRANCH), Target(IndexAt(cs3.d, a + i)), Refer(DROP)];
    CompilesCase(arm.body, cs.d, cs3, rest + ms, |ms| + 1, code, i, n, free, x);
    var cs4, m := Next(Nexts(Some(cs3), Text(arm.body)), ENDCASE).value, cs3.d.here + Len(arm.body) + 1;
    var body := Code(arm.body, cs3.d.here, x);
    var code4 := (code + body)[i := Target(m + 1)] + [Refer(BRANCH), Target(IndexAt(cs4.d, m))];
    CompilesRest(arm.rest, cs.d, cs4, rest, ms, m, code4, end, free, x);
    ArmCode(arm, a, end, x);
    ArmJoined(TestCode(arm, a, x), body, ArmsCode(arm.rest, m + 1, end, x), IndexAt(cs3.d, a + i), IndexAt(cs4.d, m), i, m + 1, end);
  }

  lemma {:induction false} ArmJoined(test: seq<Cell>, body: seq<Cell>, rest: seq<Cell>, h: nat, h1: nat, i: nat, m1: nat, end: nat)
    requires i == |test| + 1
    ensures var code4 := (test + [Refer(QBRANCH), Target(h), Refer(DROP)] + body)[i := Target(m1)] + [Refer(BRANCH), Target(h1)];
            code4[|code4| - 1 := Target(end)] + rest
            == test + [Refer(QBRANCH), Target(m1), Refer(DROP)] + (body + [Refer(BRANCH), Target(end)] + rest)
  {
  }

  /** The cases after one whose exit is marked at `m`. */
  lemma {:induction false} CompilesRest(arms: Arms, d: Def, cs: CS, rest: seq<nat>, ms: seq<nat>, m: nat, code: seq<Cell>,
                                        end: nat, free: bool, x: nat)
    requires Grown(d, cs.d, code, x) && Marked(d, ms) && |code| > 0 && code[|code| - 1].Target?
    requires m == d.here + |code| - 1 && !Linked(cs.d, m) && cs.stack == rest + ms + [m] + [|ms| + 1]
    requires Fits(cs, ArmsLen(arms), free) && (ArmsFreeLeave(arms) ==> free) && end == cs.d.here + ArmsLen(arms)
    ensures var r := Acts(ArmsText(arms), cs);
            && r.Some? && r.value.stack == rest && (!ArmsFreeLeave(arms) ==> r.value.d.clue == cs.d.clue)
            && Grown(MarksTo(d, ms, end), r.value.d,
                     code[|code| - 1 := Target(end)] + ArmsCode(arms, cs.d.here, end, x), x)
    decreases arms, 4
  {
    hide Fits, Ready, Acts, ArmsCode, ArmsText, ArmsFreeLeave, ArmsLen, Linked, Links, MarksTo;
    GrownHere(d, cs.d, code, x);
    MarksToGrown(d, cs.d, ms, code, end, x);
    assert Marked(cs.d, ms + [m]);
    assert rest + ms + [m] + [|ms| + 1] == rest + (ms + [m]) + [|ms + [m]|];
    hide Grown, Marked;
    FitsLess(cs, ArmsLen(arms), free, ArmsLen(arms), ArmsFreeLeave(arms));
    CompilesArms(arms, cs, rest, ms + [m], x);
    MarksToOneMore(cs.d, ms, m, end);
    var code1 := code[|code| - 1 := Target(end)];
    RedirectGrows(d, cs.d, code, |code| - 1, end, x);
    var d1 := Redirect(cs.d, m, end);
    MarksToGrown(d, d1, ms, code1, end, x);
    GrownTwice(MarksTo(d, ms, end), MarksTo(d1, ms, end), Acts(ArmsText(arms), cs).value.d, code1,
               ArmsCode(arms, cs.d.here, end, x), x);
  }

  lemma {:induction false} SelText(arms: Arms, cs: CS, a: nat, x: nat)
    ensures Acts(Text(Sel(arms)), cs) == Acts(ArmsText(arms), PushTo(cs, 0))
    ensures Code(Sel(arms), a, x) == ArmsCode(arms, a, a + ArmsLen(arms), x)
    ensures FreeLeave(Sel(arms)) == ArmsFreeLeave(arms) && Len(Sel(arms)) == ArmsLen(arms)
  {
    SelTokens(arms, cs, a, x);
    hide Act, Acts, Text, ArmsText, ArmsCode, PushTo, Code, FreeLeave, Len;
    ActsJoin([SEL], ArmsText(arms), cs);
    ActsOne(SEL, cs);
  }

  lemma {:induction false} SelTokens(arms: Arms, cs: CS, a: nat, x: nat)
    ensures Text(Sel(arms)) == [SEL] + ArmsText(arms) && Act(SEL, cs) == Some(PushTo(cs, 0))
    ensures Code(Sel(arms), a, x) == ArmsCode(arms, a, a + ArmsLen(arms), x)
    ensures FreeLeave(Sel(arms)) == ArmsFreeLeave(arms) && Len(Sel(arms)) == ArmsLen(arms)
  {
    hide ArmsText, ArmsCode, ArmsFreeLeave, ArmsLen;
  }

  lemma {:induction false} CompilesSel(arms: Arms, cs: CS, x: nat)
    requires Fits(cs, Len(Sel(arms)), FreeLeave(Sel(arms)))
    ensures Compiled(cs, Acts(Text(Sel(arms)), cs), Code(Sel(arms), cs.d.here, x), x, FreeLeave(Sel(arms)))
    decreases Sel(arms), 0
  {
    hide Grown, Acts, Code, ArmsCode, Text, ArmsText, FreeLeave, ArmsFreeLeave, Len, ArmsLen, Linked, Links, MarksTo;
    SelText(arms, cs, cs.d.here, x);
    var cs1 := PushTo(cs, 0);
    var none: seq<nat> := [];
    assert cs1.stack == cs.stack + none + [|none|];
    CompilesArms(arms, cs1, cs.stack, none, x);
    MarksToNone(cs.d, cs.d.here + ArmsLen(arms));
  }

  // The theorem

  /** The definition as it is written out. */
  function Flushed(d: Def): (c: seq<Cell>)
    requires d.here <= |d.memory|
    ensures |c| == d.here
  {
    seq(d.here, k requires 0 <= k < d.here => View(d.memory[k]))
  }

  /** Compiling the text of a program with no leave outside its loops into an empty definition that
      has room for it gives exactly the program's cells, and leaves stack and chain as they were. */
  lemma {:induction false} CompilerCorrect(p: Prog, memory: seq<MemCell>, stack: seq<nat>)
    requires !FreeLeave(p) && Len(p) <= |memory|
    ensures var r := Acts(Text(p), CS(Def(memory, 0, 0), stack));
            && r.Some? && r.value.stack == stack && r.value.d.clue == 0
            && r.value.d.here == Len(p) <= |r.value.d.memory| && Flushed(r.value.d) == Code(p, 0, 0)
  {
    var cs := CS(Def(memory, 0, 0), stack);
    Compiles(p, cs, 0);
    var r := Acts(Text(p), cs).value;
    hide Acts, Text, Code, FreeLeave, Len;
    forall k: nat | k < r.d.here
      ensures Flushed(r.d)[k] == Code(p, 0, 0)[k]
    {
      assert !Linked(r.d, 0 + k);
    }
  }

  /** Compiling preserves meaning: the inner interpreter on the cells that the compiler has left has
      reached their end exactly if the structured program is done, with exactly its stacks, and is
      stuck exactly if the program is. */
  lemma {:induction false} CompilingPreservesMeaning(p: Prog, memory: seq<MemCell>, stack: seq<nat>, s: St, n: nat, w: Words)
    requires !FreeLeave(p) && Len(p) <= |memory|
    ensures var c := Acts(Text(p), CS(Def(memory, 0, 0), stack));
            && c.Some? && c.value.stack == stack && c.value.d.here == Len(p) <= |c.value.d.memory|
            && var r, m := Eval(p, s, n, w), Run(Flushed(c.value.d), 0, s, n, w);
               && (forall s1: St :: m == At(Len(p), s1) <==> r.Done? && r.s == s1)
               && (m == Broken <==> r.Stuck?)
               && (r.Out? ==> m.At? && 0 <= m.ip < Len(p))
  {
    CompilerCorrect(p, memory, stack);
    hide *;
    CompiledMeaning(p, 0, s, n, w);
  }

  /** Every branch cell goes to an index from `lo` to `hi`, or to `x` if that is allowed. */
  predicate Inside(c: seq<Cell>, lo: nat, hi: nat, x: nat, free: bool) {
    forall cell | cell in c && cell.Target? :: lo <= cell.index <= hi || (free && cell.index == x)
  }

  lemma {:induction false} InsideJoin(c: seq<Cell>, c1: seq<Cell>, lo: nat, hi: nat, x: nat, free: bool,
                                      lo1: nat, hi1: nat, free1: bool)
    requires Inside(c, lo, hi, x, free) && Inside(c1, lo1, hi1, x, free1)
    requires lo <= lo1 && hi1 <= hi && (free1 ==> free)
    ensures Inside(c + c1, lo, hi, x, free)
  {
  }

  lemma {:induction false} InsideWiden(c: seq<Cell>, lo: nat, hi: nat, x: nat, free: bool, lo1: nat, hi1: nat, free1: bool)
    requires Inside(c, lo1, hi1, x, free1) && lo <= lo1 && hi1 <= hi && (free1 ==> free)
    ensures Inside(c, lo, hi, x, free)
  {
  }

  /** In a loop, the leaves go to the end of it. */
  lemma {:induction false} InsideLoop(c: seq<Cell>, lo: nat, hi: nat, lo1: nat, hi1: nat, x: nat, free1: bool)
    requires Inside(c, lo1, hi1, hi, free1) && lo <= lo1 && hi1 <= hi && lo <= hi
    ensures Inside(c, lo, hi, x, false)
  {
  }

  /** Every branch cell of a program is resolved to a cell of the program or its end; only a leave
      outside the loops goes elsewhere. */
  lemma {:induction false} TargetsInside(p: Prog, a: nat, x: nat)
    ensures Inside(Code(p, a, x), a, a + Len(p), x, FreeLeave(p))
    decreases p, 1
  {
    hide Inside, Len, FreeLeave, Code;
    match p {
      case Seq(b, c) => InsideSeq(b, c, a, x);
      case If(yes) => InsideIf(yes, a, x);
      case IfElse(yes, no) => InsideIfElse(yes, no, a, x);
      case BeginAgain(body) => InsideBack(body, false, a, x);
      case BeginUntil(body) => InsideBack(body, true, a, x);
      case BeginWhile(cond, body) => InsideWhile(cond, body, a, x);
      case DoLoop(body) => InsideDo(body, false, a, x);
      case DoPlusLoop(body) => InsideDo(body, true, a, x);
      case Sel(arms) => InsideSel(arms, a, x);
      case _ => InsideWord(p, a, x);
    }
  }

  lemma {:induction false} InsideSel(arms: Arms, a: nat, x: nat)
    ensures var p := Sel(arms); Inside(Code(p, a, x), a, a + Len(p), x, FreeLeave(p))
    decreases Sel(arms), 0
  {
    hide *;
    SelForm(arms, a, x);
    ArmTargetsInside(arms, a, a, a + ArmsLen(arms), x);
  }

  lemma {:induction false} InsideWord(p: Prog, a: nat, x: nat)
    requires p.Skip? || p.Call? || p.Literal? || p.LeaveLoop?
    ensures Inside(Code(p, a, x), a, a + Len(p), x, FreeLeave(p))
  {
  }

  lemma {:induction false} SeqForm(b: Prog, c: Prog, a: nat, x: nat)
    ensures var p := Seq(b, c);
            && Code(p, a, x) == Code(b, a, x) + Code(c, a + Len(b), x)
            && Len(p) == Len(b) + Len(c) && FreeLeave(p) == (FreeLeave(b) || FreeLeave(c))
  {
  }

  lemma {:induction false} IfForm(yes: Prog, a: nat, x: nat)
    ensures var p := If(yes);
            && Code(p, a, x) == [Refer(QBRANCH), Target(a + 2 + Len(yes))] + Code(yes, a + 2, x)
            && Len(p) == Len(yes) + 2 && FreeLeave(p) == FreeLeave(yes)
  {
  }

  lemma {:induction false} BackForm(body: Prog, until: bool, a: nat, x: nat)
    ensures var p := if until then BeginUntil(body) else BeginAgain(body);
            && Code(p, a, x) == Code(body, a, x) + [Refer(if until then QBRANCH else BRANCH), Target(a)]
            && Len(p) == Len(body) + 2 && FreeLeave(p) == FreeLeave(body)
  {
  }

  lemma {:induction false} SelForm(arms: Arms, a: nat, x: nat)
    ensures var p := Sel(arms);
            && Code(p, a, x) == ArmsCode(arms, a, a + ArmsLen(arms), x)
            && Len(p) == ArmsLen(arms) && FreeLeave(p) == ArmsFreeLeave(arms)
  {
  }

  lemma {:induction false} InsideSeq(b: Prog, c: Prog, a: nat, x: nat)
    ensures var p := Seq(b, c); Inside(Code(p, a, x), a, a + Len(p), x, FreeLeave(p))
    decreases Seq(b, c), 0
  {
    hide *;
    SeqForm(b, c, a, x);
    var mid, end, free := a + Len(b), a + Len(b) + Len(c), FreeLeave(b) || FreeLeave(c);
    TargetsInside(b, a, x);
    TargetsInside(c, mid, x);
    InsideWiden(Code(b, a, x), a, end, x, free, a, mid, FreeLeave(b));
    InsideJoin(Code(b, a, x), Code(c, mid, x), a, end, x, free, mid, end, FreeLeave(c));
  }

  lemma {:induction false} InsideIf(yes: Prog, a: nat, x: nat)
    ensures var p := If(yes); Inside(Code(p, a, x), a, a + Len(p), x, FreeLeave(p))
    decreases If(yes), 0
  {
    hide *;
    IfForm(yes, a, x);
    var end, free := a + 2 + Len(yes), FreeLeave(yes);
    TargetsInside(yes, a + 2, x);
    OneTarget(QBRANCH, end, a, end, x, free);
    InsideJoin([Refer(QBRANCH), Target(end)], Code(yes, a + 2, x), a, end, x, free, a + 2, end, free);
  }

  lemma {:induction false} InsideIfElse(yes: Prog, no: Prog, a: nat, x: nat)
    ensures var p := IfElse(yes, no); Inside(Code(p, a, x), a, a + Len(p), x, FreeLeave(p))
    decreases IfElse(yes, no), 0
  {
    hide Inside, Code;
    IfElseCode(yes, no, a, x);
    var b := a + Len(yes) + 4;
    var end, free := b + Len(no), FreeLeave(yes) || FreeLeave(no);
    var head, tail, code, more := [Refer(QBRANCH), Target(b)], [Refer(BRANCH), Target(end)], Code(yes, a + 2, x), Code(no, b, x);
    TargetsInside(yes, a + 2, x);
    TargetsInside(no, b, x);
    OneTarget(QBRANCH, b, a, end, x, free);
    OneTarget(BRANCH, end, a, end, x, free);
    InsideJoin(head, code, a, end, x, free, a + 2, b - 2, FreeLeave(yes));
    InsideJoin(tail, more, a, end, x, free, b, end, FreeLeave(no));
    InsideJoin(head + code, tail + more, a, end, x, free, a, end, free);
  }

  lemma {:induction false} InsideWhile(cond: Prog, body: Prog, a: nat, x: nat)
    ensures var p := BeginWhile(cond, body); Inside(Code(p, a, x), a, a + Len(p), x, FreeLeave(p))
    decreases BeginWhile(cond, body), 0
  {
    hide Inside, Code;
    WhileCode(cond, body, a, x);
    var c := a + Len(cond) + 2;
    var end, free := c + Len(body) + 2, FreeLeave(cond) || FreeLeave(body);
    var mid, tail, code, more := [Refer(QBRANCH), Target(end)], [Refer(BRANCH), Target(a)], Code(cond, a, x), Code(body, c, x);
    TargetsInside(cond, a, x);
    TargetsInside(body, c, x);
    OneTarget(QBRANCH, end, a, end, x, free);
    OneTarget(BRANCH, a, a, end, x, free);
    InsideWiden(code, a, end, x, free, a, c - 2, FreeLeave(cond));
    InsideJoin(code, mid, a, end, x, free, a, end, free);
    InsideWiden(more, a, end, x, free, c, end - 2, FreeLeave(body));
    InsideJoin(more, tail, a, end, x, free, a, end, free);
    InsideJoin(code + mid, more + tail, a, end, x, free, a, end, free);
  }

  lemma {:induction false} NoTargets(c: seq<Cell>, lo: nat, hi: nat, x: nat, free: bool)
    requires forall cell | cell in c :: !cell.Target?
    ensures Inside(c, lo, hi, x, free)
  {
  }

  lemma {:induction false} OneTarget(op: Op, t: nat, lo: nat, hi: nat, x: nat, free: bool)
    requires lo <= t <= hi
    ensures Inside([Refer(op), Target(t)], lo, hi, x, free)
  {
  }

  lemma {:induction false} InsideBack(body: Prog, until: bool, a: nat, x: nat)
    ensures var p := if until then BeginUntil(body) else BeginAgain(body);
            Inside(Code(p, a, x), a, a + Len(p), x, FreeLeave(p))
    decreases if until then BeginUntil(body) else BeginAgain(body), 0
  {
    var op := if until then QBRANCH else BRANCH;
    var p := if until then BeginUntil(body) else BeginAgain(body);
    hide *;
    BackForm(body, until, a, x);
    var end, free := a + Len(body) + 2, FreeLeave(body);
    TargetsInside(body, a, x);
    OneTarget(op, a, a, end, x, free);
    InsideWiden(Code(body, a, x), a, end, x, free, a, end - 2, free);
    InsideJoin(Code(body, a, x), [Refer(op), Target(a)], a, end, x, free, a, end, free);
  }

  lemma {:induction false} InsideDo(body: Prog, plus: bool, a: nat, x: nat)
    ensures var p := if plus then DoPlusLoop(body) else DoLoop(body);
            Inside(Code(p, a, x), a, a + Len(p), x, FreeLeave(p))
    decreases if plus then DoPlusLoop(body) else DoLoop(body), 0
  {
    var op := if plus then PLUSLOOP else LOOP;
    var p := if plus then DoPlusLoop(body) else DoLoop(body);
    hide *;
    DoForm(body, plus);
    LoopCode(body, plus, a, x);
    var end := a + Len(body) + 3;
    var code, tail := Code(body, a + 1, end), [Refer(op), Target(a + 1)];
    TargetsInside(body, a + 1, end);
    InsideLoop(code, a, end, a + 1, end - 2, x, FreeLeave(body));
    NoTargets([Refer(DO)], a, end, x, false);
    OneTarget(op, a + 1, a, end, x, false);
    InsideJoin(code, tail, a, end, x, false, a, end, false);
    InsideJoin([Refer(DO)], code + tail, a, end, x, false, a, end, false);
  }

  lemma {:induction false} ArmTargetsInside(arms: Arms, lo: nat, a: nat, end: nat, x: nat)
    requires lo <= a && end == a + ArmsLen(arms)
    ensures Inside(ArmsCode(arms, a, end, x), lo, end, x, ArmsFreeLeave(arms))
    decreases arms, 1
  {
    hide Inside;
    var free := ArmsFreeLeave(arms);
    match arms {
      case Last(final) =>
        TargetsInside(final, a, x);
        NoTargets([Refer(DROP)], lo, end, x, free);
        InsideWiden(Code(final, a, x), lo, end, x, free, a, end - 1, FreeLeave(final));
        InsideJoin(Code(final, a, x), [Refer(DROP)], lo, end, x, free, lo, end, free);
      case Arm(_, _, _, _, _) => ArmInside(arms, lo, a, end, x);
    }
  }

  lemma {:induction false} ArmFree(arm: Arms)
    requires arm.Arm?
    ensures ArmsFreeLeave(arm)
            == (FreeLeave(arm.pre) || FreeLeave(arm.test) || FreeLeave(arm.body) || ArmsFreeLeave(arm.rest))
  {
  }

  lemma {:induction false} ArmLength(arm: Arms)
    requires arm.Arm?
    ensures ArmsLen(arm) == TestLen(arm) + 3 + Len(arm.body) + 2 + ArmsLen(arm.rest)
  {
  }

  function HeadCode(next: nat): seq<Cell> {
    [Refer(QBRANCH), Target(next), Refer(DROP)]
  }

  function BodyCode(body: Prog, c: nat, end: nat, x: nat): seq<Cell> {
    Code(body, c, x) + [Refer(BRANCH), Target(end)]
  }

  lemma {:induction false} ArmForm(arm: Arms, a: nat, end: nat, x: nat)
    requires arm.Arm?
    ensures var b := a + TestLen(arm); var next := b + 3 + Len(arm.body) + 2;
            ArmsCode(arm, a, end, x)
            == (TestCode(arm, a, x) + HeadCode(next))
               + (BodyCode(arm.body, b + 3, end, x) + ArmsCode(arm.rest, next, end, x))
  {
    hide ArmsCode, TestCode, Code;
    ArmCode(arm, a, end, x);
  }

  lemma {:induction false} ArmInside(arm: Arms, lo: nat, a: nat, end: nat, x: nat)
    requires arm.Arm? && lo <= a && end == a + ArmsLen(arm)
    ensures Inside(ArmsCode(arm, a, end, x), lo, end, x, ArmsFreeLeave(arm))
    decreases arm, 0, 2
  {
    hide *;
    ArmLength(arm);
    ArmFree(arm);
    ArmForm(arm, a, end, x);
    var b, free := a + TestLen(arm), ArmsFreeLeave(arm);
    var next := b + 3 + Len(arm.body) + 2;
    TestInside(arm, lo, a, end, x, free);
    HeadInside(next, lo, end, x, free);
    InsideJoin(TestCode(arm, a, x), HeadCode(next), lo, end, x, free, lo, end, free);
    BodyInside(arm.body, lo, b + 3, end, x, free);
    ArmTargetsInside(arm.rest, lo, next, end, x);
    InsideJoin(BodyCode(arm.body, b + 3, end, x), ArmsCode(arm.rest, next, end, x), lo, end, x, free,
               lo, end, ArmsFreeLeave(arm.rest));
    InsideJoin(TestCode(arm, a, x) + HeadCode(next), BodyCode(arm.body, b + 3, end, x) + ArmsCode(arm.rest, next, end, x),
               lo, end, x, free, lo, end, free);
  }

  /** The branch past a case that is not chosen. */
  lemma {:induction false} HeadInside(next: nat, lo: nat, end: nat, x: nat, free: bool)
    requires lo <= next <= end
    ensures Inside(HeadCode(next), lo, end, x, free)
  {
  }

  lemma {:induction false} BodyIs(body: Prog, c: nat, end: nat, x: nat)
    ensures BodyCode(body, c, end, x) == Code(body, c, x) + [Refer(BRANCH), Target(end)]
  {
    hide Code;
  }

  /** The body of a case, and the branch to the end of the selection. */
  lemma {:induction false} BodyInside(body: Prog, lo: nat, c: nat, end: nat, x: nat, free: bool)
    requires lo <= c && c + Len(body) <= end && (FreeLeave(body) ==> free)
    ensures Inside(BodyCode(body, c, end, x), lo, end, x, free)
    decreases body, 2
  {
    hide *;
    BodyIs(body, c, end, x);
    TargetsInside(body, c, x);
    InsideWiden(Code(body, c, x), lo, end, x, free, c, c + Len(body), FreeLeave(body));
    OneTarget(BRANCH, end, lo, end, x, free);
    InsideJoin(Code(body, c, x), [Refer(BRANCH), Target(end)], lo, end, x, free, lo, end, free);
  }

  lemma {:induction false} FrontForm(arm: Arms, a: nat, x: nat)
    requires arm.Arm?
    ensures FrontCode(arm, a, x) == (Code(arm.pre, a, x) + [Refer(DUP)]) + Code(arm.test, a + Len(arm.pre) + 1, x)
    ensures Len(arm.pre) + 1 + Len(arm.test) <= TestLen(arm)
  {
    hide Code, Len;
  }

  lemma {:induction false} FrontInside(arm: Arms, lo: nat, a: nat, end: nat, x: nat, free: bool)
    requires arm.Arm? && lo <= a && a + TestLen(arm) <= end && (FreeLeave(arm.pre) || FreeLeave(arm.test) ==> free)
    ensures Inside(FrontCode(arm, a, x), lo, end, x, free)
    decreases arm, 0, 0
  {
    hide *;
    FrontForm(arm, a, x);
    var b := a + Len(arm.pre);
    TargetsInside(arm.pre, a, x);
    InsideWiden(Code(arm.pre, a, x), lo, end, x, free, a, b, FreeLeave(arm.pre));
    NoTargets([Refer(DUP)], lo, end, x, free);
    InsideJoin(Code(arm.pre, a, x), [Refer(DUP)], lo, end, x, free, lo, end, free);
    TargetsInside(arm.test, b + 1, x);
    InsideJoin(Code(arm.pre, a, x) + [Refer(DUP)], Code(arm.test, b + 1, x), lo, end, x, free,
               b + 1, b + 1 + Len(arm.test), FreeLeave(arm.test));
  }

  lemma {:induction false} EqInside(equal: bool, lo: nat, end: nat, x: nat, free: bool)
    ensures Inside(EqCode(equal), lo, end, x, free)
  {
  }

  lemma {:induction false} TestInside(arm: Arms, lo: nat, a: nat, end: nat, x: nat, free: bool)
    requires arm.Arm? && lo <= a && a + TestLen(arm) <= end && (FreeLeave(arm.pre) || FreeLeave(arm.test) ==> free)
    ensures Inside(TestCode(arm, a, x), lo, end, x, free)
    decreases arm, 0, 1
  {
    hide *;
    TestForm(arm, a, x);
    FrontInside(arm, lo, a, end, x, free);
    EqInside(arm.equal, lo, end, x, free);
    InsideJoin(FrontCode(arm, a, x), EqCode(arm.equal), lo, end, x, free, lo, end, free);
  }
}
