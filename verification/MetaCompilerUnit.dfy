/** The compiler as it is kept: the definition, the stack and the leave chain changed in place by
    the control words. */
module MetaCompilerUnit {
  import opened Word32
  import opened InnerInterpreter
  import opened ControlFlow
  import opened MetaCompiler

  lemma {:induction false} ThensPop(cs: CS, n: nat)
    requires Thens(cs, n).Some?
    ensures |Thens(cs, n).value.stack| <= |cs.stack|
    decreases n
  {
    if n > 0 {
      ThensPop(Forwardresolve(cs).value, n - 1);
    }
  }

  /** A word of the source text leaves at most two more entries on the stack. */
  lemma {:induction false} PushesTwo(t: Token, cs: CS)
    requires Act(t, cs).Some?
    ensures |Act(t, cs).value.stack| <= |cs.stack| + 2
  {
    if t.DO_? || t.LOOP_? || t.PLUSLOOP_? || t.LEAVE? {
      LoopPushes(t, cs);
    } else if t.CASE? || t.ARROW? || t.EQARROW? || t.ENDCASE? {
      CasePushes(t, cs);
    } else if t.ENDSEL? {
      var cs1 := ReferTo(cs, DROP).value;
      ThensPop(Popped(cs1), Top(cs1).value);
      hide Thens;
    } else {
      FlowPushes(t, cs);
    }
    hide Act;
  }

  lemma {:induction false} LoopPushes(t: Token, cs: CS)
    requires Act(t, cs).Some? && (t.DO_? || t.LOOP_? || t.PLUSLOOP_? || t.LEAVE?)
    ensures |Act(t, cs).value.stack| <= |cs.stack| + 2
  {
  }

  lemma {:induction false} CasePushes(t: Token, cs: CS)
    requires Act(t, cs).Some? && (t.CASE? || t.ARROW? || t.EQARROW? || t.ENDCASE?)
    ensures |Act(t, cs).value.stack| <= |cs.stack| + 2
  {
  }

  lemma {:induction false} FlowPushes(t: Token, cs: CS)
    requires Act(t, cs).Some? && !t.DO_? && !t.LOOP_? && !t.PLUSLOOP_? && !t.LEAVE?
    requires !t.CASE? && !t.ARROW? && !t.EQARROW? && !t.ENDCASE? && !t.ENDSEL?
    ensures |Act(t, cs).value.stack| <= |cs.stack| + 2
  {
  }

  class Compiler {
    const memory: array<MemCell>
    var here: nat
    const stack: array<nat>
    var stackptr: nat
    var clue: nat

    constructor (size: nat, depth: nat)
      ensures Valid() && fresh(memory) && fresh(stack) && memory.Length == size && stack.Length == depth
      ensures here == 0 && stackptr == 0 && clue == 0
    {
      memory := new MemCell[size](_ => MemCell(ReferCell, DUP, 0, 0));
      stack := new nat[depth](_ => 0);
      here, stackptr, clue := 0, 0, 0;
    }

    ghost predicate Valid()
      reads this
    {
      stackptr <= stack.Length && here <= memory.Length
    }

    ghost function Snap(): CS
      requires Valid()
      reads this, memory, stack
    {
      CS(Def(memory[..], here, clue), stack[..stackptr])
    }

    /** Room for what one word of the source text pushes. */
    ghost predicate Room(n: nat)
      reads this
    {
      stackptr + n <= stack.Length
    }

    method Push(n: nat)
      requires Valid() && Room(1)
      modifies this`stackptr, stack
      ensures Valid() && Snap() == PushTo(old(Snap()), n) && stackptr == old(stackptr) + 1
    {
      stack[stackptr] := n;
      stackptr := stackptr + 1;
    }

    method Pop() returns (n: nat)
      requires Valid() && stackptr > 0
      modifies this`stackptr
      ensures Valid() && Some(n) == Top(old(Snap())) && Snap() == Popped(old(Snap())) && stackptr == old(stackptr) - 1
    {
      stackptr := stackptr - 1;
      n := stack[stackptr];
    }

    method EmitCell(c: MemCell)
      requires Valid() && here < memory.Length
      modifies this`here, memory
      ensures Valid() && Some(Snap().d) == Emit(old(Snap()).d, c) && Snap().stack == old(Snap()).stack
    {
      memory[here] := c;
      here := here + 1;
    }

    method Reference(op: Op)
      requires Valid() && here < memory.Length
      modifies this`here, memory
      ensures Valid() && Some(Snap()) == ReferTo(old(Snap()), op)
    {
      EmitCell(memory[here].(memtype := ReferCell, reference := op));
    }

    method MarkBack()
      requires Valid() && Room(1)
      modifies this`stackptr, stack
      ensures Valid() && Snap() == Backmark(old(Snap()))
    {
      Push(here);
    }

    method ResolveBack()
      requires Valid() && here < memory.Length && stackptr > 0
      modifies this`here, this`stackptr, memory
      ensures Valid() && Some(Snap()) == Backresolve(old(Snap()))
    {
      var n := Pop();
      EmitCell(memory[here].(memtype := BranchCell, branchindex := n));
    }

    method MarkForward()
      requires Valid() && here < memory.Length && Room(1)
      modifies this`here, this`stackptr, memory, stack
      ensures Valid() && Some(Snap()) == Forwardmark(old(Snap()))
    {
      Push(here);
      EmitCell(memory[here].(memtype := BranchCell));
    }

    method ResolveForward()
      requires Valid() && Forwardresolve(Snap()).Some?
      modifies this`stackptr, memory
      ensures Valid() && Some(Snap()) == Forwardresolve(old(Snap()))
    {
      var n := Pop();
      memory[n] := memory[n].(branchindex := here);
      assert memory[..] == old(Redirect(Snap().d, n, here)).memory;
    }

    method MarksForward()
      requires Valid() && here < memory.Length
      modifies this`here, this`clue, memory
      ensures Valid() && Some(Snap()) == Forwardmarks(old(Snap()))
    {
      var at := here;
      EmitCell(memory[here].(memtype := BranchCell, branchindex := clue));
      clue := at;
    }

    /** Sends every leave of the chain here. */
    method ResolvesForward()
      requires Valid() && Forwardresolves(Snap()).Some?
      modifies memory
      ensures Valid() && Some(Snap()) == Forwardresolves(old(Snap()))
    {
      var resolve := clue;
      while resolve != 0
        invariant Patch(memory[..], resolve, here) == old(Patch(memory[..], clue, here))
        decreases resolve
      {
        ghost var before := memory[..];
        var next := memory[resolve].branchindex;
        memory[resolve] := memory[resolve].(branchindex := here);
        assert memory[..] == before[resolve := before[resolve].(branchindex := here)];
        resolve := next;
      }
    }

    method Cif()
      requires Valid() && CIf(Snap()).Some? && Room(1)
      modifies this`here, this`stackptr, memory, stack
      ensures Valid() && Some(Snap()) == CIf(old(Snap()))
    {
      Reference(QBRANCH);
      MarkForward();
    }

    method Celse()
      requires Valid() && CElse(Snap()).Some? && Room(1)
      modifies this`here, this`stackptr, memory, stack
      ensures Valid() && Some(Snap()) == CElse(old(Snap()))
    {
      Reference(BRANCH);
      MarkForward();
      var tmp := Pop();
      ResolveForward();
      Push(tmp);
    }

    method Cwhile()
      requires Valid() && CWhile(Snap()).Some? && Room(1)
      modifies this`here, this`stackptr, memory, stack
      ensures Valid() && Some(Snap()) == CWhile(old(Snap()))
    {
      var tmp := Pop();
      Cif();
      Push(tmp);
    }

    method Back(op: Op)
      requires Valid() && here + 2 <= memory.Length && stackptr > 0
      modifies this`here, this`stackptr, memory
      ensures Valid() && Some(Snap()) == BranchBack(old(Snap()), op)
    {
      Reference(op);
      ResolveBack();
    }

    method Crepeat()
      requires Valid() && CRepeat(Snap()).Some?
      modifies this`here, this`stackptr, memory
      ensures Valid() && Some(Snap()) == CRepeat(old(Snap()))
    {
      Back(BRANCH);
      ResolveForward();
    }

    method Cdo()
      requires Valid() && here < memory.Length && Room(2)
      modifies this, memory, stack
      ensures Valid() && Some(Snap()) == CDo(old(Snap()))
    {
      Reference(DO);
      Push(clue);
      clue := 0;
      MarkBack();
    }

    method Cloop(op: Op)
      requires Valid() && CLoop(Snap(), op).Some?
      modifies this, memory
      ensures Valid() && Some(Snap()) == CLoop(old(Snap()), op)
    {
      Back(op);
      ResolvesForward();
      clue := Pop();
    }

    method Ceqgt()
      requires Valid() && CArrow(Snap()).Some? && Room(1)
      modifies this`here, this`stackptr, memory, stack
      ensures Valid() && Some(Snap()) == CArrow(old(Snap()))
    {
      var n := Pop();
      Push(n + 1);
      Cif();
      Reference(DROP);
    }

    method Ceqeqgt()
      requires Valid() && CEqArrow(Snap()).Some? && Room(1)
      modifies this`here, this`stackptr, memory, stack
      ensures Valid() && Some(Snap()) == CEqArrow(old(Snap()))
    {
      Reference(EQUALS);
      Ceqgt();
    }

    method Cgtgt()
      requires Valid() && CEndCase(Snap()).Some? && Room(1)
      modifies this`here, this`stackptr, memory, stack
      ensures Valid() && Some(Snap()) == CEndCase(old(Snap()))
    {
      Celse();
      ghost var before := Snap();
      var tmp := stack[stackptr - 1];
      stack[stackptr - 1] := stack[stackptr - 2];
      stack[stackptr - 2] := tmp;
      assert Some(Snap()) == Swapped(before) by {
        assert stack[..stackptr] == Swapped(before).value.stack;
      }
    }

    method Cendsel()
      requires Valid() && CEndSel(Snap()).Some?
      modifies this`here, this`stackptr, memory
      ensures Valid() && Some(Snap()) == CEndSel(old(Snap()))
    {
      Reference(DROP);
      var i := Pop();
      while i > 0
        invariant Valid() && Thens(Snap(), i) == CEndSel(old(Snap()))
        decreases i
      {
        ResolveForward();
        i := i - 1;
      }
    }

    method Cliteral(v: Word)
      requires Valid() && here + 2 <= memory.Length
      modifies this`here, memory
      ensures Valid() && Some(Snap()) == CLiteral(old(Snap()), v)
    {
      Reference(LITERAL);
      EmitCell(memory[here].(memtype := LiteralCell, value := v));
    }

    /** One word of the source text. */
    method Interpret(t: Token)
      requires Valid() && Act(t, Snap()).Some? && Room(2)
      modifies this, memory, stack
      ensures Valid() && Some(Snap()) == Act(t, old(Snap())) && stackptr <= old(stackptr) + 2
    {
      PushesTwo(t, Snap());
      match t {
        case WordToken(w) => Reference(WORD(w));
        case NumberToken(v) => Cliteral(v);
        case IF => Cif();
        case ELSE => Celse();
        case THEN => ResolveForward();
        case BEGIN => MarkBack();
        case WHILE => Cwhile();
        case REPEAT => Crepeat();
        case UNTIL => Back(QBRANCH);
        case AGAIN => Back(BRANCH);
        case DO_ => Cdo();
        case LOOP_ => Cloop(LOOP);
        case PLUSLOOP_ => Cloop(PLUSLOOP);
        case LEAVE => MarksForward();
        case SEL => Push(0);
        case CASE => Reference(DUP);
        case ARROW => Ceqgt();
        case EQARROW => Ceqeqgt();
        case ENDCASE => Cgtgt();
        case ENDSEL => Cendsel();
      }
    }

    /** The text of a definition, word by word. */
    method Compile(ts: seq<Token>)
      requires Valid() && Acts(ts, Snap()).Some? && Room(2 * |ts|)
      modifies this, memory, stack
      ensures Valid() && Some(Snap()) == Acts(ts, old(Snap()))
    {
      var k := 0;
      while k < |ts|
        invariant 0 <= k <= |ts| && Valid() && Room(2 * (|ts| - k))
        invariant Acts(ts[k..], Snap()) == Acts(ts, old(Snap()))
      {
        assert ts[k..][0] == ts[k] && ts[k..][1..] == ts[k + 1..];
        Interpret(ts[k]);
        k := k + 1;
      }
    }

    /** A definition from its text: the cells it leaves mean what the structured program means, and the
        compile-time stack is as it was. */
    method Define(ts: seq<Token>, ghost p: Prog)
      requires Valid() && here == 0 && clue == 0 && Room(2 * |ts|)
      requires ts == Text(p) && !FreeLeave(p) && Len(p) <= memory.Length
      modifies this, memory, stack
      ensures Valid() && here == Len(p) && clue == 0 && Snap().stack == old(Snap()).stack
      ensures Flushed(Snap().d) == Code(p, 0, 0)
      ensures forall s: St, n: nat, w: Words :: Means(p, Flushed(Snap().d), s, n, w)
    {
      ghost var c := Snap();
      hide *;
      Emptied();
      CompilerCorrect(p, c.d.memory, c.stack);
      Compile(ts);
      Emptied();
      CellsMean(p, Flushed(Snap().d));
    }

    lemma Emptied()
      requires Valid()
      ensures Snap().d.here == here && Snap().d.clue == clue && Snap().d.memory == memory[..]
      ensures here == 0 && clue == 0 ==> Snap() == CS(Def(Snap().d.memory, 0, 0), Snap().stack)
    {
    }
  }

  /** Running the cells from their start reaches their end exactly if the program is done, with exactly
      its stacks, and is stuck exactly if the program is. */
  ghost predicate Means(p: Prog, cells: seq<Cell>, s: St, n: nat, w: Words) {
    var r, m := Eval(p, s, n, w), Run(cells, 0, s, n, w);
    && (forall s1: St :: m == At(Len(p), s1) <==> r.Done? && r.s == s1)
    && (m == Broken <==> r.Stuck?) && (r.Out? ==> m.At? && 0 <= m.ip < Len(p))
  }

  lemma {:induction false} CellsMean(p: Prog, cells: seq<Cell>)
    requires cells == Code(p, 0, 0)
    ensures forall s: St, n: nat, w: Words :: Means(p, cells, s, n, w)
  {
    forall s: St, n: nat, w: Words
      ensures Means(p, cells, s, n, w)
    {
      CompiledMeaning(p, 0, s, n, w);
      hide Eval, Code, Run, Len;
    }
  }
}
