/** Exceptions: `catch` frames on the return stack, linked through the frame pointer. Sections
    9.6.1.0875 and 9.6.1.2275 of ANSI X3.215-1994. */
module CatchThrow {
  import opened Word32

  /** The stacks, which grow down, their pointers, the frame pointer and the instruction pointer.
      A pointer kept in a cell is the index of the cell it points to. */
  datatype Vm = Vm(pstack: seq<Word>, rstack: seq<Word>, psp: nat, rsp: nat, fp: nat, ip: Word)
  {
    predicate Valid() {
      psp <= |pstack| < TWO32 && rsp <= |rstack| < TWO32 && fp < TWO32
    }

    /** How many cells are on the data stack. */
    function Depth(): int {
      |pstack| - psp
    }

    /** What is on the return stack, top first. */
    function Returns(): seq<Word>
      requires Valid()
    {
      rstack[rsp..]
    }
  }

  /** The address of the cell from which a caught word goes on when it comes back: it holds the default
      catcher, and no code is at that address. */
  const BOGUS: Word := 0

  /** `docolon`: a threaded word is entered. */
  function Colon(v: Vm, body: Word): (r: Option<Vm>)
    requires v.Valid()
    ensures r.Some? ==> r.value.Valid()
  {
    if v.rsp == 0 then None else Some(v.(rstack := v.rstack[v.rsp - 1 := v.ip], rsp := v.rsp - 1, ip := body))
  }

  /** `return`: it is left. */
  function Return(v: Vm): (r: Option<Vm>)
    requires v.Valid()
    ensures r.Some? ==> r.value.Valid()
  {
    if v.rsp == |v.rstack| then None else Some(v.(ip := v.rstack[v.rsp], rsp := v.rsp + 1))
  }

  /** `catch`: the frame holds data stack pointer, instruction pointer and older frame pointer. */
  function Catch(v: Vm): (r: Option<Vm>)
    requires v.Valid()
    ensures r.Some? ==> r.value.Valid()
  {
    if v.psp == |v.pstack| || v.rsp < 3 then None
    else
      var psp, rsp := v.psp + 1, v.rsp - 3;
      Some(v.(rstack := v.rstack[rsp := psp][rsp + 1 := v.ip][rsp + 2 := v.fp],
              psp := psp, rsp := rsp, fp := rsp, ip := BOGUS))
  }

  /** `throw`: zero does nothing; anything else goes back to the innermost frame. */
  function Throw(v: Vm): (r: Option<Vm>)
    requires v.Valid()
    ensures r.Some? ==> r.value.Valid()
  {
    if v.psp == |v.pstack| then None
    else if v.pstack[v.psp] == 0 then Some(v)
    else if v.fp + 3 > |v.rstack| || !(1 <= v.rstack[v.fp] <= |v.pstack|) then None
    else
      var psp := v.rstack[v.fp] - 1;
      Some(v.(pstack := v.pstack[psp := v.pstack[v.psp]], psp := psp, rsp := v.fp + 3,
              ip := v.rstack[v.fp + 1], fp := v.rstack[v.fp + 2]))
  }

  /** A caught word that comes back: its frame goes and zero is left. */
  function DefaultCatcher(v: Vm): (r: Option<Vm>)
    requires v.Valid()
    ensures r.Some? ==> r.value.Valid()
  {
    if v.rsp + 3 > |v.rstack| || v.psp == 0 then None
    else
      Some(v.(pstack := v.pstack[v.psp - 1 := 0], psp := v.psp - 1, rsp := v.rsp + 3,
              ip := v.rstack[v.rsp + 1], fp := v.rstack[v.rsp + 2]))
  }

  // Well-nested runs

  /** What a word may do between catches: anything to the data stack, and go to any code; on the
      return stack, only above the innermost frame. A word comes back from a catch only by going on
      from where the catch has sent it. */
  datatype Event = Data(psp: nat, cells: seq<Word>) | Jump(ip: Word)
                 | RPush(cell: Word) | RPop | RStore(at: nat, cell: Word) | Enter(body: Word) | Leave
                 | CatchEvent | ThrowEvent | ComeBack

  /** The machine with the states in which its live catches were entered, innermost first. */
  datatype Nested = Nested(v: Vm, live: seq<Vm>)

  /** The state that a catch returns to: without the word to execute. */
  function Entered(v: Vm): Vm {
    v.(psp := v.psp + 1)
  }

  function Next(n: Nested, e: Event): Option<Nested>
    requires n.v.Valid()
  {
    var v := n.v;
    match e
    case Data(psp, cells) =>
      if |cells| == |v.pstack| && psp <= |cells| then Some(n.(v := v.(pstack := cells, psp := psp))) else None
    case Jump(ip) => if ip == BOGUS then None else Some(n.(v := v.(ip := ip)))
    case Enter(body) =>
      if body == BOGUS then None else (match Colon(v, body) case Some(v1) => Some(n.(v := v1)) case None => None)
    case Leave =>
      if v.rsp >= Floor(n) then None else (match Return(v) case Some(v1) => Some(n.(v := v1)) case None => None)
    case RPush(cell) => if v.rsp == 0 then None else Some(n.(v := v.(rstack := v.rstack[v.rsp - 1 := cell], rsp := v.rsp - 1)))
    case RPop => if v.rsp >= Floor(n) then None else Some(n.(v := v.(rsp := v.rsp + 1)))
    case RStore(at, cell) => if v.rsp <= at < Floor(n) then Some(n.(v := v.(rstack := v.rstack[at := cell]))) else None
    case CatchEvent => (match Catch(v) case Some(v1) => Some(Nested(v1, [Entered(v)] + n.live)) case None => None)
    case ThrowEvent =>
      if v.psp < |v.pstack| && v.pstack[v.psp] == 0 then Some(n)
      else if n.live == [] then None
      else (match Throw(v) case Some(v1) => Some(Nested(v1, n.live[1..])) case None => None)
    case ComeBack =>
      if n.live == [] || v.ip != BOGUS || v.rsp != v.fp then None
      else (match DefaultCatcher(v) case Some(v1) => Some(Nested(v1, n.live[1..])) case None => None)
  }

  /** The end of the return stack that belongs to the code since the innermost catch. */
  function Floor(n: Nested): nat
    requires n.v.Valid()
  {
    if n.live == [] then |n.v.rstack| else if n.v.fp <= |n.v.rstack| then n.v.fp else |n.v.rstack|
  }

  /** The live frames form a chain through the frame pointer: each holds what its catch found, and
      everything below it is as its catch found it. */
  predicate Chain(v: Vm, live: seq<Vm>)
    decreases |live|
  {
    && v.Valid()
    && (live != [] ==>
          var f := live[0];
          && f.Valid() && f.psp >= 1 && |f.pstack| == |v.pstack| && |f.rstack| == |v.rstack|
          && v.rsp <= v.fp == f.rsp - 3
          && v.rstack[v.fp] == f.psp && v.rstack[v.fp + 1] == f.ip && v.rstack[v.fp + 2] == f.fp
          && v.rstack[f.rsp..] == f.rstack[f.rsp..]
          && Chain(f, live[1..]))
  }

  predicate Linked(n: Nested) {
    Chain(n.v, n.live)
  }

  /** The chain does not depend on what is above it. */
  lemma {:induction false} ChainFrame(v: Vm, w: Vm, live: seq<Vm>)
    requires Chain(v, live) && w.Valid() && |w.rstack| == |v.rstack| && |w.pstack| == |v.pstack| && w.fp == v.fp
    requires live != [] ==> w.rsp <= w.fp && w.rstack[v.fp..] == v.rstack[v.fp..]
    ensures Chain(w, live)
  {
    if live != [] {
      var f := live[0];
      assert w.rstack[v.fp..][0] == v.rstack[v.fp..][0] && w.rstack[v.fp..][1] == v.rstack[v.fp..][1];
      assert w.rstack[v.fp..][2] == v.rstack[v.fp..][2];
      assert w.rstack[f.rsp..] == w.rstack[v.fp..][3..];
      assert v.rstack[f.rsp..] == v.rstack[v.fp..][3..];
    }
  }

  lemma {:induction false} CatchLinks(n: Nested)
    requires Linked(n) && Catch(n.v).Some?
    ensures Linked(Nested(Catch(n.v).value, [Entered(n.v)] + n.live))
  {
    var f, v1 := Entered(n.v), Catch(n.v).value;
    ChainFrame(n.v, f, n.live);
    assert ([f] + n.live)[1..] == n.live;
    assert v1.rstack[f.rsp..] == f.rstack[f.rsp..];
  }

  /** Taking the innermost frame away leaves the chain of the others. */
  lemma {:induction false} Unlinks(n: Nested, v1: Vm)
    requires Linked(n) && n.live != [] && v1.Valid()
    requires v1.rstack == n.v.rstack && |v1.pstack| == |n.v.pstack| && v1.fp == n.live[0].fp && v1.rsp == n.live[0].rsp
    ensures Linked(Nested(v1, n.live[1..]))
  {
    var f, rest := n.live[0], n.live[1..];
    assert Chain(f, rest);
    if rest != [] {
      assert v1.rstack[f.fp..] == v1.rstack[f.rsp..][f.fp - f.rsp..];
      assert f.rstack[f.fp..] == f.rstack[f.rsp..][f.fp - f.rsp..];
    }
    ChainFrame(f, v1, rest);
  }

  /** A non-zero throw restores what the innermost live catch found: the data stack depth, then one
      cell for the code, the whole return stack, and the instruction and frame pointers. */
  lemma {:induction false} ThrowRestores(n: Nested)
    requires Linked(n) && n.live != [] && n.v.psp < |n.v.pstack| && n.v.pstack[n.v.psp] != 0
    ensures var r := Throw(n.v); var f := n.live[0];
            && r.Some? && r.value.Depth() == f.Depth() + 1 && r.value.pstack[r.value.psp] == n.v.pstack[n.v.psp]
            && r.value.Returns() == f.Returns() && r.value.ip == f.ip && r.value.fp == f.fp
            && r.value.rsp == f.rsp && Linked(Nested(r.value, n.live[1..]))
  {
    Unlinks(n, Throw(n.v).value);
  }

  /** A caught word that comes back restores the same return stack and pointers and leaves zero on
      top of whatever it left on the data stack. */
  lemma {:induction false} ComingBackRestores(n: Nested)
    requires Linked(n) && n.live != [] && n.v.rsp == n.v.fp && n.v.psp > 0
    ensures var r := DefaultCatcher(n.v); var f := n.live[0];
            && r.Some? && r.value.Depth() == n.v.Depth() + 1 && r.value.pstack[r.value.psp] == 0
            && r.value.pstack[n.v.psp..] == n.v.pstack[n.v.psp..]
            && r.value.Returns() == f.Returns() && r.value.ip == f.ip && r.value.fp == f.fp
            && r.value.rsp == f.rsp && Linked(Nested(r.value, n.live[1..]))
  {
    Unlinks(n, DefaultCatcher(n.v).value);
  }

  /** Every event keeps the chain. */
  lemma {:induction false} NextLinked(n: Nested, e: Event)
    requires Linked(n) && Next(n, e).Some?
    ensures Linked(Next(n, e).value)
  {
    match e {
      case CatchEvent => CatchLinks(n);
      case ThrowEvent =>
        if n.v.pstack[n.v.psp] != 0 {
          ThrowRestores(n);
        }
      case ComeBack => ComingBackRestores(n);
      case _ =>
        DataKeepsFrames(n, e);
        hide Next, Chain;
        ChainFrame(n.v, Next(n, e).value.v, n.live);
    }
    hide Catch, Throw, DefaultCatcher, Chain;
  }

  /** What runs between catches stays above the innermost frame. */
  lemma {:induction false} DataKeepsFrames(n: Nested, e: Event)
    requires Linked(n) && Next(n, e).Some? && !e.CatchEvent? && !e.ThrowEvent? && !e.ComeBack?
    ensures var w := Next(n, e).value.v;
            && Next(n, e).value.live == n.live && w.Valid() && |w.rstack| == |n.v.rstack| && |w.pstack| == |n.v.pstack|
            && w.fp == n.v.fp && (n.live != [] ==> w.rsp <= w.fp && w.rstack[n.v.fp..] == n.v.rstack[n.v.fp..])
  {
  }

  function Run(n: Nested, es: seq<Event>): Option<Nested>
    requires n.v.Valid()
    decreases |es|
  {
    if es == [] then Some(n)
    else
      var n1 :- Next(n, es[0]);
      if n1.v.Valid() then Run(n1, es[1..]) else None
  }

  lemma {:induction false} RunLinked(n: Nested, es: seq<Event>)
    requires Linked(n) && Run(n, es).Some?
    ensures Linked(Run(n, es).value)
    decreases |es|
  {
    if es != [] {
      NextLinked(n, es[0]);
      RunLinked(Next(n, es[0]).value, es[1..]);
    }
  }

  /** At least m catches stay live throughout the events. */
  predicate Inside(n: Nested, es: seq<Event>, m: nat)
    requires n.v.Valid()
    decreases |es|
  {
    |n.live| >= m && (es == [] || (match Next(n, es[0]) case Some(n1) => n1.v.Valid() && Inside(n1, es[1..], m) case None => true))
  }

  predicate EndsWith(live: seq<Vm>, base: seq<Vm>) {
    |live| >= |base| && live[|live| - |base|..] == base
  }

  /** Catches that stay live are the same catches. */
  lemma {:induction false} StaysLive(n: Nested, es: seq<Event>, base: seq<Vm>)
    requires n.v.Valid() && Inside(n, es, |base|) && EndsWith(n.live, base) && Run(n, es).Some?
    ensures EndsWith(Run(n, es).value.live, base)
    decreases |es|
  {
    if es != [] {
      var n1 := Next(n, es[0]).value;
      OneStays(n, es[0], base);
      StaysLive(n1, es[1..], base);
    }
  }

  lemma {:induction false} OneStays(n: Nested, e: Event, base: seq<Vm>)
    requires n.v.Valid() && EndsWith(n.live, base) && Next(n, e).Some? && |Next(n, e).value.live| >= |base|
    ensures EndsWith(Next(n, e).value.live, base)
  {
    hide Next, EndsWith;
    LiveAfter(n, e);
    var live := Next(n, e).value.live;
    if |live| == |n.live| + 1 {
      PushedEnds(live[0], n.live, base);
      assert live == [live[0]] + n.live;
    } else if live != n.live {
      PoppedEnds(n.live, base);
    }
  }

  /** An event leaves the live catches alone, adds one, or takes the innermost away. */
  lemma {:induction false} LiveAfter(n: Nested, e: Event)
    requires n.v.Valid() && Next(n, e).Some?
    ensures var live := Next(n, e).value.live;
            || live == n.live || (n.live != [] && live == n.live[1..])
            || (|live| == |n.live| + 1 && live[1..] == n.live)
  {
    match e {
      case CatchEvent => assert ([Entered(n.v)] + n.live)[1..] == n.live;
      case _ =>
    }
    hide Catch, Throw, DefaultCatcher;
  }

  lemma {:induction false} PushedEnds(f: Vm, live: seq<Vm>, base: seq<Vm>)
    requires EndsWith(live, base)
    ensures EndsWith([f] + live, base)
  {
    assert ([f] + live)[|live| + 1 - |base|..] == live[|live| - |base|..];
  }

  lemma {:induction false} PoppedEnds(live: seq<Vm>, base: seq<Vm>)
    requires EndsWith(live, base) && live != [] && |live| > |base|
    ensures EndsWith(live[1..], base)
  {
    assert live[1..][|live| - 1 - |base|..] == live[|live| - |base|..];
  }

  /** The theorem: after a catch, any well-nested run that does not leave it, however deep it goes
      and whatever it catches, throws and unwinds on the way, and that has this catch innermost in
      the end, can throw a non-zero code, and is back where the catch was entered: the word to
      execute has been replaced by the code, and return stack, instruction pointer, frame pointer
      and outer catches are as they were. */
  lemma {:induction false} CaughtThrow(n: Nested, es: seq<Event>)
    requires Linked(n) && Next(n, CatchEvent).Some?
    requires var n1 := Next(n, CatchEvent).value;
             && Inside(n1, es, |n1.live|) && Run(n1, es).Some? && |Run(n1, es).value.live| == |n1.live|
             && var v2 := Run(n1, es).value.v; v2.Valid() && v2.psp < |v2.pstack| && v2.pstack[v2.psp] != 0
    ensures var n2 := Run(Next(n, CatchEvent).value, es).value; var code := n2.v.pstack[n2.v.psp];
            var n3 := Next(n2, ThrowEvent);
            && n3.Some? && Linked(n3.value) && n3.value.live == n.live
            && n3.value.v.Depth() == n.v.Depth() && n3.value.v.pstack[n3.value.v.psp] == code
            && n3.value.v.Returns() == n.v.Returns() && n3.value.v.rsp == n.v.rsp
            && n3.value.v.ip == n.v.ip && n3.value.v.fp == n.v.fp
  {
    var n1 := Next(n, CatchEvent).value;
    NextLinked(n, CatchEvent);
    RunLinked(n1, es);
    StaysLive(n1, es, n1.live);
    var n2 := Run(n1, es).value;
    assert n2.live == n1.live;
    ThrowRestores(n2);
  }

  /** The same run, coming back instead: the same return stack and pointers, and zero on top. */
  lemma {:induction false} CaughtReturn(n: Nested, es: seq<Event>)
    requires Linked(n) && Next(n, CatchEvent).Some?
    requires var n1 := Next(n, CatchEvent).value;
             && Inside(n1, es, |n1.live|) && Run(n1, es).Some? && |Run(n1, es).value.live| == |n1.live|
             && var v2 := Run(n1, es).value.v; v2.ip == BOGUS && v2.rsp == v2.fp && v2.psp > 0
    ensures var n2 := Run(Next(n, CatchEvent).value, es).value;
            n2.v.Valid() && var n3 := Next(n2, ComeBack);
            && n3.Some? && Linked(n3.value) && n3.value.live == n.live
            && n3.value.v.Depth() == n2.v.Depth() + 1 && n3.value.v.pstack[n3.value.v.psp] == 0
            && n3.value.v.Returns() == n.v.Returns() && n3.value.v.ip == n.v.ip && n3.value.v.fp == n.v.fp
  {
    var n1 := Next(n, CatchEvent).value;
    NextLinked(n, CatchEvent);
    RunLinked(n1, es);
    StaysLive(n1, es, n1.live);
    var n2 := Run(n1, es).value;
    assert n2.live == n1.live;
    ComingBackRestores(n2);
  }

  // Balanced words

  /** A run that stays inside the innermost `m` catches and, when no other is live, above the cell of the
      return stack at `level`: what a word does to the return stack it undoes. */
  predicate Balanced(n: Nested, es: seq<Event>, m: nat, level: nat)
    requires n.v.Valid()
    decreases |es|
  {
    && |n.live| >= m && (|n.live| == m ==> n.v.rsp <= level)
    && (es == [] ||
        (!(|n.live| == m && es[0].RStore? && es[0].at >= level)
         && match Next(n, es[0]) case Some(n1) => n1.v.Valid() && Balanced(n1, es[1..], m, level) case None => true))
  }

  /** The catches entered since are above that cell. */
  predicate Above(n: Nested, m: nat, level: nat) {
    |n.live| > m ==> n.live[|n.live| - m - 1].rsp <= level
  }

  /** A frame lies above all those that were live before it. */
  lemma {:induction false} ChainUp(v: Vm, live: seq<Vm>, k: nat)
    requires Chain(v, live) && k < |live|
    ensures v.rsp <= v.fp <= live[0].rsp && live[0].rsp <= live[k].rsp
    decreases |live|
  {
    if k > 0 {
      ChainUp(live[0], live[1..], k - 1);
    }
  }

  /** One event of a balanced run leaves the return stack below that cell as it is. */
  lemma {:induction false} OneBalanced(n: Nested, e: Event, m: nat, level: nat)
    requires Linked(n) && Next(n, e).Some? && Above(n, m, level) && |n.live| >= m && level <= |n.v.rstack|
    requires |n.live| == m ==> n.v.rsp <= level && !(e.RStore? && e.at >= level)
    requires |Next(n, e).value.live| >= m
    ensures var n1 := Next(n, e).value;
            && |n1.v.rstack| == |n.v.rstack| && n1.v.rstack[level..] == n.v.rstack[level..] && Above(n1, m, level)
  {
    if |n.live| > m {
      ChainUp(n.v, n.live, |n.live| - m - 1);
    }
    hide Chain, Colon, Return;
    StackEffects(n, e);
    LiveAfter(n, e);
    var n1 := Next(n, e).value;
    assert forall i | level <= i < |n.v.rstack| :: n1.v.rstack[i] == n.v.rstack[i];
  }

  /** What an event does to the return stack. */
  lemma {:induction false} StackEffects(n: Nested, e: Event)
    requires n.v.Valid() && Next(n, e).Some?
    ensures var v, n1 := n.v, Next(n, e).value;
            && |n1.v.rstack| == |v.rstack|
            && (forall i | v.rsp <= i < |v.rstack| && !(e.RStore? && i == e.at) :: n1.v.rstack[i] == v.rstack[i])
            && (e.RStore? ==> v.rsp <= e.at < Floor(n))
            && (e.CatchEvent? ==> n1.live == [Entered(v)] + n.live)
            && (!e.CatchEvent? ==> n1.live == n.live || (n.live != [] && n1.live == n.live[1..]))
  {
  }

  lemma {:induction false} BalancedKeeps(n: Nested, es: seq<Event>, m: nat, level: nat)
    requires Linked(n) && Above(n, m, level) && level <= |n.v.rstack| && Balanced(n, es, m, level) && Run(n, es).Some?
    ensures var n1 := Run(n, es).value; |n1.v.rstack| == |n.v.rstack| && n1.v.rstack[level..] == n.v.rstack[level..]
    decreases |es|
  {
    assert n.v.Valid();
    hide Chain, Next, Above, Balanced;
    BalancedFirst(n, es, m, level);
    if es != [] {
      NextLinked(n, es[0]);
      OneBalanced(n, es[0], m, level);
      BalancedKeeps(Next(n, es[0]).value, es[1..], m, level);
    }
  }

  lemma {:induction false} BalancedFirst(n: Nested, es: seq<Event>, m: nat, level: nat)
    requires n.v.Valid() && Balanced(n, es, m, level)
    ensures |n.live| >= m && (|n.live| == m ==> n.v.rsp <= level)
    ensures es != [] && Next(n, es[0]).Some? && Next(n, es[0]).value.v.Valid() ==>
              && !(|n.live| == m && es[0].RStore? && es[0].at >= level)
              && Balanced(Next(n, es[0]).value, es[1..], m, level) && |Next(n, es[0]).value.live| >= m
  {
    hide Next;
  }

  lemma {:induction false} BalancedInside(n: Nested, es: seq<Event>, m: nat, level: nat)
    requires n.v.Valid() && Balanced(n, es, m, level)
    ensures Inside(n, es, m)
    decreases |es|
  {
    hide Next;
    if es != [] && Next(n, es[0]).Some? && Next(n, es[0]).value.v.Valid() {
      BalancedInside(Next(n, es[0]).value, es[1..], m, level);
    }
  }

  /** A caught threaded word, whatever it does in between, comes back: at its end the inner interpreter
      goes on at the default catcher, which restores the return stack and all pointers that `catch`
      found and leaves zero on top of what the word has left. */
  lemma {:induction false} CaughtWord(n: Nested, body: Word, es: seq<Event>)
    requires Linked(n) && Next(n, CatchEvent).Some?
    requires var n1 := Next(n, CatchEvent).value;
             && Next(n1, Enter(body)).Some?
             && var n2 := Next(n1, Enter(body)).value;
                && Balanced(n2, es, |n1.live|, n2.v.rsp) && Run(n2, es).Some?
                && var n3 := Run(n2, es).value; n3.v.rsp == n2.v.rsp && |n3.live| == |n1.live| && n3.v.psp > 0
    ensures var n3 := Run(Next(Next(n, CatchEvent).value, Enter(body)).value, es).value;
            && n3.v.Valid() && Next(n3, Leave).Some?
            && var n4 := Next(n3, Leave).value;
               && n4.v.Valid() && n4.v.ip == BOGUS && n4.v.pstack == n3.v.pstack && n4.v.psp == n3.v.psp && Next(n4, ComeBack).Some?
               && var n5 := Next(n4, ComeBack).value;
                  && Linked(n5) && n5.live == n.live && n5.v.Depth() == n3.v.Depth() + 1 && n5.v.pstack[n5.v.psp] == 0
                  && n5.v.pstack[n3.v.psp..] == n3.v.pstack[n3.v.psp..]
                  && n5.v.Returns() == n.v.Returns() && n5.v.ip == n.v.ip && n5.v.fp == n.v.fp
  {
    hide *;
    LinkedFrame(n);
    CatchEnters(n, body);
    var n1 := Next(n, CatchEvent).value;
    var n2 := Next(n1, Enter(body)).value;
    var n3 := Run(n2, es).value;
    NextLinked(n, CatchEvent);
    NextLinked(n1, Enter(body));
    RunLinked(n2, es);
    NoneAbove(n2, |n1.live|, n2.v.rsp);
    BalancedKeeps(n2, es, |n1.live|, n2.v.rsp);
    BalancedInside(n2, es, |n1.live|, n2.v.rsp);
    EndsItself(n1.live, n1.live);
    StaysLive(n2, es, n1.live);
    EndsItself(n3.live, n1.live);
    SameCell(n2.v.rstack, n3.v.rstack, n2.v.rsp);
    LinkedFrame(n3);
    LinkedFrame(n2);
    WordLeaves(n3, n1);
    NextLinked(n3, Leave);
    CatcherRuns(Next(n3, Leave).value);
  }

  lemma {:induction false} NoneAbove(n: Nested, m: nat, level: nat)
    requires |n.live| == m
    ensures Above(n, m, level)
  {
  }

  lemma {:induction false} EndsItself(live: seq<Vm>, base: seq<Vm>)
    requires |live| == |base|
    ensures EndsWith(live, base) <==> live == base
  {
  }

  lemma {:induction false} SameCell(a: seq<Word>, b: seq<Word>, k: nat)
    requires |a| == |b| && k < |a| && a[k..] == b[k..]
    ensures a[k] == b[k]
  {
    assert a[k..][0] == b[k..][0];
  }

  lemma {:induction false} LinkedFrame(n: Nested)
    requires Linked(n)
    ensures n.v.Valid() && (n.live != [] ==> n.v.fp == n.live[0].rsp - 3 && |n.live[0].rstack| == |n.v.rstack|)
  {
  }

  /** The inner interpreter at the default catcher. */
  lemma {:induction false} CatcherRuns(n: Nested)
    requires Linked(n) && n.live != [] && n.v.ip == BOGUS && n.v.rsp == n.v.fp && n.v.psp > 0
    ensures Next(n, ComeBack).Some?
    ensures var r := Next(n, ComeBack).value; var f := n.live[0];
            && Linked(r) && r.live == n.live[1..] && r.v.Valid() && r.v.Depth() == n.v.Depth() + 1
            && n.v.psp <= |n.v.pstack| == |r.v.pstack| && r.v.psp < |r.v.pstack| && r.v.pstack[r.v.psp] == 0
            && r.v.pstack[n.v.psp..] == n.v.pstack[n.v.psp..]
            && f.Valid() && r.v.Returns() == f.Returns() && r.v.ip == f.ip && r.v.fp == f.fp
  {
    ComingBackRestores(n);
    hide DefaultCatcher;
  }

  /** What entering a caught word leaves on the return stack. */
  lemma {:induction false} CatchEnters(n: Nested, body: Word)
    requires n.v.Valid() && Next(n, CatchEvent).Some? && Next(Next(n, CatchEvent).value, Enter(body)).Some?
    ensures var n1 := Next(n, CatchEvent).value; var n2 := Next(n1, Enter(body)).value;
            && n1.v.Valid() && n2.v.Valid() && n2.live == n1.live == [Entered(n.v)] + n.live && n2.live[1..] == n.live
            && n2.v.rsp + 1 == n1.v.fp == n2.v.fp && n2.v.rsp < |n2.v.rstack| && n2.v.rstack[n2.v.rsp] == BOGUS
            && n2.live[0].Valid() && n2.live[0].Returns() == n.v.Returns() && n2.live[0].ip == n.v.ip && n2.live[0].fp == n.v.fp
  {
  }

  /** The end of a word whose caller's address is on top of the return stack, just above the frame. */
  lemma {:induction false} WordLeaves(n3: Nested, n1: Nested)
    requires Linked(n3) && n3.live == n1.live && n3.live != [] && n3.v.rsp + 1 == n3.v.fp
    requires n3.v.rstack[n3.v.rsp] == BOGUS
    ensures Next(n3, Leave).Some?
    ensures var n4 := Next(n3, Leave).value;
            n4 == n3.(v := n3.v.(ip := BOGUS, rsp := n3.v.rsp + 1)) && n4.v.Valid() && n4.v.Depth() == n3.v.Depth()
  {
  }

  /** A caught primitive, which leaves the instruction pointer alone, comes back at once. */
  lemma {:induction false} CaughtPrimitive(n: Nested, psp: nat, cells: seq<Word>)
    requires Linked(n) && Next(n, CatchEvent).Some? && |cells| == |n.v.pstack| && 0 < psp <= |cells|
    ensures var n1 := Next(n, CatchEvent).value;
            && Next(n1, Data(psp, cells)).Some? && Next(n1, Data(psp, cells)).value.v.ip == BOGUS
            && Next(Next(n1, Data(psp, cells)).value, ComeBack).Some?
  {
    NextLinked(n, CatchEvent);
    var n1 := Next(n, CatchEvent).value;
    NextLinked(n1, Data(psp, cells));
    ComingBackRestores(Next(n1, Data(psp, cells)).value);
    hide Chain, Catch;
  }

  /** A zero throw changes nothing, not even the data stack. */
  lemma {:induction false} ZeroThrow(n: Nested)
    requires n.v.Valid() && n.v.psp < |n.v.pstack| && n.v.pstack[n.v.psp] == 0
    ensures Next(n, ThrowEvent) == Some(n) && Throw(n.v) == Some(n.v)
  {
  }

  // The primitives

  class Exceptions {
    const pstack: array<Word>
    const rstack: array<Word>
    var psp: nat
    var rsp: nat
    var fp: nat
    var ip: Word

    constructor (psize: Word, rsize: Word)
      ensures Valid() && fresh(pstack) && fresh(rstack) && Snap().Depth() == 0 && rsp == rsize
    {
      pstack, rstack := new Word[psize](_ => 0), new Word[rsize](_ => 0);
      psp, rsp, fp, ip := psize, rsize, 0, 0;
    }

    ghost predicate Valid()
      reads this, pstack, rstack
    {
      pstack != rstack && Snap().Valid()
    }

    ghost function Snap(): Vm
      reads this, pstack, rstack
    {
      Vm(pstack[..], rstack[..], psp, rsp, fp, ip)
    }

    method PushReturn(cell: Word)
      requires Valid() && rsp > 0
      modifies this`rsp, rstack
      ensures Valid() && rsp == old(rsp) - 1
      ensures Snap() == old(Snap()).(rstack := old(rstack[..])[rsp := cell], rsp := rsp)
    {
      rsp := rsp - 1;
      rstack[rsp] := cell;
    }

    method PopReturn() returns (cell: Word)
      requires Valid() && rsp < rstack.Length
      modifies this`rsp
      ensures Valid() && cell == rstack[old(rsp)] && Snap() == old(Snap()).(rsp := old(rsp) + 1)
    {
      cell := rstack[rsp];
      rsp := rsp + 1;
    }

    method DoColon(body: Word)
      requires Valid() && Colon(Snap(), body).Some?
      modifies this, rstack
      ensures Valid() && Some(Snap()) == Colon(old(Snap()), body)
    {
      PushReturn(ip);
      ip := body;
    }

    method DoReturn()
      requires Valid() && Return(Snap()).Some?
      modifies this
      ensures Valid() && Some(Snap()) == Return(old(Snap()))
    {
      ip := PopReturn();
    }

    /** Returns the word to execute. */
    method DoCatch() returns (w: Word)
      requires Valid() && Catch(Snap()).Some?
      modifies this, rstack
      ensures Valid() && w == pstack[old(psp)] && Some(Snap()) == Catch(old(Snap()))
    {
      PushReturn(fp);
      PushReturn(ip);
      ip := BOGUS;
      w := pstack[psp];
      psp := psp + 1;
      PushReturn(psp);
      fp := rsp;
      assert rstack[..] == Catch(old(Snap())).value.rstack;
    }

    method DoThrow()
      requires Valid() && Throw(Snap()).Some?
      modifies this, pstack
      ensures Valid() && Some(Snap()) == Throw(old(Snap()))
    {
      var t := pstack[psp];
      if t != 0 {
        rsp := fp;
        psp := PopReturn();
        ip := PopReturn();
        fp := PopReturn();
        psp := psp - 1;
        pstack[psp] := t;
      }
    }

    method DoDefaultCatcher()
      requires Valid() && DefaultCatcher(Snap()).Some?
      modifies this, pstack
      ensures Valid() && Some(Snap()) == DefaultCatcher(old(Snap()))
    {
      rsp := rsp + 1;
      ip := PopReturn();
      fp := PopReturn();
      psp := psp - 1;
      pstack[psp] := 0;
    }
  }
}
