/** The state of the Forth inner interpreter and its loop primitives. */
module InnerInterpreter {
  import opened Word32

  /** Data and return stack, top first, the two loop registers, and data memory. */
  datatype St = St(ds: seq<Word>, rs: seq<Word>, rinit: Word, rlimit: Word, mem: map<Word, Word>)

  function Push(s: St, v: Word): St {
    s.(ds := [v] + s.ds)
  }

  /** `(do)`: the outer loop's registers go to the return stack; the new ones are biased so that
      the index crosses the limit where the counter changes sign. */
  function DoEnter(s: St): Option<St> {
    if |s.ds| < 2 then None
    else
      var rlimit := Plus(s.ds[1], MSB);
      Some(s.(ds := s.ds[2..], rs := [s.rinit, s.rlimit] + s.rs, rinit := Minus(s.ds[0], rlimit), rlimit := rlimit))
  }

  /** The outer loop's registers come back. */
  function Unloop(s: St): Option<St> {
    if |s.rs| < 2 then None else Some(s.(rs := s.rs[2..], rinit := s.rs[0], rlimit := s.rs[1]))
  }

  /** What ends an iteration: leave the loop, or go round again with a new counter. */
  datatype Turn = Leave(s: St) | Again(s: St) | Underflow

  function LeaveLoop(s: St): Turn {
    match Unloop(s)
    case Some(s1) => Leave(s1)
    case None => Underflow
  }

  /** `(loop)`: leave when the counter's sign bit turns on. */
  function LoopTurn(s: St): Turn {
    var newrinit := Plus(s.rinit, 1);
    if !Neg(s.rinit) && Neg(newrinit) then LeaveLoop(s) else Again(s.(rinit := newrinit))
  }

  /** `(+loop)`: leave when the counter overflows by the step, in either direction. */
  function PlusLoopTurn(s: St): Turn {
    if |s.ds| < 1 then Underflow
    else
      var t := s.ds[0];
      var newrinit := Plus(s.rinit, t);
      var s1 := s.(ds := s.ds[1..]);
      if (Neg(t) && Neg(s.rinit) && !Neg(newrinit)) || (!Neg(t) && !Neg(s.rinit) && Neg(newrinit))
      then LeaveLoop(s1)
      else Again(s1.(rinit := newrinit))
  }

  /** The loop index, `i`. */
  function Index(s: St): Word {
    Plus(s.rinit, s.rlimit)
  }

  /** What ends an iteration: `loop` or `+loop`. */
  function TurnOf(plus: bool, s: St): Turn {
    if plus then PlusLoopTurn(s) else LoopTurn(s)
  }
}
