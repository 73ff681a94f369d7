/** Counted loops: which indices the body sees, how often it runs, and that the outer loop comes
    back. Sections 6.1.1240, 6.1.1800, 6.1.0140, 6.1.1680 and 6.1.1730 of ANSI X3.215-1994. */
module ForthLoops {
  import opened Word32
  import opened InnerInterpreter

  /** One turn of a loop body: the states before and after it. The body may do anything that
      leaves the return stack and the loop registers as it found them. */
  datatype Iteration = Iteration(begin: St, end: St) {
    predicate Keeps() {
      end.rs == begin.rs && end.rinit == begin.rinit && end.rlimit == begin.rlimit
    }

    /** Nothing but `n` more entries on the data stack. */
    predicate Leaves(n: nat) {
      |end.ds| >= n && end.ds[n..] == begin.ds
    }
  }

  /** The iterations of a loop entered in state `s`, none of which but perhaps the last leaves it. */
  ghost predicate LoopRun(plus: bool, s: St, its: seq<Iteration>) {
    && |its| > 0 && DoEnter(s) == Some(its[0].begin)
    && (forall k | 0 <= k < |its| :: its[k].Keeps())
    && (forall k | 0 <= k < |its| - 1 :: TurnOf(plus, its[k].end) == Again(its[k + 1].begin))
  }

  /** How often `limit start do ... loop` runs its body. */
  function Trips(start: Word, limit: Word): int {
    if start == limit then TWO32 else Wrap(limit - start)
  }

  /** What holds in every iteration: the registers of the outer loop wait on the return stack. */
  lemma {:induction false} OuterWaits(plus: bool, s: St, its: seq<Iteration>, k: nat)
    requires LoopRun(plus, s, its) && k < |its|
    ensures its[k].begin.rs == [s.rinit, s.rlimit] + s.rs && its[k].begin.rlimit == Plus(s.ds[1], MSB)
  {
    if k > 0 {
      OuterWaits(plus, s, its, k - 1);
      assert its[k - 1].Keeps();
    }
  }

  /** Leaving a loop in an iteration brings the outer loop back. */
  lemma {:induction false} LeavingRestores(plus: bool, s: St, its: seq<Iteration>, k: nat)
    requires LoopRun(plus, s, its) && k < |its| && TurnOf(plus, its[k].end).Leave?
    ensures var out := TurnOf(plus, its[k].end).s;
            out.rs == s.rs && out.rinit == s.rinit && out.rlimit == s.rlimit && Index(out) == Index(s)
  {
    OuterWaits(plus, s, its, k);
    assert its[k].Keeps();
    assert ([s.rinit, s.rlimit] + s.rs)[2..] == s.rs;
  }

  /** A loop takes its limit and start, and one step in each iteration of `+loop`: bodies that leave nothing
      else find and leave the stack as it was below them; and memory is that of the bodies. */
  lemma {:induction false} LoopTakesTwo(plus: bool, s: St, its: seq<Iteration>, k: nat)
    requires LoopRun(plus, s, its) && k < |its|
    requires forall i | 0 <= i < |its| :: its[i].Leaves(if plus then 1 else 0)
    ensures |s.ds| >= 2 && its[k].begin.ds == s.ds[2..]
    ensures its[k].begin.mem == if k == 0 then s.mem else its[k - 1].end.mem
    ensures var t := TurnOf(plus, its[k].end); t.Leave? ==> t.s.ds == s.ds[2..] && t.s.mem == its[k].end.mem
  {
    if k > 0 {
      LoopTakesTwo(plus, s, its, k - 1);
      assert its[k - 1].Leaves(if plus then 1 else 0);
    }
    assert its[k].Leaves(if plus then 1 else 0);
    hide Plus, Minus, Neg;
  }

  /** The counter of iteration k, read without the bias. */
  lemma {:induction false} Counter(s: St, its: seq<Iteration>, k: nat)
    requires LoopRun(false, s, its) && k < |its|
    ensures k < Trips(s.ds[0], s.ds[1])
    ensures Signed(its[k].begin.rinit) == MSB - Trips(s.ds[0], s.ds[1]) + k
    ensures Index(its[k].begin) == Wrap(s.ds[0] + k)
  {
    hide Wrap, Signed, Trips;
    OuterWaits(false, s, its, k);
    if k == 0 {
      FirstCounter(s.ds[0], s.ds[1]);
      WrapIs(s.ds[0], s.ds[0], 0);
    } else {
      Counter(s, its, k - 1);
      var before, start := its[k - 1].begin, s.ds[0];
      assert its[k - 1].Keeps();
      assert LoopTurn(its[k - 1].end) == Again(its[k].begin);
      NextCounter(its[k - 1].end, Trips(s.ds[0], s.ds[1]), k - 1);
      hide *;
      NextIndex(before.rinit, before.rlimit, start + k - 1);
      IndexIs(before);
      IndexIs(its[k].begin);
    }
  }

  lemma {:induction false} FirstCounter(start: Word, limit: Word)
    ensures var rlimit := Plus(limit, MSB); var rinit := Minus(start, rlimit);
            Signed(rinit) == MSB - Trips(start, limit) && Plus(rinit, rlimit) == start && Trips(start, limit) > 0
  {
    var rlimit := if limit < MSB then limit + MSB else limit - MSB;
    var rinit := if start < rlimit then start - rlimit + TWO32 else start - rlimit;
    WrapIs(limit + MSB, rlimit, if limit < MSB then 0 else 1);
    WrapIs(start - rlimit, rinit, if start < rlimit then -1 else 0);
    WrapIs(limit - start, if limit < start then limit - start + TWO32 else limit - start, if limit < start then -1 else 0);
    WrapIs(rinit + rlimit, start, if start < rlimit then 1 else 0);
  }

  lemma {:induction false} NextCounter(s: St, trips: int, k: nat)
    requires LoopTurn(s).Again? && Signed(s.rinit) == MSB - trips + k && k < trips
    ensures k + 1 < trips && Signed(LoopTurn(s).s.rinit) == MSB - trips + k + 1
    ensures LoopTurn(s).s.rinit == Plus(s.rinit, 1)
  {
  }

  lemma {:induction false} NextIndex(rinit: Word, rlimit: Word, i: int)
    requires Plus(rinit, rlimit) == Wrap(i)
    ensures Plus(Plus(rinit, 1), rlimit) == Wrap(i + 1)
  {
    WrapShift(rinit + rlimit, i, 1);
    WrapPlus(rinit + 1, rlimit);
  }

  /** `limit start do ... loop` runs its body with the index start, start+1, ... modulo 2^32 and
      leaves after exactly limit-start iterations modulo 2^32, which is 2^32 if they are equal. */
  lemma {:induction false} DoLoopIndices(s: St, its: seq<Iteration>)
    requires LoopRun(false, s, its)
    ensures var n := Trips(s.ds[0], s.ds[1]);
            && 1 <= |its| <= n
            && (forall k | 0 <= k < |its| :: Index(its[k].begin) == Wrap(s.ds[0] + k))
            && (LoopTurn(its[|its| - 1].end).Leave? <==> |its| == n)
            && (LoopTurn(its[|its| - 1].end).Again? <==> |its| < n)
  {
    forall k | 0 <= k < |its|
      ensures Index(its[k].begin) == Wrap(s.ds[0] + k)
    {
      Counter(s, its, k);
    }
    var k := |its| - 1;
    Counter(s, its, k);
    OuterWaits(false, s, its, k);
    assert its[k].Keeps();
    hide LoopRun, Trips, Index;
    LastTurn(its[k].end, Trips(s.ds[0], s.ds[1]), k);
  }

  lemma {:induction false} LastTurn(s: St, trips: int, k: nat)
    requires |s.rs| >= 2 && Signed(s.rinit) == MSB - trips + k && k < trips
    ensures LoopTurn(s).Leave? <==> k + 1 == trips
    ensures LoopTurn(s).Again? <==> k + 1 < trips
  {
  }

  // Loops with a step

  /** Going from index `i` by `t` unit steps passes between limit-1 and limit. */
  ghost predicate Crosses(i: Word, t: int, limit: Word) {
    if t < 0 then exists j: nat :: j < -t && UnitCrosses(i, true, j, limit)
    else exists j: nat :: j < t && UnitCrosses(i, false, j, limit)
  }

  /** Unit step `j` on the way from `i` goes from limit to limit-1, or upward from limit-1 to limit. */
  predicate UnitCrosses(i: Word, down: bool, j: nat, limit: Word) {
    if down then Wrap(i - j) == limit else Wrap(i + j) == Wrap(limit - 1)
  }

  /** The limit that the biased register stands for. */
  function LimitOf(s: St): Word {
    Minus(s.rlimit, MSB)
  }

  /** How far the index is past the limit, going up. */
  function Past(i: Word, limit: Word): Word {
    Minus(i, limit)
  }

  lemma {:induction false} PastIs(i: Word, limit: Word)
    ensures Past(i, limit) == i - limit + if i < limit then TWO32 else 0
  {
    WrapIs(i - limit, i - limit + if i < limit then TWO32 else 0, if i < limit then -1 else 0);
  }

  lemma {:induction false} CrossesUp(i: Word, t: int, limit: Word)
    requires 0 <= t < TWO32
    ensures Crosses(i, t, limit) <==> Past(i, limit) + t >= TWO32
  {
    hide Past, UnitCrosses;
    var u := Past(i, limit);
    if u + t >= TWO32 {
      UnitUp(i, TWO32 - 1 - u, limit);
    }
    if Crosses(i, t, limit) {
      var j: nat :| j < t && UnitCrosses(i, false, j, limit);
      UnitUp(i, j, limit);
    }
  }

  lemma {:induction false} UnitUp(i: Word, j: nat, limit: Word)
    requires j < TWO32
    ensures UnitCrosses(i, false, j, limit) <==> Past(i, limit) + j == TWO32 - 1
  {
    PastIs(i, limit);
    hide Past;
    if Wrap(i + j) == Wrap(limit - 1) {
      WrapApart(i + j, limit - 1);
    }
    if Past(i, limit) + j == TWO32 - 1 {
      WrapMultiple(limit - 1, if i < limit then 0 else 1);
    }
  }

  lemma {:induction false} CrossesDown(i: Word, t: int, limit: Word)
    requires -TWO32 < t < 0
    ensures Crosses(i, t, limit) <==> Past(i, limit) + t < 0
  {
    hide Past, UnitCrosses;
    var u := Past(i, limit);
    if u + t < 0 {
      UnitDown(i, u, limit);
    }
    if Crosses(i, t, limit) {
      var j: nat :| j < -t && UnitCrosses(i, true, j, limit);
      UnitDown(i, j, limit);
    }
  }

  lemma {:induction false} UnitDown(i: Word, j: nat, limit: Word)
    requires j < TWO32
    ensures UnitCrosses(i, true, j, limit) <==> Past(i, limit) == j
  {
    PastIs(i, limit);
    hide Past;
    if Wrap(i - j) == limit {
      WrapApart(i - j, limit);
    }
    if Past(i, limit) == j {
      WrapIs(i - j, limit, if i < limit then -1 else 0);
    }
  }

  lemma {:induction false} BiasIsPast(s: St)
    ensures Past(Index(s), LimitOf(s)) == Signed(s.rinit) + MSB
  {
    var sum, low := s.rinit + s.rlimit, s.rlimit - MSB;
    var i := if sum < TWO32 then sum else sum - TWO32;
    var limit := if low < 0 then low + TWO32 else low;
    WrapIs(sum, i, if sum < TWO32 then 0 else 1);
    WrapIs(low, limit, if low < 0 then -1 else 0);
    PastIs(i, limit);
  }

  /** `+loop` leaves exactly when the step, taken as unit steps, crosses the boundary between
      limit-1 and limit in either direction; otherwise the index moves by the signed step. */
  lemma {:induction false} PlusLoopCrosses(s: St)
    requires |s.ds| > 0 && |s.rs| >= 2
    ensures var t := Signed(s.ds[0]); var turn := PlusLoopTurn(s);
            && (turn.Leave? <==> Crosses(Index(s), t, LimitOf(s)))
            && (turn.Again? <==> !Crosses(Index(s), t, LimitOf(s)))
            && (turn.Again? ==> Index(turn.s) == Wrap(Index(s) + t) && LimitOf(turn.s) == LimitOf(s)
                                && turn.s.ds == s.ds[1..] && turn.s.rs == s.rs)
            && (turn.Leave? ==> turn.s.rinit == s.rs[0] && turn.s.rlimit == s.rs[1] && turn.s.rs == s.rs[2..]
                                && turn.s.ds == s.ds[1..])
  {
    var t := Signed(s.ds[0]);
    BiasIsPast(s);
    if t >= 0 {
      CrossesUp(Index(s), t, LimitOf(s));
    } else {
      CrossesDown(Index(s), t, LimitOf(s));
    }
    hide Crosses, Past, LimitOf;
    StepSign(s.rinit, s.ds[0]);
    hide Index;
    MovedIndex(s.rinit, s.rlimit, s.ds[0]);
    assert PlusLoopTurn(s).Again? ==> PlusLoopTurn(s).s.rinit == Plus(s.rinit, s.ds[0]);
    assert Index(s) == Plus(s.rinit, s.rlimit) by { IndexIs(s); }
    if PlusLoopTurn(s).Again? {
      IndexIs(PlusLoopTurn(s).s);
      SameLimit(s, PlusLoopTurn(s).s);
    }
  }

  lemma {:induction false} IndexIs(s: St)
    ensures Index(s) == Plus(s.rinit, s.rlimit)
  {
  }

  lemma {:induction false} SameLimit(s: St, s1: St)
    requires s.rlimit == s1.rlimit
    ensures LimitOf(s) == LimitOf(s1)
  {
  }

  /** The sign test of `+loop` is signed overflow of the biased counter. */
  lemma {:induction false} StepSign(r: Word, t: Word)
    ensures var r1 := Plus(r, t);
            && (Neg(t) && Neg(r) && !Neg(r1) <==> Signed(t) < 0 && Signed(r) + Signed(t) < -MSB)
            && (!Neg(t) && !Neg(r) && Neg(r1) <==> Signed(t) >= 0 && Signed(r) + Signed(t) >= MSB)
  {
  }

  lemma {:induction false} MovedIndex(rinit: Word, rlimit: Word, t: Word)
    ensures Plus(Plus(rinit, t), rlimit) == Wrap(Plus(rinit, rlimit) + Signed(t))
  {
    WrapPlus(rinit + t, rlimit);
    WrapPlus(rinit + rlimit, Signed(t));
    WrapMultiple(rinit + rlimit + Signed(t), if Neg(t) then 1 else 0);
    assert rinit + t + rlimit == rinit + rlimit + Signed(t) + TWO32 * (if Neg(t) then 1 else 0);
    hide Wrap, Signed;
  }

  /** In a loop inside another, the two cells on top of the return stack add up to the index of
      the outer loop, as `j` takes it. */
  lemma {:induction false} JIsOuterIndex(plus: bool, s: St, its: seq<Iteration>, k: nat)
    requires LoopRun(plus, s, its) && k < |its|
    ensures |its[k].begin.rs| >= 2 && Plus(its[k].begin.rs[0], its[k].begin.rs[1]) == Index(s)
  {
    OuterWaits(plus, s, its, k);
  }
}
