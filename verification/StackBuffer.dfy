/** A stack cache as the simulators keep it: a circular buffer changed in place, with its indices
    and external pointer. */
module StackBuffers {
  import opened Word32
  import opened Registers
  import opened StackCache

  class StackBuffer {
    const cells: array<Word>
    var top: Slot
    var over: Slot
    var under: Slot
    var external: Word

    constructor (s: Stk)
      requires s.Valid()
      ensures Valid() && Value() == s && fresh(cells)
    {
      cells := new Word[SIZE](i requires 0 <= i < SIZE => s.buf[i]);
      top, over, under, external := s.top, s.over, s.under, s.ext;
      new;
      assert cells[..] == s.buf;
    }

    ghost function Value(): Stk
      reads this, cells
    {
      Stk(cells[..], top, over, under, external)
    }

    ghost predicate Valid()
      reads this, cells
    {
      Value().Valid()
    }

    /** The entry `k` below the top. */
    method Get(k: int) returns (v: Word)
      requires Valid() && 0 <= k < SIZE
      ensures v == Value().Get(k)
    {
      var i := top - k;
      if i < 0 {
        i := i + SIZE;
      }
      v := cells[i];
    }

    method Put(k: int, v: Word)
      requires Valid() && 0 <= k < SIZE
      modifies cells
      ensures Valid() && Value() == old(Value()).Put(k, v)
    {
      var i := top - k;
      if i < 0 {
        i := i + SIZE;
      }
      cells[i] := v;
      assert Value().buf == old(Value()).Put(k, v).buf;
    }

    /** The oldest entry of a full buffer. */
    method Oldest() returns (v: Word)
      requires Valid()
      ensures v == Value().buf[Inc(top)]
    {
      v := cells[if top == SIZE - 1 then 0 else top + 1];
    }

    method Moved(i: Slot, op: StackOp) returns (j: Slot)
      ensures j == (match op case Keep => i case Push => Inc(i) case Pop => Dec(i))
    {
      j := i;
      if op.Push? {
        j := if i == SIZE - 1 then 0 else i + 1;
      } else if op.Pop? {
        j := if i == 0 then SIZE - 1 else i - 1;
      }
    }

    method Move(op: StackOp)
      requires Valid()
      modifies this`top
      ensures Valid()
      ensures Value() == (match op case Keep => old(Value()) case Push => old(Value()).PushTop() case Pop => old(Value()).PopTop())
    {
      top := Moved(top, op);
    }

    /** The markers after one more (Push) or one fewer (Pop) entry has gone to memory. */
    method MoveMarkers(op: StackOp)
      requires Valid() && !op.Keep?
      modifies this`over, this`under
      ensures Valid()
      ensures Value() == old(Value()).(over := if op.Push? then Inc(old(over)) else Dec(old(over)),
                                       under := if op.Push? then Inc(old(under)) else Dec(old(under)))
    {
      over := Moved(over, op);
      under := Moved(under, op);
    }

    method SetMarkers(t: Slot, o: Slot)
      requires Valid()
      modifies this`top, this`over, this`under
      ensures Valid()
      ensures Value() == old(Value()).(top := t, over := o, under := if o < 12 then o + 4 else o - 12)
    {
      top, over := t, o;
      under := if o < 12 then o + 4 else o - 12;
    }

    method SetExternal(a: Word)
      requires Valid()
      modifies this`external
      ensures Valid() && Value() == old(Value()).(ext := a)
    {
      external := a;
    }
  }
}
