/** Numbers as text: pictured output with `#` and `#s`, input with `digit` and `>number`, and that
    the one undoes the other. Sections 6.1.0030, 6.1.0050 and 6.1.0570 of ANSI X3.215-1994. */
module ForthNumbers {
  import opened Word32
  import opened Powers
  import opened Bits
  import opened Division
  import opened ForthArithmetic
  import opened ForthWords

  predicate Base(b: Word) {
    2 <= b <= 36
  }

  /** The character of a digit: 0-9, then a-z. */
  function CharOf(d: int): Byte
    requires 0 <= d < 36
  {
    if d > 9 then d + 0x27 + 0x30 else d + 0x30
  }

  /** The digits of a number, most significant first. */
  function Digits(v: nat, b: Word): (s: seq<Byte>)
    requires Base(b)
    ensures |s| >= 1
    decreases v
  {
    if v < b then [CharOf(v)] else Digits(v / b, b) + [CharOf(v % b)]
  }

  /** A character in upper case, counted from `0`. */
  function DigitShift(c: Word): Word {
    Wrap((if c > 0x60 then c - 32 else c) - 0x30)
  }

  /** The value of a character in a base, letters of either case; None if it is not a digit. */
  function DigitOf(c: Word, b: Word): Option<Word> {
    var d := DigitShift(c);
    if Signed(d) > 9 && Signed(d) < 0x11 then None
    else
      var e := if d > 9 then Minus(d, 7) else d;
      if e > Minus(b, 1) then None else Some(e)
  }

  /** The digits are 0-9 and the letters of either case, below the base; no other cell is one. */
  lemma {:induction false} DigitsOnly(c: Word, b: Word)
    requires Base(b)
    ensures DigitOf(c, b) == if 0x30 <= c <= 0x39 && c - 0x30 < b then Some(c - 0x30)
                             else if 0x41 <= c <= 0x5A && c - 0x37 < b then Some(c - 0x37)
                             else if 0x61 <= c <= 0x7A && c - 0x57 < b then Some(c - 0x57)
                             else None
  {
    var e := (if c > 0x60 then c - 32 else c) - 0x30;
    WrapIs(e, if e < 0 then e + TWO32 else e, if e < 0 then -1 else 0);
    WrapIs(b - 1, b - 1, 0);
    if e < 0 {
      WrapIs(e + TWO32 - 7, e + TWO32 - 7, 0);
    } else if e > 9 {
      WrapIs(e - 7, e - 7, 0);
    }
    hide Wrap;
  }

  /** The number that the leading digits of a text add to `acc`, modulo 2^64, and how many they are. */
  function NumberOf(s: seq<Byte>, b: Word, acc: int): (r: (int, nat))
    ensures r.1 <= |s|
    decreases |s|
  {
    if s == [] then (acc, 0)
    else
      match DigitOf(s[0], b)
      case None => (acc, 0)
      case Some(d) => (var (v, n) := NumberOf(s[1..], b, Wrap2(Wrap2(acc * b) + d)); (v, n + 1))
  }

  lemma {:induction false} NumberStep(s: seq<Byte>, b: Word, acc: int)
    ensures if s != [] && DigitOf(s[0], b).Some? then
              var (v, n) := NumberOf(s[1..], b, Wrap2(Wrap2(acc * b) + DigitOf(s[0], b).value));
              NumberOf(s, b, acc) == (v, n + 1)
            else NumberOf(s, b, acc) == (acc, 0)
  {
    hide DigitOf, Wrap2;
  }

  /** The digits above nine are small letters. */
  lemma {:induction false} DigitCharacters(d: int)
    requires 0 <= d < 36
    ensures CharOf(d) == if d < 10 then 0x30 + d else 0x61 + (d - 10)
  {
  }

  lemma {:induction false} DigitOfChar(d: int, b: Word)
    requires Base(b) && 0 <= d < b
    ensures DigitOf(CharOf(d), b) == Some(d)
  {
    var c := CharOf(d);
    var e := (if c > 0x60 then c - 32 else c) - 0x30;
    WrapIs(e, e, 0);
    WrapIs(b - 1, b - 1, 0);
    if d > 9 {
      WrapIs(e - 7, e - 7, 0);
    }
  }

  /** One more digit at the end of a text that is all digits. */
  lemma {:induction false} NumberAppend(s: seq<Byte>, c: Byte, t: seq<Byte>, b: Word, acc: int, d: Word)
    requires NumberOf(s, b, acc).1 == |s| && DigitOf(c, b) == Some(d)
    ensures var x := Wrap2(Wrap2(NumberOf(s, b, acc).0 * b) + d);
            NumberOf(s + [c] + t, b, acc) == (var (v, n) := NumberOf(t, b, x); (v, n + |s| + 1))
    decreases |s|
  {
    hide Wrap2, DigitOf;
    if s == [] {
      assert s + [c] + t == [c] + t;
      assert ([c] + t)[1..] == t;
    } else {
      var d0 := DigitOf(s[0], b).value;
      assert (s + [c] + t)[1..] == s[1..] + [c] + t && (s + [c] + t)[0] == s[0];
      NumberAppend(s[1..], c, t, b, Wrap2(Wrap2(acc * b) + d0), d);
    }
  }

  lemma {:induction false} Wrap2Same(x: int)
    requires 0 <= x < TWO64
    ensures Wrap2(x) == x
  {
  }

  /** The digits of a number read back as the number, up to what follows them. */
  lemma {:induction false} DigitsReadBack(v: nat, b: Word, t: seq<Byte>)
    requires Base(b) && v < TWO64
    ensures NumberOf(Digits(v, b) + t, b, 0)
            == (var (x, n) := NumberOf(t, b, v); (x, n + |Digits(v, b)|))
    decreases v
  {
    hide Wrap2, DigitOf, CharOf, NumberOf, Digits;
    NextDigits(v, b);
    var d := v % b;
    var c := CharOf(d);
    DigitOfChar(d, b);
    Wrap2Same(v);
    if v < b {
      QuotientIs(v, b, 0, v);
      assert Digits(v, b) == [] + [c];
      Wrap2Same(0);
      NumberNone(b, 0);
      NumberAppend([], c, t, b, 0, d);
    } else {
      Smaller(v, b);
      DigitsReadBack(v / b, b, []);
      assert Digits(v / b, b) + [] == Digits(v / b, b);
      Wrap2Same((v / b) * b);
      NumberNone(b, v / b);
      NumberAppend(Digits(v / b, b), c, t, b, 0, d);
    }
  }

  lemma {:induction false} NumberNone(b: Word, acc: int)
    ensures NumberOf([], b, acc) == (acc, 0)
  {
  }

  lemma {:induction false} Smaller(v: nat, b: Word)
    requires b >= 2 && v >= b
    ensures 0 < v / b < v && v == (v / b) * b + v % b && 0 <= (v / b) * b <= v
  {
  }

  /** `#s` and then `>number` in the same base give back every unsigned double number, and consume
      every character. */
  lemma {:induction false} RoundTrip(v: nat, b: Word)
    requires Base(b) && v < TWO64
    ensures NumberOf(Digits(v, b), b, 0) == (v, |Digits(v, b)|)
  {
    DigitsReadBack(v, b, []);
    assert Digits(v, b) + [] == Digits(v, b);
  }

  /** Different numbers have different digits. */
  lemma {:induction false} DigitsInjective(v: nat, w: nat, b: Word)
    requires Base(b) && v < TWO64 && w < TWO64 && Digits(v, b) == Digits(w, b)
    ensures v == w
  {
    RoundTrip(v, b);
    RoundTrip(w, b);
  }

  lemma {:induction false} DigitCount(v: nat, b: Word, n: nat)
    requires Base(b) && v < Pow2(n) && n >= 1
    ensures |Digits(v, b)| <= n
    decreases v
  {
    assert n == 1 ==> Pow2(n) == 2;
    if v >= b {
      Smaller(v, b);
      Halved(v, b, Pow2(n - 1));
      DigitCount(v / b, b, n - 1);
    }
  }

  lemma {:induction false} Halved(v: nat, b: Word, p: int)
    requires b >= 2 && v < 2 * p
    ensures v / b < p
  {
    assert v >= b * (v / b);
    AtLeast(v / b, b, 2);
  }

  /** An unsigned double number has at most 64 digits in any base. */
  lemma {:induction false} SixtyFourDigits(v: nat, b: Word)
    requires Base(b) && v < TWO64
    ensures |Digits(v, b)| <= 64
  {
    Pow2At32();
    Pow2Split(32, 32);
    DigitCount(v, b, 64);
  }

  // The words

  class NumberWords {
    const w: Words
    const bytes: array<Byte>
    var base: Word
    var hld: Word

    constructor (size: Word)
      ensures Valid() && fresh(w) && fresh(bytes) && base == 10 && hld == bytes.Length == size
    {
      w := new Words();
      bytes := new Byte[size](_ => 0);
      base, hld := 10, size;
    }

    ghost predicate Valid()
      reads this
    {
      bytes.Length < TWO32 && hld <= bytes.Length
    }

    /** `hold`: ( c -- ) a character in front of the text held so far. */
    method Hold()
      requires Valid() && |w.ds| >= 1 && hld > 0
      modifies this`hld, w`ds, bytes
      ensures Valid() && hld == old(hld) - 1 && w.ds == old(w.ds)[1..]
      ensures bytes[..] == old(bytes[..])[hld := old(w.ds)[0] % 256]
    {
      hld := hld - 1;
      bytes[hld] := w.ds[0] % 256;
      w.ds := w.ds[1..];
    }

    /** `#`: ( ud -- ud' ) the next digit is held, least significant first. */
    method Sharp()
      requires Valid() && Base(base) && |w.ds| >= 2 && hld > 0
      modifies this`hld, w, bytes
      ensures Valid() && hld == old(hld) - 1 && w.rs == old(w.rs)
      ensures |w.ds| == old(|w.ds|) && w.ds[2..] == old(w.ds)[2..]
      ensures var v := old(Double(w.ds[0], w.ds[1]));
              && Double(w.ds[0], w.ds[1]) == v / base
              && bytes[..] == old(bytes[..])[hld := CharOf(v % base)]
    {
      ghost var v, rest := Double(w.ds[0], w.ds[1]), w.ds[2..];
      w.Literal(base);
      w.MSlashMMod();
      ghost var h, l, d := w.ds[0], w.ds[1], w.ds[2];
      assert w.ds == [h, l, d] + rest;
      DoubleQuotient(v, base, Double(h, l), d);
      w.Rot();
      assert w.ds == [d, h, l] + rest;
      ToChar(d, [h, l] + rest);
      Hold();
      assert w.ds == [h, l] + rest;
    }

    /** The end of `#`: the character of a digit. */
    method ToChar(ghost d: Word, ghost rest: seq<Word>)
      requires w.ds == [d] + rest && d < 36
      modifies w
      ensures w.ds == [CharOf(d)] + rest && w.rs == old(w.rs)
    {
      w.Literal(9);
      w.Over();
      w.Less();
      var flag := w.Flag();
      assert w.ds == [d] + rest;
      if flag != 0 {
        w.Literal(0x27);
        w.Add();
      }
      w.Literal(0x30);
      w.Add();
      CharFits(d);
    }

    /** `#s`: ( ud -- 0 0 ) all digits are held. */
    method SharpS()
      requires Valid() && Base(base) && |w.ds| >= 2 && hld >= 64
      modifies this`hld, w, bytes
      ensures Valid() && w.rs == old(w.rs) && |w.ds| == old(|w.ds|) && w.ds[2..] == old(w.ds)[2..]
      ensures w.ds[0] == 0 && w.ds[1] == 0
      ensures var s := Digits(old(Double(w.ds[0], w.ds[1])), base);
              && |s| <= 64 && hld == old(hld) - |s|
              && bytes[hld..old(hld)] == s && bytes[..hld] == old(bytes[..])[..hld] && bytes[old(hld)..] == old(bytes[hld..])
    {
      ghost var v := Double(w.ds[0], w.ds[1]);
      SixtyFourDigits(v, base);
      ghost var done: seq<Byte> := [];
      while true
        invariant Valid() && w.rs == old(w.rs) && |w.ds| == old(|w.ds|) && w.ds[2..] == old(w.ds)[2..]
        invariant hld == old(hld) - |done|
        invariant bytes[hld..old(hld)] == done && bytes[..hld] == old(bytes[..])[..hld] && bytes[old(hld)..] == old(bytes[hld..])
        invariant Digits(Double(w.ds[0], w.ds[1]), base) + done == Digits(v, base)
        decreases Double(w.ds[0], w.ds[1])
      {
        ghost var x := Double(w.ds[0], w.ds[1]);
        assert |Digits(x, base)| >= 1;
        Sharp();
        ghost var c := CharOf(x % base);
        assert bytes[hld..old(hld)] == [c] + done;
        NextDigits(x, base);
        done := [c] + done;
        OrZero(w.ds[1], w.ds[0]);
        w.TwoDup();
        OrSwaps(w.ds[1], w.ds[0]);
        w.OrWord();
        w.ZeroEquals();
        var finished := w.Flag();
        if finished != 0 {
          break;
        }
      }
    }

    /** `digit`: ( c -- d true | false ) with the flag as the result. */
    method Digit() returns (ok: bool)
      requires |w.ds| >= 1
      modifies w`ds
      ensures var d := DigitOf(old(w.ds)[0], base);
              ok == d.Some? && w.ds == (if ok then [d.value] else []) + old(w.ds)[1..]
    {
      ghost var c: Word, rest := w.ds[0], w.ds[1..];
      Unshift();
      ghost var d := DigitShift(c);
      assert w.ds == [d] + rest;
      var between := Between();
      if between != 0 {
        w.Drop();
        return false;
      }
      Letter();
      ghost var e := if d > 9 then Minus(d, 7) else d;
      assert w.ds == [e] + rest;
      w.Dup();
      w.Literal(base);
      w.OneMinus();
      w.UGreater();
      var beyond := w.Flag();
      assert w.ds == [e] + rest;
      if beyond != 0 {
        w.Drop();
      }
      return beyond == 0;
    }

    /** Upper case, and down to zero for the digits. */
    method Unshift()
      requires |w.ds| >= 1
      modifies w`ds
      ensures w.ds == [DigitShift(old(w.ds)[0])] + old(w.ds)[1..]
    {
      ghost var c, rest := w.ds[0], w.ds[1..];
      assert w.ds == [c] + rest;
      Capital(c, rest);
      Reduce(0x30, if c > 0x60 then Minus(c, 32) else c, rest);
      ShiftedDigit(c);
    }

    /** Lower case becomes upper case. */
    method Capital(ghost c: Word, ghost rest: seq<Word>)
      requires w.ds == [c] + rest
      modifies w`ds
      ensures w.ds == [if c > 0x60 then Minus(c, 32) else c] + rest
    {
      var lower := Exceeds(0x60, c, rest);
      if lower {
        Reduce(32, c, rest);
      }
    }

    method Exceeds(k: Word, ghost c: Word, ghost rest: seq<Word>) returns (more: bool)
      requires w.ds == [c] + rest
      modifies w`ds
      ensures w.ds == [c] + rest && more == (c > k)
    {
      w.Dup();
      assert w.ds == [c, c] + rest;
      w.Literal(k);
      assert w.ds == [k, c, c] + rest;
      w.UGreater();
      var flag := w.Flag();
      more := flag != 0;
    }

    method Reduce(k: Word, ghost c: Word, ghost rest: seq<Word>)
      requires w.ds == [c] + rest
      modifies w`ds
      ensures w.ds == [Minus(c, k)] + rest
    {
      hide Minus;
      w.Literal(k);
      assert w.ds == [k, c] + rest;
      w.Sub();
    }

    /** The flag of the characters between the digits and the letters. */
    method Between() returns (f: Word)
      requires |w.ds| >= 1
      modifies w`ds
      ensures w.ds == old(w.ds) && (f != 0 <==> 9 < Signed(w.ds[0]) < 0x11)
    {
      ghost var d, rest := w.ds[0], w.ds[1..];
      w.Dup();
      w.Literal(9);
      w.Greater();
      assert w.ds == [Truth(Signed(d) > Signed(9)), d] + rest;
      w.Over();
      w.Literal(0x11);
      w.Less();
      assert w.ds == [Truth(Signed(d) < Signed(0x11)), Truth(Signed(d) > Signed(9)), d] + rest;
      w.AndWord();
      AndFlag(Signed(d) > Signed(9), Truth(Signed(d) < Signed(0x11)));
      f := w.Flag();
      assert w.ds == [d] + rest;
    }

    /** Letters come after the digits. */
    method Letter()
      requires |w.ds| >= 1
      modifies w`ds
      ensures var d := old(w.ds)[0]; w.ds == [if d > 9 then Minus(d, 7) else d] + old(w.ds)[1..]
    {
      ghost var d, rest := w.ds[0], w.ds[1..];
      assert w.ds == [d] + rest;
      var letter := Exceeds(9, d, rest);
      if letter {
        Reduce(7, d, rest);
      }
    }

    /** `c@`: ( addr -- c ) */
    method CFetch()
      requires |w.ds| >= 1 && w.ds[0] < bytes.Length
      modifies w`ds
      ensures w.ds == [bytes[old(w.ds)[0]]] + old(w.ds)[1..]
    {
      w.ds := [bytes[w.ds[0]]] + w.ds[1..];
    }

    /** `>number`: ( ud addr u -- ud' addr' u' ) the leading digits are added to ud; what is left of
        the text starts at the first character that is not a digit. */
    method ToNumber()
      requires Valid() && |w.ds| >= 4 && w.ds[0] + w.ds[1] <= bytes.Length
      modifies w
      ensures w.rs == old(w.rs) && |w.ds| == old(|w.ds|) && w.ds[4..] == old(w.ds)[4..]
      ensures var u, addr := old(w.ds[0]), old(w.ds[1]);
              var (v, n) := NumberOf(bytes[addr..addr + u], base, old(Double(w.ds[2], w.ds[3])));
              w.ds[0] == u - n && w.ds[1] == addr + n && Double(w.ds[2], w.ds[3]) == v
    {
      hide NumberOf, Wrap2, Double, DigitOf;
      ghost var rest, rs0, b := w.ds[4..], w.rs, base;
      ghost var u: Word, addr: Word, h: Word, l: Word := w.ds[0], w.ds[1], w.ds[2], w.ds[3];
      ghost var end := addr + u;
      ghost var all := NumberOf(bytes[addr..end], b, Double(h, l));
      ghost var done: nat := 0;
      assert w.ds == [u, addr, h, l] + rest;
      var again := true;
      while again
        invariant w.ds == [u, addr, h, l] + rest && w.rs == rs0 && b == base
        invariant addr + u == end <= bytes.Length && u == old(w.ds[0]) - done
        invariant var (v, n) := NumberOf(bytes[addr..end], b, Double(h, l)); (v, n + done) == all
        invariant !again ==> NumberOf(bytes[addr..end], b, Double(h, l)) == (Double(h, l), 0)
        decreases again, u
      {
        NumberStep(bytes[addr..end], b, Double(h, l));
        if u > 0 {
          assert bytes[addr..end][0] == bytes[addr] && bytes[addr..end][1..] == bytes[addr + 1..end];
        }
        again := Turn(u, addr, h, l, rest, rs0);
        if again {
          ghost var v := Double(h, l);
          u, addr, h, l := w.ds[0], w.ds[1], w.ds[2], w.ds[3];
          done := done + 1;
          assert w.ds == [u, addr, h, l] + rest;
        }
      }
    }

    /** One turn of `>number`; it goes on if there was a digit. */
    method Turn(ghost u: Word, ghost addr: Word, ghost h: Word, ghost l: Word, ghost rest: seq<Word>, ghost rs0: seq<Word>)
      returns (again: bool)
      requires Valid() && w.ds == [u, addr, h, l] + rest && w.rs == rs0 && addr + u <= bytes.Length
      modifies w
      ensures w.rs == rs0
      ensures again <==> u > 0 && DigitOf(bytes[addr], base).Some?
      ensures !again ==> w.ds == [u, addr, h, l] + rest
      ensures again ==> |w.ds| == |rest| + 4 && w.ds[4..] == rest && w.ds[0] == u - 1 && w.ds[1] == addr + 1
                        && Double(w.ds[2], w.ds[3]) == Wrap2(Wrap2(Double(h, l) * base) + DigitOf(bytes[addr], base).value)
    {
      hide Wrap2, Double, DigitOf;
      w.Dup();
      w.ToR();
      var more := w.Flag();
      assert w.ds == [addr, h, l] + rest && w.rs == [u] + rs0;
      if more == 0 {
        w.RFrom();
        assert w.ds == [u, addr, h, l] + rest && w.rs == rs0;
        return false;
      }
      w.Dup();
      assert w.ds == [addr, addr, h, l] + rest;
      again := TurnCharacter(u, addr, h, l, rest, rs0);
    }

    /** The character of a turn. */
    method TurnCharacter(ghost u: Word, ghost addr: Word, ghost h: Word, ghost l: Word, ghost rest: seq<Word>, ghost rs0: seq<Word>)
      returns (again: bool)
      requires Valid() && w.ds == [addr, addr, h, l] + rest && w.rs == [u] + rs0 && u > 0 && addr + u <= bytes.Length
      modifies w
      ensures w.rs == rs0 && (again <==> DigitOf(bytes[addr], base).Some?)
      ensures !again ==> w.ds == [u, addr, h, l] + rest
      ensures again ==> |w.ds| == |rest| + 4 && w.ds[4..] == rest && w.ds[0] == u - 1 && w.ds[1] == addr + 1
                        && Double(w.ds[2], w.ds[3]) == Wrap2(Wrap2(Double(h, l) * base) + DigitOf(bytes[addr], base).value)
    {
      hide Wrap2, Double, DigitOf;
      w.ToR();
      assert w.ds == [addr, h, l] + rest && w.rs == [addr, u] + rs0;
      CFetch();
      ghost var c: Word := bytes[addr];
      assert w.ds == [c, h, l] + rest;
      again := Digit();
      if !again {
        assert w.ds == [h, l] + rest;
        w.RFrom();
        w.RFrom();
        assert w.ds == [u, addr, h, l] + rest && w.rs == rs0;
      } else {
        ghost var d := DigitOf(bytes[addr], base).value;
        assert w.ds == [d, h, l] + rest;
        TakeDigit(u, addr, h, l, d, rest, rs0);
      }
    }

    /** The end of a turn of `>number`: the digit is taken in and the text moves on. */
    method TakeDigit(ghost u: Word, ghost addr: Word, ghost h: Word, ghost l: Word, ghost d: Word,
                     ghost rest: seq<Word>, ghost rs0: seq<Word>)
      requires w.ds == [d, h, l] + rest && w.rs == [addr, u] + rs0 && u > 0 && addr < TWO32 - 1
      modifies w
      ensures w.rs == rs0 && |w.ds| == |rest| + 4 && w.ds[4..] == rest && w.ds[0] == u - 1 && w.ds[1] == addr + 1
      ensures Double(w.ds[2], w.ds[3]) == Wrap2(Wrap2(Double(h, l) * base) + d)
    {
      AddDigit(h, l, d, rest, [addr, u] + rs0);
      ghost var h1, l1 := w.ds[0], w.ds[1];
      assert w.ds == [h1, l1] + rest;
      w.RFrom();
      w.OnePlus();
      assert w.ds == [Plus(addr, 1), h1, l1] + rest && w.rs == [u] + rs0;
      w.RFrom();
      w.OneMinus();
      WrapIs(addr + 1, addr + 1, 0);
      WrapIs(u - 1, u - 1, 0);
      assert w.ds == [Minus(u, 1), Plus(addr, 1), h1, l1] + rest;
    }

    /** The number so far times the base, the digit put away. */
    method TimesBase(ghost h: Word, ghost l: Word, ghost d: Word, ghost rest: seq<Word>, ghost rs0: seq<Word>)
      requires w.ds == [d, h, l] + rest && w.rs == rs0
      modifies w
      ensures w.rs == [d] + rs0 && |w.ds| == |rest| + 2 && w.ds == [w.ds[0], w.ds[1]] + rest
      ensures Double(w.ds[0], w.ds[1]) == Wrap2(Double(h, l) * base)
    {
      w.ToR();
      w.Literal(base);
      assert w.ds == [base, h, l] + rest;
      w.UmStarM();
    }

    /** The number so far times the base plus a digit. */
    method AddDigit(ghost h: Word, ghost l: Word, ghost d: Word, ghost rest: seq<Word>, ghost rs0: seq<Word>)
      requires w.ds == [d, h, l] + rest && w.rs == rs0
      modifies w
      ensures w.rs == rs0 && |w.ds| == |rest| + 2 && w.ds[2..] == rest
      ensures Double(w.ds[0], w.ds[1]) == Wrap2(Wrap2(Double(h, l) * base) + d)
    {
      TimesBase(h, l, d, rest, rs0);
      ghost var h1, l1 := w.ds[0], w.ds[1];
      assert Double(0, d) == d;
      w.RFrom();
      w.Literal(0);
      assert w.ds == [0, d, h1, l1] + rest;
      w.DPlus();
    }
  }

  lemma {:induction false} DoubleQuotient(v: nat, b: Word, q: int, d: Word)
    requires v == b * q + d && d < b
    ensures v / b == q && v % b == d
  {
    QuotientIs(v, b, q, d);
  }

  lemma {:induction false} CharFits(d: Word)
    requires d < 36
    ensures Signed(9) < Signed(d) <==> d > 9
    ensures Plus(if d > 9 then Plus(d, 0x27) else d, 0x30) == CharOf(d)
  {
    WrapIs(d + 0x27, d + 0x27, 0);
    WrapIs(d + 0x27 + 0x30, d + 0x27 + 0x30, 0);
    WrapIs(d + 0x30, d + 0x30, 0);
  }

  /** The last digit, and the others unless there are none. */
  lemma {:induction false} NextDigits(x: nat, b: Word)
    requires Base(b)
    ensures if x / b == 0 then Digits(x, b) == [CharOf(x % b)]
            else Digits(x, b) == Digits(x / b, b) + [CharOf(x % b)] && x / b < x
  {
    if x < b {
      QuotientIs(x, b, 0, x);
    } else {
      Smaller(x, b);
    }
  }

  lemma {:induction false} ShiftedDigit(c: Word)
    ensures Minus(if c > 0x60 then Minus(c, 32) else c, 0x30) == DigitShift(c)
  {
    if c > 0x60 {
      WrapIs(c - 32, c - 32, 0);
    }
  }
}
