/** The C identifiers that the meta-compiler gives to Forth words. */
module Names {
  import opened Word32
  import opened ForthNumbers

  const UNDERSCORE: Byte := 0x5F

  /** The characters from ! to ~. */
  predicate Visible(c: Byte) {
    0x21 <= c <= 0x7E
  }

  /** What a character becomes: letters stay, other visible characters are an underscore and a letter,
      and the rest is dropped with a warning. */
  function MangleChar(c: Byte): (m: seq<Byte>)
    ensures |m| <= 2
  {
    if 0x21 <= c <= 0x3A then [UNDERSCORE, c + 0x41 - 0x21]
    else if 0x3B <= c <= 0x40 then [UNDERSCORE, c + 0x61 - 0x3B]
    else if 0x41 <= c <= 0x5A then [c]
    else if 0x5B <= c <= 0x60 then [UNDERSCORE, c + 0x67 - 0x5B]
    else if 0x61 <= c <= 0x7A then [c]
    else if 0x7B <= c <= 0x7E then [UNDERSCORE, c + 0x6D - 0x7B]
    else []
  }

  function Mangled(name: seq<Byte>): seq<Byte> {
    if name == [] then [] else MangleChar(name[0]) + Mangled(name[1..])
  }

  /** The character behind an underscore and a letter. */
  function Escaped(d: Byte): Byte {
    if 0x41 <= d <= 0x5A then d - 0x41 + 0x21
    else if 0x61 <= d <= 0x66 then d - 0x61 + 0x3B
    else if 0x67 <= d <= 0x6C then d - 0x67 + 0x5B
    else if 0x6D <= d <= 0x70 then d - 0x6D + 0x7B
    else d
  }

  function Unmangled(m: seq<Byte>): seq<Byte> {
    if m == [] then []
    else if m[0] == UNDERSCORE && |m| >= 2 then [Escaped(m[1])] + Unmangled(m[2..])
    else [m[0]] + Unmangled(m[1..])
  }

  function VisibleOf(name: seq<Byte>): seq<Byte> {
    if name == [] then [] else (if Visible(name[0]) then [name[0]] else []) + VisibleOf(name[1..])
  }

  lemma {:induction false} UnmangleFirst(c: Byte, m: seq<Byte>)
    ensures Unmangled(MangleChar(c) + m) == (if Visible(c) then [c] else []) + Unmangled(m)
  {
    var s := MangleChar(c) + m;
    if |MangleChar(c)| == 2 {
      assert s[2..] == m;
    } else if |MangleChar(c)| == 1 {
      assert s[1..] == m;
    } else {
      assert s == m;
    }
  }

  /** Mangling is undone: the visible characters of a name come back. */
  lemma {:induction false} MangleInverse(name: seq<Byte>)
    ensures Unmangled(Mangled(name)) == VisibleOf(name)
  {
    if name != [] {
      MangleInverse(name[1..]);
      UnmangleFirst(name[0], Mangled(name[1..]));
    }
  }

  lemma {:induction false} MangleVisible(name: seq<Byte>)
    ensures Mangled(VisibleOf(name)) == Mangled(name)
  {
    if name != [] {
      MangleVisible(name[1..]);
      var rest := VisibleOf(name[1..]);
      assert VisibleOf(name) == if Visible(name[0]) then [name[0]] + rest else rest;
      if Visible(name[0]) {
        assert ([name[0]] + rest)[1..] == rest;
      }
    }
  }

  lemma {:induction false} AllVisible(name: seq<Byte>)
    requires forall k | 0 <= k < |name| :: Visible(name[k])
    ensures VisibleOf(name) == name
  {
    if name != [] {
      AllVisible(name[1..]);
    }
  }

  /** Names have the same mangled name exactly if their visible characters are the same. */
  lemma {:induction false} MangledSame(s: seq<Byte>, t: seq<Byte>)
    ensures Mangled(s) == Mangled(t) <==> VisibleOf(s) == VisibleOf(t)
  {
    MangleInverse(s);
    MangleInverse(t);
    MangleVisible(s);
    MangleVisible(t);
  }

  predicate IdentifierChar(c: Byte) {
    c == UNDERSCORE || 0x41 <= c <= 0x5A || 0x61 <= c <= 0x7A
  }

  /** A mangled name is underscores and letters. */
  lemma {:induction false} MangledChars(name: seq<Byte>)
    ensures forall k | 0 <= k < |Mangled(name)| :: IdentifierChar(Mangled(name)[k])
  {
    if name != [] {
      MangledChars(name[1..]);
    }
  }

  // The table of escapes, from its first entry

  predicate Special(c: Byte) {
    Visible(c) && !(0x41 <= c <= 0x5A) && !(0x61 <= c <= 0x7A)
  }

  /** The next visible character that is no letter. */
  function NextSpecial(c: Byte): Byte {
    if c == 0x40 then 0x5B else if c == 0x60 then 0x7B else if c < 0xFF then c + 1 else 0
  }

  /** After Z comes a. */
  function NextLetter(c: Byte): Byte {
    if c == 0x5A then 0x61 else if c < 0xFF then c + 1 else 0
  }

  /** An exclamation mark becomes _A, and each further character that is no letter an underscore and the
      letter after the last one; letters stay and nothing else is kept. */
  lemma {:induction false} EscapesInOrder(c: Byte)
    ensures MangleChar(0x21) == [0x5F, 0x41]
    ensures Special(c) && c != 0x7E ==>
              && |MangleChar(c)| == 2
              && MangleChar(NextSpecial(c)) == [0x5F, NextLetter(MangleChar(c)[1])]
    ensures 0x41 <= c <= 0x5A || 0x61 <= c <= 0x7A ==> MangleChar(c) == [c]
    ensures !Visible(c) ==> MangleChar(c) == []
  {
  }

  /** The second character of an escape is a letter. */
  lemma {:induction false} EscapeLetters(c: Byte)
    requires Special(c)
    ensures |MangleChar(c)| == 2 && MangleChar(c)[0] == 0x5F
    ensures 0x41 <= MangleChar(c)[1] <= 0x5A || 0x61 <= MangleChar(c)[1] <= 0x70
  {
  }

  /** The identifier R<n>. */
  function ReservedName(n: nat): seq<Byte> {
    [0x52] + Digits(n, 10)
  }

  lemma {:induction false} LastDigit(n: nat)
    ensures var d := Digits(n, 10); |d| >= 1 && 0x30 <= d[|d| - 1] <= 0x39
  {
  }

  /** Reserved identifiers differ from mangled names and from each other. */
  lemma {:induction false} ReservedApart(n: nat, m: nat, name: seq<Byte>)
    requires n < TWO32 && m < TWO32
    ensures ReservedName(n) != Mangled(name)
    ensures ReservedName(n) == ReservedName(m) <==> n == m
  {
    LastDigit(n);
    MangledChars(name);
    var r := ReservedName(n);
    assert !IdentifierChar(r[|r| - 1]);
    if ReservedName(n) == ReservedName(m) {
      assert r[1..] == Digits(n, 10) && ReservedName(m)[1..] == Digits(m, 10);
      DigitsInjective(n, m, 10);
    }
  }

  /** A reserved identifier is an R and the number in decimal. */
  lemma {:induction false} ReservedReads(n: nat)
    requires n < TWO32
    ensures ReservedName(n)[0] == 0x52 && NumberOf(ReservedName(n)[1..], 10, 0) == (n, |ReservedName(n)| - 1)
  {
    RoundTrip(n, 10);
    assert ReservedName(n)[1..] == Digits(n, 10);
    hide NumberOf, Digits;
  }

  /** How long a mangled name is: letters take one character, other visible ones two. */
  function Letters(name: seq<Byte>): nat {
    if name == [] then 0
    else (if 0x41 <= name[0] <= 0x5A || 0x61 <= name[0] <= 0x7A then 1 else 0) + Letters(name[1..])
  }

  lemma {:induction false} MangledLength(name: seq<Byte>)
    ensures |Mangled(name)| == 2 * |VisibleOf(name)| - Letters(name)
  {
    if name != [] {
      MangledLength(name[1..]);
    }
  }

  // Every run of the compiler

  datatype Entry = Entry(name: seq<Byte>, reserve: bool)

  /** How many of the words installed so far were reserved. */
  function Reserves(h: seq<Entry>): (n: nat)
    ensures n <= |h|
  {
    if h == [] then 0 else Reserves(h[..|h| - 1]) + if h[|h| - 1].reserve then 1 else 0
  }

  /** The identifier given to the k-th word installed. */
  function Identifier(h: seq<Entry>, k: nat): seq<Byte>
    requires k < |h|
  {
    if h[k].reserve then ReservedName(Reserves(h[..k])) else Mangled(h[k].name)
  }

  lemma {:induction false} ReservesGrow(h: seq<Entry>, i: nat, j: nat)
    requires i < j <= |h| && h[i].reserve
    ensures Reserves(h[..i]) < Reserves(h[..j])
    decreases j
  {
    assert h[..j][..j - 1] == h[..j - 1];
    if i < j - 1 {
      ReservesGrow(h, i, j - 1);
    }
  }

  /** Two installed words share an identifier only if neither was reserved and their visible
      characters are the same. */
  lemma {:induction false} DistinctIdentifiers(h: seq<Entry>, i: nat, j: nat)
    requires i < j < |h| <= 0x8000_0000
    ensures Identifier(h, i) == Identifier(h, j)
            <==> !h[i].reserve && !h[j].reserve && VisibleOf(h[i].name) == VisibleOf(h[j].name)
  {
    ReservedApart(Reserves(h[..i]), Reserves(h[..j]), h[j].name);
    ReservedApart(Reserves(h[..j]), Reserves(h[..i]), h[i].name);
    MangledSame(h[i].name, h[j].name);
    if h[i].reserve {
      ReservesGrow(h, i, j);
    }
    hide ReservedName, Mangled, Reserves, VisibleOf;
  }

  /** With names of visible characters: only words of the same name do. */
  lemma {:induction false} DistinctNames(h: seq<Entry>, i: nat, j: nat)
    requires i < j < |h| <= 0x8000_0000
    requires forall k, c | 0 <= k < |h| && c in h[k].name :: Visible(c)
    ensures Identifier(h, i) == Identifier(h, j) <==> !h[i].reserve && !h[j].reserve && h[i].name == h[j].name
  {
    AllVisible(h[i].name);
    AllVisible(h[j].name);
    DistinctIdentifiers(h, i, j);
    hide Identifier, VisibleOf;
  }

  // The dictionary

  /** A character as a signed number. */
  function CharValue(c: Byte): int {
    if c < 128 then c else c - 256
  }

  function Sum(name: seq<Byte>): int {
    if name == [] then 0 else Sum(name[..|name| - 1]) + CharValue(name[|name| - 1])
  }

  const HASHSIZE: nat := 1024

  function HashOf(name: seq<Byte>): (h: nat)
    ensures h < HASHSIZE
  {
    Sum(name) % HASHSIZE
  }
}
