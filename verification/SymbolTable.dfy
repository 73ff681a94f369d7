/** The meta-compiler's symbol table: words in hash chains, latest first, and the static buffer in
    which names are mangled. */
module SymbolTable {
  import opened Word32
  import opened Names

  const BUFFER: nat := 80

  lemma {:induction false} MangledConcat(a: seq<Byte>, b: seq<Byte>)
    ensures Mangled(a + b) == Mangled(a) + Mangled(b)
  {
    hide MangleChar;
    if a == [] {
      assert a + b == b;
    } else {
      MangledConcat(a[1..], b);
      assert (a + b)[1..] == a[1..] + b && (a + b)[0] == a[0];
      Associate(MangleChar(a[0]), Mangled(a[1..]), Mangled(b));
    }
  }

  lemma {:induction false} Associate(a: seq<Byte>, b: seq<Byte>, c: seq<Byte>)
    ensures a + (b + c) == (a + b) + c
  {
  }

  /** One character further. */
  lemma {:induction false} MangledNext(name: seq<Byte>, k: nat)
    requires k < |name|
    ensures Mangled(name[..k + 1]) == Mangled(name[..k]) + MangleChar(name[k])
    ensures |Mangled(name[..k + 1])| <= |Mangled(name)|
  {
    hide MangleChar;
    assert name[..k + 1] == name[..k] + [name[k]];
    MangledConcat(name[..k], [name[k]]);
    assert Mangled([name[k]]) == MangleChar(name[k]) + Mangled([]);
    assert name == name[..k + 1] + name[k + 1..];
    MangledConcat(name[..k + 1], name[k + 1..]);
  }

  /** A word; the link to the one before it in its chain never changes. */
  class Symbol {
    const name: seq<Byte>
    const mangled: seq<Byte>
    const behead: bool
    const next: Symbol?
    ghost const older: seq<Symbol>
    var immediate: bool
    var primitive: bool

    ghost predicate Linked()
      decreases |older|
    {
      if next == null then older == [] else older == [next] + next.older && next.Linked()
    }

    constructor (name: seq<Byte>, mangled: seq<Byte>, behead: bool, next: Symbol?)
      requires next != null ==> next.Linked()
      ensures this.name == name && this.mangled == mangled && this.behead == behead && this.next == next
      ensures Linked() && Chain(this) == [this] + Chain(next) && !immediate && !primitive
    {
      this.name, this.mangled, this.behead, this.next := name, mangled, behead, next;
      older := Chain(next);
      immediate, primitive := false, false;
    }
  }

  ghost function Chain(s: Symbol?): seq<Symbol> {
    if s == null then [] else [s] + s.older
  }

  /** The words of one chain: those of a history with that hash, latest first. */
  ghost function Bucket(log: seq<Symbol>, h: nat): seq<Symbol> {
    if log == [] then []
    else (if HashOf(log[|log| - 1].name) == h then [log[|log| - 1]] else []) + Bucket(log[..|log| - 1], h)
  }

  /** The last word of that name in a history. */
  ghost function Latest(log: seq<Symbol>, name: seq<Byte>): Symbol? {
    if log == [] then null
    else if log[|log| - 1].name == name then log[|log| - 1]
    else Latest(log[..|log| - 1], name)
  }

  ghost function FirstNamed(chain: seq<Symbol>, name: seq<Byte>): Symbol? {
    if chain == [] then null else if chain[0].name == name then chain[0] else FirstNamed(chain[1..], name)
  }

  /** Searching the chain of its hash finds the latest word of a name. */
  lemma {:induction false} BucketFindsLatest(log: seq<Symbol>, name: seq<Byte>)
    ensures FirstNamed(Bucket(log, HashOf(name)), name) == Latest(log, name)
  {
    hide HashOf;
    if log != [] {
      var last, before := log[|log| - 1], log[..|log| - 1];
      BucketFindsLatest(before, name);
      if HashOf(last.name) == HashOf(name) {
        assert ([last] + Bucket(before, HashOf(name)))[1..] == Bucket(before, HashOf(name));
      } else {
        assert [] + Bucket(before, HashOf(name)) == Bucket(before, HashOf(name));
      }
    }
  }

  /** What `Latest` means: the word of that name after which no other was installed. */
  lemma {:induction false} LatestIs(log: seq<Symbol>, name: seq<Byte>, k: nat)
    requires k < |log| && log[k].name == name && forall j | k < j < |log| :: log[j].name != name
    ensures Latest(log, name) == log[k]
  {
    if k < |log| - 1 {
      LatestIs(log[..|log| - 1], name, k);
    }
  }

  lemma {:induction false} LatestIsNone(log: seq<Symbol>, name: seq<Byte>)
    ensures Latest(log, name) == null <==> forall j | 0 <= j < |log| :: log[j].name != name
  {
    if log != [] {
      LatestIsNone(log[..|log| - 1], name);
    }
  }

  lemma {:induction false} BucketNext(log: seq<Symbol>, s: Symbol, h: nat)
    ensures Bucket(log + [s], h) == (if HashOf(s.name) == h then [s] else []) + Bucket(log, h)
  {
    hide HashOf;
    assert (log + [s])[..|log|] == log;
  }

  lemma {:induction false} HistoryNext(h: seq<Entry>, e: Entry)
    ensures Reserves(h + [e]) == Reserves(h) + if e.reserve then 1 else 0
    ensures forall k | 0 <= k < |h| :: Identifier(h + [e], k) == Identifier(h, k)
    ensures Identifier(h + [e], |h|) == if e.reserve then ReservedName(Reserves(h)) else Mangled(e.name)
  {
    hide Mangled, ReservedName;
    assert (h + [e])[..|h|] == h;
    forall k | 0 <= k < |h|
      ensures Identifier(h + [e], k) == Identifier(h, k)
    {
      assert (h + [e])[..k] == h[..k];
    }
  }

  class Dictionary {
    const buf: array<Byte>
    const forthwords: array<Symbol?>
    var counter: nat
    /** Every word installed, and how. */
    ghost var log: seq<Symbol>
    ghost var history: seq<Entry>

    ghost predicate Logged()
      reads this
    {
      && counter == Reserves(history) && |log| == |history|
      && forall k | 0 <= k < |log| :: log[k].name == history[k].name && log[k].mangled == Identifier(history, k)
    }

    ghost predicate Chained()
      reads this, forthwords
    {
      && forthwords.Length == HASHSIZE
      && forall h | 0 <= h < HASHSIZE ::
           Chain(forthwords[h]) == Bucket(log, h) && (forthwords[h] != null ==> forthwords[h].Linked())
    }

    ghost predicate Valid()
      reads this, forthwords
    {
      buf.Length == BUFFER && Chained() && Logged()
    }

    constructor ()
      ensures Valid() && log == [] && history == [] && fresh(buf) && fresh(forthwords)
    {
      buf := new Byte[BUFFER];
      forthwords := new Symbol?[HASHSIZE](i => null);
      counter := 0;
      log, history := [], [];
    }

    method Hash(name: seq<Byte>) returns (h: nat)
      ensures h == HashOf(name)
    {
      var sum, i := 0, 0;
      while i < |name|
        invariant i <= |name| && sum == Sum(name[..i])
      {
        assert name[..i + 1][..i] == name[..i];
        sum := sum + CharValue(name[i]);
        i := i + 1;
      }
      assert name[..i] == name;
      h := sum % HASHSIZE;
    }

    /** `Mangle`: the mangled name and a zero, in the static buffer; `fits` is false where the original
        would write past it. */
    method Mangle(name: seq<Byte>) returns (length: nat, fits: bool)
      requires buf.Length == BUFFER
      modifies buf
      ensures fits <==> |Mangled(name)| < BUFFER
      ensures fits ==> length == |Mangled(name)| && buf[..length] == Mangled(name) && buf[length] == 0
    {
      length := 0;
      var s := 0;
      while s < |name|
        invariant s <= |name| && length == |Mangled(name[..s])| <= BUFFER
        invariant buf[..length] == Mangled(name[..s])
      {
        MangledNext(name, s);
        var m := MangleChar(name[s]);
        if length + |m| > BUFFER {
          return length, false;
        }
        Append(m, length);
        length := length + |m|;
        s := s + 1;
      }
      assert name[..s] == name;
      if length == BUFFER {
        return length, false;
      }
      buf[length] := 0;
      fits := true;
    }

    /** The one or two characters of a mangled character, or none. */
    method Append(m: seq<Byte>, length: nat)
      requires |m| <= 2 && length + |m| <= buf.Length
      modifies buf
      ensures buf[..length + |m|] == old(buf[..length]) + m
    {
      if |m| >= 1 {
        buf[length] := m[0];
      }
      if |m| == 2 {
        buf[length + 1] := m[1];
      }
    }

    /** The identifier of the next word; None if its name does not fit the buffer. */
    method Identify(name: seq<Byte>, reserve: bool) returns (mangled: Option<seq<Byte>>)
      requires buf.Length == BUFFER
      modifies buf, this`counter
      ensures mangled.None? <==> !reserve && |Mangled(name)| >= BUFFER
      ensures mangled.Some? ==> mangled.value == if reserve then ReservedName(old(counter)) else Mangled(name)
      ensures counter == old(counter) + if reserve then 1 else 0
    {
      if reserve {
        mangled := Some(ReservedName(counter));
        counter := counter + 1;
      } else {
        var n, fits := Mangle(name);
        mangled := if fits then Some(buf[..n]) else None;
      }
    }

    /** A word becomes the first of its chain. */
    method Enter(s: Symbol, h: nat)
      requires Chained() && h == HashOf(s.name) && s.Linked() && Chain(s) == [s] + Chain(forthwords[h])
      modifies forthwords, this`log
      ensures Chained() && log == old(log) + [s]
    {
      hide HashOf, Chain, Bucket;
      forall g | 0 <= g < HASHSIZE
        ensures Bucket(log + [s], g) == (if g == h then [s] else []) + Bucket(log, g)
      {
        BucketNext(log, s, g);
      }
      forthwords[h] := s;
      log := log + [s];
    }

    /** `Install`: the word is the latest of its name, with the identifier its history gives it. Null,
        and nothing installed, where the original would write past its buffer: exactly for a word that
        is not reserved and whose mangled name has 80 characters or more. */
    method Install(name: seq<Byte>, behead: bool, reserve: bool) returns (s: Symbol?)
      requires Valid()
      modifies this, buf, forthwords
      ensures Valid() && (s == null <==> !reserve && |Mangled(name)| >= BUFFER)
      ensures s == null ==> log == old(log) && history == old(history)
      ensures s != null ==> fresh(s) && s.name == name && s.behead == behead && !s.immediate && !s.primitive
      ensures s != null ==> log == old(log) + [s] && history == old(history) + [Entry(name, reserve)]
    {
      hide HashOf, Chain, Bucket, Identifier, Reserves, Mangled, ReservedName;
      var tableindex := Hash(name);
      var mangled := Identify(name, reserve);
      if mangled.None? {
        return null;
      }
      var w := new Symbol(name, mangled.value, behead, forthwords[tableindex]);
      Enter(w, tableindex);
      HistoryNext(history, Entry(name, reserve));
      history := history + [Entry(name, reserve)];
      s := w;
    }

    /** `Find`: the latest word of that name, or null. */
    method Find(name: seq<Byte>) returns (s: Symbol?)
      requires Valid()
      ensures s == Latest(log, name)
    {
      var h := Hash(name);
      s := forthwords[h];
      BucketFindsLatest(log, name);
      while s != null && s.name != name
        invariant s != null ==> s.Linked()
        invariant FirstNamed(Chain(s), name) == Latest(log, name)
        decreases |Chain(s)|
      {
        assert Chain(s)[1..] == Chain(s.next);
        s := s.next;
      }
    }
  }
}
