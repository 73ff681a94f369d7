/** The two trace-driven simulators as they run: RAMs and counters changed in place, one trace word
    at a time, with the masks that the programs set up. */
module CacheSimulators {
  import opened Word32
  import opened Powers
  import opened Bits
  import opened Division
  import opened CacheGeometry
  import opened DmCache
  import opened SubCache

  const ALLONES: Word := 0xFFFF_FFFF

  /** Where a program is in a trace file. */
  datatype Cursor = Cursor(pos: nat, eof: bool)

  /** At its end the file delivers all ones, and only then is the end known. */
  function Next(words: seq<Word>, c: Cursor): (r: (Word, Cursor)) {
    if c.pos < |words| then (words[c.pos], c.(pos := c.pos + 1)) else (ALLONES, c.(eof := true))
  }

  /** What a run of at most n accesses is given. */
  function Taken(words: seq<Word>, c: Cursor, n: nat): seq<Word>
    decreases n
  {
    if n == 0 || c.eof then [] else [Next(words, c).0] + Taken(words, Next(words, c).1, n - 1)
  }

  /** Where it leaves the file. */
  function Moved(words: seq<Word>, c: Cursor, n: nat): Cursor
    decreases n
  {
    if n == 0 || c.eof then c else Moved(words, Next(words, c).1, n - 1)
  }

  lemma {:induction false} TakenIs(words: seq<Word>, c: Cursor, n: nat)
    requires c.pos <= |words|
    ensures Taken(words, c, n)
            == if c.eof then [] else if n <= |words| - c.pos then words[c.pos..c.pos + n] else words[c.pos..] + [ALLONES]
    decreases n
  {
    if n > 0 && !c.eof {
      TakenIs(words, Next(words, c).1, n - 1);
    }
  }

  /** Two runs are given what one run of both lengths would be. */
  lemma {:induction false} TakenOnward(words: seq<Word>, c: Cursor, n: nat, m: nat)
    ensures Taken(words, c, n + m) == Taken(words, c, n) + Taken(words, Moved(words, c, n), m)
    decreases n
  {
    if n > 0 && !c.eof {
      TakenOnward(words, Next(words, c).1, n - 1, m);
    }
  }

  class TraceFile {
    const words: seq<Word>
    var pos: nat
    var eof: bool

    function Place(): (c: Cursor)
      reads this
      ensures c.eof == eof
    {
      Cursor(pos, eof)
    }

    constructor (words: seq<Word>)
      ensures this.words == words && Place() == Cursor(0, false)
    {
      this.words, pos, eof := words, 0, false;
    }

    method Getw() returns (t: Word)
      modifies this
      ensures (t, Place()) == Next(words, old(Place()))
    {
      if pos < |words| {
        t := words[pos];
        pos := pos + 1;
      } else {
        t := ALLONES;
        eof := true;
      }
    }
  }

  /** The loop that finds the width of a line's cell number. */
  method Log2(linesize: Word, ghost bits: nat) returns (linebits: nat)
    requires linesize == Pow2(bits)
    ensures linebits == bits
  {
    var tmp := linesize;
    linebits := 0;
    while tmp > 1
      invariant linebits <= bits && tmp == Pow2(bits - linebits)
    {
      tmp := tmp / 2;
      linebits := linebits + 1;
    }
  }

  method NumberOfTags(size: Word, linesize: Word, ghost g: Geo) returns (numberoftags: nat)
    requires size == g.Size() && linesize == g.Linesize()
    ensures numberoftags == g.Lines()
  {
    hide *;
    GeoParts(g, 0);
    QuotientIs(g.Size(), g.Linesize(), g.Lines(), 0);
    numberoftags := size / linesize;
  }

  class WholeLines {
    ghost const geo: Geo
    const linesize: Word
    const linebits: nat
    const setmask: Word
    const tagmask: Word
    const tagram: array<Word>
    const valid: array<bool>

    var cpucycle: nat
    var cachestall: nat
    var miss: nat
    var externalread: nat
    var externalwrite: nat

    ghost predicate Valid() {
      && geo.linebits + geo.indexbits < 32 && linebits == geo.linebits && linesize == geo.Linesize()
      && geo.Linesize() <= geo.Size() <= TWO32
      && setmask == Xor(geo.Size() - 1, geo.Linesize() - 1) && tagmask == Not(geo.Size() - 1)
      && tagram.Length == valid.Length == geo.Lines()
    }

    ghost function Snap(): (c: Dm)
      reads this, tagram, valid
      ensures Valid() ==> c.Fits(geo)
    {
      Dm(tagram[..], valid[..], Stats(cpucycle, cachestall, miss, externalread, externalwrite))
    }

    /** `Cacheinit`: the tag RAM holds anything, no line is valid. */
    constructor (size: Word, linesize: Word, ghost g: Geo)
      requires g.linebits + g.indexbits < 32 && size == g.Size() && linesize == g.Linesize()
      ensures Valid() && geo == g && Empty(Snap()) && Snap().stats == NOSTATS && fresh(tagram) && fresh(valid)
    {
      hide Xor, And, Not, Over, Rest, Pow2, Members;
      var numberoftags := NumberOfTags(size, linesize, g);
      Masked(g, 0);
      geo := g;
      this.linesize := linesize;
      var bits := Log2(linesize, g.linebits);
      linebits := bits;
      setmask := Xor(size - 1, linesize - 1);
      tagmask := Not(size - 1);
      tagram := new Word[numberoftags];
      valid := new bool[numberoftags](i => false);
      cpucycle, cachestall, miss, externalread, externalwrite := 0, 0, 0, 0, 0;
    }

    function IndexOf(x: Address): (i: nat)
      requires Valid()
      ensures i == geo.Index(x)
    {
      Masked(geo, x);
      Over(And(x, setmask), Pow2(linebits))
    }

    function TagOf(x: Address): (t: Word)
      requires Valid()
      ensures t == geo.Tag(x)
    {
      Masked(geo, x);
      And(x, tagmask)
    }

    method Miss(x: Address) returns (m: bool)
      requires Valid()
      ensures m == !Hit(geo, Snap(), x)
    {
      hide Xor, And, Not, Over, Pow2, Rest;
      m := tagram[IndexOf(x)] != TagOf(x) || !valid[IndexOf(x)];
    }

    method Cache(x: Address)
      requires Valid()
      modifies tagram, valid
      ensures Snap() == Cached(geo, old(Snap()), x)
    {
      hide Xor, And, Not, Over, Pow2, Rest;
      tagram[IndexOf(x)] := TagOf(x);
      valid[IndexOf(x)] := true;
    }

    /** Counting does not touch the RAMs. */
    twostate lemma Counted(x: Address)
      requires Valid() && tagram[..] == old(tagram[..]) && valid[..] == old(valid[..])
      ensures Hit(geo, Snap(), x) == Hit(geo, old(Snap()), x)
      ensures Cached(geo, Snap(), x) == Cached(geo, old(Snap()), x).(stats := Snap().stats)
    {
    }

    /** The body of the loop over instruction fetches. */
    method FetchAccess(trace: Word)
      requires Valid()
      modifies this, tagram, valid
      ensures Snap() == Access(geo, InstructionsOnly, old(Snap()), trace)
    {
      hide Instr, Read, Addr, Hit, Cached;
      cpucycle := cpucycle + 1;
      if Instr(trace) {
        var x := Addr(trace);
        Counted(x);
        var m := Miss(x);
        if m {
          miss := miss + 1;
          if Read(trace) {
            externalread := externalread + linesize;
          }
          Counted(x);
          Cache(x);
        }
      } else {
        miss := miss + 1;
        if Read(trace) {
          externalread := externalread + 1;
        } else {
          externalwrite := externalwrite + 1;
        }
      }
    }

    method AlwaysAllocAccess(trace: Word)
      requires Valid()
      modifies this, tagram, valid
      ensures Snap() == Access(geo, AlwaysAlloc, old(Snap()), trace)
    {
      hide Instr, Read, Addr, Hit, Cached;
      cpucycle := cpucycle + 1;
      var x := Addr(trace);
      Counted(x);
      var m := Miss(x);
      if Read(trace) {
        if m {
          miss := miss + 1;
          externalread := externalread + linesize;
          Counted(x);
          Cache(x);
        }
      } else {
        if m {
          miss := miss + 1;
        }
        externalwrite := externalwrite + 1;
        externalread := externalread + (linesize - 1);
        Counted(x);
        Cache(x);
      }
    }

    method MissAllocAccess(trace: Word)
      requires Valid()
      modifies this, tagram, valid
      ensures Snap() == Access(geo, MissAlloc, old(Snap()), trace)
    {
      hide Instr, Read, Addr, Hit, Cached;
      cpucycle := cpucycle + 1;
      var x := Addr(trace);
      Counted(x);
      var m := Miss(x);
      if Read(trace) {
        if m {
          miss := miss + 1;
          externalread := externalread + linesize;
          Counted(x);
          Cache(x);
        }
      } else {
        externalwrite := externalwrite + 1;
        cachestall := cachestall + 1;
        if m {
          miss := miss + 1;
          externalread := externalread + (linesize - 1);
          Counted(x);
          Cache(x);
        }
      }
    }

    method NeverAllocAccess(trace: Word)
      requires Valid()
      modifies this, tagram, valid
      ensures Snap() == Access(geo, NeverAlloc, old(Snap()), trace)
    {
      hide Instr, Read, Addr, Hit, Cached;
      cpucycle := cpucycle + 1;
      var x := Addr(trace);
      Counted(x);
      var m := Miss(x);
      if Read(trace) {
        if m {
          miss := miss + 1;
          externalread := externalread + linesize;
          Counted(x);
          Cache(x);
        }
      } else {
        externalwrite := externalwrite + 1;
        if m {
          miss := miss + 1;
        }
      }
    }

    method TraceAccess(policy: Policy, trace: Word)
      requires Valid()
      modifies this, tagram, valid
      ensures Snap() == Access(geo, policy, old(Snap()), trace)
    {
      hide Access;
      match policy
      case InstructionsOnly => FetchAccess(trace);
      case AlwaysAlloc => AlwaysAllocAccess(trace);
      case MissAlloc => MissAllocAccess(trace);
      case NeverAlloc => NeverAllocAccess(trace);
    }

    method Restart()
      modifies `cpucycle, `cachestall, `miss, `externalread, `externalwrite
      ensures Snap() == old(Snap()).(stats := NOSTATS)
    {
      cpucycle, cachestall, miss, externalread, externalwrite := 0, 0, 0, 0, 0;
    }

    /** `Run`: the counters start again, and at most `length` accesses are taken from the file. */
    method Run(policy: Policy, file: TraceFile, length: nat)
      requires Valid()
      modifies this, tagram, valid, file
      ensures Snap() == Simulate(geo, policy, old(Snap()).(stats := NOSTATS), Taken(file.words, old(file.Place()), length))
      ensures file.Place() == Moved(file.words, old(file.Place()), length)
    {
      hide *;
      Restart();
      var remainingaccess := length;
      ghost var all := Simulate(geo, policy, Snap(), Taken(file.words, file.Place(), length));
      ghost var at := file.Place();
      while !file.eof && remainingaccess > 0
        invariant at == file.Place()
        invariant Simulate(geo, policy, Snap(), Taken(file.words, at, remainingaccess)) == all
        invariant Moved(file.words, at, remainingaccess) == Moved(file.words, old(file.Place()), length)
        decreases remainingaccess
      {
        SimulateStep(geo, policy, Snap(), file.words, at, remainingaccess);
        var trace := file.Getw();
        at := file.Place();
        remainingaccess := remainingaccess - 1;
        TraceAccess(policy, trace);
      }
      SimulateStep(geo, policy, Snap(), file.words, at, remainingaccess);
    }

    /** The program: a cold run, and the run that is measured, on one file. */
    method Measure(policy: Policy, file: TraceFile, coldlength: nat, length: nat)
      returns (ghost cold: seq<Word>, ghost ts: seq<Word>)
      requires Valid()
      modifies this, tagram, valid, file
      ensures cold == Taken(file.words, old(file.Place()), coldlength)
      ensures cold + ts == Taken(file.words, old(file.Place()), coldlength + length)
      ensures Snap() == Report(geo, policy, old(Snap()), cold, ts)
    {
      hide Simulate, Taken, Moved;
      cold := Taken(file.words, file.Place(), coldlength);
      TakenOnward(file.words, file.Place(), coldlength, length);
      Run(policy, file, coldlength);
      ts := Taken(file.words, file.Place(), length);
      Run(policy, file, length);
    }
  }

  lemma {:induction false} SimulateStep(g: Geo, p: Policy, c: Dm, words: seq<Word>, at: Cursor, n: nat)
    requires c.Fits(g)
    ensures if n == 0 || at.eof then Simulate(g, p, c, Taken(words, at, n)) == c && Moved(words, at, n) == at
            else var (t, at1) := Next(words, at);
              && Simulate(g, p, c, Taken(words, at, n)) == Simulate(g, p, Access(g, p, c, t), Taken(words, at1, n - 1))
              && Moved(words, at, n) == Moved(words, at1, n - 1)
  {
    hide Access;
    if n > 0 && !at.eof {
      assert Taken(words, at, n)[1..] == Taken(words, Next(words, at).1, n - 1);
    }
  }

  /** The bits of each valid word. */
  ghost function AllMembers(words: seq<Word>): (sets: seq<set<nat>>)
    ensures |sets| == |words| && forall i | 0 <= i < |words| :: sets[i] == Members(words[i])
  {
    seq(|words|, i requires 0 <= i < |words| => Members(words[i]))
  }

  class SubBlocks {
    ghost const geo: Geo
    const linebits: nat
    const setmask: Word
    const tagmask: Word
    const submask: Word
    const tagram: array<Word>
    const valid: array<Word>

    var cpucycle: nat
    var miss: nat
    var externalread: nat
    var readupdate: nat
    var externalwrite: nat
    var writeupdate: nat

    /** A line has at most as many cells as its valid word has bits. */
    ghost predicate Valid() {
      && geo.linebits <= 5 && geo.linebits + geo.indexbits < 32 && linebits == geo.linebits
      && geo.Linesize() <= geo.Size() <= TWO32
      && setmask == Xor(geo.Size() - 1, geo.Linesize() - 1) && tagmask == Not(geo.Size() - 1)
      && submask == geo.Linesize() - 1
      && tagram.Length == valid.Length == geo.Lines() && tagram != valid
    }

    ghost function Snap(): (c: Sub)
      reads this, tagram, valid
      ensures Valid() ==> c.Fits(geo)
    {
      Sub(tagram[..], AllMembers(valid[..]),
          SubStats(cpucycle, miss, externalread, readupdate, externalwrite, writeupdate))
    }

    /** `Cacheinit`: the tag RAM holds anything, no cell is valid. */
    constructor (size: Word, linesize: Word, ghost g: Geo)
      requires g.linebits <= 5 && g.linebits + g.indexbits < 32 && size == g.Size() && linesize == g.Linesize()
      ensures Valid() && geo == g && SubEmpty(Snap()) && Snap().stats == NOSUBSTATS && fresh(tagram) && fresh(valid)
    {
      hide Xor, And, Not, Over, Rest, Pow2, Members;
      var numberoftags := NumberOfTags(size, linesize, g);
      Masked(g, 0);
      NoMembers();
      geo := g;
      var bits := Log2(linesize, g.linebits);
      linebits := bits;
      setmask := Xor(size - 1, linesize - 1);
      tagmask := Not(size - 1);
      submask := linesize - 1;
      tagram := new Word[numberoftags];
      valid := new Word[numberoftags](i => 0);
      cpucycle, miss, externalread, readupdate, externalwrite, writeupdate := 0, 0, 0, 0, 0, 0;
    }

    function IndexOf(x: Address): (i: nat)
      requires Valid()
      ensures i == geo.Index(x)
    {
      Masked(geo, x);
      Over(And(x, setmask), Pow2(linebits))
    }

    function TagOf(x: Address): (t: Word)
      requires Valid()
      ensures t == geo.Tag(x)
    {
      Masked(geo, x);
      And(x, tagmask)
    }

    function SubindexOf(x: Address): (i: nat)
      requires Valid()
      ensures i == geo.Subindex(x) && i < 32
    {
      Masked(geo, x);
      LinesFit(geo);
      And(x, submask)
    }

    method LineMissAt(x: Address) returns (m: bool)
      requires Valid()
      ensures m == LineMiss(geo, Snap(), x)
    {
      hide Xor, And, Not, Over, Pow2, Rest, Members;
      m := tagram[IndexOf(x)] != TagOf(x);
    }

    method SubMissAt(x: Address) returns (m: bool)
      requires Valid()
      ensures m == SubMiss(geo, Snap(), x)
    {
      hide Xor, And, Not, Over, Pow2, Rest, Members, OneBit;
      m := And(valid[IndexOf(x)], OneBit(SubindexOf(x))) == 0;
      TestBit(valid[IndexOf(x)], SubindexOf(x));
    }

    method AllocLineAt(x: Address)
      requires Valid()
      modifies tagram, valid
      ensures Snap() == AllocLine(geo, old(Snap()), x)
    {
      hide Xor, And, Not, Over, Pow2, Rest, Members;
      tagram[IndexOf(x)] := TagOf(x);
      valid[IndexOf(x)] := 0;
      NoMembers();
    }

    method AddToLineAt(x: Address)
      requires Valid()
      modifies valid
      ensures Snap() == AddToLine(geo, old(Snap()), x)
    {
      hide Xor, And, Or, Not, Over, Pow2, Rest, Members, OneBit;
      SetBit(valid[IndexOf(x)], SubindexOf(x));
      valid[IndexOf(x)] := Or(valid[IndexOf(x)], OneBit(SubindexOf(x)));
    }

    /** Counting does not touch the RAMs. */
    twostate lemma Counted(x: Address)
      requires Valid() && tagram[..] == old(tagram[..]) && valid[..] == old(valid[..])
      ensures LineMiss(geo, Snap(), x) == LineMiss(geo, old(Snap()), x)
      ensures SubMiss(geo, Snap(), x) == SubMiss(geo, old(Snap()), x)
      ensures Fetched(geo, Snap(), x) == Fetched(geo, old(Snap()), x).(stats := Snap().stats)
      ensures Renewed(geo, Snap(), x) == Renewed(geo, old(Snap()), x).(stats := Snap().stats)
    {
    }

    /** A line miss or a cell miss brings the cell in. */
    method Bring(x: Address) returns (m: bool)
      requires Valid()
      modifies tagram, valid
      ensures m == !CellHit(geo, old(Snap()), x) && Snap() == Fetched(geo, old(Snap()), x)
    {
      hide AllocLine, AddToLine, LineMiss, SubMiss;
      m := LineMissAt(x);
      if m {
        AllocLineAt(x);
        AddToLineAt(x);
      } else {
        m := SubMissAt(x);
        if m {
          AddToLineAt(x);
        }
      }
    }

    /** A read in the policies that cache data too. */
    method DataRead(x: Address)
      requires Valid()
      modifies this, tagram, valid
      ensures var c, hit := old(Snap()), CellHit(geo, old(Snap()), x);
              Snap() == Fetched(geo, c, x).(stats := if hit then c.stats
                else c.stats.(miss := c.stats.miss + 1, readupdate := c.stats.readupdate + 1))
    {
      hide Fetched, LineMiss, SubMiss;
      var m := Bring(x);
      if m {
        miss := miss + 1;
        readupdate := readupdate + 1;
      }
    }

    method FetchAccess(trace: Word)
      requires Valid()
      modifies this, tagram, valid
      ensures Snap() == SubAccess(geo, FetchesOnly, old(Snap()), trace)
    {
      hide Instr, Read, Addr, LineMiss, SubMiss, Fetched, Renewed;
      cpucycle := cpucycle + 1;
      if Instr(trace) {
        Counted(Addr(trace));
        DataRead(Addr(trace));
      } else {
        miss := miss + 1;
        if Read(trace) {
          externalread := externalread + 1;
        } else {
          externalwrite := externalwrite + 1;
        }
      }
    }

    method AlwaysAllocAccess(trace: Word)
      requires Valid()
      modifies this, tagram, valid
      ensures Snap() == SubAccess(geo, Always, old(Snap()), trace)
    {
      hide Instr, Read, Addr, LineMiss, SubMiss, Fetched;
      cpucycle := cpucycle + 1;
      var x := Addr(trace);
      Counted(x);
      if Read(trace) {
        DataRead(x);
      } else {
        var l := LineMissAt(x);
        var m := SubMissAt(x);
        if l || m {
          miss := miss + 1;
        }
        externalwrite := externalwrite + 1;
        Counted(x);
        hide AllocLine, AddToLine;
        AllocLineAt(x);
        AddToLineAt(x);
      }
    }

    method MissAllocAccess(trace: Word)
      requires Valid()
      modifies this, tagram, valid
      ensures Snap() == SubAccess(geo, OnMiss, old(Snap()), trace)
    {
      hide Instr, Read, Addr, LineMiss, SubMiss, Fetched, Renewed;
      cpucycle := cpucycle + 1;
      var x := Addr(trace);
      Counted(x);
      if Read(trace) {
        DataRead(x);
      } else {
        writeupdate := writeupdate + 1;
        Counted(x);
        var m := Bring(x);
        if m {
          miss := miss + 1;
        }
      }
    }

    method MissAllocV2Access(trace: Word)
      requires Valid()
      modifies this, tagram, valid
      ensures Snap() == SubAccess(geo, OnMissV2, old(Snap()), trace)
    {
      hide Instr, Read, Addr, LineMiss, SubMiss, Fetched, Renewed;
      cpucycle := cpucycle + 1;
      var x := Addr(trace);
      Counted(x);
      if Read(trace) {
        DataRead(x);
      } else {
        var m := Bring(x);
        if m {
          miss := miss + 1;
          writeupdate := writeupdate + 1;
        } else {
          externalwrite := externalwrite + 1;
        }
      }
    }

    method NeverAllocAccess(trace: Word)
      requires Valid()
      modifies this, tagram, valid
      ensures Snap() == SubAccess(geo, Never, old(Snap()), trace)
    {
      hide Instr, Read, Addr, LineMiss, SubMiss, Fetched, Renewed;
      cpucycle := cpucycle + 1;
      var x := Addr(trace);
      Counted(x);
      if Read(trace) {
        DataRead(x);
      } else {
        var l := LineMissAt(x);
        var m := SubMissAt(x);
        if l {
          miss := miss + 1;
          externalwrite := externalwrite + 1;
        } else if m {
          miss := miss + 1;
          writeupdate := writeupdate + 1;
          AddToLineAt(x);
        } else {
          writeupdate := writeupdate + 1;
        }
      }
    }

    method NeverAllocV2Access(trace: Word)
      requires Valid()
      modifies this, tagram, valid
      ensures Snap() == SubAccess(geo, NeverV2, old(Snap()), trace)
    {
      hide Instr, Read, Addr, LineMiss, SubMiss, Fetched, Renewed;
      cpucycle := cpucycle + 1;
      var x := Addr(trace);
      Counted(x);
      if Read(trace) {
        DataRead(x);
      } else {
        var l := LineMissAt(x);
        var m := SubMissAt(x);
        if l || m {
          miss := miss + 1;
          externalwrite := externalwrite + 1;
        } else {
          writeupdate := writeupdate + 1;
        }
      }
    }

    method TraceAccess(policy: SubPolicy, trace: Word)
      requires Valid()
      modifies this, tagram, valid
      ensures Snap() == SubAccess(geo, policy, old(Snap()), trace)
    {
      hide SubAccess;
      match policy
      case FetchesOnly => FetchAccess(trace);
      case Always => AlwaysAllocAccess(trace);
      case OnMiss => MissAllocAccess(trace);
      case OnMissV2 => MissAllocV2Access(trace);
      case Never => NeverAllocAccess(trace);
      case NeverV2 => NeverAllocV2Access(trace);
    }

    method Restart()
      modifies `cpucycle, `miss, `externalread, `readupdate, `externalwrite, `writeupdate
      ensures Snap() == old(Snap()).(stats := NOSUBSTATS)
    {
      cpucycle, miss, externalread, readupdate, externalwrite, writeupdate := 0, 0, 0, 0, 0, 0;
    }

    /** `Run`: the counters start again, and at most `length` accesses are taken from the file. */
    method Run(policy: SubPolicy, file: TraceFile, length: nat)
      requires Valid()
      modifies this, tagram, valid, file
      ensures Snap() == SubSimulate(geo, policy, old(Snap()).(stats := NOSUBSTATS), Taken(file.words, old(file.Place()), length))
      ensures file.Place() == Moved(file.words, old(file.Place()), length)
    {
      hide *;
      Restart();
      var remainingaccess := length;
      ghost var all := SubSimulate(geo, policy, Snap(), Taken(file.words, file.Place(), length));
      ghost var at := file.Place();
      while !file.eof && remainingaccess > 0
        invariant at == file.Place()
        invariant SubSimulate(geo, policy, Snap(), Taken(file.words, at, remainingaccess)) == all
        invariant Moved(file.words, at, remainingaccess) == Moved(file.words, old(file.Place()), length)
        decreases remainingaccess
      {
        SubSimulateStep(geo, policy, Snap(), file.words, at, remainingaccess);
        var trace := file.Getw();
        at := file.Place();
        remainingaccess := remainingaccess - 1;
        TraceAccess(policy, trace);
      }
      SubSimulateStep(geo, policy, Snap(), file.words, at, remainingaccess);
    }

    /** The program: a cold run, and the run that is measured, on one file. */
    method Measure(policy: SubPolicy, file: TraceFile, coldlength: nat, length: nat)
      returns (ghost cold: seq<Word>, ghost ts: seq<Word>)
      requires Valid()
      modifies this, tagram, valid, file
      ensures cold == Taken(file.words, old(file.Place()), coldlength)
      ensures cold + ts == Taken(file.words, old(file.Place()), coldlength + length)
      ensures Snap() == SubReport(geo, policy, old(Snap()), cold, ts)
    {
      hide SubSimulate, Taken, Moved;
      cold := Taken(file.words, file.Place(), coldlength);
      TakenOnward(file.words, file.Place(), coldlength, length);
      Run(policy, file, coldlength);
      ts := Taken(file.words, file.Place(), length);
      Run(policy, file, length);
    }
  }

  lemma {:induction false} SubSimulateStep(g: Geo, p: SubPolicy, c: Sub, words: seq<Word>, at: Cursor, n: nat)
    requires c.Fits(g)
    ensures if n == 0 || at.eof then SubSimulate(g, p, c, Taken(words, at, n)) == c && Moved(words, at, n) == at
            else var (t, at1) := Next(words, at);
              && SubSimulate(g, p, c, Taken(words, at, n)) == SubSimulate(g, p, SubAccess(g, p, c, t), Taken(words, at1, n - 1))
              && Moved(words, at, n) == Moved(words, at1, n - 1)
  {
    hide SubAccess;
    if n > 0 && !at.eof {
      assert Taken(words, at, n)[1..] == Taken(words, Next(words, at).1, n - 1);
    }
  }

  lemma {:induction false} LinesFit(g: Geo)
    requires g.linebits <= 5
    ensures g.Linesize() <= 32
  {
    MaskBits(0, g.linebits, 5, 5);
    assert Pow2(3) == 8 && Pow2(5) == 32;
  }
}
