/** The external memory behind the bus: a low and a high region of big-endian cells. */
module MainMemory {
  import opened Word32

  type Lane = l: int | 0 <= l < 4

  /** Byte `lane` of a cell; byte 0 is the most significant one. */
  function ByteAt(w: Word, lane: Lane): (b: int)
    ensures 0 <= b < 256
  {
    if lane == 0 then w / 0x100_0000 else if lane == 1 then (w / 0x1_0000) % 0x100
    else if lane == 2 then (w / 0x100) % 0x100 else w % 0x100
  }

  function Pack(b0: int, b1: int, b2: int, b3: int): Word
    requires 0 <= b0 < 256 && 0 <= b1 < 256 && 0 <= b2 < 256 && 0 <= b3 < 256
  {
    ((b0 * 0x100 + b1) * 0x100 + b2) * 0x100 + b3
  }

  lemma PackBytes(b0: int, b1: int, b2: int, b3: int)
    requires 0 <= b0 < 256 && 0 <= b1 < 256 && 0 <= b2 < 256 && 0 <= b3 < 256
    ensures ByteAt(Pack(b0, b1, b2, b3), 0) == b0 && ByteAt(Pack(b0, b1, b2, b3), 1) == b1
    ensures ByteAt(Pack(b0, b1, b2, b3), 2) == b2 && ByteAt(Pack(b0, b1, b2, b3), 3) == b3
  {
    var w := Pack(b0, b1, b2, b3);
    assert w / 0x100 == (b0 * 0x100 + b1) * 0x100 + b2;
    assert w / 0x1_0000 == b0 * 0x100 + b1;
  }

  /** `w` with byte `lane` replaced by `b`. */
  function PutByte(w: Word, lane: Lane, b: int): (r: Word)
    requires 0 <= b < 256
  {
    Pack(if lane == 0 then b else ByteAt(w, 0), if lane == 1 then b else ByteAt(w, 1),
         if lane == 2 then b else ByteAt(w, 2), if lane == 3 then b else ByteAt(w, 3))
  }

  /** Replacing a byte changes that byte and no other. */
  lemma PutByteBytes(w: Word, lane: Lane, b: int, l: Lane)
    requires 0 <= b < 256
    ensures ByteAt(PutByte(w, lane, b), l) == if l == lane then b else ByteAt(w, l)
  {
    PackBytes(if lane == 0 then b else ByteAt(w, 0), if lane == 1 then b else ByteAt(w, 1),
              if lane == 2 then b else ByteAt(w, 2), if lane == 3 then b else ByteAt(w, 3));
  }

  /** Lane 0 is the most significant byte. */
  lemma {:induction false} BigEndian(w: Word)
    ensures w == ByteAt(w, 0) * 0x100_0000 + ByteAt(w, 1) * 0x1_0000 + ByteAt(w, 2) * 0x100 + ByteAt(w, 3)
  {
    assert w / 0x1_0000 == 0x100 * (w / 0x100_0000) + (w / 0x1_0000) % 0x100;
    assert w / 0x100 == 0x100 * (w / 0x1_0000) + (w / 0x100) % 0x100;
  }

  /** A byte copied into all four lanes, as a byte store drives the data bus. */
  function Spread(b: int): Word
    requires 0 <= b < 256
  {
    Pack(b, b, b, b)
  }

  /** Whichever lane a spread byte is taken from, it is the byte. */
  lemma SpreadBytes(b: int, lane: Lane)
    requires 0 <= b < 256
    ensures ByteAt(Spread(b), lane) == b
  {
    PackBytes(b, b, b, b);
  }

  datatype Main = Main(lowtop: Word, highbottom: int, low: seq<Word>, high: seq<Word>) {

    /** The high region starts on a cell boundary above the low region and above the
        internal ROM, memory-mapped I/O pages. */
    predicate Valid() {
      && |low| == lowtop / 4 + 1
      && 0x3000_0000 <= highbottom <= TWO32 && highbottom % 4 == 0
      && lowtop < highbottom
      && |high| == (TWO32 - highbottom) / 4
    }

    /** The addresses that reach external memory. */
    predicate Covers(a: Word) {
      a <= lowtop || a >= highbottom
    }

    function Fetch(a: Word): Word
      requires Valid() && Covers(a)
    {
      if a <= lowtop then low[a / 4] else high[(a - highbottom) / 4]
    }

    function Store(a: Word, v: Word): (m: Main)
      requires Valid() && Covers(a)
      ensures m.Valid() && m.lowtop == lowtop && m.highbottom == highbottom
    {
      if a <= lowtop then this.(low := low[a / 4 := v])
      else this.(high := high[(a - highbottom) / 4 := v])
    }

    function StoreByte(a: Word, v: Word): (m: Main)
      requires Valid() && Covers(a)
      ensures m.Valid() && m.lowtop == lowtop && m.highbottom == highbottom
    {
      Store(a, PutByte(Fetch(a), a % 4, v % 256))
    }
  }

  /** A store is seen by every later fetch of the same cell and by no other. */
  lemma FetchStore(m: Main, a: Word, v: Word, b: Word)
    requires m.Valid() && m.Covers(a) && m.Covers(b)
    ensures m.Store(a, v).Fetch(b) == if a / 4 == b / 4 then v else m.Fetch(b)
  {
  }

  /** A fetch looks at whole cells. */
  lemma FetchSame(m: Main, a: Word, b: Word)
    requires m.Valid() && m.Covers(a) && m.Covers(b) && a / 4 == b / 4
    ensures m.Fetch(a) == m.Fetch(b)
  {
  }
}
