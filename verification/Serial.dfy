/** The interrupt-driven serial driver with XON/XOFF flow control: the protocol over all
    interleavings of the program and the interrupts, and the ring buffers that carry it out. */
module Serial {

  import opened Word32

  const SIZE := 256
  const XOFF: Byte := 0x13
  const XON: Byte := 0x11

  datatype State = QUIET | OUTPUT | THROTTLED

  /** A channel: its state and the bytes in its fifos. `sent` are the bytes written to the UART and
      `busy` says that the last of them is still being transmitted; `overruns` counts the writes
      that found it so. */
  datatype Chan = Chan(state: State, out: seq<Byte>, inq: seq<Byte>, sent: seq<Byte>, busy: bool, overruns: nat)

  /** The next byte of the fifo goes to the UART. */
  function StartOutput(c: Chan): Chan
    requires c.out != []
  {
    c.(sent := c.sent + [c.out[0]], out := c.out[1..], state := OUTPUT, busy := true,
       overruns := c.overruns + if c.busy then 1 else 0)
  }

  /** `output`, once there is room. */
  function OutputBody(c: Chan, b: Byte): Chan {
    var c1 := c.(out := c.out + [b]);
    if c.state.QUIET? then StartOutput(c1) else c1
  }

  /** The UART has transmitted a byte. */
  function TransmitInterrupt(c0: Chan): Chan {
    var c := c0.(busy := false);
    if !c.state.OUTPUT? then c
    else if c.out == [] then c.(state := QUIET)
    else StartOutput(c)
  }

  /** `input`, once there is a byte. */
  function InputBody(c: Chan): (Byte, Chan)
    requires c.inq != []
  {
    (c.inq[0], c.(inq := c.inq[1..]))
  }

  /** Whether a received byte goes to the input fifo. */
  predicate Stored(c: Chan, b: Byte) {
    b != XON && b != XOFF && |c.inq| < SIZE
  }

  function ReceiveInterrupt(c: Chan, b: Byte): Chan {
    if b == XOFF then c.(state := THROTTLED)
    else if b == XON then
      if !c.state.THROTTLED? then c
      else if c.out != [] then StartOutput(c)
      else c.(state := QUIET)
    else if Stored(c, b) then c.(inq := c.inq + [b])
    else c
  }

  // The program and the interrupts

  /** Where the program is: elsewhere, or past the busy wait of `output` or `input` but not yet with
      interrupts disabled. */
  datatype Program = Elsewhere | Writing(b: Byte) | Reading

  /** The channel and the program, with the bytes given to `output`, returned by `input`, and
      received into the input fifo so far. */
  datatype Sys = Sys(chan: Chan, program: Program, given: seq<Byte>, read: seq<Byte>, received: seq<Byte>)

  datatype Event = WaitForRoom(b: Byte) | Write | WaitForByte | Read | Transmitted | Received(b: Byte)

  predicate Enabled(s: Sys, e: Event) {
    match e
    case WaitForRoom(_) => s.program.Elsewhere? && |s.chan.out| != SIZE
    case Write => s.program.Writing?
    case WaitForByte => s.program.Elsewhere? && s.chan.inq != []
    case Read => s.program.Reading? && s.chan.inq != []
    case Transmitted => true
    case Received(_) => true
  }

  function Next(s: Sys, e: Event): Sys
    requires Enabled(s, e)
  {
    match e
    case WaitForRoom(b) => s.(program := Writing(b))
    case Write => s.(chan := OutputBody(s.chan, s.program.b), program := Elsewhere, given := s.given + [s.program.b])
    case WaitForByte => s.(program := Reading)
    case Read =>
      var (b, c) := InputBody(s.chan);
      s.(chan := c, program := Elsewhere, read := s.read + [b])
    case Transmitted => s.(chan := TransmitInterrupt(s.chan))
    case Received(b) =>
      s.(chan := ReceiveInterrupt(s.chan, b), received := if Stored(s.chan, b) then s.received + [b] else s.received)
  }

  /** What holds between any two events. */
  predicate Inv(s: Sys) {
    var c := s.chan;
    && s.given == c.sent + c.out && s.received == s.read + c.inq
    && |c.out| <= SIZE && |c.inq| <= SIZE
    && (c.state.QUIET? ==> c.out == [])
    && (c.out != [] && !c.state.THROTTLED? ==> c.state.OUTPUT?)
    && (c.state.OUTPUT? ==> c.busy)
    && (s.program.Writing? ==> |c.out| < SIZE)
    && (s.program.Reading? ==> c.inq != [])
  }

  predicate Run(s: Sys, es: seq<Event>)
    decreases |es|
  {
    es == [] || (Enabled(s, es[0]) && Run(Next(s, es[0]), es[1..]))
  }

  function After(s: Sys, es: seq<Event>): Sys
    requires Run(s, es)
    decreases |es|
  {
    if es == [] then s else After(Next(s, es[0]), es[1..])
  }

  const START := Sys(Chan(QUIET, [], [], [], false, 0), Elsewhere, [], [], [])

  lemma {:induction false} StartKeepsOrder(c: Chan)
    requires c.out != []
    ensures StartOutput(c).sent + StartOutput(c).out == c.sent + c.out
  {
    assert c.out == [c.out[0]] + c.out[1..];
  }

  lemma {:induction false} NextInv(s: Sys, e: Event)
    requires Inv(s) && Enabled(s, e)
    ensures Inv(Next(s, e))
  {
    var c := s.chan;
    match e {
      case Write =>
        var c1 := c.(out := c.out + [s.program.b]);
        assert c.sent + (c.out + [s.program.b]) == (c.sent + c.out) + [s.program.b];
        if c.state.QUIET? {
          StartKeepsOrder(c1);
        }
      case Transmitted =>
        if c.state.OUTPUT? && c.out != [] {
          StartKeepsOrder(c.(busy := false));
        }
      case Received(b) =>
        if b == XON && c.state.THROTTLED? && c.out != [] {
          StartKeepsOrder(c);
        }
        assert s.read + (c.inq + [b]) == (s.read + c.inq) + [b];
      case Read => assert s.read + c.inq == (s.read + [c.inq[0]]) + c.inq[1..];
      case _ =>
    }
  }

  lemma {:induction false} RunInv(s: Sys, es: seq<Event>)
    requires Inv(s) && Run(s, es)
    ensures Inv(After(s, es))
    decreases |es|
  {
    if es != [] {
      NextInv(s, es[0]);
      RunInv(Next(s, es[0]), es[1..]);
    }
  }

  /** In every interleaving of output, input, transmit interrupts and received bytes: the bytes sent
      and the output fifo are the bytes given to `output`, in order; the bytes returned by `input`
      and the input fifo are the bytes received and stored, in order; a quiet channel has nothing
      to send; and one that has something to send and is not throttled is transmitting. */
  lemma {:induction false} EveryInterleaving(es: seq<Event>)
    requires Run(START, es)
    ensures var s := After(START, es); var c := s.chan;
            && s.given == c.sent + c.out && s.received == s.read + c.inq
            && (c.state.QUIET? ==> c.out == [])
            && (c.out != [] && !c.state.THROTTLED? ==> c.state.OUTPUT? && c.busy)
            && |c.out| <= SIZE && |c.inq| <= SIZE
  {
    RunInv(START, es);
  }

  /** What the program waited for is still there when it disables interrupts. */
  lemma {:induction false} WaitHolds(es: seq<Event>)
    requires Run(START, es)
    ensures var s := After(START, es);
            (s.program.Writing? ==> |s.chan.out| < SIZE) && (s.program.Reading? ==> s.chan.inq != [])
  {
    RunInv(START, es);
  }

  // Flow control

  /** Whether an event gives the UART a byte: the first byte for a quiet channel, the transmit interrupt
      of a channel that is sending, or the character DC1 (0x11) for a throttled one. */
  predicate Sends(s: Sys, e: Event) {
    match e
    case Write => s.chan.state.QUIET?
    case Transmitted => s.chan.state.OUTPUT? && s.chan.out != []
    case Received(b) => b == 0x11 && s.chan.state.THROTTLED? && s.chan.out != []
    case _ => false
  }

  /** Exactly those events send, and what they send is the oldest byte not yet sent. */
  lemma {:induction false} SendsExactly(s: Sys, e: Event)
    requires Inv(s) && Enabled(s, e)
    ensures var n := Next(s, e);
            if Sends(s, e) then
              && n.chan.sent == s.chan.sent + [n.given[|s.chan.sent|]] && |n.given| > |s.chan.sent|
              && n.chan.state.OUTPUT? && n.chan.busy
            else
              && n.chan.sent == s.chan.sent && n.chan.busy == (s.chan.busy && !e.Transmitted?)
  {
    NextInv(s, e);
    var n := Next(s, e);
    if Sends(s, e) {
      assert n.given == n.chan.sent + n.chan.out;
      assert |n.chan.sent| == |s.chan.sent| + 1 && n.chan.sent[..|s.chan.sent|] == s.chan.sent;
    }
  }

  /** DC3 (0x13) throttles the channel, and until a DC1 (0x11) comes nothing is sent, whatever the
      program writes and reads and whatever else interrupts. */
  lemma {:induction false} ThrottleHolds(s: Sys, es: seq<Event>)
    requires s.chan.state.THROTTLED? && Run(s, es) && forall e | e in es :: e != Received(0x11)
    ensures var n := After(s, es); n.chan.state.THROTTLED? && n.chan.sent == s.chan.sent && n.chan.overruns == s.chan.overruns
    decreases |es|
  {
    if es != [] {
      assert es[0] in es;
      assert forall e | e in es[1..] :: e in es;
      ThrottleHolds(Next(s, es[0]), es[1..]);
    }
  }

  lemma {:induction false} ThrottlesAndHolds(s: Sys, es: seq<Event>)
    requires Run(s, [Received(0x13)] + es) && forall e | e in es :: e != Received(0x11)
    ensures var n := After(s, [Received(0x13)] + es); n.chan.state.THROTTLED? && n.chan.sent == s.chan.sent
  {
    assert ([Received(0x13)] + es)[1..] == es;
    ThrottleHolds(Next(s, Received(0x13)), es);
  }

  /** DC1 then sends exactly the oldest byte of the fifo, or makes a channel quiet that has none; to one
      that is not throttled it does nothing. */
  lemma {:induction false} Resumes(s: Sys)
    ensures var c, d := s.chan, Next(s, Received(0x11)).chan;
            if !c.state.THROTTLED? then d == c
            else if c.out == [] then d == c.(state := QUIET)
            else d.state.OUTPUT? && d.busy && d.sent == c.sent + [c.out[0]] && d.out == c.out[1..] && d.inq == c.inq
  {
  }

  /** What the program gives to `output` is what is counted as given. */
  lemma {:induction false} OutputGives(s: Sys, b: Byte)
    requires s.program.Elsewhere? && |s.chan.out| != SIZE
    ensures var w := Next(s, WaitForRoom(b)); Enabled(w, Write) && Next(w, Write).given == s.given + [b]
  {
  }

  /** And `input` takes the oldest byte received, as soon as there is one. */
  lemma {:induction false} InputTakes(s: Sys)
    requires s.program.Elsewhere? && s.chan.inq != []
    ensures var w := Next(s, WaitForByte);
            && Enabled(w, Read) && Next(w, Read).read == s.read + [s.chan.inq[0]]
            && Next(w, Read).chan == s.chan.(inq := s.chan.inq[1..])
  {
  }

  /** Every other character goes to the input fifo, in order, unless that is full. */
  lemma {:induction false} ReceivesExactly(s: Sys, b: Byte)
    requires |s.chan.inq| <= SIZE
    ensures var n := Next(s, Received(b));
            && n.chan.inq == (if b != 0x11 && b != 0x13 && |s.chan.inq| != SIZE then s.chan.inq + [b] else s.chan.inq)
            && n.received == (if b != 0x11 && b != 0x13 && |s.chan.inq| != SIZE then s.received + [b] else s.received)
            && n.read == s.read && n.given == s.given
  {
  }

  /** Transmit interrupts alone empty the fifo of a transmitting channel, in order, and then quieten it. */
  lemma {:induction false} Drains(c: Chan, n: nat)
    requires c.state.OUTPUT? && n == |c.out|
    ensures var d := Transmits(c, n + 1); d.state.QUIET? && d.out == [] && d.sent == c.sent + c.out
    decreases n
  {
    if n > 0 {
      var c1 := TransmitInterrupt(c);
      StartKeepsOrder(c.(busy := false));
      Drains(c1, n - 1);
    } else {
      assert Transmits(c, 1) == Transmits(TransmitInterrupt(c), 0);
    }
  }

  function Transmits(c: Chan, n: nat): Chan
    decreases n
  {
    if n == 0 then c else Transmits(TransmitInterrupt(c), n - 1)
  }

  // Writing while the UART is still transmitting

  /** An event writes to a busy UART exactly if it is hurried. */
  lemma {:induction false} OverrunIff(s: Sys, e: Event)
    requires Inv(s) && Enabled(s, e)
    ensures Next(s, e).chan.overruns == s.chan.overruns + if Hurried(s, e) then 1 else 0
  {
  }

  /** An XON that restarts a channel, or a byte that starts one, before the last has been transmitted. */
  predicate Hurried(s: Sys, e: Event) {
    && s.chan.busy
    && ((e == Received(XON) && s.chan.state.THROTTLED? && s.chan.out != []) || (e.Write? && s.chan.state.QUIET?))
  }

  /** No event of a run is hurried. */
  predicate Unhurried(s: Sys, es: seq<Event>)
    requires Run(s, es)
    decreases |es|
  {
    es == [] || (!Hurried(s, es[0]) && Unhurried(Next(s, es[0]), es[1..]))
  }

  /** No write of a run finds the UART busy exactly if none of its events is hurried. */
  lemma {:induction false} NoOverrunsExactly(s: Sys, es: seq<Event>)
    requires Inv(s) && Run(s, es)
    ensures After(s, es).chan.overruns >= s.chan.overruns
    ensures After(s, es).chan.overruns == s.chan.overruns <==> Unhurried(s, es)
    decreases |es|
  {
    hide Inv, Hurried, Next, Enabled;
    if es != [] {
      NextInv(s, es[0]);
      OverrunIff(s, es[0]);
      NoOverrunsExactly(Next(s, es[0]), es[1..]);
    }
  }

  /** Whether every XON that ends a throttle comes when the last byte has been transmitted. */
  predicate Patient(s: Sys, es: seq<Event>)
    requires Run(s, es)
    decreases |es|
  {
    es == [] || ((es[0] == Received(XON) && s.chan.state.THROTTLED? ==> !s.chan.busy) && Patient(Next(s, es[0]), es[1..]))
  }

  /** With such a partner no write finds the UART busy. */
  lemma {:induction false} NoOverruns(s: Sys, es: seq<Event>)
    requires Inv(s) && Run(s, es) && Patient(s, es) && (s.chan.state.QUIET? ==> !s.chan.busy)
    ensures Unhurried(s, es) && After(s, es).chan.overruns == s.chan.overruns
    decreases |es|
  {
    NoOverrunsExactly(s, es);
    if es != [] {
      NextInv(s, es[0]);
      NoOverruns(Next(s, es[0]), es[1..]);
    }
  }

  /** With another there can be: XOFF and XON while the only byte is being transmitted, then a byte. */
  lemma {:induction false} OverrunHappens()
    ensures var es := [WaitForRoom(65), Write, Received(XOFF), Received(XON), WaitForRoom(66), Write];
            Run(START, es) && After(START, es).chan.overruns == 1
  {
    Steps6(START, WaitForRoom(65), Write, Received(XOFF), Received(XON), WaitForRoom(66), Write);
  }

  lemma {:induction false} Steps6(s: Sys, a: Event, b: Event, c: Event, d: Event, e: Event, f: Event)
    requires Enabled(s, a) && Enabled(Next(s, a), b) && Enabled(Next(Next(s, a), b), c)
    requires var s3 := Next(Next(Next(s, a), b), c);
             Enabled(s3, d) && Enabled(Next(s3, d), e) && Enabled(Next(Next(s3, d), e), f)
    ensures var es := [a, b, c, d, e, f]; var s3 := Next(Next(Next(s, a), b), c);
            Run(s, es) && After(s, es) == Next(Next(Next(s3, d), e), f)
  {
    hide *;
    var s3 := Next(Next(Next(s, a), b), c);
    assert [d, e, f] + [] == [d, e, f] && [a, b, c] + [d, e, f] == [a, b, c, d, e, f];
    NoStep(Next(Next(Next(s3, d), e), f));
    Steps3(s3, d, e, f, []);
    Steps3(s, a, b, c, [d, e, f]);
  }

  lemma {:induction false} NoStep(s: Sys)
    ensures Run(s, []) && After(s, []) == s
  {
  }

  lemma {:induction false} Steps3(s: Sys, a: Event, b: Event, c: Event, es: seq<Event>)
    requires Enabled(s, a) && Enabled(Next(s, a), b) && Enabled(Next(Next(s, a), b), c)
    requires Run(Next(Next(Next(s, a), b), c), es)
    ensures Run(s, [a, b, c] + es) && After(s, [a, b, c] + es) == After(Next(Next(Next(s, a), b), c), es)
  {
    hide *;
    StepOn(Next(Next(s, a), b), c, es);
    StepOn(Next(s, a), b, [c] + es);
    StepOn(s, a, [b] + ([c] + es));
    assert [a] + ([b] + ([c] + es)) == [a, b, c] + es;
  }

  lemma {:induction false} StepOn(s: Sys, e: Event, es: seq<Event>)
    requires Enabled(s, e) && Run(Next(s, e), es)
    ensures Run(s, [e] + es) && After(s, [e] + es) == After(Next(s, e), es)
  {
    assert ([e] + es)[1..] == es;
  }

  // The driver

  /** `n` bytes of the buffer from index `from`, round the end if need be. */
  function Ring(buffer: seq<Byte>, from: int, n: int): (s: seq<Byte>)
    requires |buffer| == SIZE && 0 <= from < SIZE && 0 <= n <= SIZE
    ensures |s| == n && forall i | 0 <= i < n :: s[i] == buffer[Around(from + i)]
  {
    seq(n, i requires 0 <= i < n => buffer[Around(from + i)])
  }

  class Fifo {
    const buffer: array<Byte>
    var count: int
    var inptr: int
    var outptr: int

    constructor ()
      ensures Valid() && Contents() == [] && fresh(buffer)
    {
      buffer := new Byte[SIZE](_ => 0);
      count, inptr, outptr := 0, 0, 0;
    }

    ghost predicate Valid()
      reads this
    {
      && buffer.Length == SIZE && 0 <= count <= SIZE && 0 <= outptr < SIZE
      && inptr == Around(outptr + count)
    }

    ghost function Contents(): (s: seq<Byte>)
      requires Valid()
      reads this, buffer
      ensures |s| == count
    {
      Ring(buffer[..], outptr, count)
    }

    method Put(b: Byte)
      requires Valid() && count < SIZE
      modifies this, buffer
      ensures Valid() && Contents() == old(Contents()) + [b]
    {
      ghost var before := Contents();
      buffer[inptr] := b;
      assert Ring(buffer[..], outptr, count + 1) == before + [b];
      count := count + 1;
      inptr := inptr + 1;
      if inptr == SIZE {
        inptr := 0;
      }
    }

    method Get() returns (b: Byte)
      requires Valid() && count > 0
      modifies this
      ensures Valid() && b == old(Contents())[0] && Contents() == old(Contents())[1..]
    {
      b := buffer[outptr];
      assert Ring(buffer[..], Around(outptr + 1), count - 1) == Contents()[1..];
      assert b == Contents()[0];
      count := count - 1;
      outptr := outptr + 1;
      if outptr == SIZE {
        outptr := 0;
      }
    }
  }

  /** An index past the end of the buffer goes on at its beginning. */
  function Around(i: int): int {
    if i < SIZE then i else i - SIZE
  }

  class Channel {
    var state: State
    const outfifo: Fifo
    const infifo: Fifo
    ghost var sent: seq<Byte>
    ghost var busy: bool
    ghost var overruns: nat
    var udr: Byte

    constructor ()
      ensures Valid() && Snap() == START.chan && fresh(outfifo) && fresh(infifo)
      ensures fresh(outfifo.buffer) && fresh(infifo.buffer)
    {
      outfifo := new Fifo();
      infifo := new Fifo();
      state, sent, busy, overruns, udr := QUIET, [], false, 0, 0;
    }

    ghost predicate Valid()
      reads this, outfifo, infifo
    {
      outfifo != infifo && outfifo.buffer != infifo.buffer && outfifo.Valid() && infifo.Valid()
    }

    ghost function Snap(): Chan
      requires Valid()
      reads this, outfifo, infifo, outfifo.buffer, infifo.buffer
    {
      Chan(state, outfifo.Contents(), infifo.Contents(), sent, busy, overruns)
    }

    method Start()
      requires Valid() && outfifo.count > 0
      modifies this, outfifo
      ensures Valid() && Snap() == StartOutput(old(Snap()))
    {
      udr := outfifo.Get();
      sent := sent + [udr];
      if busy {
        overruns := overruns + 1;
      }
      busy := true;
      state := OUTPUT;
    }

    /** Runs with interrupts disabled, after the wait for room. */
    method Output(b: Byte)
      requires Valid() && outfifo.count < SIZE
      modifies this, outfifo, outfifo.buffer
      ensures Valid() && Snap() == OutputBody(old(Snap()), b)
    {
      outfifo.Put(b);
      if state == QUIET {
        Start();
      }
    }

    method TransInt()
      requires Valid()
      modifies this, outfifo
      ensures Valid() && Snap() == TransmitInterrupt(old(Snap()))
    {
      busy := false;
      if state == OUTPUT {
        if outfifo.count == 0 {
          state := QUIET;
          return;
        }
        Start();
      }
    }

    /** Runs with interrupts disabled, after the wait for a byte. */
    method Input() returns (b: Byte)
      requires Valid() && infifo.count > 0
      modifies infifo
      ensures Valid() && (b, Snap()) == InputBody(old(Snap()))
    {
      b := infifo.Get();
    }

    method RecInt(b: Byte)
      requires Valid()
      modifies this, outfifo, infifo, infifo.buffer
      ensures Valid() && Snap() == ReceiveInterrupt(old(Snap()), b)
    {
      if b == XOFF {
        state := THROTTLED;
      } else if b == XON {
        if state == THROTTLED {
          if outfifo.count != 0 {
            Start();
          } else {
            state := QUIET;
          }
        }
      } else if infifo.count != SIZE {
        infifo.Put(b);
      }
    }
  }
}
