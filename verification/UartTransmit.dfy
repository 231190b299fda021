/** What the transmitter puts on the line: every byte it takes, as a start bit, eight data bits and a stop bit of n
    clocks each, without delay. */
module UartTransmit {
  import opened Words
  import opened ApbSlave
  import opened Uart
  import opened UartSampling
  import opened UartRates
  import opened UartStreams

  /** Cycle t of the device leads to cycle t + 1, whatever its pin shows and software does, at divisor n. */
  predicate Clocked(n: Word, apb: nat -> Apb, pin: nat -> bool, run: nat -> State, t: nat) {
    run(t + 1) == Next(run(t), apb(t), pin(t)) && run(t).baud == n
  }

  ghost predicate Behaviour(n: Word, apb: nat -> Apb, pin: nat -> bool, run: nat -> State) {
    n >= 16 && (forall t: nat :: Clocked(n, apb, pin, run, t))
  }

  function Line(run: nat -> State): nat -> bool {
    (t: nat) => run(t).tx.line
  }

  /** An idle, enabled transmitter takes the first byte of a FIFO that is not empty. */
  predicate Takes(s: State) {
    s.tx.state == 0 && s.txFifo != [] && s.ctrl.txEn
  }

  /** It does so in that very cycle, and otherwise stays idle. */
  lemma StartsAtOnce(s: State, a: Apb, pin: bool)
    requires s.tx.state == 0 && s.baud >= 16
    ensures var q := Next(s, a, pin);
            if Takes(s) then q.tx.state == 1 && q.tx.cnt == 0 && q.tx.shift == s.txFifo[0] && s.txFifo[1..] <= q.txFifo
            else q.tx.state == 0 && s.txFifo <= q.txFifo
    ensures Next(s, a, pin).tx.line
  {
  }

  /** The transmitter in bit b of a frame of this byte, c clocks in. */
  predicate Sending(s: State, byte: Byte, b: nat, c: nat) {
    b < 10 && s.tx.state == b + 1 && s.tx.cnt == c && s.tx.shift == byte
  }

  lemma SendingNext(n: Word, s: State, a: Apb, pin: bool, byte: Byte, b: nat, c: nat)
    requires n >= 16 && s.baud == n && c < n && Sending(s, byte, b, c)
    ensures var q := Next(s, a, pin);
            && q.tx.line == BitLevel(byte, b)
            && if c + 1 < n then Sending(q, byte, b, c + 1)
               else if b < 9 then Sending(q, byte, b + 1, 0) else q.tx.state == 0
  {
  }

  /** Bit b lasts n clocks, on the line one clock later. */
  lemma {:induction false} SendsBit(n: Word, apb: nat -> Apb, pin: nat -> bool, run: nat -> State, byte: Byte, b: nat,
                                    t: nat, c: nat)
    requires Behaviour(n, apb, pin, run) && Sending(run(t), byte, b, 0) && c < n
    ensures Sending(run(t + c), byte, b, c) && run(t + c + 1).tx.line == BitLevel(byte, b)
    decreases c
  {
    if c > 0 {
      SendsBit(n, apb, pin, run, byte, b, t, c - 1);
      assert Clocked(n, apb, pin, run, t + c - 1);
      SendingNext(n, run(t + c - 1), apb(t + c - 1), pin(t + c - 1), byte, b, c - 1);
    }
    assert Clocked(n, apb, pin, run, t + c);
    SendingNext(n, run(t + c), apb(t + c), pin(t + c), byte, b, c);
  }

  ghost predicate BusyFor(run: nat -> State, t: nat, clocks: nat) {
    forall u | t <= u < t + clocks :: run(u).tx.state != 0
  }

  lemma BitOnLine(n: Word, apb: nat -> Apb, pin: nat -> bool, run: nat -> State, byte: Byte, b: nat, t: nat,
                  start: nat)
    requires Behaviour(n, apb, pin, run) && Sending(run(t), byte, b, 0) && start + b * n == t + 1
    ensures BitOn(n, Line(run), start, byte, b) && BusyFor(run, t, n)
  {
    forall u | t + 1 <= u < t + 1 + n ensures Line(run)(u) == BitLevel(byte, b) {
      SendsBit(n, apb, pin, run, byte, b, t, u - t - 1);
    }
    forall u | t <= u < t + n ensures run(u).tx.state != 0 { SendsBit(n, apb, pin, run, byte, b, t, u - t); }
  }

  lemma AfterBit(n: Word, apb: nat -> Apb, pin: nat -> bool, run: nat -> State, byte: Byte, b: nat, t: nat)
    requires Behaviour(n, apb, pin, run) && Sending(run(t), byte, b, 0)
    ensures if b < 9 then Sending(run(t + n), byte, b + 1, 0) else run(t + n).tx.state == 0
  {
    var last := t + n - 1;
    SendsBit(n, apb, pin, run, byte, b, t, n - 1);
    assert Clocked(n, apb, pin, run, last);
    SendingNext(n, run(last), apb(last), pin(last), byte, b, n - 1);
  }

  /** The first b bits of a frame. */
  ghost predicate BitsSent(n: nat, line: nat -> bool, start: nat, byte: Byte, b: nat)
    requires b <= 10
  {
    forall k | 0 <= k < b :: BitOn(n, line, start, byte, k)
  }

  lemma {:induction false} SendsBits(n: Word, apb: nat -> Apb, pin: nat -> bool, run: nat -> State, byte: Byte, t: nat,
                                     b: nat)
    requires Behaviour(n, apb, pin, run) && Sending(run(t), byte, 0, 0) && b < 10
    ensures Sending(run(t + b * n), byte, b, 0)
    ensures BitsSent(n, Line(run), t + 1, byte, b) && BusyFor(run, t, b * n)
    decreases b
  {
    if b > 0 {
      var k := b - 1;
      OneMore(k, n);
      SendsBits(n, apb, pin, run, byte, t, k);
      BitOnLine(n, apb, pin, run, byte, k, t + k * n, t + 1);
      AfterBit(n, apb, pin, run, byte, k, t + k * n);
    }
  }

  /** A byte taken in cycle t is on the line from cycle t + 2 on, as a frame of 10 * n clocks, and the transmitter is
      idle again, to take the next one, in cycle t + 1 + 10 * n and not before. */
  lemma FrameSent(n: Word, apb: nat -> Apb, pin: nat -> bool, run: nat -> State, t: nat)
    requires Behaviour(n, apb, pin, run) && Takes(run(t))
    ensures FrameIn(n, Line(run), t + 2, run(t).txFifo[0])
    ensures run(t + 1 + 10 * n).tx.state == 0 && BusyFor(run, t + 1, 10 * n)
  {
    var byte, start := run(t).txFifo[0], t + 1;
    assert Clocked(n, apb, pin, run, t);
    StartsAtOnce(run(t), apb(t), pin(t));
    SendsBits(n, apb, pin, run, byte, start, 9);
    BitOnLine(n, apb, pin, run, byte, 9, start + 9 * n, start + 1);
    AfterBit(n, apb, pin, run, byte, 9, start + 9 * n);
  }

  /** Without a frame in progress the line is high. */
  lemma IdleLine(n: Word, apb: nat -> Apb, pin: nat -> bool, run: nat -> State, t: nat)
    requires Behaviour(n, apb, pin, run) && run(t).tx.state == 0
    ensures run(t + 1).tx.line && run(t + 1).tx.state == if Takes(run(t)) then 1 else 0
  {
    assert Clocked(n, apb, pin, run, t);
    StartsAtOnce(run(t), apb(t), pin(t));
  }

  // ---------------------------------------------------------------------------------------------------
  // From one device to another
  // ---------------------------------------------------------------------------------------------------

  /** The device starts idle with these bytes in its FIFO; software leaves it alone. */
  ghost predicate SendsOnly(n: Word, apb: nat -> Apb, pin: nat -> bool, run: nat -> State, bytes: seq<Byte>) {
    && Behaviour(n, apb, pin, run) && run(0).tx.state == 0 && run(0).tx.line && run(0).txFifo == bytes
    && forall t: nat :: !Writing(apb(t)) && run(t).ctrl.txEn
  }

  lemma {:induction false} FifoKept(n: Word, apb: nat -> Apb, pin: nat -> bool, run: nat -> State, bytes: seq<Byte>,
                                    t: nat, c: nat)
    requires SendsOnly(n, apb, pin, run, bytes) && BusyFor(run, t, c)
    ensures run(t + c).txFifo == run(t).txFifo
    decreases c
  {
    if c > 0 {
      FifoKept(n, apb, pin, run, bytes, t, c - 1);
      assert Clocked(n, apb, pin, run, t + c - 1) && run(t + c - 1).tx.state != 0;
    }
  }

  /** The cycle in which byte k is taken. */
  function TakenAt(n: nat): nat -> nat {
    (k: nat) => k * (10 * n + 1)
  }

  function Starts(n: nat): nat -> nat {
    (k: nat) => k * (10 * n + 1) + 2
  }

  lemma StartsStep(n: nat, k: nat)
    ensures TakenAt(n)(k + 1) == TakenAt(n)(k) + 10 * n + 1 && Starts(n)(k) == TakenAt(n)(k) + 2
  {
    OneMore(k, 10 * n + 1);
  }

  lemma {:induction false} Queue(n: Word, apb: nat -> Apb, pin: nat -> bool, run: nat -> State, bytes: seq<Byte>,
                                 k: nat)
    requires SendsOnly(n, apb, pin, run, bytes) && k <= |bytes|
    ensures run(TakenAt(n)(k)).tx.state == 0 && run(TakenAt(n)(k)).txFifo == bytes[k..]
  {
    if k > 0 {
      var t := TakenAt(n)(k - 1);
      Queue(n, apb, pin, run, bytes, k - 1);
      StartsStep(n, k - 1);
      FrameSent(n, apb, pin, run, t);
      assert Clocked(n, apb, pin, run, t);
      FifoKept(n, apb, pin, run, bytes, t + 1, 10 * n);
    }
  }

  lemma {:induction false} SilentAfter(n: Word, apb: nat -> Apb, pin: nat -> bool, run: nat -> State, bytes: seq<Byte>,
                                       t: nat, u: nat)
    requires SendsOnly(n, apb, pin, run, bytes) && run(t).tx.state == 0 && run(t).txFifo == [] && t < u
    ensures run(u).tx.line && run(u).tx.state == 0 && run(u).txFifo == []
    decreases u
  {
    if t + 1 < u { SilentAfter(n, apb, pin, run, bytes, t, u - 1); }
    assert Clocked(n, apb, pin, run, u - 1);
    StartsAtOnce(run(u - 1), apb(u - 1), pin(u - 1));
  }

  /** A frame, and one clock behind it. */
  ghost predicate FrameThenPause(n: nat, line: nat -> bool, starts: nat -> nat, bytes: seq<Byte>, k: nat)
    requires k < |bytes|
  {
    FrameIn(n, line, starts(k), bytes[k]) && starts(k + 1) == starts(k) + 10 * n + 1 && line(starts(k) + 10 * n)
  }

  lemma PausesOfOne(n: nat, line: nat -> bool, starts: nat -> nat, bytes: seq<Byte>)
    requires forall t | 0 <= t < starts(0) :: line(t)
    requires forall k | 0 <= k < |bytes| :: FrameThenPause(n, line, starts, bytes, k)
    requires forall t | t >= starts(|bytes|) :: line(t)
    ensures PausedOn(n, line, starts, bytes)
  {
    forall k, t | 0 <= k < |bytes| && starts(k) + 10 * n <= t < starts(k + 1) ensures line(t) {
      assert FrameThenPause(n, line, starts, bytes, k);
    }
    forall k | 0 <= k < |bytes|
      ensures FrameIn(n, line, starts(k), bytes[k]) && starts(k) + 10 * n <= starts(k + 1)
    {
      assert FrameThenPause(n, line, starts, bytes, k);
    }
  }

  lemma ByteSent(n: Word, apb: nat -> Apb, pin: nat -> bool, run: nat -> State, bytes: seq<Byte>, starts: nat -> nat,
                 k: nat)
    requires SendsOnly(n, apb, pin, run, bytes) && k < |bytes| && starts == Starts(n)
    ensures FrameThenPause(n, Line(run), starts, bytes, k)
  {
    var t, next := TakenAt(n)(k), TakenAt(n)(k + 1);
    Queue(n, apb, pin, run, bytes, k);
    Queue(n, apb, pin, run, bytes, k + 1);
    StartsStep(n, k);
    StartsStep(n, k + 1);
    FrameSent(n, apb, pin, run, t);
    IdleLine(n, apb, pin, run, next);
  }

  lemma SilentEnd(n: Word, apb: nat -> Apb, pin: nat -> bool, run: nat -> State, bytes: seq<Byte>, t: nat)
    requires SendsOnly(n, apb, pin, run, bytes) && t >= Starts(n)(|bytes|)
    ensures Line(run)(t)
  {
    Queue(n, apb, pin, run, bytes, |bytes|);
    StartsStep(n, |bytes|);
    SilentAfter(n, apb, pin, run, bytes, TakenAt(n)(|bytes|), t);
  }

  /** The bytes of the FIFO go out in order, one clock apart. */
  lemma FifoSent(n: Word, apb: nat -> Apb, pin: nat -> bool, run: nat -> State, bytes: seq<Byte>, starts: nat -> nat)
    requires SendsOnly(n, apb, pin, run, bytes) && starts == Starts(n)
    ensures PausedOn(n, Line(run), starts, bytes)
  {
    IdleLine(n, apb, pin, run, 0);
    forall t | 0 <= t < starts(0) ensures Line(run)(t) { assert t == 0 || t == 1; }
    forall k | 0 <= k < |bytes| ensures FrameThenPause(n, Line(run), starts, bytes, k) {
      ByteSent(n, apb, pin, run, bytes, starts, k);
    }
    forall t | t >= starts(|bytes|) ensures Line(run)(t) { SilentEnd(n, apb, pin, run, bytes, t); }
    PausesOfOne(n, Line(run), starts, bytes);
  }

  /** Two devices, the sender with divisor m, the receiver with divisor n: everything in the sender's FIFO is handed
      over by the receiver, in order, if m <= n and 9 * n < 10 * m. */
  lemma DeviceToDevice(m: Word, n: Word, apb: nat -> Apb, pin: nat -> bool, sender: nat -> State, bytes: seq<Byte>,
                       en: nat -> bool, receiver: nat -> Rx)
    requires SendsOnly(m, apb, pin, sender, bytes) && Listens(n, Line(sender), en, receiver)
    requires m <= n && 9 * n < 10 * m
    ensures Delivered(n, receiver, bytes)
  {
    FifoSent(m, apb, pin, sender, bytes, Starts(m));
    PausesTolerated(n, Line(sender), en, receiver, m, Starts(m), bytes);
  }
}
