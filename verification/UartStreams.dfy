/** Which deviations of the sender's bit period the receiver tolerates in a stream of frames without gaps. Its own
    schedule is one clock longer than nine of its bits, so a sender that is slightly too fast for it makes it fall
    behind a little further with every frame. */
module UartStreams {
  import opened Words
  import opened Uart
  import opened UartSampling
  import opened UartRates

  // ---------------------------------------------------------------------------------------------------
  // Streams
  // ---------------------------------------------------------------------------------------------------

  /** The level of bit b of a frame: start bit, data bits, stop bit. */
  predicate BitLevel(byte: Byte, b: nat)
    requires b < 10
  {
    b == 9 || (b > 0 && byte[b - 1])
  }

  /** The first clock of frame k. */
  function FrameStart(m: nat, e: nat, k: nat): nat {
    e + 10 * m * k
  }

  ghost predicate BitOn(m: nat, pin: nat -> bool, start: nat, byte: Byte, b: nat)
    requires b < 10
  {
    forall t | start + b * m <= t < start + b * m + m :: pin(t) == BitLevel(byte, b)
  }

  ghost predicate FrameIn(m: nat, pin: nat -> bool, start: nat, byte: Byte) {
    forall b | 0 <= b < 10 :: BitOn(m, pin, start, byte, b)
  }

  /** The line carries these frames with m clocks per bit, one right behind the other, from cycle e on, and is idle
      otherwise. */
  ghost predicate StreamOn(m: nat, pin: nat -> bool, e: nat, bytes: seq<Byte>) {
    && (forall t | 0 <= t < e :: pin(t))
    && (forall k | 0 <= k < |bytes| :: FrameIn(m, pin, FrameStart(m, e, k), bytes[k]))
    && (forall t | t >= FrameStart(m, e, |bytes|) :: pin(t))
  }

  /** The bytes that the receiver has handed over before cycle t. */
  function Handed(n: Word, run: nat -> Rx, t: nat): seq<Byte> {
    if t == 0 then []
    else Handed(n, run, t - 1) + if RxDone(n, run(t - 1)) then [run(t - 1).shift] else []
  }

  ghost predicate Settled(n: Word, run: nat -> Rx, bytes: seq<Byte>, end: nat) {
    forall t: nat | t >= end :: Handed(n, run, t) == bytes
  }

  /** In the end the receiver has handed over these bytes and nothing else. */
  ghost predicate Delivered(n: Word, run: nat -> Rx, bytes: seq<Byte>) {
    exists end: nat :: Settled(n, run, bytes, end)
  }

  // ---------------------------------------------------------------------------------------------------
  // What is handed over
  // ---------------------------------------------------------------------------------------------------

  lemma HandedNext(n: Word, run: nat -> Rx, t: nat, next: nat)
    requires next == t + 1
    ensures Handed(n, run, next) == Handed(n, run, t) + if RxDone(n, run(t)) then [run(t).shift] else []
  {
  }

  lemma {:induction false} HandedSame(n: Word, run: nat -> Rx, from: nat, t: nat)
    requires from <= t && forall u | from <= u < t :: !RxDone(n, run(u))
    ensures Handed(n, run, t) == Handed(n, run, from)
    decreases t
  {
    if from < t {
      HandedSame(n, run, from, t - 1);
      HandedNext(n, run, t - 1, t);
    }
  }

  lemma {:induction false} HandedGrows(n: Word, run: nat -> Rx, from: nat, t: nat)
    requires from <= t
    ensures Handed(n, run, from) <= Handed(n, run, t)
    decreases t
  {
    if from < t {
      HandedGrows(n, run, from, t - 1);
      HandedNext(n, run, t - 1, t);
    }
  }

  /** A frame that is received adds its byte. */
  lemma FrameHanded(n: Word, run: nat -> Rx, d: nat, byte: Byte)
    requires Receives(n, run, d, byte)
    ensures Handed(n, run, d + 9 * n + 1) == Handed(n, run, d) + [byte]
  {
    HandedSame(n, run, d, d + 9 * n);
    HandedNext(n, run, d + 9 * n, d + 9 * n + 1);
  }

  /** A wrong byte stays wrong. */
  lemma NeverDelivered(n: Word, run: nat -> Rx, bytes: seq<Byte>, t: nat)
    requires !(Handed(n, run, t) <= bytes)
    ensures !Delivered(n, run, bytes)
  {
    forall end: nat ensures !Settled(n, run, bytes, end) {
      var later := if end < t then t else end;
      HandedGrows(n, run, t, later);
      assert Handed(n, run, later) != bytes;
    }
  }

  // ---------------------------------------------------------------------------------------------------
  // The receiver's schedule
  // ---------------------------------------------------------------------------------------------------

  /** How much further the receiver falls behind with every frame: it needs 9 * n + 1 clocks from one detection to the
      next. */
  function Lag(n: nat, m: nat): nat {
    if 9 * n + 1 > 10 * m then 9 * n + 1 - 10 * m else 0
  }

  /** A frame in which the receiver is o clocks late is received right. */
  predicate InTime(n: nat, m: nat, o: nat) {
    m <= n && 8 * n + o < 9 * m && (o > 0 ==> Lag(n, m) > 0)
  }

  /** The sample of data bit i falls into data bit i. */
  lemma LateSample(n: nat, m: nat, o: nat, i: nat)
    requires InTime(n, m, o) && i < 8
    ensures (i + 1) * m <= o + (i + 1) * n < (i + 2) * m
  {
    assert (i + 1) * m <= (i + 1) * n;
    assert (7 - i) * m <= (7 - i) * n;
    assert (8 - (7 - i)) * n == 8 * n - (7 - i) * n;
  }

  lemma GoodFrame(n: Word, pin: nat -> bool, en: nat -> bool, run: nat -> Rx, m: nat, start: nat, byte: Byte, o: nat,
                  d: nat)
    requires Listens(n, pin, en, run) && FrameIn(m, pin, start, byte) && InTime(n, m, o)
    requires run(d).state == IDLE && d == start + o + 2
    ensures Receives(n, run, d, byte)
  {
    var at := start + o;
    assert BitOn(m, pin, start, byte, 0);
    Synchronized(n, pin, en, run, d);
    assert !pin(at) && !pin(at + n / 2);
    FrameIsSampled(n, pin, en, run, d, at);
    forall i | 0 <= i < 8 ensures Heard(n, pin, at)[i] == byte[i] {
      LateSample(n, m, o, i);
      assert BitOn(m, pin, start, byte, i + 1);
    }
    assert Heard(n, pin, at) == byte;
  }

  /** On a high line nothing is handed over. */
  lemma NothingOnHigh(n: Word, pin: nat -> bool, en: nat -> bool, run: nat -> Rx, from: nat, t: nat)
    requires Listens(n, pin, en, run) && run(from).state == IDLE && 2 <= from <= t
    requires forall u | from <= u + 2 < t :: pin(u)
    ensures run(t).state == IDLE && Handed(n, run, t) == Handed(n, run, from)
  {
    forall u | from <= u < t ensures run(u).sync2 { Synchronized(n, pin, en, run, u); }
    forall u | from <= u < t ensures !RxDone(n, run(u)) { StaysIdle(n, pin, en, run, from, u); }
    StaysIdle(n, pin, en, run, from, t);
    HandedSame(n, run, from, t);
  }

  /** From one frame to the next. */
  lemma NextFrame(n: Word, pin: nat -> bool, en: nat -> bool, run: nat -> Rx, m: nat, start: nat, byte: Byte, o: nat,
                  d: nat, next: nat)
    requires Listens(n, pin, en, run) && FrameIn(m, pin, start, byte) && InTime(n, m, o)
    requires run(d).state == IDLE && d == start + o + 2 && next == start + 10 * m + o + Lag(n, m) + 2
    ensures run(next).state == IDLE && Handed(n, run, next) == Handed(n, run, d) + [byte]
  {
    GoodFrame(n, pin, en, run, m, start, byte, o, d);
    FrameHanded(n, run, d, byte);
    assert BitOn(m, pin, start, byte, 9);
    NothingOnHigh(n, pin, en, run, d + 9 * n + 1, next);
  }

  // ---------------------------------------------------------------------------------------------------
  // Within the tolerance
  // ---------------------------------------------------------------------------------------------------

  /** The cycle in which the receiver detects frame k, if it is in time so far. */
  function Detection(n: nat, m: nat, e: nat, k: nat): nat {
    FrameStart(m, e, k) + k * Lag(n, m) + 2
  }

  /** All samples of the first k frames fall into their bits. */
  predicate Tolerates(n: nat, m: nat, k: nat) {
    k == 0 || (m <= n && 8 * n + (k - 1) * Lag(n, m) < 9 * m)
  }

  lemma DetectionNext(n: nat, m: nat, e: nat, j: nat, k: nat)
    requires k == j + 1
    ensures FrameStart(m, e, k) == FrameStart(m, e, j) + 10 * m
    ensures Detection(n, m, e, k) == FrameStart(m, e, j) + 10 * m + j * Lag(n, m) + Lag(n, m) + 2
  {
    assert k * Lag(n, m) == j * Lag(n, m) + Lag(n, m);
  }

  lemma BeforeStream(n: Word, pin: nat -> bool, en: nat -> bool, run: nat -> Rx, e: nat)
    requires Listens(n, pin, en, run) && forall t | 0 <= t < e :: pin(t)
    ensures run(e + 2).state == IDLE && Handed(n, run, e + 2) == []
  {
    assert RxClocked(n, pin, en, run, 0) && RxClocked(n, pin, en, run, 1);
    HandedSame(n, run, 0, 2);
    NothingOnHigh(n, pin, en, run, 2, e + 2);
  }

  lemma {:induction false} FramesArrive(n: Word, pin: nat -> bool, en: nat -> bool, run: nat -> Rx, m: nat, e: nat,
                                        bytes: seq<Byte>, k: nat)
    requires Listens(n, pin, en, run) && StreamOn(m, pin, e, bytes) && k <= |bytes| && Tolerates(n, m, k)
    ensures run(Detection(n, m, e, k)).state == IDLE && Handed(n, run, Detection(n, m, e, k)) == bytes[..k]
  {
    if k == 0 {
      BeforeStream(n, pin, en, run, e);
    } else {
      var j := k - 1;
      var o := j * Lag(n, m);
      assert j > 0 ==> o == (j - 1) * Lag(n, m) + Lag(n, m);
      FramesArrive(n, pin, en, run, m, e, bytes, j);
      DetectionNext(n, m, e, j, k);
      assert o > 0 ==> Lag(n, m) > 0;
      NextFrame(n, pin, en, run, m, FrameStart(m, e, j), bytes[j], o, Detection(n, m, e, j), Detection(n, m, e, k));
    }
  }

  lemma StreamArrives(n: Word, pin: nat -> bool, en: nat -> bool, run: nat -> Rx, m: nat, e: nat, bytes: seq<Byte>)
    requires Listens(n, pin, en, run) && StreamOn(m, pin, e, bytes) && Tolerates(n, m, |bytes|)
    ensures Delivered(n, run, bytes)
  {
    var end := Detection(n, m, e, |bytes|);
    FramesArrive(n, pin, en, run, m, e, bytes, |bytes|);
    forall t: nat | t >= end ensures Handed(n, run, t) == bytes { NothingOnHigh(n, pin, en, run, end, t); }
    assert Settled(n, run, bytes, end);
  }

  // ---------------------------------------------------------------------------------------------------
  // Pauses
  // ---------------------------------------------------------------------------------------------------

  /** The line carries these frames, frame k from cycle starts(k) on, with pauses between them, and is idle
      otherwise. */
  ghost predicate PausedOn(m: nat, pin: nat -> bool, starts: nat -> nat, bytes: seq<Byte>) {
    && (forall t | 0 <= t < starts(0) :: pin(t))
    && (forall k | 0 <= k < |bytes| :: FrameIn(m, pin, starts(k), bytes[k]) && starts(k) + 10 * m <= starts(k + 1))
    && (forall k, t | 0 <= k < |bytes| && starts(k) + 10 * m <= t < starts(k + 1) :: pin(t))
    && (forall t | t >= starts(|bytes|) :: pin(t))
  }

  lemma {:induction false} PausedArrive(n: Word, pin: nat -> bool, en: nat -> bool, run: nat -> Rx, m: nat,
                                        starts: nat -> nat, bytes: seq<Byte>, k: nat)
    requires Listens(n, pin, en, run) && PausedOn(m, pin, starts, bytes) && k <= |bytes|
    requires m <= n && 9 * n < 10 * m
    ensures run(starts(k) + 2).state == IDLE && Handed(n, run, starts(k) + 2) == bytes[..k]
  {
    if k == 0 {
      BeforeStream(n, pin, en, run, starts(0));
    } else {
      var j := k - 1;
      PausedArrive(n, pin, en, run, m, starts, bytes, j);
      NextFrame(n, pin, en, run, m, starts(j), bytes[j], 0, starts(j) + 2, starts(j) + 10 * m + 2);
      NothingOnHigh(n, pin, en, run, starts(j) + 10 * m + 2, starts(k) + 2);
    }
  }

  /** With a sender faster by less than one ninth, every stream arrives, whatever the pauses between its frames. */
  lemma PausesTolerated(n: Word, pin: nat -> bool, en: nat -> bool, run: nat -> Rx, m: nat, starts: nat -> nat,
                        bytes: seq<Byte>)
    requires Listens(n, pin, en, run) && PausedOn(m, pin, starts, bytes) && m <= n && 9 * n < 10 * m
    ensures Delivered(n, run, bytes)
  {
    var end := starts(|bytes|) + 2;
    PausedArrive(n, pin, en, run, m, starts, bytes, |bytes|);
    forall t: nat | t >= end ensures Handed(n, run, t) == bytes { NothingOnHigh(n, pin, en, run, end, t); }
    assert Settled(n, run, bytes, end);
  }

  // ---------------------------------------------------------------------------------------------------
  // Outside the tolerance
  // ---------------------------------------------------------------------------------------------------

  /** The receiver reads frame k wrong. */
  lemma ReadsWrong(n: Word, pin: nat -> bool, en: nat -> bool, run: nat -> Rx, bytes: seq<Byte>, k: nat, at: nat,
                   i: nat)
    requires Listens(n, pin, en, run) && k < |bytes| && i < 8
    requires run(at + 2).state == IDLE && Handed(n, run, at + 2) == bytes[..k]
    requires !pin(at) && !pin(at + n / 2) && pin(at + (i + 1) * n) != bytes[k][i]
    ensures !Delivered(n, run, bytes)
  {
    var d := at + 2;
    Synchronized(n, pin, en, run, d);
    FrameIsSampled(n, pin, en, run, d, at);
    FrameHanded(n, run, d, Heard(n, pin, at));
    var got := Handed(n, run, d + 9 * n + 1);
    assert got[k] == Heard(n, pin, at) && Heard(n, pin, at)[i] != bytes[k][i];
    NeverDelivered(n, run, bytes, d + 9 * n + 1);
  }

  /** All frames the same. */
  function Repeated(byte: Byte, frames: nat): (bytes: seq<Byte>)
    ensures |bytes| == frames && forall k | 0 <= k < frames :: bytes[k] == byte
  {
    seq(frames, _ => byte)
  }

  /** Too slow a sender: the receiver finds the start bit where it expects data bit 0. */
  lemma SlowLost(n: Word, pin: nat -> bool, en: nat -> bool, run: nat -> Rx, m: nat, e: nat, bytes: seq<Byte>)
    requires Listens(n, pin, en, run) && StreamOn(m, pin, e, bytes) && bytes != [] && bytes[0] == ONES && m > n
    ensures !Delivered(n, run, bytes)
  {
    BeforeStream(n, pin, en, run, e);
    assert FrameIn(m, pin, FrameStart(m, e, 0), bytes[0]) && BitOn(m, pin, e, bytes[0], 0);
    ReadsWrong(n, pin, en, run, bytes, 0, e, 0);
  }

  /** In front of its stop bit a frame of zeros is a low line. */
  lemma ZeroFrame(m: nat, pin: nat -> bool, start: nat, t: nat)
    requires FrameIn(m, pin, start, ZEROS) && start <= t < start + 9 * m
    ensures !pin(t)
  {
    var x := t - start;
    var b := if x < m then 0 else if x < 2 * m then 1 else if x < 3 * m then 2 else if x < 4 * m then 3
             else if x < 5 * m then 4 else if x < 6 * m then 5 else if x < 7 * m then 6 else if x < 8 * m then 7 else 8;
    assert BitOn(m, pin, start, ZEROS, b);
  }

  /** Late by more than the rest of data bit 7: the receiver finds the stop bit in its place. */
  lemma StopBitRead(n: Word, pin: nat -> bool, en: nat -> bool, run: nat -> Rx, m: nat, bytes: seq<Byte>, k: nat,
                    start: nat, o: nat)
    requires Listens(n, pin, en, run) && k < |bytes| && bytes[k] == ZEROS && FrameIn(m, pin, start, bytes[k])
    requires run(start + o + 2).state == IDLE && Handed(n, run, start + o + 2) == bytes[..k]
    requires m <= n && 9 * m <= 8 * n + o < 10 * m
    ensures !Delivered(n, run, bytes)
  {
    var at := start + o;
    ZeroFrame(m, pin, start, at);
    ZeroFrame(m, pin, start, at + n / 2);
    assert BitOn(m, pin, start, bytes[k], 9);
    ReadsWrong(n, pin, en, run, bytes, k, at, 7);
  }

  /** Behind its start bit a frame of ones is a high line. */
  lemma OnesFrame(m: nat, pin: nat -> bool, start: nat, t: nat)
    requires FrameIn(m, pin, start, ONES) && start + m <= t < start + 10 * m
    ensures pin(t)
  {
    var x := t - start;
    var b := if x < 2 * m then 1 else if x < 3 * m then 2 else if x < 4 * m then 3 else if x < 5 * m then 4
             else if x < 6 * m then 5 else if x < 7 * m then 6 else if x < 8 * m then 7 else if x < 9 * m then 8 else 9;
    assert BitOn(m, pin, start, ONES, b);
  }

  /** The first frame that comes too late. */
  lemma FirstLate(n: nat, m: nat, frames: nat) returns (k: nat)
    requires n >= 16 && m <= n && 8 * n < 9 * m && frames > 0 && !Tolerates(n, m, frames)
    ensures 0 < k < frames && Tolerates(n, m, k) && 9 * m <= 8 * n + k * Lag(n, m) < 10 * m
  {
    k := frames - 1;
    if k > 0 && Tolerates(n, m, k) {
      assert k * Lag(n, m) == (k - 1) * Lag(n, m) + Lag(n, m);
    } else {
      k := FirstLate(n, m, k);
    }
  }

  /** A sender whose frames are too short for the receiver's schedule: it falls behind until it loses a bit. */
  lemma LateLost(n: Word, pin: nat -> bool, en: nat -> bool, run: nat -> Rx, m: nat, e: nat, bytes: seq<Byte>)
    requires Listens(n, pin, en, run) && StreamOn(m, pin, e, bytes) && bytes == Repeated(ZEROS, |bytes|)
    requires m <= n && 8 * n < 9 * m && !Tolerates(n, m, |bytes|)
    ensures !Delivered(n, run, bytes)
  {
    var k := FirstLate(n, m, |bytes|);
    FramesArrive(n, pin, en, run, m, e, bytes, k);
    StopBitRead(n, pin, en, run, m, bytes, k, FrameStart(m, e, k), k * Lag(n, m));
  }

  /** Zeros, and a one in bit 7. */
  const LAST: Byte := [false, false, false, false, false, false, false, true]

  /** The receiver takes bit 7 of the first frame from the stop bit, the next start bit, or behind it. */
  function Misread(n: nat, m: nat, frames: nat): (bytes: seq<Byte>)
    requires frames > 0
    ensures |bytes| == frames && forall k | 0 < k < frames :: bytes[k] == ZEROS
  {
    [if 8 * n >= 10 * m && frames > 1 then LAST else ZEROS] + Repeated(ZEROS, frames - 1)
  }

  /** The line at that sample. */
  lemma MisreadLevel(n: nat, m: nat, pin: nat -> bool, e: nat, bytes: seq<Byte>)
    requires bytes != [] && bytes == Misread(n, m, |bytes|) && StreamOn(m, pin, e, bytes)
    requires 9 * m <= 8 * n && n < 2 * m
    ensures pin(e + 8 * n) != bytes[0][7]
  {
    var at := e + 8 * n;
    assert FrameIn(m, pin, FrameStart(m, e, 0), bytes[0]) && BitOn(m, pin, e, bytes[0], 9);
    if 8 * n >= 10 * m {
      if |bytes| > 1 {
        assert FrameIn(m, pin, FrameStart(m, e, 1), bytes[1]) && bytes[1] == ZEROS;
        ZeroFrame(m, pin, FrameStart(m, e, 1), at);
      } else {
        assert at >= FrameStart(m, e, |bytes|);
      }
    }
  }

  lemma FastLost(n: Word, pin: nat -> bool, en: nat -> bool, run: nat -> Rx, m: nat, e: nat, bytes: seq<Byte>)
    requires Listens(n, pin, en, run) && StreamOn(m, pin, e, bytes)
    requires bytes != [] && bytes == Misread(n, m, |bytes|) && 9 * m <= 8 * n && n / 2 < m
    ensures !Delivered(n, run, bytes)
  {
    BeforeStream(n, pin, en, run, e);
    assert FrameIn(m, pin, FrameStart(m, e, 0), bytes[0]) && BitOn(m, pin, e, bytes[0], 0);
    assert n < 2 * m;
    MisreadLevel(n, m, pin, e, bytes);
    ReadsWrong(n, pin, en, run, bytes, 0, e, 7);
  }

  /** From one detection to the next, if the byte is handed over, it takes 9 * n + 1 clocks. On a line that is high
      behind cycle last, count bytes need the time for count - 1 such intervals. */
  lemma {:induction false} FewBytes(n: Word, pin: nat -> bool, en: nat -> bool, run: nat -> Rx, last: nat, from: nat,
                                    t: nat, count: nat)
    requires Listens(n, pin, en, run) && run(from).state == IDLE && 2 <= from <= t
    requires forall u: nat | u > last :: pin(u)
    requires |Handed(n, run, t)| == |Handed(n, run, from)| + count && count > 0
    ensures (count - 1) * (9 * n + 1) <= last + 2 - from
    decreases t - from
  {
    assert from < t;
    Synchronized(n, pin, en, run, from);
    if pin(from - 2) {
      NothingOnHigh(n, pin, en, run, from, from + 1);
      FewBytes(n, pin, en, run, last, from + 1, t, count);
    } else {
      FrameIsSampled(n, pin, en, run, from, from - 2);
      if pin(from - 2 + n / 2) {
        FewBytesAfterDrop(n, pin, en, run, last, from, t, count);
      } else {
        FewBytesAfterFrame(n, pin, en, run, last, from, t, count);
      }
    }
  }

  lemma {:induction false} FewBytesAfterDrop(n: Word, pin: nat -> bool, en: nat -> bool, run: nat -> Rx, last: nat,
                                             from: nat, t: nat, count: nat)
    requires Listens(n, pin, en, run) && run(from).state == IDLE && 2 <= from < t && Drops(n, run, from)
    requires forall u: nat | u > last :: pin(u)
    requires |Handed(n, run, t)| == |Handed(n, run, from)| + count && count > 0
    ensures (count - 1) * (9 * n + 1) <= last + 2 - from
    decreases t - from, 0
  {
    var next := from + n / 2 + 1;
    if t <= next {
      HandedSame(n, run, from, t);
    } else {
      HandedSame(n, run, from, next);
      FewBytes(n, pin, en, run, last, next, t, count);
    }
  }

  lemma {:induction false} FewBytesAfterFrame(n: Word, pin: nat -> bool, en: nat -> bool, run: nat -> Rx, last: nat,
                                              from: nat, t: nat, count: nat)
    requires Listens(n, pin, en, run) && run(from).state == IDLE && 2 <= from < t && !pin(from - 2)
    requires Receives(n, run, from, Heard(n, pin, from - 2))
    requires forall u: nat | u > last :: pin(u)
    requires |Handed(n, run, t)| == |Handed(n, run, from)| + count && count > 0
    ensures (count - 1) * (9 * n + 1) <= last + 2 - from
    decreases t - from, 0
  {
    var next := from + 9 * n + 1;
    FrameHanded(n, run, from, Heard(n, pin, from - 2));
    if t < next {
      HandedSame(n, run, from, t);
    } else if count > 1 {
      FewBytes(n, pin, en, run, last, next, t, count - 1);
      assert (count - 1) * (9 * n + 1) == (count - 2) * (9 * n + 1) + (9 * n + 1);
    }
  }

  /** A stream of ones is high behind its last start bit. */
  lemma OnesEnd(m: nat, pin: nat -> bool, e: nat, bytes: seq<Byte>, start: nat, t: nat)
    requires StreamOn(m, pin, e, bytes) && bytes != [] && bytes == Repeated(ONES, |bytes|)
    requires start == FrameStart(m, e, |bytes| - 1) && t >= start + m
    ensures pin(t)
  {
    assert FrameStart(m, e, |bytes|) == start + 10 * m;
    if t < start + 10 * m {
      assert FrameIn(m, pin, start, bytes[|bytes| - 1]);
      OnesFrame(m, pin, start, t);
    }
  }

  /** The receiver checks the first start bit when it is over. */
  lemma OneDropped(n: Word, pin: nat -> bool, en: nat -> bool, run: nat -> Rx, m: nat, e: nat, last: nat)
    requires Listens(n, pin, en, run) && n / 2 >= m && m > 0 && last == e + m - 1 && !pin(e)
    requires (forall u: nat | u > last :: pin(u)) && run(e + 2).state == IDLE && Handed(n, run, e + 2) == []
    ensures !Delivered(n, run, [ONES])
  {
    var d := e + 2;
    Synchronized(n, pin, en, run, d);
    FrameIsSampled(n, pin, en, run, d, e);
    var back := d + n / 2 + 1;
    HandedSame(n, run, d, back);
    forall end: nat ensures !Settled(n, run, [ONES], end) {
      var later := if end < back then back else end;
      NothingOnHigh(n, pin, en, run, back, later);
      assert Handed(n, run, later) != [ONES];
    }
  }

  lemma Crowded(n: nat, m: nat, gaps: nat)
    requires gaps > 0 && n >= 2 * m
    ensures gaps * (9 * n + 1) > 10 * m * gaps + m - 1
  {
    Monotone(18 * m + 1, 9 * n + 1, gaps);
    Monotone(1, gaps, 8 * m + 1);
    assert gaps * (18 * m + 1) == 10 * m * gaps + gaps * (8 * m + 1);
  }

  /** A sender at least twice as fast: the line does not carry start bits for long enough. */
  lemma TwiceLost(n: Word, pin: nat -> bool, en: nat -> bool, run: nat -> Rx, m: nat, e: nat, bytes: seq<Byte>)
    requires Listens(n, pin, en, run) && StreamOn(m, pin, e, bytes) && bytes != []
    requires bytes == Repeated(ONES, |bytes|) && n / 2 >= m && m > 0
    ensures !Delivered(n, run, bytes)
  {
    var frames := |bytes|;
    var start := FrameStart(m, e, frames - 1);
    var last := start + m - 1;
    BeforeStream(n, pin, en, run, e);
    forall u: nat | u > last ensures pin(u) { OnesEnd(m, pin, e, bytes, start, u); }
    if frames == 1 {
      assert bytes == [ONES];
      assert FrameIn(m, pin, e, bytes[0]) && BitOn(m, pin, e, bytes[0], 0);
      OneDropped(n, pin, en, run, m, e, last);
    } else {
      forall end: nat ensures !Settled(n, run, bytes, end) {
        var later := if end < e + 2 then e + 2 else end;
        if Handed(n, run, later) == bytes {
          FewBytes(n, pin, en, run, last, e + 2, later, frames);
          Crowded(n, m, frames - 1);
        }
      }
    }
  }

  // ---------------------------------------------------------------------------------------------------
  // Exactly
  // ---------------------------------------------------------------------------------------------------

  /** Rate tolerance of streams, exactly: a receiver with divisor n recovers all streams of so many frames without gaps,
      with bit period m, if and only if m <= n and 8 * n + (frames - 1) * Lag(n, m) < 9 * m. */
  lemma StreamTolerance(n: Word, m: nat, frames: nat, en: nat -> bool, pin: seq<Byte> -> nat -> bool,
                        run: seq<Byte> -> nat -> Rx, e: nat)
    requires m > 0 && frames > 0
    requires forall b: seq<Byte> | |b| == frames :: StreamOn(m, pin(b), e, b) && Listens(n, pin(b), en, run(b))
    ensures (forall b: seq<Byte> | |b| == frames :: Delivered(n, run(b), b))
            <==> m <= n && 8 * n + (frames - 1) * Lag(n, m) < 9 * m
  {
    var ones, zeros, misread := Repeated(ONES, frames), Repeated(ZEROS, frames), Misread(n, m, frames);
    if Tolerates(n, m, frames) {
      forall b: seq<Byte> | |b| == frames ensures Delivered(n, run(b), b) {
        StreamArrives(n, pin(b), en, run(b), m, e, b);
      }
    } else if m > n {
      SlowLost(n, pin(ones), en, run(ones), m, e, ones);
    } else if n / 2 >= m {
      TwiceLost(n, pin(ones), en, run(ones), m, e, ones);
    } else if 8 * n < 9 * m {
      LateLost(n, pin(zeros), en, run(zeros), m, e, zeros);
    } else {
      FastLost(n, pin(misread), en, run(misread), m, e, misread);
    }
  }

  /** Streams of every length: the sender may be slower by nothing, and faster by less than one ninth. */
  lemma EveryLength(n: nat, m: nat)
    requires m > 0
    ensures (forall frames: nat | frames > 0 :: Tolerates(n, m, frames)) <==> m <= n && 9 * n < 10 * m
  {
    if m <= n && 9 * n >= 10 * m {
      var frames := 9 * m + 1;
      assert (frames - 1) * Lag(n, m) >= 9 * m;
      assert !Tolerates(n, m, frames);
    } else if m > n {
      assert !Tolerates(n, m, 1);
    } else {
      forall frames: nat | frames > 0 ensures Tolerates(n, m, frames) {
        assert (frames - 1) * Lag(n, m) == 0;
      }
    }
  }
}
