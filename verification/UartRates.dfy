/** Which deviations of the sender's bit period the receiver tolerates. */
module UartRates {
  import opened Words
  import opened Uart
  import opened UartSampling

  /** The line carries a single frame with m clocks per bit from cycle e on, and is idle otherwise. */
  ghost predicate FrameOn(m: nat, pin: nat -> bool, e: nat, byte: Byte) {
    && (forall t | 0 <= t < e :: pin(t))
    && (forall t | e <= t < e + m :: !pin(t))
    && (forall i, t | 0 <= i < 8 && e + (i + 1) * m <= t < e + (i + 2) * m :: pin(t) == byte[i])
    && (forall t | t >= e + 9 * m :: pin(t))
  }

  /** Over the whole run the receiver hands over one byte: this one, 9 * n + 2 clocks after the edge. */
  ghost predicate Recovered(n: Word, run: nat -> Rx, e: nat, byte: Byte) {
    && (forall t: nat :: RxDone(n, run(t)) <==> t == e + 2 + 9 * n)
    && run(e + 2 + 9 * n).shift == byte
  }

  /** The receiver, enabled throughout, starts idle on an idle line. */
  ghost predicate Listens(n: Word, pin: nat -> bool, en: nat -> bool, run: nat -> Rx) {
    RxRun(n, pin, en, run) && (forall t: nat :: en(t)) && run(0).state == IDLE && run(0).sync1 && run(0).sync2
  }

  /** On a high line the receiver stays idle. */
  lemma {:induction false} StaysIdle(n: Word, pin: nat -> bool, en: nat -> bool, run: nat -> Rx, from: nat, t: nat)
    requires RxRun(n, pin, en, run) && run(from).state == IDLE && from <= t
    requires forall u | from <= u < t :: run(u).sync2
    ensures run(t).state == IDLE
    decreases t
  {
    if t > from {
      StaysIdle(n, pin, en, run, from, t - 1);
      assert RxClocked(n, pin, en, run, t - 1);
    }
  }

  lemma QuietBefore(n: Word, pin: nat -> bool, en: nat -> bool, run: nat -> Rx, m: nat, e: nat, byte: Byte, t: nat)
    requires Listens(n, pin, en, run) && FrameOn(m, pin, e, byte) && t <= e + 2
    ensures run(t).state == IDLE
  {
    forall u | 0 <= u < t ensures run(u).sync2 {
      if u >= 2 { Synchronized(n, pin, en, run, u); }
      assert RxClocked(n, pin, en, run, 0);
    }
    StaysIdle(n, pin, en, run, 0, t);
  }

  lemma Detected(n: Word, pin: nat -> bool, en: nat -> bool, run: nat -> Rx, m: nat, e: nat, byte: Byte)
    requires Listens(n, pin, en, run) && FrameOn(m, pin, e, byte) && m > 0
    ensures Detects(en, run, e + 2)
  {
    QuietBefore(n, pin, en, run, m, e, byte, e + 2);
    Synchronized(n, pin, en, run, e + 2);
  }

  /** The sample of data bit i falls into data bit i. */
  lemma SampleInBit(n: nat, m: nat, i: nat)
    requires i < 8 && m <= n && 8 * n < 9 * m
    ensures (i + 1) * m <= (i + 1) * n < (i + 2) * m
  {
  }

  /** Within the tolerance the byte is recovered. */
  lemma WithinTolerance(n: Word, pin: nat -> bool, en: nat -> bool, run: nat -> Rx, m: nat, e: nat, byte: Byte)
    requires Listens(n, pin, en, run) && FrameOn(m, pin, e, byte)
    requires m <= n && 8 * n < 9 * m
    ensures Recovered(n, run, e, byte)
  {
    var d := e + 2;
    Detected(n, pin, en, run, m, e, byte);
    FrameIsSampled(n, pin, en, run, d, e);
    assert !pin(e + n / 2);
    forall i | 0 <= i < 8 ensures Heard(n, pin, e)[i] == byte[i] {
      SampleInBit(n, m, i);
    }
    var back := d + 9 * n + 1;
    forall t: nat ensures RxDone(n, run(t)) <==> t == d + 9 * n {
      if t < d {
        QuietBefore(n, pin, en, run, m, e, byte, t);
      } else if t >= back {
        forall u | back <= u < t ensures run(u).sync2 { Synchronized(n, pin, en, run, u); }
        StaysIdle(n, pin, en, run, back, t);
      }
    }
  }

  const ONES: Byte := [true, true, true, true, true, true, true, true]
  const ZEROS: Byte := [false, false, false, false, false, false, false, false]

  /** Behind the start bit a frame of ones is a high line. */
  lemma OnesAreHigh(m: nat, pin: nat -> bool, e: nat, t: nat)
    requires FrameOn(m, pin, e, ONES) && t >= e + m
    ensures pin(t)
  {
    var x := t - e;
    if x < 9 * m {
      var i := if x < 2 * m then 0 else if x < 3 * m then 1 else if x < 4 * m then 2 else if x < 5 * m then 3
               else if x < 6 * m then 4 else if x < 7 * m then 5 else if x < 8 * m then 6 else 7;
      assert (i + 1) * m <= x < (i + 2) * m;
      assert pin(t) == ONES[i];
    }
  }

  /** With too slow a sender the receiver finds the start bit where it expects data bit 0; with one twice as
      fast it takes the start bit for a glitch. */
  lemma OnesLost(n: Word, pin: nat -> bool, en: nat -> bool, run: nat -> Rx, m: nat, e: nat)
    requires Listens(n, pin, en, run) && FrameOn(m, pin, e, ONES) && m > 0
    requires m > n || n / 2 >= m
    ensures !Recovered(n, run, e, ONES)
  {
    var d := e + 2;
    Detected(n, pin, en, run, m, e, ONES);
    FrameIsSampled(n, pin, en, run, d, e);
    if m > n {
      assert !pin(e + n / 2) && !pin(e + n);
      assert !Heard(n, pin, e)[0];
    } else {
      OnesAreHigh(m, pin, e, e + n / 2);
      var back := d + n / 2 + 1;
      forall u | back <= u < d + 9 * n ensures run(u).sync2 {
        Synchronized(n, pin, en, run, u);
        OnesAreHigh(m, pin, e, u - 2);
      }
      StaysIdle(n, pin, en, run, back, d + 9 * n);
    }
  }

  /** With too fast a sender the receiver finds the stop bit where it expects data bit 7. */
  lemma ZerosLost(n: Word, pin: nat -> bool, en: nat -> bool, run: nat -> Rx, m: nat, e: nat)
    requires Listens(n, pin, en, run) && FrameOn(m, pin, e, ZEROS)
    requires n / 2 < m && 8 * n >= 9 * m
    ensures !Recovered(n, run, e, ZEROS)
  {
    Detected(n, pin, en, run, m, e, ZEROS);
    FrameIsSampled(n, pin, en, run, e + 2, e);
    assert !pin(e + n / 2) && pin(e + 8 * n);
    assert Heard(n, pin, e)[7];
  }

  /** Rate tolerance, exactly: a receiver with divisor n recovers every byte of a single frame with bit period
      m if and only if m <= n and 8 * n < 9 * m. */
  lemma RateTolerance(n: Word, m: nat, en: nat -> bool, pin: Byte -> nat -> bool, run: Byte -> nat -> Rx, e: nat)
    requires m > 0
    requires forall b: Byte :: FrameOn(m, pin(b), e, b) && Listens(n, pin(b), en, run(b))
    ensures (forall b: Byte :: Recovered(n, run(b), e, b)) <==> m <= n && 8 * n < 9 * m
  {
    if m <= n && 8 * n < 9 * m {
      forall b: Byte ensures Recovered(n, run(b), e, b) {
        WithinTolerance(n, pin(b), en, run(b), m, e, b);
      }
    } else if m > n || n / 2 >= m {
      OnesLost(n, pin(ONES), en, run(ONES), m, e);
    } else {
      ZerosLost(n, pin(ZEROS), en, run(ZEROS), m, e);
    }
  }
}
