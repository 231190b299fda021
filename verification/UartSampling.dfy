/** When the receiver looks at its pin, for every divisor and every waveform. */
module UartSampling {
  import opened Words
  import opened Uart

  /** The number of ticks since the start of the frame was detected. */
  function Ticks(rx: Rx): nat
    requires rx.state != IDLE
  {
    if rx.state == START then rx.sample else 8 + 16 * (rx.state - DATA0) + rx.sample
  }

  /** Bounds on the counters within a frame. */
  predicate Bounded(n: Word, rx: Rx) {
    rx.state != IDLE && rx.cnt <= TickLimit(n, rx.frac) && (rx.state == START || rx.state == STOP ==> rx.sample < 8)
  }

  /** x clocks after it left the idle state, the receiver has seen exactly the ticks that fit into x clocks:
      the last one came 16ths * ticks / 16 clocks in, and the fraction accumulator holds the remainder. */
  ghost predicate RxAt(n: Word, rx: Rx, x: int) {
    && Bounded(n, rx)
    && 16 * (x - rx.cnt) + rx.frac == Ticks(rx) * n
  }

  lemma OneMore(k: nat, n: nat)
    ensures (k + 1) * n == k * n + n
  {
  }

  lemma TickLength(n: Word, frac: Nibble)
    requires n >= 16
    ensures 16 * (TickLimit(n, frac) + 1) + (frac + n % 16) % 16 == frac + n
  {
  }

  /** The end of a tick period in terms of elapsed clocks. */
  lemma TickTime(n: Word, rx: Rx, x: int)
    requires n >= 16 && RxAt(n, rx, x)
    ensures var left := TickLimit(n, rx.frac) - rx.cnt;
            var frac := (rx.frac + n % 16) % 16;
            16 * (x + 1 + left) + frac == (Ticks(rx) + 1) * n
  {
    OneMore(Ticks(rx), n);
    TickLength(n, rx.frac);
  }

  lemma Quotient(p: int, q: int, r: int)
    requires p == 16 * q + r && 0 <= r < 16
    ensures p / 16 == q
  {
  }

  /** Zero drift: the tick after j earlier ones comes exactly when floor((j + 1) * n / 16) clocks have gone by
      since the start was detected, so sixteen ticks always span n clocks. */
  lemma TickIsOnTime(n: Word, rx: Rx, x: int)
    requires n >= 16 && RxAt(n, rx, x)
    ensures RxTick(n, rx) <==> x + 1 == (Ticks(rx) + 1) * n / 16
    ensures Ticks(rx) * n / 16 <= x < (Ticks(rx) + 1) * n / 16
  {
    TickTime(n, rx, x);
    Quotient(Ticks(rx) * n, x - rx.cnt, rx.frac);
    var left := TickLimit(n, rx.frac) - rx.cnt;
    Quotient((Ticks(rx) + 1) * n, x + 1 + left, (rx.frac + n % 16) % 16);
  }

  predicate Leaves(n: Word, rx: Rx) {
    (rx.state == START && MidSample(n, rx) && rx.sync2) || RxDone(n, rx)
  }

  /** The counters after a clock edge within a frame. */
  lemma RxCounts(n: Word, rx: Rx, enabled: bool, pin: bool, next: Rx)
    requires Bounded(n, rx)
    requires next == RxNext(n, rx, enabled, pin)
    ensures Leaves(n, rx) ==> next.state == IDLE
    ensures !Leaves(n, rx) ==>
              && next.state != IDLE && (next.state == START || next.state == STOP ==> next.sample < 8)
              && Ticks(next) == Ticks(rx) + (if RxTick(n, rx) then 1 else 0)
    ensures next.cnt == (if RxTick(n, rx) then 0 else rx.cnt + 1)
    ensures next.frac == (if RxTick(n, rx) then (rx.frac + n % 16) % 16 else rx.frac)
  {
  }

  /** The receiver stays on schedule until it leaves the frame: on a false start or at its end. */
  lemma RxAdvances(n: Word, rx: Rx, enabled: bool, pin: bool, x: int, next: Rx)
    requires n >= 16 && RxAt(n, rx, x) && next == RxNext(n, rx, enabled, pin)
    ensures if Leaves(n, rx) then next.state == IDLE else RxAt(n, next, x + 1)
  {
    RxCounts(n, rx, enabled, pin, next);
    TickTime(n, rx, x);
    if !Leaves(n, rx) {
      assert next.cnt <= TickLimit(n, next.frac);
      if RxTick(n, rx) {
        assert Ticks(next) * n == (Ticks(rx) + 1) * n;
      }
    }
  }

  lemma Sixteen(k: int, n: int)
    ensures 16 * k * n == 16 * (k * n)
  {
  }

  /** Data bit i is sampled (i + 1) * n clocks after the detection, the middle of the start bit is checked
      after n / 2, and the byte is handed over after 9 * n. */
  lemma SampleTimes(n: Word, rx: Rx, x: int)
    requires n >= 16 && RxAt(n, rx, x) && MidSample(n, rx)
    ensures rx.state == START ==> x + 1 == n / 2
    ensures rx.state != START ==> x + 1 == (rx.state - 1) * n
  {
    TickTime(n, rx, x);
    if rx.state != START {
      assert Ticks(rx) + 1 == 16 * (rx.state - 1);
      Sixteen(rx.state - 1, n);
    }
  }

  // ---------------------------------------------------------------------------------------------------
  // Runs of the receiver under an arbitrary waveform
  // ---------------------------------------------------------------------------------------------------

  predicate RxClocked(n: Word, pin: nat -> bool, en: nat -> bool, run: nat -> Rx, t: nat) {
    run(t + 1) == RxNext(n, run(t), en(t), pin(t))
  }

  /** A run of the receiver with a constant divisor. */
  ghost predicate RxRun(n: Word, pin: nat -> bool, en: nat -> bool, run: nat -> Rx) {
    n >= 16 && forall t: nat :: RxClocked(n, pin, en, run, t)
  }

  /** The synchronizer delays the pin by two clocks. */
  lemma Synchronized(n: Word, pin: nat -> bool, en: nat -> bool, run: nat -> Rx, t: nat)
    requires RxRun(n, pin, en, run) && t >= 2
    ensures run(t).sync2 == pin(t - 2)
  {
    assert RxClocked(n, pin, en, run, t - 2) && RxClocked(n, pin, en, run, t - 1);
  }

  /** An idle receiver begins a frame exactly if it is enabled and the pin was low two clocks ago. */
  lemma BeginsExactly(n: Word, pin: nat -> bool, en: nat -> bool, run: nat -> Rx, d: nat, e: nat)
    requires RxRun(n, pin, en, run) && run(d).state == 0 && d == e + 2
    ensures run(d + 1).state == if en(d) && !pin(e) then 1 else 0
  {
    Synchronized(n, pin, en, run, d);
    assert RxClocked(n, pin, en, run, d);
  }

  /** A receiver that is idle when it is disabled hears nothing until it is enabled again. */
  lemma {:induction false} HearsNothing(n: Word, pin: nat -> bool, en: nat -> bool, run: nat -> Rx, from: nat, t: nat)
    requires RxRun(n, pin, en, run) && run(from).state == 0 && from <= t
    requires forall u | from <= u < t :: !en(u)
    ensures run(t).state == 0 && !RxDone(n, run(t))
    decreases t
  {
    if from < t {
      HearsNothing(n, pin, en, run, from, t - 1);
      assert RxClocked(n, pin, en, run, t - 1);
    }
  }

  /** In cycle d the idle receiver sees the line low. */
  predicate Detects(en: nat -> bool, run: nat -> Rx, d: nat) {
    run(d).state == IDLE && !run(d).sync2 && en(d)
  }

  /** How many data bits are in the shift register. */
  function Sampled(rx: Rx): (k: nat)
    ensures k <= 8
  {
    if rx.state < DATA0 then 0 else if rx.state == STOP then 8
    else rx.state - DATA0 + if rx.sample >= 8 then 1 else 0
  }

  /** The bits in the shift register are what the synchronizer showed n, 2n, ... clocks after the detection. */
  ghost predicate BitsSampled(n: Word, run: nat -> Rx, d: nat, rx: Rx) {
    forall i | 0 <= i < Sampled(rx) :: rx.shift[i] == run(d + (i + 1) * n).sync2
  }

  /** A clock edge adds the level in the middle of a data bit, and keeps the bits sampled before. */
  lemma SampleKept(n: Word, rx: Rx, enabled: bool, pin: bool, next: Rx, i: nat)
    requires Bounded(n, rx) && next == RxNext(n, rx, enabled, pin) && !Leaves(n, rx) && i < Sampled(next)
    ensures if i < Sampled(rx) then next.shift[i] == rx.shift[i]
            else i == rx.state - DATA0 && MidSample(n, rx) && next.shift[i] == rx.sync2
  {
  }

  lemma BitsStay(n: Word, run: nat -> Rx, d: nat, enabled: bool, pin: bool, y: nat, u: nat, next: Rx)
    requires n >= 16 && u == d + 1 + y && RxAt(n, run(u), y) && BitsSampled(n, run, d, run(u))
    requires next == RxNext(n, run(u), enabled, pin) && !Leaves(n, run(u))
    ensures BitsSampled(n, run, d, next)
  {
    var rx := run(u);
    if MidSample(n, rx) { SampleTimes(n, rx, y); }
    forall i | 0 <= i < Sampled(next) ensures next.shift[i] == run(d + (i + 1) * n).sync2 {
      SampleKept(n, rx, enabled, pin, next, i);
      if i >= Sampled(rx) { assert u == d + (i + 1) * n; }
    }
  }

  /** The receiver x clocks into a frame whose start bit passes the check. */
  lemma {:induction false} InFrame(n: Word, pin: nat -> bool, en: nat -> bool, run: nat -> Rx, d: nat, x: nat, t: nat)
    requires RxRun(n, pin, en, run) && Detects(en, run, d) && t == d + 1 + x
    requires x < 9 * n && (x >= n / 2 ==> !run(d + n / 2).sync2)
    ensures RxAt(n, run(t), x) && BitsSampled(n, run, d, run(t))
    decreases x
  {
    if x == 0 {
      assert RxClocked(n, pin, en, run, d);
    } else {
      var y, u := x - 1, t - 1;
      InFrame(n, pin, en, run, d, y, u);
      assert RxClocked(n, pin, en, run, u);
      RxAdvances(n, run(u), en(u), pin(u), y, run(t));
      if MidSample(n, run(u)) { SampleTimes(n, run(u), y); }
      BitsStay(n, run, d, en(u), pin(u), y, u, run(t));
    }
  }

  lemma Monotone(j: nat, k: nat, n: nat)
    requires j <= k
    ensures j * n <= k * n
  {
  }

  /** Which tick is due in a clock that ends a whole number of half bits. */
  lemma TickDue(n: Word, rx: Rx, x: int, k: nat)
    requires n >= 16 && RxAt(n, rx, x) && x + 1 == (k + 1) * n / 16 && k % 8 == 7
    ensures Ticks(rx) == k && RxTick(n, rx)
  {
    TickIsOnTime(n, rx, x);
    OneMore(k, n);
    if Ticks(rx) > k { Monotone(k + 1, Ticks(rx), n); }
    if Ticks(rx) < k { Monotone(Ticks(rx) + 1, k, n); }
  }

  lemma NotYet(n: Word, pin: nat -> bool, en: nat -> bool, run: nat -> Rx, d: nat, u: nat)
    requires RxRun(n, pin, en, run) && Detects(en, run, d)
    requires d < u < d + 9 * n && (u > d + n / 2 ==> !run(d + n / 2).sync2)
    ensures !RxDone(n, run(u))
  {
    InFrame(n, pin, en, run, d, u - d - 1, u);
    if RxDone(n, run(u)) { SampleTimes(n, run(u), u - d - 1); }
  }

  /** The levels the pin had n, 2n, ..., 8n clocks after cycle e. */
  function Heard(n: Word, pin: nat -> bool, e: nat): Byte {
    seq(8, i requires 0 <= i < 8 => pin(e + (i + 1) * n))
  }

  /** The receiver hands over the given byte 9 * n clocks after it has detected a low line in cycle d, nothing
      before that, and is idle again. */
  ghost predicate Receives(n: Word, run: nat -> Rx, d: nat, byte: Byte) {
    && RxDone(n, run(d + 9 * n)) && run(d + 9 * n).shift == byte
    && (forall t | d <= t < d + 9 * n :: !RxDone(n, run(t)))
    && run(d + 9 * n + 1).state == IDLE
  }

  /** The receiver drops a start bit that is too short. */
  ghost predicate Drops(n: Word, run: nat -> Rx, d: nat) {
    && (forall t | d <= t <= d + n / 2 :: !RxDone(n, run(t)))
    && run(d + n / 2 + 1).state == IDLE
  }

  lemma FalseStart(n: Word, pin: nat -> bool, en: nat -> bool, run: nat -> Rx, d: nat, t: nat)
    requires RxRun(n, pin, en, run) && Detects(en, run, d) && t == d + n / 2 && run(t).sync2
    ensures Drops(n, run, d)
  {
    var x := n / 2 - 1;
    InFrame(n, pin, en, run, d, x, t);
    TickDue(n, run(t), x, 7);
    assert RxClocked(n, pin, en, run, t);
    forall u | d < u <= t ensures !RxDone(n, run(u)) { NotYet(n, pin, en, run, d, u); }
  }

  lemma FrameEnds(n: Word, pin: nat -> bool, en: nat -> bool, run: nat -> Rx, d: nat, t: nat)
    requires RxRun(n, pin, en, run) && Detects(en, run, d) && t == d + 9 * n && !run(d + n / 2).sync2
    ensures RxDone(n, run(t)) && run(t + 1).state == IDLE && BitsSampled(n, run, d, run(t))
  {
    var x := 9 * n - 1;
    InFrame(n, pin, en, run, d, x, t);
    TickDue(n, run(t), x, 143);
    assert RxClocked(n, pin, en, run, t);
  }

  /** What the receiver makes of any waveform once it has detected a low line (at the pin, two clocks before
      d): it checks the pin n / 2 clocks later, and if the pin is still low it hands over the eight levels
      that the pin had n, 2n, ..., 8n clocks after the edge. */
  lemma FrameIsSampled(n: Word, pin: nat -> bool, en: nat -> bool, run: nat -> Rx, d: nat, e: nat)
    requires RxRun(n, pin, en, run) && Detects(en, run, d) && d == e + 2
    ensures if pin(e + n / 2) then Drops(n, run, d) else Receives(n, run, d, Heard(n, pin, e))
  {
    Synchronized(n, pin, en, run, d + n / 2);
    if pin(e + n / 2) {
      FalseStart(n, pin, en, run, d, d + n / 2);
    } else {
      var t := d + 9 * n;
      FrameEnds(n, pin, en, run, d, t);
      forall u | d < u < t ensures !RxDone(n, run(u)) { NotYet(n, pin, en, run, d, u); }
      forall i | 0 <= i < 8 ensures run(t).shift[i] == Heard(n, pin, e)[i] {
        Synchronized(n, pin, en, run, d + (i + 1) * n);
      }
    }
  }
}
