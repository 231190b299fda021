/** The UART with its receive pin tied to its transmit pin: the stream of bytes through both FIFOs. */
module UartLoopback {
  import opened Words
  import opened ApbSlave
  import opened Uart
  import opened UartSampling
  import Fifo

  /** Everything an observer of a run keeps: the state, the bytes the transmit FIFO accepted, the bytes the
      receiver handed over, those the receive FIFO kept, and those read from it. */
  datatype Track = Track(s: State, accepted: seq<Byte>, received: seq<Byte>, kept: seq<Byte>, read: seq<Byte>)

  /** One clock edge with the pins tied together. */
  function Follow(r: Track, a: Apb): Track {
    var s := r.s;
    var done := RxDone(s.baud, s.rx);
    Track(
      Next(s, a, s.tx.line),
      r.accepted + (if Writes(a, 0x00) && |s.txFifo| < 16 then [Bits(a.pwdata, 8)] else []),
      r.received + (if done then [s.rx.shift] else []),
      r.kept + (if done && |s.rxFifo| < 16 then [s.rx.shift] else []),
      r.read + (if Reads(a, 0x04) && s.rxFifo != [] then [s.rxFifo[0]] else []))
  }

  predicate Clocked(apb: nat -> Apb, run: nat -> Track, t: nat) {
    run(t + 1) == Follow(run(t), apb(t))
  }

  /** Register writes leave the divisor and the receiver enable (bit 3 of the flags) alone. */
  predicate Polite(n: Word, a: Apb) {
    (Writes(a, 0x0C) ==> BitSet(a.pwdata, 3)) && (Writes(a, 0x10) ==> a.pwdata == n)
  }

  /** A run from reset in loopback, with divisor n, under arbitrary register accesses otherwise. */
  ghost predicate Behaviour(n: Word, apb: nat -> Apb, run: nat -> Track) {
    && n >= 16 && run(0) == Track(Reset(n), [], [], [], [])
    && (forall t: nat :: Polite(n, apb(t)))
    && (forall t: nat :: Clocked(apb, run, t))
  }

  // ---------------------------------------------------------------------------------------------------
  // The transmitter and the receiver in step
  // ---------------------------------------------------------------------------------------------------

  /** The level the transmitter put on the line so many clocks ago. */
  predicate Seen(tx: Tx, clocks: nat) {
    Level(if tx.state != IDLE && tx.cnt <= clocks then tx.state - 1 else tx.state, tx.shift)
  }

  /** The phase of the transmitter in which the receiver is in a frame: it detects the start bit four clocks
      late and is done four clocks into the stop bit. */
  predicate Receiving(tx: Tx) {
    (tx.state == START && tx.cnt >= 4) || START < tx.state < STOP || (tx.state == STOP && tx.cnt < 4)
  }

  ghost predicate InStep(n: Word, tx: Tx, rx: Rx) {
    && tx.cnt < n && (tx.state == IDLE ==> tx.cnt == 0)
    && tx.line == Seen(tx, 0) && rx.sync1 == Seen(tx, 1) && rx.sync2 == Seen(tx, 2)
    && (if Receiving(tx) then RxAt(n, rx, (tx.state - 1) * n + tx.cnt - 4) else rx.state == IDLE)
  }

  ghost predicate BitsMatch(tx: Tx, rx: Rx) {
    forall i | 0 <= i < Sampled(rx) :: rx.shift[i] == tx.shift[i]
  }

  /** Multiples of n that are fewer than n apart are equal. */
  lemma Aligned(n: nat, j: nat, k: nat, c: int)
    requires 0 - n < c < n && j * n + c == k * n
    ensures j == k && c == 0
  {
    if j < k { Monotone(j + 1, k, n); OneMore(j, n); }
    if k < j { Monotone(k + 1, j, n); OneMore(k, n); }
  }

  /** When the receiver looks at the line, the transmitter is four clocks into the same bit. */
  lemma SameBit(n: Word, tx: Tx, rx: Rx)
    requires n >= 16 && InStep(n, tx, rx) && Receiving(tx) && MidSample(n, rx)
    ensures if rx.state == START then tx.state == START && !rx.sync2
            else tx.state == rx.state && tx.cnt == 3 && rx.sync2 == Level(tx.state, tx.shift)
  {
    SampleTimes(n, rx, (tx.state - 1) * n + tx.cnt - 4);
    if rx.state != START {
      Aligned(n, tx.state - 1, rx.state - 1, tx.cnt - 3);
    } else if tx.state > START {
      Monotone(1, tx.state - 1, n);
    }
  }

  // ---------------------------------------------------------------------------------------------------
  // One clock edge
  // ---------------------------------------------------------------------------------------------------

  /** One clock of the transmitter is one clock of its phase. */
  lemma TxAdvances(n: Word, tx: Tx, fifo: seq<Byte>, enabled: bool, next: Tx)
    requires n >= 16 && tx.cnt < n && (tx.state == IDLE ==> tx.cnt == 0)
    requires next == TxNext(n, tx, fifo, enabled)
    ensures next.cnt < n && (next.state == IDLE ==> next.cnt == 0)
    ensures tx.state != IDLE ==> next.shift == tx.shift
    ensures tx.state != IDLE && next.state == IDLE ==> tx.state == STOP && tx.cnt == n - 1
    ensures tx.state != IDLE && next.state != IDLE ==>
              (next.state - 1) * n + next.cnt == (tx.state - 1) * n + tx.cnt + 1
    ensures next.line == Seen(next, 0)
    ensures forall clocks: nat | clocks < 2 :: Seen(tx, clocks) == Seen(next, clocks + 1)
  {
    if tx.state != IDLE { OneMore(tx.state - 1, n); }
  }

  ghost predicate Linked(n: Word, tx: Tx, rx: Rx) {
    InStep(n, tx, rx) && BitsMatch(tx, rx)
  }

  /** The receiver is done exactly four clocks into the stop bit. */
  lemma DoneInStop(n: Word, tx: Tx, rx: Rx)
    requires n >= 16 && Linked(n, tx, rx)
    ensures RxDone(n, rx) <==> tx.state == STOP && tx.cnt == 3
    ensures RxDone(n, rx) ==> rx.shift == tx.shift
  {
    if Receiving(tx) {
      if RxDone(n, rx) { SameBit(n, tx, rx); }
      if tx.state == STOP && tx.cnt == 3 {
        TickDue(n, rx, 9 * n - 1, 143);
      }
    }
  }

  /** Outside a frame the receiver waits for the start bit. */
  lemma WaitsForStart(n: Word, tx: Tx, rx: Rx, pin: bool, next: Rx, nextTx: Tx)
    requires n >= 16 && InStep(n, tx, rx) && !Receiving(tx) && next == RxNext(n, rx, true, pin)
    ensures if tx.state == START && tx.cnt == 3 then RxAt(n, next, 0) else next.state == IDLE
  {
  }

  /** Inside a frame it follows the transmitter. */
  lemma FollowsFrame(n: Word, tx: Tx, rx: Rx, pin: bool, next: Rx, x: int)
    requires n >= 16 && Linked(n, tx, rx) && Receiving(tx) && next == RxNext(n, rx, true, pin)
    requires x == (tx.state - 1) * n + tx.cnt - 4
    ensures if tx.state == STOP && tx.cnt == 3 then next.state == IDLE else RxAt(n, next, x + 1) && BitsMatch(tx, next)
  {
    DoneInStop(n, tx, rx);
    RxAdvances(n, rx, true, pin, x, next);
    if MidSample(n, rx) { SameBit(n, tx, rx); }
    if !Leaves(n, rx) {
      forall i | 0 <= i < Sampled(next) ensures next.shift[i] == tx.shift[i] {
        SampleKept(n, rx, true, pin, next, i);
      }
    }
  }

  /** One clock edge keeps transmitter and receiver in step. */
  lemma LinkKept(n: Word, tx: Tx, rx: Rx, fifo: seq<Byte>, enabled: bool, nextTx: Tx, nextRx: Rx)
    requires n >= 16 && Linked(n, tx, rx)
    requires nextTx == TxNext(n, tx, fifo, enabled) && nextRx == RxNext(n, rx, true, tx.line)
    ensures Linked(n, nextTx, nextRx)
  {
    TxAdvances(n, tx, fifo, enabled, nextTx);
    if Receiving(tx) {
      FollowsFrame(n, tx, rx, tx.line, nextRx, (tx.state - 1) * n + tx.cnt - 4);
    } else {
      WaitsForStart(n, tx, rx, tx.line, nextRx, nextTx);
    }
  }

  // ---------------------------------------------------------------------------------------------------
  // The stream
  // ---------------------------------------------------------------------------------------------------

  /** The byte that has left the transmit FIFO and has not been handed over by the receiver. */
  function InFlight(tx: Tx): (b: seq<Byte>)
    ensures |b| <= 1
  {
    if START <= tx.state < STOP || (tx.state == STOP && tx.cnt < 4) then [tx.shift] else []
  }

  lemma InFlightMoves(before: seq<Byte>, n: Word, tx: Tx, rx: Rx, fifo: seq<Byte>, enabled: bool, next: Tx)
    requires n >= 16 && Linked(n, tx, rx) && next == TxNext(n, tx, fifo, enabled)
    ensures before + (if RxDone(n, rx) then [rx.shift] else []) + InFlight(next)
            == before + InFlight(tx) + (if TxPops(tx, fifo, enabled) then [fifo[0]] else [])
  {
    DoneInStop(n, tx, rx);
  }

  lemma Queued(before: seq<Byte>, q: seq<Byte>, push: bool, data: Byte, pop: bool)
    ensures var in' := if push && |q| < 16 then [data] else [];
            var out := if pop && q != [] then [q[0]] else [];
            before + out + Fifo.Next(q, push, data, pop) == before + q + in'
  {
  }

  ghost predicate Stream(n: Word, r: Track) {
    && r.s.baud == n && r.s.ctrl.rxEn && Linked(n, r.s.tx, r.s.rx)
    && r.accepted == r.received + InFlight(r.s.tx) + r.s.txFifo
    && r.kept == r.read + r.s.rxFifo
  }

  lemma StreamKept(n: Word, r: Track, a: Apb, q: Track)
    requires n >= 16 && Stream(n, r) && Polite(n, a) && q == Follow(r, a)
    ensures Stream(n, q)
  {
    var s := r.s;
    Configuration(s, a, s.tx.line);
    LinkKept(n, s.tx, s.rx, s.txFifo, s.ctrl.txEn, q.s.tx, q.s.rx);
    InFlightMoves(r.received, n, s.tx, s.rx, s.txFifo, s.ctrl.txEn, q.s.tx);
    var pops := TxPops(s.tx, s.txFifo, s.ctrl.txEn);
    Queued(r.received + InFlight(s.tx), s.txFifo, Writes(a, 0x00), Bits(a.pwdata, 8), pops);
    Queued(r.read, s.rxFifo, RxDone(n, s.rx), s.rx.shift, Reads(a, 0x04));
  }

  /** In every reachable state the bytes accepted by the transmit FIFO are the bytes the receiver has handed
      over, then the at most one byte in flight, then the contents of the transmit FIFO, in order; and the
      bytes the receive FIFO kept are those read from it, then its contents. */
  lemma {:induction false} StreamIsPreserved(n: Word, apb: nat -> Apb, run: nat -> Track, t: nat)
    requires Behaviour(n, apb, run)
    ensures Stream(n, run(t))
  {
    if t > 0 {
      StreamIsPreserved(n, apb, run, t - 1);
      assert Clocked(apb, run, t - 1) && Polite(n, apb(t - 1));
      StreamKept(n, run(t - 1), apb(t - 1), run(t));
    }
  }

  /** No byte arrives at a full receive FIFO in this cycle. */
  predicate Fits(n: Word, s: State) {
    RxDone(n, s.rx) ==> |s.rxFifo| < 16
  }

  /** Until cycle t no byte arrived at a full receive FIFO. */
  ghost predicate NoOverrun(n: Word, run: nat -> Track, t: nat) {
    forall u: nat | u < t :: Fits(n, run(u).s)
  }

  lemma KeptOrLost(n: Word, r: Track, a: Apb, q: Track)
    requires r.s.baud == n && q == Follow(r, a)
    ensures if Fits(n, r.s) then
              && |q.kept| - |r.kept| == |q.received| - |r.received|
              && (r.kept == r.received ==> q.kept == q.received)
            else q.kept == r.kept && |q.received| == |r.received| + 1
  {
  }

  lemma DivisorKept(n: Word, apb: nat -> Apb, run: nat -> Track, u: nat)
    requires Behaviour(n, apb, run)
    ensures run(u).s.baud == n && run(u + 1) == Follow(run(u), apb(u))
  {
    StreamIsPreserved(n, apb, run, u);
    assert Clocked(apb, run, u);
  }

  lemma {:induction false} OverrunsAreLost(n: Word, apb: nat -> Apb, run: nat -> Track, t: nat)
    requires Behaviour(n, apb, run)
    ensures if NoOverrun(n, run, t) then run(t).kept == run(t).received else |run(t).kept| < |run(t).received|
  {
    if t > 0 {
      var u := t - 1;
      OverrunsAreLost(n, apb, run, u);
      DivisorKept(n, apb, run, u);
      KeptOrLost(n, run(u), apb(u), run(t));
      assert NoOverrun(n, run, t) <==> NoOverrun(n, run, u) && Fits(n, run(u).s);
    }
  }

  /** The reader sees exactly the accepted stream if and only if the receive FIFO is never full when a byte
      arrives. */
  lemma ReaderSeesStream(n: Word, apb: nat -> Apb, run: nat -> Track, t: nat)
    requires Behaviour(n, apb, run)
    ensures run(t).accepted == run(t).read + run(t).s.rxFifo + InFlight(run(t).s.tx) + run(t).s.txFifo
            <==> NoOverrun(n, run, t)
  {
    StreamIsPreserved(n, apb, run, t);
    OverrunsAreLost(n, apb, run, t);
  }

  // ---------------------------------------------------------------------------------------------------
  // Progress
  // ---------------------------------------------------------------------------------------------------

  /** The clocks until the transmitter is idle again. */
  function Left(n: Word, tx: Tx): int {
    if tx.state == IDLE then 0 else 10 * n - ((tx.state - 1) * n + tx.cnt)
  }

  lemma LeftBounds(n: Word, tx: Tx)
    requires n >= 16 && tx.cnt < n
    ensures 0 <= Left(n, tx) <= 10 * n && (tx.state != IDLE ==> Left(n, tx) > 0)
  {
    if tx.state != IDLE { Monotone(tx.state - 1, 9, n); }
  }

  /** An enabled transmitter never pauses: every clock it comes one clock closer to the end of its frame, or, idle with
      a byte waiting, takes it. */
  lemma NeverPauses(n: Word, tx: Tx, fifo: seq<Byte>, next: Tx)
    requires n >= 16 && tx.cnt < n && (tx.state == IDLE ==> tx.cnt == 0) && next == TxNext(n, tx, fifo, true)
    ensures if tx.state != IDLE then Left(n, next) == Left(n, tx) - 1
            else if fifo != [] then Left(n, next) == 10 * n && next.shift == fifo[0] else Left(n, next) == 0
  {
    TxAdvances(n, tx, fifo, true, next);
  }

  /** The bytes that have left the transmit FIFO. */
  function Gone(r: Track): int {
    |r.accepted| - |r.s.txFifo|
  }

  lemma GoneStep(r: Track, a: Apb, q: Track)
    requires q == Follow(r, a)
    ensures r.accepted <= q.accepted && |r.accepted| <= |q.accepted|
    ensures Gone(q) == Gone(r) + Bit(TxPops(r.s.tx, r.s.txFifo, r.s.ctrl.txEn))
  {
  }

  /** The clocks that the first goal accepted bytes still need, if the transmitter is enabled. */
  function Due(n: Word, gone: int, left: int, goal: int): int {
    (goal - gone) * (10 * n + 1) + left
  }

  lemma DueStep(n: Word, r: Track, a: Apb, q: Track, goal: nat)
    requires n >= 16 && Stream(n, r) && Polite(n, a) && q == Follow(r, a) && r.s.ctrl.txEn && Gone(r) < goal
    requires goal <= |r.accepted|
    ensures Due(n, Gone(q), Left(n, q.s.tx), goal) == Due(n, Gone(r), Left(n, r.s.tx), goal) - 1
  {
    GoneStep(r, a, q);
    NeverPauses(n, r.s.tx, r.s.txFifo, q.s.tx);
    var x := goal - Gone(q);
    if r.s.tx.state == IDLE { assert (x + 1) * (10 * n + 1) == x * (10 * n + 1) + (10 * n + 1); }
  }

  /** Behind the last of them, the frame in progress ends. */
  lemma LastStep(n: Word, r: Track, a: Apb, q: Track, goal: nat)
    requires n >= 16 && Stream(n, r) && Polite(n, a) && q == Follow(r, a) && r.s.ctrl.txEn && Gone(r) >= goal
    ensures Gone(q) > goal || (Gone(q) == goal && (Left(n, q.s.tx) == 0 || Left(n, q.s.tx) == Left(n, r.s.tx) - 1))
  {
    GoneStep(r, a, q);
    NeverPauses(n, r.s.tx, r.s.txFifo, q.s.tx);
  }

  /** The first goal bytes have all left the transmitter, or still need at most so many clocks. */
  predicate Within(n: Word, r: Track, goal: nat, clocks: int) {
    Gone(r) > goal || (Gone(r) <= goal && (Due(n, Gone(r), Left(n, r.s.tx), goal) <= clocks ||
                                           Due(n, Gone(r), Left(n, r.s.tx), goal) <= 0))
  }

  lemma WithinStep(n: Word, r: Track, a: Apb, q: Track, goal: nat, clocks: int)
    requires n >= 16 && Stream(n, r) && Polite(n, a) && q == Follow(r, a) && r.s.ctrl.txEn && goal <= |r.accepted|
    requires Within(n, r, goal, clocks)
    ensures Within(n, q, goal, clocks - 1) && goal <= |q.accepted|
  {
    GoneStep(r, a, q);
    if Gone(r) >= goal {
      LastStep(n, r, a, q, goal);
      LeftBounds(n, r.s.tx);
    } else {
      DueStep(n, r, a, q, goal);
    }
  }

  lemma NothingDue(n: Word, gone: int, left: int, goal: int)
    requires gone <= goal && left >= 0 && Due(n, gone, left, goal) <= 0
    ensures gone == goal && left == 0
  {
    if gone < goal { AtLeast(goal - gone, 10 * n + 1); }
  }

  lemma ReceivedCount(n: Word, r: Track)
    requires Stream(n, r)
    ensures r.received <= r.accepted && |r.received| == Gone(r) - |InFlight(r.s.tx)|
  {
  }

  lemma WithinZero(n: Word, r: Track, goal: nat)
    requires n >= 16 && Stream(n, r) && Within(n, r, goal, 0)
    ensures |r.received| >= goal
  {
    ReceivedCount(n, r);
    LeftBounds(n, r.s.tx);
    if Gone(r) <= goal { NothingDue(n, Gone(r), Left(n, r.s.tx), goal); }
  }

  /** What is due for all accepted bytes. */
  lemma DueNow(n: Word, r: Track)
    requires n >= 16 && Stream(n, r)
    ensures Within(n, r, |r.accepted|, (|r.s.txFifo| + 1) * (10 * n + 1))
  {
    LeftBounds(n, r.s.tx);
    assert (|r.s.txFifo| + 1) * (10 * n + 1) == |r.s.txFifo| * (10 * n + 1) + (10 * n + 1);
  }

  lemma WithinNoMore(n: Word, r: Track, goal: nat, clocks: int)
    requires Within(n, r, goal, clocks) && clocks <= 0
    ensures Within(n, r, goal, 0)
  {
  }

  /** The transmitter is enabled from cycle t on, up to cycle u. */
  ghost predicate Enabled(run: nat -> Track, t: nat, u: nat) {
    forall v | t <= v < u :: run(v).s.ctrl.txEn
  }

  lemma {:induction false} WithinAfter(n: Word, apb: nat -> Apb, run: nat -> Track, t: nat, u: nat, goal: nat,
                                       clocks: int)
    requires Behaviour(n, apb, run) && t <= u && Enabled(run, t, u)
    requires goal <= |run(t).accepted| && Within(n, run(t), goal, clocks)
    ensures goal <= |run(u).accepted| && run(t).accepted <= run(u).accepted && Within(n, run(u), goal, clocks - (u - t))
    decreases u
  {
    if t < u {
      var v := u - 1;
      WithinAfter(n, apb, run, t, v, goal, clocks);
      StreamIsPreserved(n, apb, run, v);
      assert Clocked(apb, run, v) && Polite(n, apb(v));
      WithinStep(n, run(v), apb(v), run(u), goal, clocks - (v - t));
      GoneStep(run(v), apb(v), run(u));
    }
  }

  /** Progress: as long as the transmitter is enabled, every byte accepted by cycle t is handed over by the receiver,
      10 * n + 1 clocks later for each byte in the transmit FIFO and one more. */
  lemma EveryByteArrives(n: Word, apb: nat -> Apb, run: nat -> Track, t: nat, u: nat)
    requires Behaviour(n, apb, run) && Enabled(run, t, u)
    requires u >= t + (|run(t).s.txFifo| + 1) * (10 * n + 1)
    ensures run(t).accepted <= run(u).received
  {
    var goal, clocks := |run(t).accepted|, (|run(t).s.txFifo| + 1) * (10 * n + 1);
    StreamIsPreserved(n, apb, run, t);
    StreamIsPreserved(n, apb, run, u);
    DueNow(n, run(t));
    WithinAfter(n, apb, run, t, u, goal, clocks);
    WithinNoMore(n, run(u), goal, clocks - (u - t));
    WithinZero(n, run(u), goal);
    ReceivedCount(n, run(u));
  }
}
