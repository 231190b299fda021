/** The UART: 8N1 transmitter, 16x oversampling receiver with a fractional divider, FIFOs and registers. */
module Uart {
  import opened Words
  import opened ApbSlave
  import Fifo

  /** Encodings of the transmitter and receiver states: idle, start bit, eight data bits, stop bit. */
  type Phase = s: int | 0 <= s <= 10
  const IDLE: Phase := 0
  const START: Phase := 1
  const DATA0: Phase := 2
  const STOP: Phase := 10

  type Nibble = x: int | 0 <= x < 16

  datatype Tx = Tx(state: Phase, cnt: Word, shift: Byte, line: bool)

  datatype Rx = Rx(state: Phase, cnt: Word, frac: Nibble, sample: Nibble, shift: Byte, sync1: bool, sync2: bool)

  datatype Ctrl = Ctrl(txIe: bool, rxIe: bool, txEn: bool, rxEn: bool)

  datatype State = State(txFifo: seq<Byte>, rxFifo: seq<Byte>, tx: Tx, rx: Rx, ctrl: Ctrl, baud: Word)

  const TX_DATA := 0x00
  const RX_DATA := 0x04
  const STATUS := 0x08
  const CTRL := 0x0C
  const BAUD_DIV := 0x10

  const TX_RESET := Tx(IDLE, 0, Bits(255, 8), true)
  const RX_RESET := Rx(IDLE, 0, 0, 0, Bits(0, 8), true, true)

  function Reset(baud: Word): State {
    State([], [], TX_RESET, RX_RESET, Ctrl(false, false, true, true), baud)
  }

  // ---------------------------------------------------------------------------------------------------
  // Transmitter
  // ---------------------------------------------------------------------------------------------------

  /** The level the transmitter puts on the line for a state. */
  predicate Level(state: Phase, byte: Byte) {
    if state == IDLE || state == STOP then true else if state == START then false else byte[state - DATA0]
  }

  predicate TxPops(tx: Tx, fifo: seq<Byte>, enabled: bool) {
    tx.state == IDLE && fifo != [] && enabled
  }

  predicate TxTick(n: Word, tx: Tx) {
    tx.state != IDLE && tx.cnt == Wrap(n - 1)
  }

  function TxNext(n: Word, tx: Tx, fifo: seq<Byte>, enabled: bool): Tx {
    Tx(
      if tx.state == IDLE then if TxPops(tx, fifo, enabled) then START else IDLE
      else if !TxTick(n, tx) then tx.state
      else if tx.state == STOP then IDLE else tx.state + 1,
      if tx.state == IDLE || tx.cnt >= Wrap(n - 1) then 0 else tx.cnt + 1,
      if TxPops(tx, fifo, enabled) then fifo[0] else tx.shift,
      Level(tx.state, tx.shift))
  }

  // ---------------------------------------------------------------------------------------------------
  // Receiver
  // ---------------------------------------------------------------------------------------------------

  /** The last count of the current tick: n / 16 clocks, one more whenever the fractions add up to a clock. */
  function TickLimit(n: Word, frac: Nibble): Word {
    if frac + n % 16 >= 16 then n / 16 else Wrap(n / 16 - 1)
  }

  predicate RxTick(n: Word, rx: Rx) {
    rx.state != IDLE && rx.cnt == TickLimit(n, rx.frac)
  }

  predicate MidSample(n: Word, rx: Rx) {
    RxTick(n, rx) && rx.sample == 7
  }

  predicate BitDone(n: Word, rx: Rx) {
    RxTick(n, rx) && rx.sample == 15
  }

  /** The receiver hands over a byte; the level of the stop bit is not looked at. */
  predicate RxDone(n: Word, rx: Rx) {
    rx.state == STOP && MidSample(n, rx)
  }

  function RxState(n: Word, rx: Rx, enabled: bool): Phase {
    if rx.state == IDLE then if !rx.sync2 && enabled then START else IDLE
    else if rx.state == START then if !MidSample(n, rx) then START else if rx.sync2 then IDLE else DATA0
    else if rx.state == STOP then if MidSample(n, rx) then IDLE else STOP
    else if BitDone(n, rx) then rx.state + 1 else rx.state
  }

  function RxNext(n: Word, rx: Rx, enabled: bool, pin: bool): Rx {
    var wraps := rx.cnt >= TickLimit(n, rx.frac);
    Rx(
      RxState(n, rx, enabled),
      if rx.state == IDLE || wraps then 0 else rx.cnt + 1,
      if rx.state == IDLE then 0 else if wraps then (rx.frac + n % 16) % 16 else rx.frac,
      if rx.state == IDLE || (rx.state == START && MidSample(n, rx) && !rx.sync2) then 0
      else if RxTick(n, rx) then (rx.sample + 1) % 16 else rx.sample,
      if DATA0 <= rx.state < STOP && MidSample(n, rx) then rx.shift[rx.state - DATA0 := rx.sync2] else rx.shift,
      pin, rx.sync1)
  }

  // ---------------------------------------------------------------------------------------------------
  // Registers and FIFOs
  // ---------------------------------------------------------------------------------------------------

  predicate Flag(w: Word, i: nat) {
    Bits(w, i + 1)[i]
  }

  function CtrlOf(w: Word): Ctrl {
    Ctrl(Flag(w, 0), Flag(w, 1), Flag(w, 2), Flag(w, 3))
  }

  /** One clock edge of the whole UART. */
  function Next(s: State, a: Apb, pin: bool): State {
    State(
      Fifo.Next(s.txFifo, Writes(a, TX_DATA), Bits(a.pwdata, 8), TxPops(s.tx, s.txFifo, s.ctrl.txEn)),
      Fifo.Next(s.rxFifo, RxDone(s.baud, s.rx), s.rx.shift, Reads(a, RX_DATA)),
      TxNext(s.baud, s.tx, s.txFifo, s.ctrl.txEn),
      RxNext(s.baud, s.rx, s.ctrl.rxEn, pin),
      if Writes(a, CTRL) then CtrlOf(a.pwdata) else s.ctrl,
      if Writes(a, BAUD_DIV) then a.pwdata else s.baud)
  }

  /** The status register: FIFO flags and the busy flag of the transmitter. */
  function Status(s: State): Word {
    Bit(|s.txFifo| == Fifo.DEPTH) + 2 * Bit(s.txFifo == []) + 4 * Bit(|s.rxFifo| == Fifo.DEPTH)
    + 8 * Bit(s.rxFifo == []) + 16 * Bit(s.tx.state != IDLE)
  }

  predicate Irq(s: State) {
    (s.txFifo == [] && s.ctrl.txIe) || (s.rxFifo != [] && s.ctrl.rxIe)
  }

  function Unsigned(b: Byte): Word {
    NumberBound(b);
    Pow2Values();
    Number(b)
  }

  /** What a register read returns; an empty receive FIFO shows a stale entry. */
  function ReadData(s: State, a: Apb, stale: Byte): Word {
    if !Reading(a) then 0
    else if a.paddr == RX_DATA then Unsigned(if s.rxFifo == [] then stale else s.rxFifo[0])
    else if a.paddr == STATUS then Status(s)
    else if a.paddr == CTRL then Bit(s.ctrl.txIe) + 2 * Bit(s.ctrl.rxIe) + 4 * Bit(s.ctrl.txEn) + 8 * Bit(s.ctrl.rxEn)
    else if a.paddr == BAUD_DIV then s.baud
    else 0
  }

  // ---------------------------------------------------------------------------------------------------
  // Registers, by their addresses
  // ---------------------------------------------------------------------------------------------------

  /** After reset the FIFOs are empty, both directions idle and enabled, interrupts off, and the line is high. */
  lemma AfterReset(baud: Word, a: Apb, stale: Byte)
    ensures var s := Reset(baud);
            && |s.txFifo| == 0 && |s.rxFifo| == 0 && s.tx.state == 0 && s.tx.line && s.rx.state == 0
            && s.rx.sync1 && s.rx.sync2 && !Irq(s) && s.baud == baud
            && (Reads(a, 0x0C) ==> ReadData(s, a, stale) == 12) && (Reads(a, 0x08) ==> ReadData(s, a, stale) == 10)
  {
  }

  /** What software configures: four flags at 0x0C, the divisor at 0x10. Nothing else changes them. */
  lemma Configuration(s: State, a: Apb, pin: bool)
    ensures var c, w := Next(s, a, pin).ctrl, a.pwdata;
            if Writes(a, 0x0C)
            then c.txIe == BitSet(w, 0) && c.rxIe == BitSet(w, 1) && c.txEn == BitSet(w, 2) && c.rxEn == BitSet(w, 3)
            else c == s.ctrl
    ensures Next(s, a, pin).baud == if Writes(a, 0x10) then a.pwdata else s.baud
  {
    BitsAt(a.pwdata, 1, 0);
    BitsAt(a.pwdata, 2, 1);
    BitsAt(a.pwdata, 3, 2);
    BitsAt(a.pwdata, 4, 3);
  }

  /** Five flags, from the lowest bit on. */
  lemma FlagsOf(w: Word, b0: nat, b1: nat, b2: nat, b3: nat, b4: nat)
    requires b0 < 2 && b1 < 2 && b2 < 2 && b3 < 2 && b4 < 2 && w == b0 + 2 * b1 + 4 * b2 + 8 * b3 + 16 * b4
    ensures BitSet(w, 0) == (b0 == 1) && BitSet(w, 1) == (b1 == 1) && BitSet(w, 2) == (b2 == 1)
    ensures BitSet(w, 3) == (b3 == 1) && BitSet(w, 4) == (b4 == 1)
  {
    assert Pow2(0) == 1 && Pow2(1) == 2 && Pow2(2) == 4 && Pow2(3) == 8 && Pow2(4) == 16;
  }

  /** The status register at 0x08: transmit FIFO full, empty, receive FIFO full, empty, transmitter busy. */
  lemma StatusBits(s: State, a: Apb, stale: Byte)
    requires Reads(a, 0x08)
    ensures var w := ReadData(s, a, stale);
            && w < 32 && BitSet(w, 0) == (|s.txFifo| == 16) && BitSet(w, 1) == (|s.txFifo| == 0)
            && BitSet(w, 2) == (|s.rxFifo| == 16) && BitSet(w, 3) == (|s.rxFifo| == 0)
            && BitSet(w, 4) == (s.tx.state != 0)
  {
    FlagsOf(Status(s), Bit(|s.txFifo| == 16), Bit(s.txFifo == []), Bit(|s.rxFifo| == 16), Bit(s.rxFifo == []),
            Bit(s.tx.state != IDLE));
  }

  lemma NumberOfFour(b: seq<bool>)
    requires |b| == 4
    ensures Number(b) == Bit(b[0]) + 2 * Bit(b[1]) + 4 * Bit(b[2]) + 8 * Bit(b[3])
  {
    var b1, b2, b3 := b[1..], b[2..], b[3..];
    assert b1[1..] == b2 && b2[1..] == b3 && b3[1..] == [];
    assert Number(b3) == Bit(b[3]);
    assert Number(b2) == Bit(b[2]) + 2 * Number(b3);
    assert Number(b1) == Bit(b[1]) + 2 * Number(b2);
  }

  /** The low four bits of a word, by their values. */
  lemma LowBits(w: Word)
    ensures w % 16 == Bit(BitSet(w, 0)) + 2 * Bit(BitSet(w, 1)) + 4 * Bit(BitSet(w, 2)) + 8 * Bit(BitSet(w, 3))
  {
    NumberOfBits(w, 4);
    assert Pow2(4) == 16;
    BitsAt(w, 4, 0);
    BitsAt(w, 4, 1);
    BitsAt(w, 4, 2);
    BitsAt(w, 4, 3);
    NumberOfFour(Bits(w, 4));
  }

  /** What is written to the flags or to the divisor is read back. */
  lemma ReadBack(s: State, a: Apb, pin: bool, r: Apb, stale: Byte)
    ensures Writes(a, 0x0C) && Reads(r, 0x0C) ==> ReadData(Next(s, a, pin), r, stale) == a.pwdata % 16
    ensures Writes(a, 0x10) && Reads(r, 0x10) ==> ReadData(Next(s, a, pin), r, stale) == a.pwdata
  {
    Configuration(s, a, pin);
    LowBits(a.pwdata);
  }

  /** The line is up exactly when software sees, in status and flags, an empty transmit FIFO whose interrupt is enabled,
      or a receive FIFO that is not empty and whose interrupt is enabled. */
  lemma InterruptLine(s: State, status: Apb, ctrl: Apb, stale: Byte)
    requires Reads(status, 0x08) && Reads(ctrl, 0x0C)
    ensures var st, c := ReadData(s, status, stale), ReadData(s, ctrl, stale);
            Irq(s) <==> (BitSet(st, 1) && BitSet(c, 0)) || (!BitSet(st, 3) && BitSet(c, 1))
  {
    StatusBits(s, status, stale);
    FlagsOf(ReadData(s, ctrl, stale), Bit(s.ctrl.txIe), Bit(s.ctrl.rxIe), Bit(s.ctrl.txEn), Bit(s.ctrl.rxEn), 0);
  }

  /** Without a read at 0x04, 0x08, 0x0C or 0x10 the bus sees zero. */
  lemma ElsewhereZero(s: State, a: Apb, stale: Byte)
    requires !Reads(a, 0x04) && !Reads(a, 0x08) && !Reads(a, 0x0C) && !Reads(a, 0x10)
    ensures ReadData(s, a, stale) == 0
  {
  }

  /** The receive register at 0x04 shows the oldest byte and takes it from the FIFO. */
  lemma ReceiveRegister(s: State, a: Apb, pin: bool, stale: Byte)
    requires Reads(a, 0x04) && s.rxFifo != []
    ensures Bits(ReadData(s, a, stale), 8) == s.rxFifo[0] && s.rxFifo[1..] <= Next(s, a, pin).rxFifo
  {
    BitsOfNumber(s.rxFifo[0]);
  }

  /** The low byte written to the transmit register is the word a reader gets for it. */
  lemma ByteRoundTrip(w: Word)
    ensures Unsigned(Bits(w, 8)) == w % 256
  {
    NumberOfBits(w, 8);
    Pow2Values();
  }

  // ---------------------------------------------------------------------------------------------------
  // The device
  // ---------------------------------------------------------------------------------------------------

  class Device {
    const txFifo: Fifo.RingBuffer
    const rxFifo: Fifo.RingBuffer
    var ctrl: Ctrl
    var baud: Word
    var txState: Phase
    var txCnt: Word
    var txShift: Byte
    var line: bool
    var rxState: Phase
    var rxCnt: Word
    var fracAcc: Nibble
    var sampleCnt: Nibble
    var rxShift: Byte
    var sync1: bool
    var sync2: bool

    ghost predicate Valid()
      reads this, txFifo, rxFifo
    {
      txFifo != rxFifo && txFifo.mem != rxFifo.mem && txFifo.Valid() && rxFifo.Valid()
    }

    ghost function Abstract(): State
      reads this, txFifo, txFifo.mem, rxFifo, rxFifo.mem
      requires Valid()
    {
      State(txFifo.Contents(), rxFifo.Contents(), TxRegs(), RxRegs(), ctrl, baud)
    }

    function TxRegs(): Tx
      reads this
    {
      Tx(txState, txCnt, txShift, line)
    }

    function RxRegs(): Rx
      reads this
    {
      Rx(rxState, rxCnt, fracAcc, sampleCnt, rxShift, sync1, sync2)
    }

    constructor (divisor: Word)
      ensures Valid() && fresh(txFifo) && fresh(txFifo.mem) && fresh(rxFifo) && fresh(rxFifo.mem)
      ensures Abstract() == Reset(divisor)
    {
      txFifo := new Fifo.RingBuffer();
      rxFifo := new Fifo.RingBuffer();
      ctrl, baud := Ctrl(false, false, true, true), divisor;
      txState, txCnt, txShift, line := IDLE, 0, Bits(255, 8), true;
      rxState, rxCnt, fracAcc, sampleCnt, rxShift, sync1, sync2 := IDLE, 0, 0, 0, Bits(0, 8), true, true;
    }

    /** The transmitter's registers on a clock edge; front is the entry at the FIFO's read port. */
    method ClockTx(pops: bool, front: Byte)
      modifies `txState, `txCnt, `txShift, `line
      requires pops ==> txState == IDLE
      ensures TxRegs() == TxNext(baud, old(TxRegs()), if pops then [front] else [], true)
    {
      var tick := txState != IDLE && txCnt == Wrap(baud - 1);
      line := Level(txState, txShift);
      if pops {
        txShift := front;
      }
      if txState == IDLE || txCnt >= Wrap(baud - 1) {
        txCnt := 0;
      } else {
        txCnt := txCnt + 1;
      }
      if txState == IDLE {
        if pops {
          txState := START;
        }
      } else if tick {
        txState := if txState == STOP then IDLE else txState + 1;
      }
    }

    /** The receiver's state, shift register and synchronizer on a clock edge; mid and bitDone are the sample
        strobes of the cycle. */
    method ClockRxFsm(pin: bool, mid: bool, bitDone: bool)
      requires mid == MidSample(baud, RxRegs()) && bitDone == BitDone(baud, RxRegs())
      modifies `rxState, `rxShift, `sync1, `sync2
      ensures rxState == RxState(baud, old(RxRegs()), ctrl.rxEn)
      ensures rxShift == RxNext(baud, old(RxRegs()), ctrl.rxEn, pin).shift
      ensures sync1 == pin && sync2 == old(sync1)
    {
      if DATA0 <= rxState < STOP && mid {
        rxShift := rxShift[rxState - DATA0 := sync2];
      }
      if rxState == IDLE {
        if !sync2 && ctrl.rxEn { rxState := START; }
      } else if rxState == START {
        if mid { rxState := if sync2 then IDLE else DATA0; }
      } else if rxState == STOP {
        if mid { rxState := IDLE; }
      } else if bitDone {
        rxState := rxState + 1;
      }
      sync1, sync2 := pin, sync1;
    }

    /** The receiver's registers on a clock edge. */
    method ClockRx(pin: bool)
      modifies `rxState, `rxCnt, `fracAcc, `sampleCnt, `rxShift, `sync1, `sync2
      ensures RxRegs() == RxNext(baud, old(RxRegs()), ctrl.rxEn, pin)
    {
      var limit := TickLimit(baud, fracAcc);
      var tick := rxState != IDLE && rxCnt == limit;
      var mid, bitDone := tick && sampleCnt == 7, tick && sampleCnt == 15;
      var idle, confirmed := rxState == IDLE, rxState == START && mid && !sync2;
      ClockRxFsm(pin, mid, bitDone);
      if idle || confirmed {
        sampleCnt := 0;
      } else if tick {
        sampleCnt := (sampleCnt + 1) % 16;
      }
      if idle {
        rxCnt, fracAcc := 0, 0;
      } else if rxCnt >= limit {
        rxCnt, fracAcc := 0, (fracAcc + baud % 16) % 16;
      } else {
        rxCnt := rxCnt + 1;
      }
    }

    /** The flags of the status register, from the counters. */
    method Flags() returns (status: Word)
      requires Valid()
      ensures status == Status(Abstract())
    {
      status := Bit(txFifo.count == 16) + 2 * Bit(txFifo.count == 0) + 4 * Bit(rxFifo.count == 16)
                + 8 * Bit(rxFifo.count == 0) + 16 * Bit(txState != IDLE);
    }

    method Interrupt() returns (irq: bool)
      requires Valid()
      ensures irq == Irq(Abstract())
    {
      irq := (txFifo.count == 0 && ctrl.txIe) || (rxFifo.count != 0 && ctrl.rxIe);
    }

    /** The combinational outputs: read data and interrupt. */
    method Outputs(a: Apb) returns (prdata: Word, irq: bool)
      requires Valid()
      ensures prdata == ReadData(Abstract(), a, rxFifo.Front()) && irq == Irq(Abstract())
    {
      prdata := 0;
      if Reading(a) {
        if a.paddr == RX_DATA {
          prdata := Unsigned(rxFifo.Front());
        } else if a.paddr == STATUS {
          prdata := Flags();
        } else if a.paddr == CTRL {
          prdata := Bit(ctrl.txIe) + 2 * Bit(ctrl.rxIe) + 4 * Bit(ctrl.txEn) + 8 * Bit(ctrl.rxEn);
        } else if a.paddr == BAUD_DIV {
          prdata := baud;
        }
      }
      irq := Interrupt();
    }

    /** Both FIFOs on a clock edge. */
    method ClockFifos(a: Apb, pops: bool, done: bool, received: Byte)
      requires Valid()
      modifies txFifo, txFifo.mem, rxFifo, rxFifo.mem
      ensures Valid()
      ensures txFifo.Contents() == Fifo.Next(old(txFifo.Contents()), Writes(a, TX_DATA), Bits(a.pwdata, 8), pops)
      ensures rxFifo.Contents() == Fifo.Next(old(rxFifo.Contents()), done, received, Reads(a, RX_DATA))
    {
      txFifo.Clock(Writes(a, TX_DATA), Bits(a.pwdata, 8), pops);
      rxFifo.Clock(done, received, Reads(a, RX_DATA));
    }

    /** The APB-writable registers on a clock edge. */
    method ClockRegs(a: Apb)
      modifies `ctrl, `baud
      ensures ctrl == if Writes(a, CTRL) then CtrlOf(a.pwdata) else old(ctrl)
      ensures baud == if Writes(a, BAUD_DIV) then a.pwdata else old(baud)
    {
      if Writes(a, CTRL) {
        ctrl := CtrlOf(a.pwdata);
      } else if Writes(a, BAUD_DIV) {
        baud := a.pwdata;
      }
    }

    /** All registers outside the FIFOs on a clock edge. */
    method ClockLogic(a: Apb, pin: bool, pops: bool, front: Byte)
      modifies this
      requires pops ==> txState == IDLE
      ensures TxRegs() == TxNext(old(baud), old(TxRegs()), if pops then [front] else [], true)
      ensures RxRegs() == RxNext(old(baud), old(RxRegs()), old(ctrl).rxEn, pin)
      ensures ctrl == if Writes(a, CTRL) then CtrlOf(a.pwdata) else old(ctrl)
      ensures baud == if Writes(a, BAUD_DIV) then a.pwdata else old(baud)
    {
      ClockTx(pops, front);
      ClockRx(pin);
      ClockRegs(a);
    }

    /** One clock edge of the device. */
    method Clock(a: Apb, pin: bool)
      requires Valid()
      modifies this, txFifo, txFifo.mem, rxFifo, rxFifo.mem
      ensures Valid() && Abstract() == Next(old(Abstract()), a, pin)
    {
      ghost var was := Abstract();
      var pops := txState == IDLE && txFifo.count != 0 && ctrl.txEn;
      var front, done := txFifo.Front(), RxDone(baud, RxRegs());
      assert pops == TxPops(was.tx, was.txFifo, ctrl.txEn);
      assert TxNext(baud, was.tx, if pops then [front] else [], true) == TxNext(baud, was.tx, was.txFifo, ctrl.txEn);
      ClockFifos(a, pops, done, rxShift);
      ClockLogic(a, pin, pops, front);
    }
  }
}
