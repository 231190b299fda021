/** The 64-bit timer of the core-local interruptor. */
module Clint {
  import opened Words
  import opened ApbSlave

  const MODULUS64: int := 0x1_0000_0000_0000_0000
  type Word64 = x: int | 0 <= x < 0x1_0000_0000_0000_0000

  const MSIP := 0x0000
  const MTIMECMP_LO := 0x4000
  const MTIMECMP_HI := 0x4004
  const MTIME_LO := 0xBFF8
  const MTIME_HI := 0xBFFC

  datatype State = State(mtime: Word64, mtimecmp: Word64, msip: bool)

  const RESET := State(0, 0xFFFF_FFFF_FFFF_FFFF, false)

  function Low(x: Word64): Word {
    x % 0x1_0000_0000
  }

  function High(x: Word64): Word {
    x / 0x1_0000_0000
  }

  function Make(high: Word, low: Word): Word64 {
    high * 0x1_0000_0000 + low
  }

  /** One clock edge: a write to half of the timer replaces that half, otherwise the timer counts. */
  function Next(s: State, a: Apb): State {
    State(
      if Writes(a, MTIME_LO) then Make(High(s.mtime), a.pwdata)
      else if Writes(a, MTIME_HI) then Make(a.pwdata, Low(s.mtime))
      else (s.mtime + 1) % 0x1_0000_0000_0000_0000,
      if Writes(a, MTIMECMP_LO) then Make(High(s.mtimecmp), a.pwdata)
      else if Writes(a, MTIMECMP_HI) then Make(a.pwdata, Low(s.mtimecmp))
      else s.mtimecmp,
      if Writes(a, MSIP) then a.pwdata % 2 == 1 else s.msip)
  }

  /** The timer's interrupt line. */
  predicate TimerIrq(s: State) {
    s.mtime >= s.mtimecmp
  }

  /** After reset the time is 0, and the deadline as far away as it can be. */
  lemma AfterReset()
    ensures RESET.mtime == 0 && RESET.mtimecmp == 0xFFFF_FFFF_FFFF_FFFF && !RESET.msip && !TimerIrq(RESET)
  {
  }

  /** One half of a 64-bit register is replaced by a write, the other stays. */
  predicate HalfWritten(before: Word64, after: Word64, w: Word, high: bool) {
    if high then after / 0x1_0000_0000 == w && after % 0x1_0000_0000 == before % 0x1_0000_0000
    else after % 0x1_0000_0000 == w && after / 0x1_0000_0000 == before / 0x1_0000_0000
  }

  lemma HalfMade(before: Word64, w: Word)
    ensures HalfWritten(before, Make(High(before), w), w, false) && HalfWritten(before, Make(w, Low(before)), w, true)
  {
  }

  /** The registers, by their addresses. */
  lemma Configuration(s: State, a: Apb)
    ensures Writes(a, 0xBFF8) ==> HalfWritten(s.mtime, Next(s, a).mtime, a.pwdata, false)
    ensures Writes(a, 0xBFFC) ==> HalfWritten(s.mtime, Next(s, a).mtime, a.pwdata, true)
    ensures !Writes(a, 0xBFF8) && !Writes(a, 0xBFFC) && s.mtime < 0xFFFF_FFFF_FFFF_FFFF ==>
              Next(s, a).mtime == s.mtime + 1
    ensures Writes(a, 0x4000) ==> HalfWritten(s.mtimecmp, Next(s, a).mtimecmp, a.pwdata, false)
    ensures Writes(a, 0x4004) ==> HalfWritten(s.mtimecmp, Next(s, a).mtimecmp, a.pwdata, true)
    ensures !Writes(a, 0x4000) && !Writes(a, 0x4004) ==> Next(s, a).mtimecmp == s.mtimecmp
    ensures Next(s, a).msip <==> if Writes(a, 0x0000) then a.pwdata % 2 == 1 else s.msip
  {
    HalfMade(s.mtime, a.pwdata);
    HalfMade(s.mtimecmp, a.pwdata);
  }

  predicate Clocked(apb: nat -> Apb, run: nat -> State, t: nat) {
    run(t + 1) == Next(run(t), apb(t))
  }

  /** A run without writes to the timer and without its 64-bit overflow up to cycle n. */
  ghost predicate Counts(apb: nat -> Apb, run: nat -> State, n: nat) {
    && (forall t: nat :: Clocked(apb, run, t) && !Writes(apb(t), 0xBFF8) && !Writes(apb(t), 0xBFFC))
    && run(0).mtime + n < MODULUS64
  }

  lemma {:induction false} TimerAdvances(apb: nat -> Apb, run: nat -> State, n: nat, t: nat)
    requires Counts(apb, run, n) && t <= n
    ensures run(t).mtime == run(0).mtime + t
    decreases t
  {
    if t > 0 {
      TimerAdvances(apb, run, n, t - 1);
      assert Clocked(apb, run, t - 1);
    }
  }

  /** A deadline of d cycles from now on raises the line after exactly d cycles, and it stays up. */
  lemma {:induction false} TimerFires(apb: nat -> Apb, run: nat -> State, n: nat, t: nat, d: nat)
    requires Counts(apb, run, n) && t <= n && run(0).mtimecmp == run(0).mtime + d
    requires forall u: nat :: !Writes(apb(u), 0x4000) && !Writes(apb(u), 0x4004)
    ensures run(t).mtimecmp == run(0).mtimecmp && (TimerIrq(run(t)) <==> t >= d)
    decreases t
  {
    TimerAdvances(apb, run, n, t);
    if t > 0 {
      TimerFires(apb, run, n, t - 1, d);
      assert Clocked(apb, run, t - 1);
      Configuration(run(t - 1), apb(t - 1));
    }
  }

  /** The timer itself, updated in place. */
  class ClintUnit {
    var msip: bool
    var mtime: Word64
    var mtimecmp: Word64

    function Regs(): State
      reads this
    {
      State(mtime, mtimecmp, msip)
    }

    constructor ()
      ensures Regs() == RESET
    {
      msip, mtime, mtimecmp := false, 0, 0xFFFF_FFFF_FFFF_FFFF;
    }

    /** The interrupt lines. */
    method Interrupts() returns (timer: bool, software: bool)
      ensures timer == TimerIrq(Regs()) && software == Regs().msip
    {
      timer, software := mtime >= mtimecmp, msip;
    }

    method Clock(a: Apb)
      modifies this
      ensures Regs() == Next(old(Regs()), a)
    {
      if Writes(a, MTIME_LO) {
        mtime := Make(High(mtime), a.pwdata);
      } else if Writes(a, MTIME_HI) {
        mtime := Make(a.pwdata, Low(mtime));
      } else {
        mtime := (mtime + 1) % 0x1_0000_0000_0000_0000;
      }
      if Writes(a, MSIP) {
        msip := a.pwdata % 2 == 1;
      } else if Writes(a, MTIMECMP_LO) {
        mtimecmp := Make(High(mtimecmp), a.pwdata);
      } else if Writes(a, MTIMECMP_HI) {
        mtimecmp := Make(a.pwdata, Low(mtimecmp));
      }
    }
  }
}
