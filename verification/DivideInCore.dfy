/** The multiplier and divider in the execute stage, clocked with the pipeline: it does not disturb the programs that
    the pipeline theorems are about, and the core does not wait for a division. */
module DivideInCore {
  import opened Words
  import opened Pipeline
  import opened PipelineRefinement
  import opened Decode
  import opened MulDiv
  import opened SumAsResult
  import Fetch

  // ---------------------------------------------------------------------------------------------------
  // The unit in the execute stage
  // ---------------------------------------------------------------------------------------------------

  /** The pipeline with the registers of the unit. */
  datatype Divided = Divided(s: Pipe, unit: Divider)

  /** What the execute stage asks of the unit; stall keeps the instruction in ID/EX. */
  function Ask(i: IdEx, x: Word, y: Word, stall: bool): Request {
    Request(i.d.ctrl.mextEn && i.valid && !stall, i.d.ctrl.mextOp, x, y)
  }

  /** The result multiplexer in front of EX/MEM. */
  function ExResult(dp: Datapath, unit: Divider, i: IdEx, x: Word, y: Word, stall: bool): Word {
    var o := Out(unit, Ask(i, x, y, stall));
    if i.d.ctrl.mextEn && o.done then o.result else AluResult(dp, i.d, i.pc, x, y)
  }

  /** What holds fetch, decode and execute: the data memory, or a division at work. */
  predicate ExStall(x: Divided, m: MemIn) {
    MemStall(x.s, m) || x.unit.phase.Calc?
  }

  /** A division at work is what the busy output shows, and it keeps new requests from the unit. */
  lemma BusyIsCalc(x: Divided, m: MemIn)
    ensures Out(x.unit, Ask(x.s.idEx, OpA(x.s), OpB(x.s), ExStall(x, m))).busy <==> x.unit.phase.Calc?
  {
  }

  /** One clock edge of both. The stall of a division does not reach the memory stage. */
  function StepWith(dp: Datapath, x: Divided, m: MemIn): Divided {
    var s, stall := x.s, ExStall(x, m);
    var a, b := OpA(s), OpB(s);
    Divided(
      Pipe(
        Fetch.Next(dp.fetch, s.fetch, FetchControl(dp, s, stall)),
        if Redirects(dp, s) && !stall then NO_IDEX
        else if stall || Hazard(dp, s) then s.idEx
        else Latch(dp, s.fetch.ifId, View(s)),
        if stall then s.exMem
        else if Hazard(dp, s) then NO_EXMEM
        else Issue(dp, s.idEx, a, b).(alu := ExResult(dp, x.unit, s.idEx, a, b, stall)),
        if MemStall(s, m) then s.memWb else Drain(dp, s.exMem, m.rdata),
        View(s),
        if MemOp(s) && !s.reqSent then true else if s.reqSent && m.ready then false else s.reqSent),
      MulDiv.Step(x.unit, Ask(s.idEx, a, b, stall)))
  }

  predicate Edge(dp: Datapath, env: nat -> MemIn, run: nat -> Divided, t: nat) {
    run(t + 1) == StepWith(dp, run(t), env(t))
  }

  /** A run of both from reset, on code and data without traps. */
  ghost predicate Operates(dp: Datapath, env: nat -> MemIn, run: nat -> Divided) {
    && run(0) == Divided(ResetPipe(run(0).s.fetch.imemOut), MulDiv.RESET)
    && forall t: nat :: Edge(dp, env, run, t)
  }

  // ---------------------------------------------------------------------------------------------------
  // Without divisions
  // ---------------------------------------------------------------------------------------------------

  /** The datapath's multiplier is the unit's. */
  ghost predicate Multiplies(dp: Datapath) {
    forall op, x, y | IsMul(op) :: dp.mul(op, x, y) == Multiply(op, x, y)
  }

  /** In a cycle that starts no division the idle unit stays as it is, and the pipeline does what it does alone. */
  lemma IdleStep(dp: Datapath, x: Divided, m: MemIn)
    requires Multiplies(dp) && Quiet(dp, x.s) && x.unit.phase.Idle?
    ensures StepWith(dp, x, m) == Divided(Pipeline.Step(dp, x.s, m), x.unit)
  {
  }

  /** As long as no exceptional event happens and no division starts, every run of the core with its divider is the
      run of the pipeline alone, with the unit as reset left it. */
  lemma {:induction false} DividerIsInvisible(dp: Datapath, env: nat -> MemIn, run: nat -> Track, both: nat -> Divided,
                                              t: nat)
    requires Multiplies(dp) && Behaviour(dp, env, run) && Operates(dp, env, both) && both(0).s == run(0).s
    requires forall u: nat | u < t :: Quiet(dp, run(u).s)
    ensures both(t) == Divided(run(t).s, MulDiv.RESET)
  {
    if t > 0 {
      var u := t - 1;
      DividerIsInvisible(dp, env, run, both, u);
      IdleStep(dp, both(u), env(u));
      assert Edge(dp, env, both, u) && PipelineRefinement.Clocked(dp, env, run, u);
    }
  }

  /** The pipeline's own run against a data memory. */
  function Observe(dp: Datapath, env: nat -> MemIn, garbage: Word, t: nat): Track {
    if t == 0 then Track(ResetPipe(garbage), 0, 0, 0, []) else Follow(dp, Observe(dp, env, garbage, t - 1), env(t - 1))
  }

  function Observed(dp: Datapath, env: nat -> MemIn, garbage: Word): nat -> Track {
    (t: nat) => Observe(dp, env, garbage, t)
  }

  lemma ObserveNext(dp: Datapath, env: nat -> MemIn, garbage: Word, t: nat, k: nat)
    requires k == t + 1
    ensures Observe(dp, env, garbage, k) == Follow(dp, Observe(dp, env, garbage, t), env(t))
  {
  }

  lemma ObservedClocked(dp: Datapath, env: nat -> MemIn, garbage: Word, run: nat -> Track, t: nat)
    requires run == Observed(dp, env, garbage)
    ensures PipelineRefinement.Clocked(dp, env, run, t)
  {
    var k := t + 1;
    ObserveNext(dp, env, garbage, t, k);
    assert run(k) == Observe(dp, env, garbage, k) && run(t) == Observe(dp, env, garbage, t);
  }

  lemma ObservedBehaves(dp: Datapath, env: nat -> MemIn, garbage: Word, run: nat -> Track)
    requires run == Observed(dp, env, garbage)
    ensures Behaviour(dp, env, run) && run(0).s == ResetPipe(garbage)
  {
    var first := run(0);
    assert first == Track(ResetPipe(garbage), 0, 0, 0, []);
    assert first.s.fetch.imemOut == garbage;
    forall t: nat ensures PipelineRefinement.Clocked(dp, env, run, t) {
      ObservedClocked(dp, env, garbage, run, t);
    }
  }

  // ---------------------------------------------------------------------------------------------------
  // A division starts
  // ---------------------------------------------------------------------------------------------------

  /** DIV, DIVU, REM and REMU as the decoder delivers them. */
  lemma DivisionSignals(f: Fields)
    requires f.Valid() && f.op == OP_OP && Funct7(f) == 1 && f.b14 >= 4
    ensures DecodeFields(f).ctrl == QUIET.(regWrite := true, mextEn := true, mextOp := MextOpOf(f.b14))
    ensures !IsMul(MextOpOf(f.b14))
  {
  }

  /** The control signals of a division. */
  predicate IsDivision(c: Ctrl) {
    !IsMul(c.mextOp) && c == QUIET.(regWrite := true, mextEn := true, mextOp := c.mextOp)
  }

  /** In the cycle in which a division starts, the idle unit is not busy, so the instruction moves on to EX/MEM. Zero
      divisors and the signed overflow are answered in that cycle; every other division takes the sum of its operands
      along. What arrives in EX/MEM is right exactly in those cases and where the sum is the result by accident. */
  lemma DivisionIsNotAwaited(dp: Datapath, x: Divided, m: MemIn)
    requires x.unit.phase.Idle? && x.s.idEx.valid && IsDivision(x.s.idEx.d.ctrl)
    requires !MemStall(x.s, m) && !Hazard(dp, x.s) && forall a, b :: dp.alu(Add, a, b) == Plus(a, b)
    ensures var op, a, b, e := x.s.idEx.d.ctrl.mextOp, OpA(x.s), OpB(x.s), StepWith(dp, x, m).s.exMem;
            && e.valid && e.regWrite && e.rd == x.s.idEx.d.rd
            && (if MulDiv.Immediate(op, a, b) then DivResult(op, a, b, e.alu) else e.alu == Plus(a, b))
            && (DivResult(op, a, b, e.alu) <==> MulDiv.Immediate(op, a, b) || SumIsResult(op, a, b))
  {
    var op, a, b := x.s.idEx.d.ctrl.mextOp, OpA(x.s), OpB(x.s);
    if MulDiv.Immediate(op, a, b) {
      ImmediateIsCorrect(x.unit, Ask(x.s.idEx, a, b, false));
    } else {
      SumIsResultExactly(op, a, b);
    }
  }
}
