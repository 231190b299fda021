/** The first cycles of every run of a program whose second instruction is a load: when it comes to EX/MEM and
    how it waits there for its data. */
module FirstCycles {
  import opened Words
  import opened Pipeline
  import opened PipelineRefinement
  import opened Isa
  import opened Rv32
  import Decode
  import ByteMemory

  /** An instruction is in EX/MEM in the unstalled cycle in front of its slot. */
  lemma InMemWhen(dp: Datapath, data: nat -> Word, s: Pipe, n: nat, k: nat, tau: nat)
    requires RunInv(dp, data, s, n, k, tau)
    ensures s.exMem.valid <==> Slot(dp, data, n) == tau + 1
    ensures k == Bump(n, s.exMem.valid) && (s.reqSent ==> MemOp(s))
    ensures s.memWb.valid <==> SlotBefore(dp, data, n) == tau
    ensures s.exMem.valid ==> s.exMem.memRead == Dyn(dp, data, n).ctrl.memRead
    ensures s.exMem.valid ==> s.exMem.memWrite == Dyn(dp, data, n).ctrl.memWrite
  {
  }

  /** A quiet cycle without a memory operation in EX/MEM. */
  lemma PlainCycle(dp: Datapath, env: nat -> MemIn, run: nat -> Track, u: nat, t: nat)
    requires Behaviour(dp, env, run) && Quiet(dp, run(u).s) && !MemOp(run(u).s) && !run(u).s.reqSent && t == u + 1
    ensures run(t).count == run(u).issued && run(t).time == run(u).time + 1 && !run(t).s.reqSent
  {
    assert Clocked(dp, env, run, u);
  }

  /** A quiet cycle in which the memory operation in EX/MEM waits. */
  lemma WaitingCycle(dp: Datapath, env: nat -> MemIn, run: nat -> Track, u: nat, t: nat)
    requires Behaviour(dp, env, run) && Quiet(dp, run(u).s) && MemStall(run(u).s, env(u)) && t == u + 1
    ensures run(t).count == run(u).count && run(t).time == run(u).time && run(t).s.reqSent
  {
    assert Clocked(dp, env, run, u);
  }

  /** The program starts with an instruction that neither jumps nor accesses memory. */
  ghost predicate Starts(dp: Datapath, data: nat -> Word, length: nat, env: nat -> MemIn, run: nat -> Track) {
    && Path(dp, data, length) && length >= 2 && Behaviour(dp, env, run)
    && NoAccess(dp, data, 0) && !JumpsAt(dp, data, 0)
  }

  lemma FirstSlots(dp: Datapath, data: nat -> Word)
    requires NoAccess(dp, data, 0) && !JumpsAt(dp, data, 0)
    ensures Slot(dp, data, 0) == 5 && Slot(dp, data, 1) == 6 && ReplaySafe(dp, data, 0)
  {
    SlotUnfolds(dp, data, 0, 1);
  }

  lemma StartCycle(dp: Datapath, data: nat -> Word, length: nat, env: nat -> MemIn, run: nat -> Track, t: nat)
    requires OnPath(dp, data, length, env, run, t) && NoAccess(dp, data, 0) && !JumpsAt(dp, data, 0)
    requires t < 5 && run(t).time == t && run(t).count == 0
    ensures Quiet(dp, run(t).s) && !MemOp(run(t).s) && !run(t).s.exMem.memRead && run(t).issued == Bit(t == 4)
  {
    var r := run(t);
    FirstSlots(dp, data);
    RunHolds(dp, data, length, env, run, t);
    LegalAround(dp, data, length, r);
    QuietState(dp, data, r.s, r.count, r.issued, r.time);
    InMemWhen(dp, data, r.s, r.count, r.issued, r.time);
  }

  /** The first four cycles bring the first instruction to EX/MEM, whatever the memories hold after reset. */
  lemma {:induction false} StartUp(dp: Datapath, data: nat -> Word, length: nat, env: nat -> MemIn,
                                   run: nat -> Track, t: nat)
    requires Starts(dp, data, length, env, run) && t <= 4
    ensures OnPath(dp, data, length, env, run, t)
    ensures run(t).time == t && run(t).count == 0 && !run(t).s.reqSent
  {
    if t > 0 {
      var u := t - 1;
      StartUp(dp, data, length, env, run, u);
      StartCycle(dp, data, length, env, run, u);
      PlainCycle(dp, env, run, u, t);
      OnPathNext(dp, data, length, env, run, u, t);
    }
  }

  lemma FifthHolds(dp: Datapath, data: nat -> Word, length: nat, env: nat -> MemIn, run: nat -> Track, u: nat, t: nat)
    requires OnPath(dp, data, length, env, run, u) && t == u + 1 && !run(u).s.exMem.memRead
    requires ReplaySafe(dp, data, run(u).count)
    ensures PipelineRefinement.Holds(dp, data, run(t))
  {
    RunHolds(dp, data, length, env, run, u);
    assert Clocked(dp, env, run, u);
    FollowKeeps(dp, data, length, run(u), env(u), run(t));
  }

  /** In cycle 5 it is in MEM/WB. */
  lemma FifthCycle(dp: Datapath, data: nat -> Word, length: nat, env: nat -> MemIn, run: nat -> Track)
    requires Starts(dp, data, length, env, run)
    ensures run(5).time == 5 && run(5).count == 1 && !run(5).s.reqSent && PipelineRefinement.Holds(dp, data, run(5))
    ensures length > 2 ==> OnPath(dp, data, length, env, run, 5)
  {
    FirstSlots(dp, data);
    StartUp(dp, data, length, env, run, 4);
    StartCycle(dp, data, length, env, run, 4);
    PlainCycle(dp, env, run, 4, 5);
    FifthHolds(dp, data, length, env, run, 4, 5);
    if length > 2 { OnPathNext(dp, data, length, env, run, 4, 5); }
  }

  /** The load waits in EX/MEM, its request sent, as long as the memory is not ready. */
  predicate Waits(dp: Datapath, r: Track) {
    r.count == 1 && r.issued == 2 && r.time == 5 && r.s.exMem.memRead && r.s.exMem.valid && Quiet(dp, r.s)
  }

  lemma LoadIsThere(dp: Datapath, data: nat -> Word, length: nat, env: nat -> MemIn, run: nat -> Track, t: nat)
    requires Starts(dp, data, length, env, run) && length > 2 && Dyn(dp, data, 1).ctrl.memRead
    requires OnPath(dp, data, length, env, run, t) && run(t).time == 5 && run(t).count == 1
    ensures run(t).s.exMem.memRead && run(t).s.exMem.valid && run(t).issued == 2 && run(t).s.memWb.valid
    ensures Quiet(dp, run(t).s) <==> StaleSafe(dp, data, 1)
  {
    var r := run(t);
    FirstSlots(dp, data);
    RunHolds(dp, data, length, env, run, t);
    LegalAround(dp, data, length, r);
    QuietState(dp, data, r.s, r.count, r.issued, r.time);
    InMemWhen(dp, data, r.s, r.count, r.issued, r.time);
  }

  lemma {:induction false} LoadWaits(dp: Datapath, data: nat -> Word, length: nat, env: nat -> MemIn,
                                     run: nat -> Track, t: nat)
    requires Starts(dp, data, length, env, run) && length > 2 && Dyn(dp, data, 1).ctrl.memRead
    requires StaleSafe(dp, data, 1)
    requires t >= 6 && forall u: nat | 6 <= u < t :: !env(u).ready
    ensures OnPath(dp, data, length, env, run, t) && Waits(dp, run(t)) && run(t).s.reqSent
    decreases t
  {
    var u := t - 1;
    if t == 6 {
      FifthCycle(dp, data, length, env, run);
      LoadIsThere(dp, data, length, env, run, u);
    } else {
      LoadWaits(dp, data, length, env, run, u);
    }
    WaitingCycle(dp, env, run, u, t);
    OnPathNext(dp, data, length, env, run, u, t);
    LoadIsThere(dp, data, length, env, run, t);
  }

  // ---------------------------------------------------------------------------------------------------
  // The same for a program of the architecture
  // ---------------------------------------------------------------------------------------------------

  /** The word at address 0. */
  function FirstWord(bytes: ByteMemory.ByteMap): Word {
    ByteMemory.Expected(bytes, ByteMemory.Load(2, 0)).1
  }

  /** Instructions in memory, by their words. */
  lemma OpImmLoaded(imem: Word -> Word, code: Word -> Instr, bytes: ByteMemory.ByteMap, k: nat, pc: Word, i: Instr)
    requires State(code, bytes, k).pc == pc && code(pc) == i && i.OpImm? && i.op.Add? && i.imm >= 0
    requires imem(pc) == Decode.OP_OP_IMM + 0x80 * i.rd + 0x8000 * i.rs1 + 0x10_0000 * i.imm
    ensures Loaded(imem, code, bytes, k)
  {
    EncodesOpImm(i, imem(pc));
  }

  lemma LoadLoaded(imem: Word -> Word, code: Word -> Instr, bytes: ByteMemory.ByteMap, k: nat, pc: Word, i: Instr)
    requires State(code, bytes, k).pc == pc && code(pc) == i && i.LoadFrom? && i.width == 2 && i.imm >= 0
    requires imem(pc) == Decode.OP_LOAD + 0x80 * i.rd + 0x2000 + 0x8000 * i.rs1 + 0x10_0000 * i.imm
    ensures Loaded(imem, code, bytes, k)
  {
    EncodesLoad(i, imem(pc));
  }

  lemma DynIs(u: Datapath, code: Word -> Instr, bytes: ByteMemory.ByteMap, data: nat -> Word, k: nat, m: Machine)
    requires Standard(u) && data == Loads(code, bytes) && m == State(code, bytes, k)
    requires forall i: nat | i <= k :: Delivered(u, code, bytes, i)
    ensures Seq(u, data, k) == m.Core() && Delivers(Dyn(u, data, k), code(m.pc))
  {
    SameState(u, code, bytes, data, k, m);
    assert Delivered(u, code, bytes, k);
  }

  lemma PlainFirst(u: Datapath, data: nat -> Word, i: Instr)
    requires Delivers(Dyn(u, data, 0), i) && i.OpImm?
    ensures NoAccess(u, data, 0) && !JumpsAt(u, data, 0)
  {
  }

  lemma LoadSecond(u: Datapath, data: nat -> Word, i: Instr)
    requires Delivers(Dyn(u, data, 1), i) && i.LoadFrom?
    ensures Dyn(u, data, 1).ctrl.memRead
  {
  }

  /** Every run of a program that starts with an OP-IMM and a load. */
  lemma ProgramStarts(u: Datapath, mem: ByteMemory.Memory, code: Word -> Instr, bytes: ByteMemory.ByteMap,
                      data: nat -> Word, length: nat, env: nat -> MemIn, run: nat -> Track)
    requires AllCovered(u, code, bytes, length) && length >= 3 && Behaviour(u, env, run)
    requires bytes == ByteMemory.Bytes(mem) && data == Loads(code, bytes)
    requires code(State(code, bytes, 0).pc).OpImm? && code(State(code, bytes, 1).pc).LoadFrom?
    ensures Starts(u, data, length, env, run) && Dyn(u, data, 1).ctrl.memRead
  {
    CoveredUnfolds(u, code, bytes, length);
    ProgramIsPath(u, mem, code, bytes, data, length);
    var first, second := State(code, bytes, 0), State(code, bytes, 1);
    DynIs(u, code, bytes, data, 0, first);
    DynIs(u, code, bytes, data, 1, second);
    PlainFirst(u, data, code(first.pc));
    LoadSecond(u, data, code(second.pc));
  }
}
