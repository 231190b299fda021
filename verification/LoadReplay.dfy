/** A program on which the load-use replay loses an operand:
      0: addi x1, x0, 5
      4: lw   x3, 0(x0)
      8: addi x4, x1, 0
     12: addi x5, x3, 0
    The hazard unit sees that the last instruction needs x3 and replays the one in front of it, whose operand was
    about to be forwarded from MEM/WB; x4 ends up 0 instead of 5. */
module LoadReplay {
  import opened Words
  import opened Registers
  import opened Pipeline
  import opened PipelineInvariant
  import opened PipelineRefinement
  import opened Decode
  import opened Isa
  import opened Rv32
  import opened FirstCycles
  import ByteMemory

  const ADDI := OpImm(Add, 1, 0, 5)
  const LW := LoadFrom(2, 3, 0, 0)
  const MOVE := OpImm(Add, 4, 1, 0)
  const USE := OpImm(Add, 5, 3, 0)

  ghost predicate Code(code: Word -> Instr) {
    code(0) == ADDI && code(4) == LW && code(8) == MOVE && code(12) == USE
  }

  /** The program and its instruction words. */
  ghost predicate Image(imem: Word -> Word, code: Word -> Instr) {
    && Code(code)
    && imem(0) == 0x0050_0093 && imem(4) == 0x0000_2183 && imem(8) == 0x0000_8213 && imem(12) == 0x0001_8293
  }

  // ---------------------------------------------------------------------------------------------------
  // The architecture
  // ---------------------------------------------------------------------------------------------------

  function Regs1(): Regs {
    Zeros()[1 := 5]
  }

  function Regs2(w: Word): Regs {
    Zeros()[1 := 5][3 := w]
  }

  function Regs3(w: Word): Regs {
    Zeros()[1 := 5][3 := w][4 := 5]
  }

  lemma State1(code: Word -> Instr, bytes: ByteMemory.ByteMap)
    requires Code(code)
    ensures State(code, bytes, 0) == Machine(0, Zeros(), bytes) && State(code, bytes, 1) == Machine(4, Regs1(), bytes)
    ensures History(code, bytes, 1) == [RegWrite(1, 5)] && NoTrap(code, bytes, 0)
  {
    var m := Machine(0, Zeros(), bytes);
    StateUnfolds(code, bytes, 0, 1, m);
    assert Perform(ADDI, m) == Machine(4, Regs1(), bytes);
    ContinuesOnWord(code, bytes, 0, m);
  }

  lemma State2(code: Word -> Instr, bytes: ByteMemory.ByteMap, w: Word)
    requires Code(code) && w == FirstWord(bytes)
    ensures State(code, bytes, 2) == Machine(8, Regs2(w), bytes)
    ensures History(code, bytes, 2) == [RegWrite(1, 5), RegWrite(3, w)] && NoTrap(code, bytes, 1)
  {
    var m := Machine(4, Regs1(), bytes);
    State1(code, bytes);
    StateUnfolds(code, bytes, 1, 2, m);
    assert Access(LW, m) == ByteMemory.Load(2, 0);
    assert Perform(LW, m) == Machine(8, Regs2(w), bytes);
    ContinuesOnWord(code, bytes, 1, m);
  }

  lemma State3(code: Word -> Instr, bytes: ByteMemory.ByteMap, w: Word)
    requires Code(code) && w == FirstWord(bytes)
    ensures State(code, bytes, 3) == Machine(12, Regs3(w), bytes)
    ensures History(code, bytes, 3) == [RegWrite(1, 5), RegWrite(3, w), RegWrite(4, 5)]
    ensures NoTrap(code, bytes, 2) && NoTrap(code, bytes, 3)
  {
    var m, last := Machine(8, Regs2(w), bytes), Machine(12, Regs3(w), bytes);
    State2(code, bytes, w);
    StateUnfolds(code, bytes, 2, 3, m);
    assert Perform(MOVE, m) == last;
    ContinuesOnWord(code, bytes, 2, m);
    ContinuesOnWord(code, bytes, 3, last);
  }

  lemma ImageIsProgram(imem: Word -> Word, code: Word -> Instr, bytes: ByteMemory.ByteMap)
    requires Image(imem, code)
    ensures Program(imem, code, bytes, 4)
  {
    State1(code, bytes);
    State2(code, bytes, FirstWord(bytes));
    State3(code, bytes, FirstWord(bytes));
    OpImmLoaded(imem, code, bytes, 0, 0, ADDI);
    LoadLoaded(imem, code, bytes, 1, 4, LW);
    OpImmLoaded(imem, code, bytes, 2, 8, MOVE);
    OpImmLoaded(imem, code, bytes, 3, 12, USE);
    forall k: nat | k < 4 ensures Loaded(imem, code, bytes, k) && NoTrap(code, bytes, k) {
      assert k == 0 || k == 1 || k == 2 || k == 3;
    }
  }

  // ---------------------------------------------------------------------------------------------------
  // The replay
  // ---------------------------------------------------------------------------------------------------

  /** The control signals of ADDI. */
  const PLAIN := QUIET.(srcImm := true, regWrite := true)

  /** What the decoder delivers for the four instructions, and the architectural states they start in. */
  ghost predicate Path4(u: Datapath, data: nat -> Word, w: Word) {
    && Delivers(Dyn(u, data, 0), ADDI) && Delivers(Dyn(u, data, 1), LW)
    && Delivers(Dyn(u, data, 2), MOVE) && Delivers(Dyn(u, data, 3), USE)
    && Seq(u, data, 0) == Arch(0, Zeros()) && Seq(u, data, 1) == Arch(4, Regs1())
    && Seq(u, data, 2) == Arch(8, Regs2(w)) && Seq(u, data, 3).pc == 12
  }

  lemma ProgramPath(u: Datapath, code: Word -> Instr, bytes: ByteMemory.ByteMap, data: nat -> Word, w: Word)
    requires Code(code) && AllCovered(u, code, bytes, 4) && data == Loads(code, bytes) && w == FirstWord(bytes)
    ensures Path4(u, data, w)
  {
    CoveredUnfolds(u, code, bytes, 4);
    State1(code, bytes);
    State2(code, bytes, w);
    State3(code, bytes, w);
    DynIs(u, code, bytes, data, 0, Machine(0, Zeros(), bytes));
    DynIs(u, code, bytes, data, 1, Machine(4, Regs1(), bytes));
    DynIs(u, code, bytes, data, 2, Machine(8, Regs2(w), bytes));
    DynIs(u, code, bytes, data, 3, Machine(12, Regs3(w), bytes));
  }

  lemma AddiIsPlain(d: Decoded, i: Instr)
    requires Delivers(d, i) && i.OpImm? && i.op.Add?
    ensures d.ctrl == PLAIN && d.rs1 == i.rs1
  {
  }

  lemma FetchedAt(u: Datapath, data: nat -> Word, k: nat, pc: Word)
    requires Seq(u, data, k).pc == pc
    ensures Dyn(u, data, k) == u.decode(u.fetch(pc))
  {
  }

  lemma MoveIsPlain(u: Datapath, data: nat -> Word, w: Word)
    requires Path4(u, data, w)
    ensures Dyn(u, data, 2).ctrl == PLAIN && Seq(u, data, 2).pc == 8
    ensures var d := u.decode(u.fetch(12)); d.ctrl == PLAIN && d.rs1 == 3
  {
    AddiIsPlain(Dyn(u, data, 2), MOVE);
    AddiIsPlain(Dyn(u, data, 3), USE);
    FetchedAt(u, data, 3, 12);
  }

  lemma PlainDoesNotJump(u: Datapath, data: nat -> Word, k: nat)
    requires Dyn(u, data, k).ctrl == PLAIN
    ensures !JumpsAt(u, data, k)
  {
  }

  lemma NamesLoaded(u: Datapath, data: nat -> Word, n: nat, k: nat, next: Word)
    requires k == n + 1 && Dyn(u, data, n).ctrl.memRead && !JumpsAt(u, data, k)
    requires next == Plus4(Seq(u, data, k).pc) && Names(u.decode(u.fetch(next)), Dyn(u, data, n).rd)
    ensures Replays(u, data, n)
  {
  }

  lemma PlainIsStaleSafe(u: Datapath, data: nat -> Word)
    requires Dyn(u, data, 2).ctrl == PLAIN
    ensures StaleSafe(u, data, 1)
  {
  }

  /** The load is replayed, right behind the instruction whose result the replayed one needs. */
  lemma LoadReplays(u: Datapath, data: nat -> Word, w: Word)
    requires Path4(u, data, w)
    ensures Replays(u, data, 1) && StaleSafe(u, data, 1)
  {
    MoveIsPlain(u, data, w);
    PlainDoesNotJump(u, data, 2);
    NamesLoaded(u, data, 1, 2, 12);
    PlainIsStaleSafe(u, data);
  }

  lemma NoBubble(u: Datapath, data: nat -> Word)
    requires !JumpsAt(u, data, 0) && NoAccess(u, data, 0)
    ensures BackToBack(u, data, 1)
  {
  }

  lemma NotKept(u: Datapath, data: nat -> Word)
    requires Dyn(u, data, 1).rd == 3 && Seq(u, data, 0).regs == Zeros() && Seq(u, data, 1).regs == Regs1()
    ensures !Keeps(u, data, 1, 1)
  {
  }

  lemma OperandIsLost(u: Datapath, data: nat -> Word, w: Word)
    requires Path4(u, data, w)
    ensures BackToBack(u, data, 1) && !Keeps(u, data, 1, 1)
  {
    PlainFirst(u, data, ADDI);
    NoBubble(u, data);
    NotKept(u, data);
  }

  lemma ReplayIsUnsafe(u: Datapath, data: nat -> Word, w: Word)
    requires Path4(u, data, w) && Replays(u, data, 1) && BackToBack(u, data, 1) && !Keeps(u, data, 1, 1)
    ensures !ReplaySafe(u, data, 1)
  {
  }

  /** An instruction with these signals is alone in ID/EX, another one waits in IF/ID. */
  predicate Alone(dp: Datapath, s: Pipe) {
    && s.idEx.valid && s.idEx.d.ctrl == PLAIN && s.exMem == NO_EXMEM && !s.reqSent
    && s.fetch.ifId.valid && dp.decode(s.fetch.ifId.instr).ctrl == PLAIN
  }

  lemma AloneIssues(dp: Datapath, s: Pipe, m: MemIn)
    requires Alone(dp, s)
    ensures Quiet(dp, s) && !MemStall(s, m) && Commits(dp, s, m) == []
    ensures var t := Step(dp, s, m);
            && t.exMem == Issue(dp, s.idEx, OpA(s), OpB(s)) && t.idEx.d.ctrl == PLAIN && !t.reqSent
  {
  }

  /** It commits its result from the operand it has now. */
  lemma IssuedCommits(dp: Datapath, i: IdEx, x: Word, y: Word, t: Pipe, m: MemIn)
    requires i.valid && i.d.ctrl == PLAIN && i.d.rd != 0 && t.idEx.d.ctrl == PLAIN
    requires t.exMem == Issue(dp, i, x, y)
    ensures Quiet(dp, t) && !MemStall(t, m)
    ensures Commits(dp, t, m) == [RegWrite(i.d.rd, dp.alu(Add, x, i.d.imm))]
  {
  }

  lemma TwoMoreCycles(dp: Datapath, env: nat -> MemIn, run: nat -> Track, t: nat)
    requires Behaviour(dp, env, run) && Alone(dp, run(t).s) && run(t).s.idEx.d.rd != 0
    ensures var i := run(t).s.idEx;
            run(t + 2).log == run(t).log + [RegWrite(i.d.rd, dp.alu(Add, OpA(run(t).s), i.d.imm))]
  {
    var s := run(t).s;
    AloneIssues(dp, s, env(t));
    assert Clocked(dp, env, run, t);
    IssuedCommits(dp, s.idEx, OpA(s), OpB(s), run(t + 1).s, env(t + 1));
    assert Clocked(dp, env, run, t + 1);
  }

  /** In front of the replay the move is in ID/EX and the last instruction in IF/ID. */
  lemma BothBehind(dp: Datapath, s: Pipe, prev: Arch, cur: Arch, raw: Word, ex: Arch)
    requires Inv(dp, s, prev, cur, raw, ex) && s.idEx.valid && !Redirects(dp, s)
    requires Fetched(dp, ex).ctrl == PLAIN && dp.decode(dp.fetch(Plus4(ex.pc))).ctrl == PLAIN
    ensures s.idEx.d == Fetched(dp, ex) && s.idEx.d.ctrl == PLAIN
    ensures s.fetch.ifId.valid && dp.decode(s.fetch.ifId.instr).ctrl == PLAIN
  {
  }

  /** The cycle in which the load leaves and the move is replayed. */
  lemma ReplayedAlone(dp: Datapath, data: nat -> Word, w: Word, s: Pipe, m: MemIn)
    requires WellFormed(dp) && Path4(dp, data, w) && Legal(dp, data, 1) && RunInv(dp, data, s, 1, 2, 5)
    requires s.exMem.memRead && ReplayNow(dp, s, m)
    ensures Alone(dp, Step(dp, s, m)) && Step(dp, s, m).idEx == s.idEx && s.idEx.d == Dyn(dp, data, 2)
  {
    BehindLoad(dp, data, s, 1, 2, 5);
    ReplayHolds(dp, s, m, Seq(dp, data, 2));
    MoveIsPlain(dp, data, w);
    BothBehind(dp, s, Prev(dp, data, 1), Seq(dp, data, 1), data(1), Seq(dp, data, 2));
  }

  lemma ReplayHappens(dp: Datapath, data: nat -> Word, s: Pipe, m: MemIn)
    requires WellFormed(dp) && Legal(dp, data, 1) && RunInv(dp, data, s, 1, 2, 5) && Replays(dp, data, 1)
    requires s.exMem.valid && s.reqSent && m.ready
    ensures ReplayNow(dp, s, m)
  {
    HazardIsReplay(dp, data, s, m, 1, 2, 5);
  }

  lemma ReplayCycle(dp: Datapath, data: nat -> Word, w: Word, env: nat -> MemIn, run: nat -> Track, t: nat)
    requires OnPath(dp, data, 4, env, run, t) && Path4(dp, data, w) && Waits(dp, run(t)) && run(t).s.reqSent
    requires env(t).ready && env(t).rdata == data(1) && Replays(dp, data, 1)
    ensures ReplayNow(dp, run(t).s, env(t)) && run(t).s.idEx.d == Dyn(dp, data, 2)
    ensures Alone(dp, run(t + 1).s) && run(t + 1).s.idEx.d == Dyn(dp, data, 2)
    ensures run(t + 1).log == SeqLog(dp, data, 2)
  {
    var s := run(t).s;
    RunHolds(dp, data, 4, env, run, t);
    LegalAround(dp, data, 4, run(t));
    ReplayHappens(dp, data, s, env(t));
    ReplayedAlone(dp, data, w, s, env(t));
    ProceedKeepsLog(dp, data, run(t), env(t), Proceed(dp, run(t), env(t)));
    assert Clocked(dp, env, run, t);
  }

  lemma MoveIsStale(dp: Datapath, data: nat -> Word, w: Word, q: Pipe, d: Decoded)
    requires Path4(dp, data, w) && d == Dyn(dp, data, 2) == q.idEx.d && !Keeps(dp, data, 1, 1)
    requires Stale(dp, data, 1, q, d)
    ensures OpA(q) == 0 && d.rd == 4 && d.imm == 0
  {
  }

  lemma WrongLog(dp: Datapath, data: nat -> Word, w: Word, env: nat -> MemIn, run: nat -> Track, t: nat)
    requires Starts(dp, data, 4, env, run) && Path4(dp, data, w) && Dyn(dp, data, 1).ctrl.memRead
    requires t >= 6 && env(t).ready && env(t).rdata == data(1) && forall c: nat | 6 <= c < t :: !env(c).ready
    ensures run(t + 3).log == SeqLog(dp, data, 2) + [RegWrite(4, dp.alu(Add, 0, 0))] && !ReplaySafe(dp, data, 1)
  {
    LoadReplays(dp, data, w);
    OperandIsLost(dp, data, w);
    ReplayIsUnsafe(dp, data, w);
    LoadWaits(dp, data, 4, env, run, t);
    ReplayCycle(dp, data, w, env, run, t);
    LostOperands(dp, data, 4, env, run, t);
    MoveIsStale(dp, data, w, run(t + 1).s, run(t).s.idEx.d);
    TwoMoreCycles(dp, env, run, t + 1);
  }

  lemma ProgramLog(u: Datapath, code: Word -> Instr, bytes: ByteMemory.ByteMap, data: nat -> Word,
                   mem: ByteMemory.Memory, env: nat -> MemIn, run: nat -> Track, t: nat)
    requires Code(code) && AllCovered(u, code, bytes, 4) && Behaviour(u, env, run)
    requires bytes == ByteMemory.Bytes(mem) && data == Loads(code, bytes)
    requires t >= 6 && env(t).ready && env(t).rdata == data(1) && forall c: nat | 6 <= c < t :: !env(c).ready
    ensures run(t + 3).log == SeqLog(u, data, 2) + [RegWrite(4, u.alu(Add, 0, 0))] && !ReplaySafe(u, data, 1)
  {
    State1(code, bytes);
    ProgramPath(u, code, bytes, data, FirstWord(bytes));
    ProgramStarts(u, mem, code, bytes, data, 4, env, run);
    WrongLog(u, data, FirstWord(bytes), env, run, t);
  }

  lemma SameLogs(u: Datapath, code: Word -> Instr, bytes: ByteMemory.ByteMap, data: nat -> Word)
    requires AllCovered(u, code, bytes, 4) && data == Loads(code, bytes)
    ensures SeqLog(u, data, 2) == History(code, bytes, 2) && u.alu(Add, 0, 0) == 0
  {
    CoveredUnfolds(u, code, bytes, 4);
    SameHistory(u, code, bytes, data, 2);
  }

  lemma WrongCommit(u: Datapath, code: Word -> Instr, bytes: ByteMemory.ByteMap, data: nat -> Word,
                    mem: ByteMemory.Memory, env: nat -> MemIn, run: nat -> Track, t: nat)
    requires Code(code) && AllCovered(u, code, bytes, 4) && Behaviour(u, env, run)
    requires bytes == ByteMemory.Bytes(mem) && data == Loads(code, bytes)
    requires t >= 6 && env(t).ready && env(t).rdata == data(1) && forall c: nat | 6 <= c < t :: !env(c).ready
    ensures run(t + 3).log == History(code, bytes, 2) + [RegWrite(4, 0)] && !ReplaySafe(u, data, 1)
  {
    ProgramLog(u, code, bytes, data, mem, env, run, t);
    SameLogs(u, code, bytes, data);
  }

  lemma Histories(code: Word -> Instr, bytes: ByteMemory.ByteMap, log: seq<Commit>)
    requires Code(code) && log == History(code, bytes, 2) + [RegWrite(4, 0)]
    ensures log == [RegWrite(1, 5), RegWrite(3, FirstWord(bytes)), RegWrite(4, 0)]
    ensures History(code, bytes, 3) == [RegWrite(1, 5), RegWrite(3, FirstWord(bytes)), RegWrite(4, 5)]
  {
    State2(code, bytes, FirstWord(bytes));
    State3(code, bytes, FirstWord(bytes));
  }

  /** In every run of this program, whatever the memories hold: when the data memory first answers the load, in
      cycle t, the core goes on to write 0 to x4 in cycle t + 3. The architecture writes 5; the load is not
      ReplaySafe. */
  lemma ReplayLosesOperand(imem: Word -> Word, u: Datapath, mem: ByteMemory.Memory, code: Word -> Instr,
                           bytes: ByteMemory.ByteMap, env: nat -> MemIn, run: nat -> Track, t: nat)
    requires u == Core(imem) && Image(imem, code) && bytes == ByteMemory.Bytes(mem) && Behaviour(u, env, run)
    requires t >= 6 && env(t).ready && forall c: nat | 6 <= c < t :: !env(c).ready
    requires env(t).rdata == WordFound(code, bytes, 1)
    ensures run(t + 3).log == [RegWrite(1, 5), RegWrite(3, FirstWord(bytes)), RegWrite(4, 0)]
    ensures History(code, bytes, 3) == [RegWrite(1, 5), RegWrite(3, FirstWord(bytes)), RegWrite(4, 5)]
    ensures Program(imem, code, bytes, 4) && !ReplaySafe(u, Loads(code, bytes), 1)
  {
    ImageIsProgram(imem, code, bytes);
    CoreCoversAll(imem, u, code, bytes, 4);
    WrongCommit(u, code, bytes, Loads(code, bytes), mem, env, run, t);
    Histories(code, bytes, run(t + 3).log);
  }
}
