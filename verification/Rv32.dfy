/** The core against RV32I with multiplications: the pipeline over the decoder, ALU, multiplier and load lanes
    of the core executes encoded programs on a byte-addressed memory as the architecture defines. */
module Rv32 {
  import opened Words
  import opened Registers
  import opened Pipeline
  import opened PipelineRefinement
  import opened PipelineMemory
  import ByteMemory
  import opened Decode
  import opened Isa
  import Fetch

  /** The architecture executes the instruction at the PC; a misaligned access stops it. */
  function Next(code: Word -> Instr, m: Machine): Machine {
    if Accesses(code(m.pc), m) then Perform(code(m.pc), m) else m
  }

  /** The architectural state before instruction k of a program. */
  function State(code: Word -> Instr, bytes: ByteMemory.ByteMap, k: nat): Machine {
    if k == 0 then Machine(0, Zeros(), bytes) else Next(code, State(code, bytes, k - 1))
  }

  /** What an instruction commits. */
  function Effects(i: Instr, m: Machine): seq<Commit> {
    if !Accesses(i, m) then []
    else
      match i
      case StoreTo(width, _, _, _) => [Store(Access(i, m).addr, Access(i, m).value, width)]
      case BranchIf(_, _, _, _) => []
      case Fence(_) => []
      case _ => if i.rd != 0 then [RegWrite(i.rd, Perform(i, m).regs[i.rd])] else []
  }

  /** What the first k instructions commit. */
  function History(code: Word -> Instr, bytes: ByteMemory.ByteMap, k: nat): seq<Commit> {
    if k == 0 then []
    else
      var m := State(code, bytes, k - 1);
      History(code, bytes, k - 1) + Effects(code(m.pc), m)
  }

  /** The memory word that instruction k finds if it is a load. */
  function WordFound(code: Word -> Instr, bytes: ByteMemory.ByteMap, k: nat): Word {
    var m := State(code, bytes, k);
    Found(code(m.pc), m)
  }

  function Loads(code: Word -> Instr, bytes: ByteMemory.ByteMap): nat -> Word {
    (k: nat) => WordFound(code, bytes, k)
  }

  /** Instruction k continues at a word boundary and accesses memory aligned: the architecture does not trap. */
  predicate NoTrap(code: Word -> Instr, bytes: ByteMemory.ByteMap, k: nat) {
    var m := State(code, bytes, k);
    m.pc % 4 == 0 && Accesses(code(m.pc), m) && Next(code, m).pc % 4 == 0
  }

  /** Where an instruction continues if it is a jump or a branch; elsewhere the next word. */
  function Continue(i: Instr, m: Machine): Word {
    if i.JumpLink? || i.JumpLinkReg? || i.BranchIf? then Perform(i, m).pc else Plus4(m.pc)
  }

  /** If instruction n is a load, then the next one continues at a word boundary even when it is given the
      registers as they were in front of the load. */
  predicate JumpSafe(code: Word -> Instr, bytes: ByteMemory.ByteMap, n: nat) {
    var m, next := State(code, bytes, n), State(code, bytes, n + 1);
    code(m.pc).LoadFrom? ==> Continue(code(next.pc), next.(regs := m.regs)) % 4 == 0
  }

  /** Instruction k of the path is in the instruction memory, in its encoding. */
  ghost predicate Loaded(imem: Word -> Word, code: Word -> Instr, bytes: ByteMemory.ByteMap, k: nat) {
    var pc := State(code, bytes, k).pc;
    Encodable(code(pc)) && imem(pc) == Encode(code(pc))
  }

  /** The decoder delivers instruction k of the path, and it accesses memory aligned. */
  ghost predicate Delivered(u: Datapath, code: Word -> Instr, bytes: ByteMemory.ByteMap, k: nat) {
    var m := State(code, bytes, k);
    Encodable(code(m.pc)) && Delivers(Fetched(u, m.Core()), code(m.pc)) && Accesses(code(m.pc), m)
  }

  // ---------------------------------------------------------------------------------------------------
  // The datapath's sequential machine is the architecture
  // ---------------------------------------------------------------------------------------------------

  lemma StateAfter(code: Word -> Instr, bytes: ByteMemory.ByteMap, j: nat)
    ensures State(code, bytes, j + 1) == Next(code, State(code, bytes, j))
  {
  }

  lemma HistoryAfter(code: Word -> Instr, bytes: ByteMemory.ByteMap, j: nat)
    ensures var m := State(code, bytes, j);
            History(code, bytes, j + 1) == History(code, bytes, j) + Effects(code(m.pc), m)
  {
  }

  lemma StateUnfolds(code: Word -> Instr, bytes: ByteMemory.ByteMap, j: nat, k: nat, m: Machine)
    requires k == j + 1 && m == State(code, bytes, j)
    ensures State(code, bytes, k) == Next(code, m)
    ensures History(code, bytes, k) == History(code, bytes, j) + Effects(code(m.pc), m)
  {
    StateAfter(code, bytes, j);
    HistoryAfter(code, bytes, j);
  }

  /** Both machines take the same step. */
  lemma SameStep(u: Datapath, code: Word -> Instr, data: nat -> Word, j: nat, k: nat, m: Machine)
    requires Standard(u) && k == j + 1 && Seq(u, data, j) == m.Core() && data(j) == Found(code(m.pc), m)
    requires Encodable(code(m.pc)) && Delivers(Fetched(u, m.Core()), code(m.pc)) && Accesses(code(m.pc), m)
    ensures Seq(u, data, k) == Next(code, m).Core()
  {
    ExecutePerforms(u, code(m.pc), m);
    SeqUnfolds(u, data, j, k);
  }

  /** As long as the decoder delivers the path, both machines are in the same state. */
  lemma {:induction false} SameState(u: Datapath, code: Word -> Instr, bytes: ByteMemory.ByteMap, data: nat -> Word,
                                     k: nat, m: Machine)
    requires Standard(u) && data == Loads(code, bytes) && m == State(code, bytes, k)
    requires forall i: nat | i < k :: Delivered(u, code, bytes, i)
    ensures Seq(u, data, k) == m.Core()
  {
    if k > 0 {
      var j := k - 1;
      var before := State(code, bytes, j);
      SameState(u, code, bytes, data, j, before);
      assert Delivered(u, code, bytes, j);
      SameStep(u, code, data, j, k, before);
      StateUnfolds(code, bytes, j, k, before);
    }
  }

  lemma EffectsAreCommits(u: Datapath, i: Instr, m: Machine)
    requires Standard(u) && Encodable(i) && Delivers(Fetched(u, m.Core()), i) && Accesses(i, m)
    ensures var d, a := Fetched(u, m.Core()), m.Core();
            Effects(i, m)
            == (if d.ctrl.memWrite then [Store(Result(u, a), Y(u, a), d.ctrl.memFunct3)] else [])
               + (if d.ctrl.regWrite && d.rd != 0 then [RegWrite(d.rd, Written(u, a, Found(i, m)))] else [])
  {
    ExecutePerforms(u, i, m);
    if i.StoreTo? { AccessAddress(u, i, m); }
  }

  lemma SameCommits(u: Datapath, code: Word -> Instr, data: nat -> Word, k: nat, m: Machine)
    requires Standard(u) && Seq(u, data, k) == m.Core() && data(k) == Found(code(m.pc), m)
    requires Encodable(code(m.pc)) && Delivers(Fetched(u, m.Core()), code(m.pc)) && Accesses(code(m.pc), m)
    ensures SeqCommits(u, data, k) == Effects(code(m.pc), m)
  {
    EffectsAreCommits(u, code(m.pc), m);
  }

  lemma {:induction false} SameHistory(u: Datapath, code: Word -> Instr, bytes: ByteMemory.ByteMap, data: nat -> Word,
                                       k: nat)
    requires Standard(u) && data == Loads(code, bytes)
    requires forall i: nat | i < k :: Delivered(u, code, bytes, i)
    ensures SeqLog(u, data, k) == History(code, bytes, k)
  {
    if k > 0 {
      var j := k - 1;
      var m := State(code, bytes, j);
      SameHistory(u, code, bytes, data, j);
      SameState(u, code, bytes, data, j, m);
      assert Delivered(u, code, bytes, j);
      SameCommits(u, code, data, j, m);
      SeqLogUnfolds(u, data, j, k);
      StateUnfolds(code, bytes, j, k, m);
    }
  }

  // ---------------------------------------------------------------------------------------------------
  // Memory
  // ---------------------------------------------------------------------------------------------------

  lemma AfterEffects(mem: ByteMemory.Memory, log: seq<Commit>, i: Instr, m: Machine)
    requires ByteMemory.Bytes(After(mem, log)) == m.bytes && Accesses(i, m)
    ensures ByteMemory.Bytes(After(mem, log + Effects(i, m))) == Perform(i, m).bytes
  {
    var e := Effects(i, m);
    if e == [] {
      assert log + e == log;
    } else {
      assert (log + e)[..|log + e| - 1] == log;
      assert After(mem, log + e) == AfterCommit(After(mem, log), e[0]);
    }
    if i.StoreTo? { ByteMemory.StoreRefines(After(mem, log), Access(i, m)); }
  }

  /** The words that a program's history leaves are the bytes of the architecture. */
  lemma {:induction false} MemoryIsBytes(mem: ByteMemory.Memory, code: Word -> Instr, bytes: ByteMemory.ByteMap, k: nat)
    requires bytes == ByteMemory.Bytes(mem)
    ensures ByteMemory.Bytes(After(mem, History(code, bytes, k))) == State(code, bytes, k).bytes
  {
    if k > 0 {
      var j := k - 1;
      var m := State(code, bytes, j);
      MemoryIsBytes(mem, code, bytes, j);
      StateUnfolds(code, bytes, j, k, m);
      if Accesses(code(m.pc), m) {
        AfterEffects(mem, History(code, bytes, j), code(m.pc), m);
      } else {
        assert History(code, bytes, k) == History(code, bytes, j);
      }
    }
  }

  lemma LoadAddress(u: Datapath, i: Instr, m: Machine)
    requires Standard(u) && Delivers(Fetched(u, m.Core()), i)
    ensures Fetched(u, m.Core()).ctrl.memRead == i.LoadFrom?
    ensures i.LoadFrom? ==> Result(u, m.Core()) == Access(i, m).addr
  {
    if i.LoadFrom? { AccessAddress(u, i, m); }
  }

  lemma FindsHere(u: Datapath, mem: ByteMemory.Memory, data: nat -> Word, k: nat, i: Instr, m: Machine,
                  history: seq<Commit>)
    requires m.Core() == Seq(u, data, k) && history == SeqLog(u, data, k) && data(k) == Found(i, m)
    requires i.LoadFrom? == Fetched(u, m.Core()).ctrl.memRead
    requires i.LoadFrom? ==> Access(i, m).addr == Result(u, m.Core())
    requires ByteMemory.Bytes(After(mem, history)) == m.bytes
    ensures Finds(u, mem, data, k)
  {
    if i.LoadFrom? { ByteMemory.WordAtIs(After(mem, history), Access(i, m).addr); }
  }

  /** Each load of the architecture finds what the stores before it left in the words. */
  lemma LoadsFind(u: Datapath, mem: ByteMemory.Memory, code: Word -> Instr, bytes: ByteMemory.ByteMap,
                  data: nat -> Word, k: nat, m: Machine)
    requires Standard(u) && data == Loads(code, bytes) && bytes == ByteMemory.Bytes(mem)
    requires m == State(code, bytes, k) && forall i: nat | i <= k :: Delivered(u, code, bytes, i)
    ensures Finds(u, mem, data, k)
  {
    SameState(u, code, bytes, data, k, m);
    SameHistory(u, code, bytes, data, k);
    MemoryIsBytes(mem, code, bytes, k);
    assert Delivered(u, code, bytes, k);
    LoadAddress(u, code(m.pc), m);
    FindsHere(u, mem, data, k, code(m.pc), m, History(code, bytes, k));
  }

  // ---------------------------------------------------------------------------------------------------
  // A program that does not trap
  // ---------------------------------------------------------------------------------------------------

  /** A jump lands on a word boundary on the datapath exactly if it does in the architecture. */
  lemma JumpLands(u: Datapath, i: Instr, m: Machine)
    requires Standard(u) && Encodable(i) && Delivers(Fetched(u, m.Core()), i) && m.pc % 4 == 0
    requires i.JumpLink? || i.JumpLinkReg? || i.BranchIf?
    ensures var d, a := Fetched(u, m.Core()), m.Core();
            LandsAligned(u, d, a.pc, X(u, a), Y(u, a)) <==> Continue(i, m) % 4 == 0
  {
    ExecutePerforms(u, i, m);
  }

  lemma LandsOnWord(u: Datapath, i: Instr, m: Machine)
    requires Standard(u) && Encodable(i) && Delivers(Fetched(u, m.Core()), i) && m.pc % 4 == 0
    ensures var d, a := Fetched(u, m.Core()), m.Core();
            LandsAligned(u, d, a.pc, X(u, a), Y(u, a)) <==> Continue(i, m) % 4 == 0
  {
    if i.JumpLink? || i.JumpLinkReg? || i.BranchIf? { JumpLands(u, i, m); }
  }

  lemma SameAccess(u: Datapath, i: Instr, m: Machine)
    requires Standard(u) && Delivers(Fetched(u, m.Core()), i) && Accesses(i, m)
    ensures var d, a := Fetched(u, m.Core()), m.Core();
            d.ctrl.memRead || d.ctrl.memWrite ==> AccessAligned(d.ctrl.memFunct3, Result(u, a))
  {
    if i.LoadFrom? || i.StoreTo? { AccessAddress(u, i, m); }
  }

  lemma LegalHere(u: Datapath, data: nat -> Word, k: nat, i: Instr, m: Machine)
    requires Standard(u) && Encodable(i) && Delivers(Fetched(u, m.Core()), i) && Accesses(i, m)
    requires Seq(u, data, k) == m.Core() && m.pc % 4 == 0 && Perform(i, m).pc % 4 == 0
    ensures Legal(u, data, k)
  {
    SignalsInSubset(i);
    LandsOnWord(u, i, m);
    SameAccess(u, i, m);
  }

  /** A path that does not trap is one the pipeline theorems cover. */
  lemma PathIsLegal(u: Datapath, code: Word -> Instr, bytes: ByteMemory.ByteMap, data: nat -> Word, k: nat, m: Machine)
    requires Standard(u) && data == Loads(code, bytes) && m == State(code, bytes, k)
    requires (forall i: nat | i <= k :: Delivered(u, code, bytes, i)) && NoTrap(code, bytes, k)
    ensures Legal(u, data, k)
  {
    SameState(u, code, bytes, data, k, m);
    assert Delivered(u, code, bytes, k);
    LegalHere(u, data, k, code(m.pc), m);
  }

  lemma StaleHere(u: Datapath, data: nat -> Word, n: nat, k: nat, i: Instr, before: Regs, m: Machine, stale: Machine)
    requires Standard(u) && Encodable(i) && Delivers(Fetched(u, m.Core()), i) && m.pc % 4 == 0
    requires k == n + 1 && Seq(u, data, k) == m.Core() && Seq(u, data, n).regs == before
    requires stale == m.(regs := before) && Dyn(u, data, n).ctrl.memRead
    ensures StaleSafe(u, data, n) <==> Continue(i, stale) % 4 == 0
  {
    StaleUnfolds(u, data, n, k, before, m.Core(), Fetched(u, m.Core()));
    assert Fetched(u, stale.Core()) == Fetched(u, m.Core());
    LandsOnWord(u, i, stale);
  }

  lemma NoLoadIsSafe(u: Datapath, data: nat -> Word, n: nat)
    requires !Dyn(u, data, n).ctrl.memRead
    ensures StaleSafe(u, data, n)
  {
  }

  lemma JumpSafeIs(code: Word -> Instr, bytes: ByteMemory.ByteMap, n: nat, k: nat, before: Machine, m: Machine)
    requires k == n + 1 && before == State(code, bytes, n) && m == State(code, bytes, k)
    ensures JumpSafe(code, bytes, n)
            <==> (code(before.pc).LoadFrom? ==> Continue(code(m.pc), m.(regs := before.regs)) % 4 == 0)
  {
  }

  /** The condition on the branch unit behind load n, in terms of the architecture. */
  lemma StaleSafeIs(u: Datapath, code: Word -> Instr, bytes: ByteMemory.ByteMap, data: nat -> Word, n: nat, k: nat,
                    before: Machine, m: Machine)
    requires Standard(u) && data == Loads(code, bytes) && k == n + 1
    requires before == State(code, bytes, n) && m == State(code, bytes, k) && m.pc % 4 == 0
    requires forall i: nat | i <= k :: Delivered(u, code, bytes, i)
    ensures StaleSafe(u, data, n) <==> JumpSafe(code, bytes, n)
  {
    SameState(u, code, bytes, data, n, before);
    SameState(u, code, bytes, data, k, m);
    assert Delivered(u, code, bytes, n) && Delivered(u, code, bytes, k);
    JumpSafeIs(code, bytes, n, k, before, m);
    LoadAddress(u, code(before.pc), before);
    if code(before.pc).LoadFrom? {
      StaleHere(u, data, n, k, code(m.pc), before.regs, m, m.(regs := before.regs));
    } else {
      NoLoadIsSafe(u, data, n);
    }
  }

  // ---------------------------------------------------------------------------------------------------
  // Whole programs
  // ---------------------------------------------------------------------------------------------------

  lemma NopFields(w: Word)
    requires w == 0x13
    ensures DecodeWord(w).rs1 == 0 && DecodeWord(w).rs2 == 0
  {
    assert Pack(Fields(0, 0, 0, 0, 0, 0, 0, 0, OP_OP_IMM)) == w;
  }

  lemma LuiIgnores(u: Datapath)
    requires Standard(u)
    ensures LuiAlone(u)
  {
  }

  lemma CoreNop(imem: Word -> Word, w: Word)
    requires w == Fetch.NOP
    ensures Core(imem).decode(w).rs1 == 0 && Core(imem).decode(w).rs2 == 0
  {
    NopFields(w);
  }

  lemma CoreLui(imem: Word -> Word)
    ensures LuiAlone(Core(imem))
  {
    CoreIsStandard(imem);
    LuiIgnores(Core(imem));
  }

  lemma CoreWellFormed(imem: Word -> Word)
    ensures WellFormed(Core(imem))
  {
    CoreNop(imem, Fetch.NOP);
    CoreLui(imem);
  }

  lemma LoadedIsDelivered(imem: Word -> Word, u: Datapath, code: Word -> Instr, bytes: ByteMemory.ByteMap, k: nat)
    requires u == Core(imem) && Loaded(imem, code, bytes, k) && NoTrap(code, bytes, k)
    ensures Delivered(u, code, bytes, k)
  {
    DecodeRecovers(code(State(code, bytes, k).pc));
  }

  /** The first length instructions of the program are in memory and do not trap. */
  ghost predicate Program(imem: Word -> Word, code: Word -> Instr, bytes: ByteMemory.ByteMap, length: nat) {
    forall k: nat | k < length :: Loaded(imem, code, bytes, k) && NoTrap(code, bytes, k)
  }

  lemma ContinuesOnWord(code: Word -> Instr, bytes: ByteMemory.ByteMap, k: nat, m: Machine)
    requires m == State(code, bytes, k) && m.pc % 4 == 0 && Accesses(code(m.pc), m)
    requires Perform(code(m.pc), m).pc % 4 == 0
    ensures NoTrap(code, bytes, k)
  {
  }

  /** What the theorems need of instruction k, over any standard datapath. */
  ghost predicate Covered(u: Datapath, code: Word -> Instr, bytes: ByteMemory.ByteMap, k: nat) {
    Standard(u) && WellFormed(u) && Delivered(u, code, bytes, k) && NoTrap(code, bytes, k)
  }

  ghost predicate AllCovered(u: Datapath, code: Word -> Instr, bytes: ByteMemory.ByteMap, length: nat) {
    forall k: nat | k < length :: Covered(u, code, bytes, k)
  }

  lemma CoveredUnfolds(u: Datapath, code: Word -> Instr, bytes: ByteMemory.ByteMap, length: nat)
    requires length > 0 && AllCovered(u, code, bytes, length)
    ensures Standard(u) && WellFormed(u)
    ensures forall k: nat | k < length :: Delivered(u, code, bytes, k) && NoTrap(code, bytes, k)
  {
    assert Covered(u, code, bytes, 0);
    forall k: nat | k < length ensures Delivered(u, code, bytes, k) && NoTrap(code, bytes, k) {
      assert Covered(u, code, bytes, k);
    }
  }

  lemma CoreCovers(imem: Word -> Word, u: Datapath, code: Word -> Instr, bytes: ByteMemory.ByteMap, k: nat)
    requires u == Core(imem) && Loaded(imem, code, bytes, k) && NoTrap(code, bytes, k)
    ensures Covered(u, code, bytes, k)
  {
    CoreWellFormed(imem);
    CoreIsStandard(imem);
    LoadedIsDelivered(imem, u, code, bytes, k);
  }

  lemma CoreCoversAll(imem: Word -> Word, u: Datapath, code: Word -> Instr, bytes: ByteMemory.ByteMap, length: nat)
    requires u == Core(imem) && Program(imem, code, bytes, length)
    ensures AllCovered(u, code, bytes, length)
  {
    forall k: nat | k < length ensures Covered(u, code, bytes, k) { CoreCovers(imem, u, code, bytes, k); }
  }

  /** A run of the datapath on a program, with a data memory that starts as mem and serves its loads. */
  ghost predicate Runs(u: Datapath, mem: ByteMemory.Memory, data: nat -> Word, length: nat, env: nat -> MemIn,
                       run: nat -> Track, t: nat) {
    && Behaviour(u, env, run) && (forall c: nat | c < t :: Serves(u, mem, run(c), env(c)))
    && run(t).count + 1 < length && UpTo(ReplaySafeAt(u, data), run(t).count)
  }

  lemma ProgramIsPath(u: Datapath, mem: ByteMemory.Memory, code: Word -> Instr, bytes: ByteMemory.ByteMap,
                      data: nat -> Word, length: nat)
    requires length > 0 && AllCovered(u, code, bytes, length)
    requires bytes == ByteMemory.Bytes(mem) && data == Loads(code, bytes)
    ensures Path(u, data, length) && forall k: nat | k < length :: Finds(u, mem, data, k)
  {
    CoveredUnfolds(u, code, bytes, length);
    forall k: nat | k < length ensures Legal(u, data, k) && Finds(u, mem, data, k) {
      PathIsLegal(u, code, bytes, data, k, State(code, bytes, k));
      LoadsFind(u, mem, code, bytes, data, k, State(code, bytes, k));
    }
  }

  lemma PipelineRunsProgram(u: Datapath, mem: ByteMemory.Memory, code: Word -> Instr, bytes: ByteMemory.ByteMap,
                            data: nat -> Word, length: nat, env: nat -> MemIn, run: nat -> Track, t: nat, n: nat)
    requires AllCovered(u, code, bytes, length) && Runs(u, mem, data, length, env, run, t)
    requires bytes == ByteMemory.Bytes(mem) && data == Loads(code, bytes) && n == run(t).count
    ensures View(run(t).s) == State(code, bytes, n).regs
    ensures run(t).log == History(code, bytes, n)
  {
    CoveredUnfolds(u, code, bytes, length);
    ProgramIsPath(u, mem, code, bytes, data, length);
    PipelineWithMemory(u, mem, data, length, env, run, t);
    SameState(u, code, bytes, data, n, State(code, bytes, n));
    SameHistory(u, code, bytes, data, n);
  }

  /** The core implements RV32I with multiplications. For every program that is in the instruction memory in its
      encoding and does not trap, every initial data memory, and every schedule on which that memory serves loads:
      after every cycle, as long as the load-use replays were safe, the committed register writes and stores are
      those of the program's first count instructions, the register file is theirs, and the words that the stores
      leave are the bytes of the architecture. */
  lemma CoreImplementsRv32(imem: Word -> Word, u: Datapath, mem: ByteMemory.Memory, code: Word -> Instr,
                           bytes: ByteMemory.ByteMap, length: nat, env: nat -> MemIn, run: nat -> Track, t: nat)
    requires u == Core(imem) && bytes == ByteMemory.Bytes(mem) && Program(imem, code, bytes, length)
    requires Runs(u, mem, Loads(code, bytes), length, env, run, t)
    ensures View(run(t).s) == State(code, bytes, run(t).count).regs
    ensures run(t).log == History(code, bytes, run(t).count)
    ensures ByteMemory.Bytes(After(mem, run(t).log)) == State(code, bytes, run(t).count).bytes
  {
    CoreCoversAll(imem, u, code, bytes, length);
    PipelineRunsProgram(u, mem, code, bytes, Loads(code, bytes), length, env, run, t, run(t).count);
    MemoryIsBytes(mem, code, bytes, run(t).count);
  }

  function JumpSafeAt(code: Word -> Instr, bytes: ByteMemory.ByteMap): nat -> bool {
    (n: nat) => JumpSafe(code, bytes, n)
  }

  lemma SameSafety(u: Datapath, code: Word -> Instr, bytes: ByteMemory.ByteMap, data: nat -> Word, length: nat, n: nat)
    requires AllCovered(u, code, bytes, length) && data == Loads(code, bytes) && n < length
    ensures UpTo(StaleSafeAt(u, data), n) <==> UpTo(JumpSafeAt(code, bytes), n)
  {
    CoveredUnfolds(u, code, bytes, length);
    forall k: nat | k < n ensures StaleSafeAt(u, data)(k) == JumpSafeAt(code, bytes)(k) {
      assert NoTrap(code, bytes, k + 1);
      StaleSafeIs(u, code, bytes, data, k, k + 1, State(code, bytes, k), State(code, bytes, k + 1));
    }
  }

  lemma PipelineTraps(u: Datapath, mem: ByteMemory.Memory, code: Word -> Instr, bytes: ByteMemory.ByteMap,
                      data: nat -> Word, length: nat, env: nat -> MemIn, run: nat -> Track, t: nat, n: nat)
    requires AllCovered(u, code, bytes, length) && Runs(u, mem, data, length, env, run, t)
    requires bytes == ByteMemory.Bytes(mem) && data == Loads(code, bytes)
    requires n == run(t).count + Bit(run(t).s.exMem.memRead)
    ensures Quiet(u, run(t).s) <==> UpTo(JumpSafeAt(code, bytes), n)
  {
    ProgramIsPath(u, mem, code, bytes, data, length);
    MemoryPathIsPath(u, mem, data, length, env, run, t);
    QuietExactly(u, data, length, env, run, t);
    SameSafety(u, code, bytes, data, length, n);
  }

  /** The core traps where the architecture does not, exactly: on a program that does not trap, cycle t raises no
      exception if and only if every load that has come to EX/MEM so far is JumpSafe. */
  lemma SpuriousTrap(imem: Word -> Word, u: Datapath, mem: ByteMemory.Memory, code: Word -> Instr,
                     bytes: ByteMemory.ByteMap, length: nat, env: nat -> MemIn, run: nat -> Track, t: nat)
    requires u == Core(imem) && bytes == ByteMemory.Bytes(mem) && Program(imem, code, bytes, length)
    requires Runs(u, mem, Loads(code, bytes), length, env, run, t)
    ensures Quiet(u, run(t).s) <==> UpTo(JumpSafeAt(code, bytes), run(t).count + Bit(run(t).s.exMem.memRead))
  {
    var n := run(t).count + Bit(run(t).s.exMem.memRead);
    CoreCoversAll(imem, u, code, bytes, length);
    PipelineTraps(u, mem, code, bytes, Loads(code, bytes), length, env, run, t, n);
  }

  lemma NoLoadNoReplay(u: Datapath, code: Word -> Instr, bytes: ByteMemory.ByteMap, data: nat -> Word, k: nat,
                       m: Machine)
    requires Standard(u) && data == Loads(code, bytes) && m == State(code, bytes, k)
    requires forall i: nat | i <= k :: Delivered(u, code, bytes, i)
    requires !code(m.pc).LoadFrom?
    ensures ReplaySafe(u, data, k)
  {
    SameState(u, code, bytes, data, k, m);
    assert Delivered(u, code, bytes, k);
    LoadAddress(u, code(m.pc), m);
  }

  /** For programs without loads both conditions hold: no replay, no spurious trap. */
  lemma LoadFreeProgram(imem: Word -> Word, u: Datapath, code: Word -> Instr, bytes: ByteMemory.ByteMap, length: nat,
                        k: nat)
    requires u == Core(imem) && Program(imem, code, bytes, length) && k < length
    requires forall i: nat | i < length :: !code(State(code, bytes, i).pc).LoadFrom?
    ensures ReplaySafe(u, Loads(code, bytes), k) && JumpSafe(code, bytes, k)
  {
    CoreIsStandard(imem);
    forall i: nat | i < length ensures Delivered(u, code, bytes, i) { LoadedIsDelivered(imem, u, code, bytes, i); }
    NoLoadNoReplay(u, code, bytes, Loads(code, bytes), k, State(code, bytes, k));
  }
}
