/** A program on which the core traps and the architecture does not:
      0: addi x1, x0, 2
      4: lw   x1, 0(x0)
      8: jalr x0, 0(x1)
    While the load waits, the branch unit evaluates the jump on the 2 that x1 held before, and the exception unit
    takes the target 2 for a misaligned one, wherever the loaded word points. */
module StaleJump {
  import opened Words
  import opened Registers
  import opened Pipeline
  import opened PipelineRefinement
  import opened Decode
  import opened Isa
  import opened Rv32
  import opened FirstCycles
  import ByteMemory

  const ADDI := OpImm(Add, 1, 0, 2)
  const LW := LoadFrom(2, 1, 0, 0)
  const JALR := JumpLinkReg(0, 1, 0)

  /** The program and its instruction words. */
  ghost predicate Image(imem: Word -> Word, code: Word -> Instr) {
    && code(0) == ADDI && code(4) == LW && code(8) == JALR
    && imem(0) == 0x0020_0093 && imem(4) == 0x0000_2083 && imem(8) == 0x0000_8067
  }

  /** The architecture's states. */
  lemma FirstState(code: Word -> Instr, bytes: ByteMemory.ByteMap)
    requires code(0) == ADDI
    ensures State(code, bytes, 0) == Machine(0, Zeros(), bytes)
    ensures State(code, bytes, 1) == Machine(4, Zeros()[1 := 2], bytes)
  {
    var m := Machine(0, Zeros(), bytes);
    StateUnfolds(code, bytes, 0, 1, m);
    assert Next(code, m) == Machine(4, Zeros()[1 := 2], bytes);
  }

  lemma SecondState(code: Word -> Instr, bytes: ByteMemory.ByteMap, w: Word)
    requires code(0) == ADDI && code(4) == LW && w == FirstWord(bytes)
    ensures State(code, bytes, 2) == Machine(8, Zeros()[1 := w], bytes)
  {
    var m := Machine(4, Zeros()[1 := 2], bytes);
    FirstState(code, bytes);
    StateUnfolds(code, bytes, 1, 2, m);
    assert Access(LW, m) == ByteMemory.Load(2, 0);
    assert Zeros()[1 := 2][1 := w] == Zeros()[1 := w];
  }

  /** The architecture does not trap, */
  lemma DoesNotTrap(code: Word -> Instr, bytes: ByteMemory.ByteMap, w: Word)
    requires code(0) == ADDI && code(4) == LW && code(8) == JALR && w == FirstWord(bytes) && w % 4 == 0
    ensures NoTrap(code, bytes, 0) && NoTrap(code, bytes, 1) && NoTrap(code, bytes, 2)
  {
    FirstState(code, bytes);
    SecondState(code, bytes, w);
    ContinuesOnWord(code, bytes, 0, Machine(0, Zeros(), bytes));
    ContinuesOnWord(code, bytes, 1, Machine(4, Zeros()[1 := 2], bytes));
    ContinuesOnWord(code, bytes, 2, Machine(8, Zeros()[1 := w], bytes));
  }

  /** but the jump would on the registers in front of the load. */
  lemma StaleTarget(code: Word -> Instr, bytes: ByteMemory.ByteMap, w: Word)
    requires code(0) == ADDI && code(4) == LW && code(8) == JALR && w == FirstWord(bytes)
    ensures !JumpSafe(code, bytes, 1)
  {
    FirstState(code, bytes);
    SecondState(code, bytes, w);
    var m, stale := Machine(8, Zeros()[1 := w], bytes), Machine(8, Zeros()[1 := 2], bytes);
    assert Perform(JALR, stale).pc == 2;
    JumpSafeIs(code, bytes, 1, 2, Machine(4, Zeros()[1 := 2], bytes), m);
    assert m.(regs := Zeros()[1 := 2]) == stale;
  }

  lemma JumpLoaded(imem: Word -> Word, code: Word -> Instr, bytes: ByteMemory.ByteMap, i: Instr)
    requires i == JALR && code(8) == i && imem(8) == 0x0000_8067 && State(code, bytes, 2).pc == 8
    ensures Loaded(imem, code, bytes, 2)
  {
    EncodesJumpReg(i, imem(8));
  }

  lemma ThreeInstructions(imem: Word -> Word, code: Word -> Instr, bytes: ByteMemory.ByteMap)
    requires Loaded(imem, code, bytes, 0) && Loaded(imem, code, bytes, 1) && Loaded(imem, code, bytes, 2)
    requires NoTrap(code, bytes, 0) && NoTrap(code, bytes, 1) && NoTrap(code, bytes, 2)
    ensures Program(imem, code, bytes, 3)
  {
    forall k: nat | k < 3 ensures Loaded(imem, code, bytes, k) && NoTrap(code, bytes, k) {
      assert k == 0 || k == 1 || k == 2;
    }
  }

  lemma Architecture(imem: Word -> Word, code: Word -> Instr, bytes: ByteMemory.ByteMap)
    requires Image(imem, code) && FirstWord(bytes) % 4 == 0
    ensures Program(imem, code, bytes, 3) && !JumpSafe(code, bytes, 1)
  {
    FirstState(code, bytes);
    SecondState(code, bytes, FirstWord(bytes));
    OpImmLoaded(imem, code, bytes, 0, 0, ADDI);
    LoadLoaded(imem, code, bytes, 1, 4, LW);
    JumpLoaded(imem, code, bytes, JALR);
    DoesNotTrap(code, bytes, FirstWord(bytes));
    StaleTarget(code, bytes, FirstWord(bytes));
    ThreeInstructions(imem, code, bytes);
  }

  lemma Behind(u: Datapath, code: Word -> Instr, bytes: ByteMemory.ByteMap, data: nat -> Word)
    requires AllCovered(u, code, bytes, 3) && data == Loads(code, bytes)
    ensures StaleSafe(u, data, 1) <==> JumpSafe(code, bytes, 1)
  {
    CoveredUnfolds(u, code, bytes, 3);
    assert NoTrap(code, bytes, 2);
    StaleSafeIs(u, code, bytes, data, 1, 2, State(code, bytes, 1), State(code, bytes, 2));
  }

  lemma AnyDatapath(u: Datapath, mem: ByteMemory.Memory, code: Word -> Instr, bytes: ByteMemory.ByteMap,
                    env: nat -> MemIn, run: nat -> Track)
    requires AllCovered(u, code, bytes, 3) && bytes == ByteMemory.Bytes(mem) && Behaviour(u, env, run)
    requires code(0) == ADDI && code(4) == LW && !JumpSafe(code, bytes, 1)
    ensures run(5).count == 1 && run(5).s.exMem.memRead && !Quiet(u, run(5).s)
  {
    var data := Loads(code, bytes);
    FirstState(code, bytes);
    ProgramStarts(u, mem, code, bytes, data, 3, env, run);
    FifthCycle(u, data, 3, env, run);
    LoadIsThere(u, data, 3, env, run, 5);
    Behind(u, code, bytes, data);
  }

  /** In every run of this program, whatever the memories hold and however they answer, the core raises an
      exception in cycle 5, where the architecture, given a loaded target on a word boundary, does not trap. */
  lemma TrapsInCycle5(imem: Word -> Word, u: Datapath, mem: ByteMemory.Memory, code: Word -> Instr,
                      bytes: ByteMemory.ByteMap, env: nat -> MemIn, run: nat -> Track)
    requires u == Core(imem) && Image(imem, code) && bytes == ByteMemory.Bytes(mem) && FirstWord(bytes) % 4 == 0
    requires Behaviour(u, env, run)
    ensures Program(imem, code, bytes, 3) && !JumpSafe(code, bytes, 1)
    ensures run(5).count == 1 && run(5).s.exMem.memRead && !Quiet(u, run(5).s)
  {
    Architecture(imem, code, bytes);
    CoreCoversAll(imem, u, code, bytes, 3);
    AnyDatapath(u, mem, code, bytes, env, run);
  }
}
