/** A program on which the core gets a division wrong:
      0: addi x1, x0, 7
      4: addi x2, x0, 2
      8: div  x3, x1, x2
     12: addi x0, x0, 0
    The core does not wait for the divider and writes the sum of the operands, 9, to x3. */
module LostDivision {
  import opened Words
  import opened Registers
  import opened Pipeline
  import opened PipelineInvariant
  import opened PipelineRefinement
  import opened Decode
  import opened MulDiv
  import opened Isa
  import opened Rv32
  import opened FirstCycles
  import opened DivideInCore
  import ByteMemory

  const SEVEN := OpImm(Add, 1, 0, 7)
  const TWO := OpImm(Add, 2, 0, 2)

  /** The program: instruction words, and what the first two mean. */
  ghost predicate Image(imem: Word -> Word, code: Word -> Instr) {
    && code(0) == SEVEN && code(4) == TWO
    && imem(0) == 0x0070_0093 && imem(4) == 0x0020_0113 && imem(8) == 0x0220_C1B3 && imem(12) == 0x0000_0013
  }

  // ---------------------------------------------------------------------------------------------------
  // The instructions
  // ---------------------------------------------------------------------------------------------------

  const PLAIN := QUIET.(srcImm := true, regWrite := true)
  const DIVIDES := QUIET.(regWrite := true, mextEn := true, mextOp := Div)

  lemma Decodes(f: Fields, w: Word)
    requires f.Valid() && Pack(f) == w
    ensures DecodeWord(w) == DecodeFields(f)
  {
  }

  /** The word of a division, in hardware fields. */
  lemma DivisionDecodes(rs2: RegIdx, rs1: RegIdx, funct3: Funct3, rd: RegIdx, w: Word)
    requires funct3 >= 4
    requires w == OP_OP + 0x80 * rd + 0x1000 * funct3 + 0x8000 * rs1 + 0x10_0000 * rs2 + 0x200_0000
    ensures DecodeWord(w).ctrl == QUIET.(regWrite := true, mextEn := true, mextOp := MextOpOf(funct3))
    ensures DecodeWord(w).rs1 == rs1 && DecodeWord(w).rs2 == rs2 && DecodeWord(w).rd == rd
  {
    var f := RType(1, rs2, rs1, funct3, rd, OP_OP);
    PackedRType(1, rs2, rs1, funct3, rd, OP_OP, w);
    RegistersR(1, rs2, rs1, funct3, rd, OP_OP);
    Decodes(f, w);
    DivisionSignals(f);
  }

  lemma DivisionWord(w: Word)
    requires w == 0x0220_C1B3
    ensures DecodeWord(w).ctrl == DIVIDES && DecodeWord(w).rs1 == 1 && DecodeWord(w).rs2 == 2 && DecodeWord(w).rd == 3
  {
    DivisionDecodes(2, 1, 4, 3, w);
  }

  lemma NopWord(w: Word, f: Fields)
    requires w == 0x0000_0013 && f == Fields(0, 0, 0, 0, 0, 0, 0, 0, OP_OP_IMM)
    ensures DecodeWord(w).ctrl == PLAIN
  {
    assert Pack(f) == w;
  }

  /** The architectural registers in front of the division. */
  function Operands(): Regs {
    Zeros()[1 := 7][2 := 2]
  }

  lemma States(code: Word -> Instr, bytes: ByteMemory.ByteMap)
    requires code(0) == SEVEN && code(4) == TWO
    ensures State(code, bytes, 0) == Machine(0, Zeros(), bytes)
    ensures State(code, bytes, 1) == Machine(4, Zeros()[1 := 7], bytes)
    ensures State(code, bytes, 2) == Machine(8, Operands(), bytes)
    ensures NoTrap(code, bytes, 0) && NoTrap(code, bytes, 1)
  {
    var m, next := Machine(0, Zeros(), bytes), Machine(4, Zeros()[1 := 7], bytes);
    StateUnfolds(code, bytes, 0, 1, m);
    assert Perform(SEVEN, m) == next;
    StateUnfolds(code, bytes, 1, 2, next);
    assert Perform(TWO, next) == Machine(8, Operands(), bytes);
    ContinuesOnWord(code, bytes, 0, m);
    ContinuesOnWord(code, bytes, 1, next);
  }

  lemma TwoInstructions(imem: Word -> Word, code: Word -> Instr, bytes: ByteMemory.ByteMap)
    requires Loaded(imem, code, bytes, 0) && Loaded(imem, code, bytes, 1)
    requires NoTrap(code, bytes, 0) && NoTrap(code, bytes, 1)
    ensures Program(imem, code, bytes, 2)
  {
    forall k: nat | k < 2 ensures Loaded(imem, code, bytes, k) && NoTrap(code, bytes, k) {
      assert k == 0 || k == 1;
    }
  }

  lemma FirstTwo(imem: Word -> Word, code: Word -> Instr, bytes: ByteMemory.ByteMap)
    requires Image(imem, code)
    ensures Program(imem, code, bytes, 2)
  {
    States(code, bytes);
    OpImmLoaded(imem, code, bytes, 0, 0, SEVEN);
    OpImmLoaded(imem, code, bytes, 1, 4, TWO);
    TwoInstructions(imem, code, bytes);
  }

  // ---------------------------------------------------------------------------------------------------
  // The division comes to EX
  // ---------------------------------------------------------------------------------------------------

  /** The division with its operands in EX, and the instruction behind it in IF/ID. */
  predicate AtDivision(dp: Datapath, s: Pipe) {
    && s.idEx.valid && s.idEx.d.ctrl == DIVIDES && s.idEx.d.rd == 3 && OpA(s) == 7 && OpB(s) == 2
    && !s.exMem.memRead && !s.exMem.memWrite && !s.reqSent
    && s.fetch.ifId.valid && dp.decode(s.fetch.ifId.instr).ctrl == PLAIN
  }

  /** What the datapath fetches and decodes behind the two instructions. */
  predicate DivisionAt(dp: Datapath, pc: Word, next: Word) {
    var d := dp.decode(dp.fetch(pc));
    && d.ctrl == DIVIDES && d.rs1 == 1 && d.rs2 == 2 && d.rd == 3 && dp.decode(dp.fetch(next)).ctrl == PLAIN
  }

  /** The state behind an instruction that neither jumps nor accesses memory. */
  lemma InEx(dp: Datapath, s: Pipe, prev: Arch, cur: Arch, raw: Word, ex: Arch)
    requires Inv(dp, s, prev, cur, raw, ex) && s.exMem.valid && InSubset(Fetched(dp, cur).ctrl)
    requires !s.exMem.memRead && !s.exMem.memWrite && !JumpsIn(dp, cur)
    requires ex.regs == Operands() && DivisionAt(dp, ex.pc, Plus4(ex.pc))
    ensures AtDivision(dp, s)
  {
    PipelineInvariant.Operands(dp, s, prev, cur, raw, ex);
  }

  /** Dynamic instruction n in EX/MEM. */
  lemma PlainInMem(dp: Datapath, data: nat -> Word, r: Track, n: nat, prev: Arch, cur: Arch, ex: Arch)
    requires PipelineRefinement.Holds(dp, data, r) && r.count == n && Slot(dp, data, n) == r.time + 1
    requires Legal(dp, data, n) && NoAccess(dp, data, n) && !JumpsAt(dp, data, n)
    requires prev == Prev(dp, data, n) && cur == Seq(dp, data, n) && ex == Seq(dp, data, n + 1)
    ensures Inv(dp, r.s, prev, cur, data(n), ex)
    ensures r.s.exMem.valid && !r.s.exMem.memRead && !r.s.exMem.memWrite
    ensures InSubset(Fetched(dp, cur).ctrl) && !JumpsIn(dp, cur)
  {
    InMemWhen(dp, data, r.s, n, r.issued, r.time);
  }

  /** The same in a run, when it is time for the instruction in front of the division to be in EX/MEM. */
  lemma InExInRun(dp: Datapath, data: nat -> Word, r: Track, n: nat, k: nat, ex: Arch)
    requires PipelineRefinement.Holds(dp, data, r) && r.count == n && Slot(dp, data, n) == r.time + 1 && k == n + 1
    requires Legal(dp, data, n) && NoAccess(dp, data, n) && !JumpsAt(dp, data, n)
    requires ex == Seq(dp, data, k) && ex.regs == Operands() && DivisionAt(dp, ex.pc, Plus4(ex.pc))
    ensures AtDivision(dp, r.s)
  {
    var prev, cur := Prev(dp, data, n), Seq(dp, data, n);
    PlainInMem(dp, data, r, n, prev, cur, ex);
    InEx(dp, r.s, prev, cur, data(n), ex);
  }

  /** Two instructions that neither jump nor access memory, and then the division. */
  lemma FifthIsDivision(dp: Datapath, data: nat -> Word, env: nat -> MemIn, run: nat -> Track, ex: Arch)
    requires Starts(dp, data, 2, env, run) && NoAccess(dp, data, 1) && !JumpsAt(dp, data, 1)
    requires ex == Seq(dp, data, 2) && ex.regs == Operands() && DivisionAt(dp, ex.pc, Plus4(ex.pc))
    ensures AtDivision(dp, run(5).s)
  {
    FirstSlots(dp, data);
    FifthCycle(dp, data, 2, env, run);
    assert Legal(dp, data, 1);
    InExInRun(dp, data, run(5), 1, 2, ex);
  }

  lemma QuietStart(dp: Datapath, data: nat -> Word, env: nat -> MemIn, run: nat -> Track, u: nat)
    requires Starts(dp, data, 2, env, run) && u < 5
    ensures Quiet(dp, run(u).s)
  {
    StartUp(dp, data, 2, env, run, u);
    StartCycle(dp, data, 2, env, run, u);
  }

  // ---------------------------------------------------------------------------------------------------
  // The division leaves EX
  // ---------------------------------------------------------------------------------------------------

  /** The division in EX/MEM, with the sum of its operands, and the divider at work. */
  predicate Passed(dp: Datapath, x: Divided) {
    && x.unit.phase.Calc? && Quiet(dp, x.s)
    && x.s.exMem.valid && x.s.exMem.regWrite && x.s.exMem.rd == 3 && x.s.exMem.alu == 9 && x.s.exMem.wbSel.WbAlu?
    && !x.s.exMem.memRead && !x.s.exMem.memWrite
  }

  lemma Passes(dp: Datapath, x: Divided, m: MemIn)
    requires AtDivision(dp, x.s) && x.unit == MulDiv.RESET && forall a, b :: dp.alu(Add, a, b) == Plus(a, b)
    ensures Passed(dp, StepWith(dp, x, m))
  {
  }

  lemma DrainsNine(dp: Datapath, x: Divided, m: MemIn)
    requires Passed(dp, x)
    ensures Rd(View(StepWith(dp, x, m).s), 3) == 9
  {
  }

  // ---------------------------------------------------------------------------------------------------
  // Whole runs
  // ---------------------------------------------------------------------------------------------------

  lemma SecondPlain(u: Datapath, data: nat -> Word, k: nat, i: Instr)
    requires Delivers(Dyn(u, data, k), i) && i.OpImm?
    ensures NoAccess(u, data, k) && !JumpsAt(u, data, k)
  {
  }

  /** The program's path over any standard datapath, up to the division. */
  lemma OnPathToDivision(u: Datapath, code: Word -> Instr, mem: ByteMemory.Memory, bytes: ByteMemory.ByteMap,
                         data: nat -> Word)
    requires code(0) == SEVEN && code(4) == TWO && AllCovered(u, code, bytes, 2)
    requires bytes == ByteMemory.Bytes(mem) && data == Loads(code, bytes)
    ensures Path(u, data, 2) && Seq(u, data, 2) == Arch(8, Operands())
    ensures NoAccess(u, data, 0) && !JumpsAt(u, data, 0) && NoAccess(u, data, 1) && !JumpsAt(u, data, 1)
  {
    CoveredUnfolds(u, code, bytes, 2);
    ProgramIsPath(u, mem, code, bytes, data, 2);
    States(code, bytes);
    DynIs(u, code, bytes, data, 0, State(code, bytes, 0));
    DynIs(u, code, bytes, data, 1, State(code, bytes, 1));
    SameState(u, code, bytes, data, 2, State(code, bytes, 2));
    SecondPlain(u, data, 0, SEVEN);
    SecondPlain(u, data, 1, TWO);
  }

  /** The first five cycles, with the divider idle. */
  lemma ToCycle5(u: Datapath, data: nat -> Word, env: nat -> MemIn, both: nat -> Divided, ex: Arch)
    requires Path(u, data, 2) && NoAccess(u, data, 0) && !JumpsAt(u, data, 0)
    requires NoAccess(u, data, 1) && !JumpsAt(u, data, 1)
    requires ex == Seq(u, data, 2) && ex.regs == Operands() && DivisionAt(u, ex.pc, Plus4(ex.pc))
    requires Multiplies(u) && Operates(u, env, both)
    ensures AtDivision(u, both(5).s) && both(5).unit == MulDiv.RESET
  {
    var garbage := both(0).s.fetch.imemOut;
    var run := Observed(u, env, garbage);
    ObservedBehaves(u, env, garbage, run);
    forall t: nat | t < 5 ensures Quiet(u, run(t).s) { QuietStart(u, data, env, run, t); }
    DividerIsInvisible(u, env, run, both, 5);
    FifthIsDivision(u, data, env, run, ex);
  }

  /** The two cycles behind it. */
  lemma ToCycle7(u: Datapath, env: nat -> MemIn, both: nat -> Divided)
    requires Operates(u, env, both) && AtDivision(u, both(5).s) && both(5).unit == MulDiv.RESET
    requires forall a, b :: u.alu(Add, a, b) == Plus(a, b)
    ensures Passed(u, both(6)) && Rd(View(both(7).s), 3) == 9
  {
    assert Edge(u, env, both, 5) && Edge(u, env, both, 6);
    Passes(u, both(5), env(5));
    DrainsNine(u, both(6), env(6));
  }

  /** The table's result is 3, and nothing else. */
  lemma QuotientOf7By2(x: int, y: int, q: int)
    requires x == Reading(Div, 7) && y == Reading(Div, 2) && q == 3
    ensures DivResult(Div, 7, 2, 3) && !DivResult(Div, 7, 2, 9)
  {
    assert Divides(x, y, q, 1) && 3 == Wrap(q);
    if DivResult(Div, 7, 2, 9) { DivResultIsUnique(Div, 7, 2, 3, 9); }
  }

  lemma CoreAdds(imem: Word -> Word, u: Datapath)
    requires u == Core(imem)
    ensures Multiplies(u) && forall a, b :: u.alu(Add, a, b) == Plus(a, b)
  {
  }

  lemma FetchesDivision(imem: Word -> Word, u: Datapath, pc: Word, w: Word)
    requires u == Core(imem) && w == imem(pc) && w == 0x0220_C1B3
    ensures var d := u.decode(u.fetch(pc)); d.ctrl == DIVIDES && d.rs1 == 1 && d.rs2 == 2 && d.rd == 3
  {
    DivisionWord(w);
  }

  lemma FetchesNop(imem: Word -> Word, u: Datapath, pc: Word, w: Word)
    requires u == Core(imem) && w == imem(pc) && w == 0x0000_0013
    ensures u.decode(u.fetch(pc)).ctrl == PLAIN
  {
    NopWord(w, Fields(0, 0, 0, 0, 0, 0, 0, 0, OP_OP_IMM));
  }

  lemma ProgramAtDivision(imem: Word -> Word, u: Datapath)
    requires u == Core(imem) && imem(8) == 0x0220_C1B3 && imem(12) == 0x0000_0013
    ensures DivisionAt(u, 8, 12)
  {
    FetchesDivision(imem, u, 8, imem(8));
    FetchesNop(imem, u, 12, imem(12));
  }

  lemma AnyDatapath(u: Datapath, code: Word -> Instr, mem: ByteMemory.Memory, bytes: ByteMemory.ByteMap,
                    data: nat -> Word, env: nat -> MemIn, both: nat -> Divided)
    requires code(0) == SEVEN && code(4) == TWO && AllCovered(u, code, bytes, 2)
    requires bytes == ByteMemory.Bytes(mem) && data == Loads(code, bytes)
    requires Multiplies(u) && (forall a, b :: u.alu(Add, a, b) == Plus(a, b)) && DivisionAt(u, 8, 12)
    requires Operates(u, env, both)
    ensures AtDivision(u, both(5).s) && both(5).unit == MulDiv.RESET
    ensures Quiet(u, both(6).s) && Rd(View(both(7).s), 3) == 9
  {
    OnPathToDivision(u, code, mem, bytes, data);
    ToCycle5(u, data, env, both, Arch(8, Operands()));
    ToCycle7(u, env, both);
  }

  /** In every run of this program on the core with its divider, whatever the data memory answers and when,
      the division is in EX in cycle 5 with the operands 7 and 2 and the divider idle, and the core raises no
      exception; in cycle 7 register x3 reads as 9, where the architecture requires 3. */
  lemma NineInCycle7(imem: Word -> Word, u: Datapath, code: Word -> Instr, env: nat -> MemIn,
                     both: nat -> Divided)
    requires u == Core(imem) && Image(imem, code) && Operates(u, env, both)
    ensures AtDivision(u, both(5).s) && both(5).unit == MulDiv.RESET
    ensures Quiet(u, both(6).s) && Rd(View(both(7).s), 3) == 9
    ensures DivResult(Div, 7, 2, 3) && !DivResult(Div, 7, 2, 9)
  {
    var mem: ByteMemory.Memory := seq(ByteMemory.DEPTH, _ => 0);
    var bytes := ByteMemory.Bytes(mem);
    FirstTwo(imem, code, bytes);
    CoreCoversAll(imem, u, code, bytes, 2);
    CoreAdds(imem, u);
    ProgramAtDivision(imem, u);
    AnyDatapath(u, code, mem, bytes, Loads(code, bytes), env, both);
    QuotientOf7By2(Reading(Div, 7), Reading(Div, 2), 3);
  }
}
