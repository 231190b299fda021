/** Instruction words as numbers: what the encoder assembles and the decoder takes apart, bit weight by bit weight. */
module Encoding {
  import opened Words
  import opened Registers
  import opened Pipeline
  import opened Decode
  import opened Isa
  import MulDiv

  // ---------------------------------------------------------------------------------------------------
  // Words of the instruction set manual
  // ---------------------------------------------------------------------------------------------------

  /** The funct3 code of an ALU operation, of a comparison, of a multiplication. */
  function OpDigit(op: AluOp): int {
    match op
    case Add => 0
    case Sub => 0
    case Sll => 1
    case Slt => 2
    case Sltu => 3
    case Xor => 4
    case Srl => 5
    case Sra => 5
    case Or => 6
    case And => 7
    case _ => 0
  }

  function TestDigit(test: Test): int {
    match test
    case Eq => 0
    case Ne => 1
    case Lt => 4
    case Ge => 5
    case Ltu => 6
    case Geu => 7
  }

  function MulDigit(op: MulDiv.MextOp): int {
    match op
    case Mul => 0
    case Mulh => 1
    case Mulhsu => 2
    case _ => 3
  }

  /** Bit 30 marks subtraction and the arithmetic shift. */
  function Bit30(op: AluOp): int {
    if op.Sub? || op.Sra? then 0x4000_0000 else 0
  }

  /** Register fields and funct3. */
  function Middle(rs1: RegIdx, funct3: int, rd: int): int {
    0x8000 * rs1 + 0x1000 * funct3 + 0x80 * rd
  }

  /** The word of an instruction, as a sum of its fields. */
  function WordOf(i: Instr): int {
    match i
    case LoadUpper(rd, upper) => 0x37 + 0x80 * rd + 0x1000 * upper
    case AddUpperPc(rd, upper) => 0x17 + 0x80 * rd + 0x1000 * upper
    case JumpLink(rd, offset) =>
      var u := offset % 0x20_0000;
      0x6F + 0x80 * rd + 0x1000 * (u / 0x1000 % 0x100) + 0x10_0000 * (u / 0x800 % 2) + 0x20_0000 * (u / 2 % 0x400)
      + 0x8000_0000 * (u / 0x10_0000)
    case JumpLinkReg(rd, rs1, imm) => 0x67 + Middle(rs1, 0, rd) + 0x10_0000 * (imm % 0x1000)
    case BranchIf(test, rs1, rs2, offset) =>
      var u := offset % 0x2000;
      0x63 + 0x80 * (u / 0x800 % 2) + 0x100 * (u / 2 % 0x10) + Middle(rs1, TestDigit(test), 0) + 0x10_0000 * rs2
      + 0x200_0000 * (u / 0x20 % 0x40) + 0x8000_0000 * (u / 0x1000)
    case LoadFrom(width, rd, rs1, imm) => 0x03 + Middle(rs1, width, rd) + 0x10_0000 * (imm % 0x1000)
    case StoreTo(width, rs1, rs2, imm) =>
      var u := imm % 0x1000;
      0x23 + Middle(rs1, width, u % 0x20) + 0x10_0000 * rs2 + 0x200_0000 * (u / 0x20)
    case OpImm(op, rd, rs1, imm) => 0x13 + Middle(rs1, OpDigit(op), rd) + 0x10_0000 * (imm % 0x1000)
    case ShiftImm(op, rd, rs1, shamt) => 0x13 + Middle(rs1, OpDigit(op), rd) + 0x10_0000 * shamt + Bit30(op)
    case OpReg(op, rd, rs1, rs2) => 0x33 + Middle(rs1, OpDigit(op), rd) + 0x10_0000 * rs2 + Bit30(op)
    case Multiply(op, rd, rs1, rs2) => 0x33 + Middle(rs1, MulDigit(op), rd) + 0x10_0000 * rs2 + 0x200_0000
    case Fence(hint) => 0x0F + 0x80 * hint
  }

  /** What the fields of a word weigh. */
  lemma Weights(f: Fields)
    requires f.Valid()
    ensures Pack(f) == f.op + 0x80 * f.b7 + 0x100 * f.b11 + 0x1000 * f.b14 + 0x8000 * f.b19 + 0x10_0000 * f.b20
                       + 0x20_0000 * f.b24 + 0x200_0000 * f.b30 + 0x8000_0000 * f.b31
  {
  }

  lemma UTypeWord(upper: Imm20, rd: RegIdx, op: int)
    requires 0 <= op < 128
    ensures UType(upper, rd, op).Valid() && Pack(UType(upper, rd, op)) == op + 0x80 * rd + 0x1000 * upper
  {
    Weights(UType(upper, rd, op));
  }

  lemma FTypeWord(hint: Hint, op: int)
    requires 0 <= op < 128
    ensures FType(hint, op).Valid() && Pack(FType(hint, op)) == op + 0x80 * hint
  {
    Weights(FType(hint, op));
  }

  lemma RTypeWord(funct7: int, rs2: RegIdx, rs1: RegIdx, funct3: Funct3, rd: RegIdx, op: int)
    requires 0 <= funct7 < 128 && 0 <= op < 128
    ensures RType(funct7, rs2, rs1, funct3, rd, op).Valid()
    ensures Pack(RType(funct7, rs2, rs1, funct3, rd, op))
            == op + Middle(rs1, funct3, rd) + 0x10_0000 * rs2 + 0x200_0000 * funct7
  {
    PackedRType(funct7, rs2, rs1, funct3, rd, op, op + Middle(rs1, funct3, rd) + 0x10_0000 * rs2 + 0x200_0000 * funct7);
  }

  lemma ITypeWord(imm: Imm12, rs1: RegIdx, funct3: Funct3, rd: RegIdx, op: int)
    requires 0 <= op < 128
    ensures IType(imm, rs1, funct3, rd, op).Valid()
    ensures Pack(IType(imm, rs1, funct3, rd, op)) == op + Middle(rs1, funct3, rd) + 0x10_0000 * (imm % 0x1000)
  {
    var u := imm % 0x1000;
    RTypeWord(u / 32, u % 32, rs1, funct3, rd, op);
  }

  lemma STypeWord(imm: Imm12, rs2: RegIdx, rs1: RegIdx, funct3: Funct3, op: int)
    requires 0 <= op < 128
    ensures var u := imm % 0x1000;
            && SType(imm, rs2, rs1, funct3, op).Valid()
            && Pack(SType(imm, rs2, rs1, funct3, op))
               == op + Middle(rs1, funct3, u % 0x20) + 0x10_0000 * rs2 + 0x200_0000 * (u / 0x20)
  {
    var u := imm % 0x1000;
    RTypeWord(u / 32, rs2, rs1, funct3, u % 32, op);
  }

  /** Cutting a number twice is cutting it once. */
  lemma Cuts(u: nat)
    ensures u / 2 / 16 == u / 0x20 && u / 0x20 / 64 == u / 0x800 && u / 0x800 / 2 == u / 0x1000
    ensures u / 0x1000 / 8 == u / 0x8000 && u / 0x8000 / 32 == u / 0x10_0000
  {
  }

  /** Two neighbouring slices are one. */
  lemma JoinsTen(x: nat)
    ensures x % 0x400 == x % 16 + 16 * (x / 16 % 64)
  {
    RemainderIs(x, x / 16 / 64, 0x400, x % 16 + 16 * (x / 16 % 64));
  }

  lemma JoinsEight(x: nat)
    ensures x % 0x100 == x % 8 + 8 * (x / 8 % 32)
  {
    RemainderIs(x, x / 8 / 32, 0x100, x % 8 + 8 * (x / 8 % 32));
  }

  lemma BTypeWord(offset: int, rs2: RegIdx, rs1: RegIdx, funct3: Funct3, op: int)
    requires 0 <= op < 128
    ensures var u := offset % 0x2000;
            && BType(offset, rs2, rs1, funct3, op).Valid()
            && Pack(BType(offset, rs2, rs1, funct3, op))
               == op + 0x80 * (u / 0x800 % 2) + 0x100 * (u / 2 % 0x10) + Middle(rs1, funct3, 0) + 0x10_0000 * rs2
                  + 0x200_0000 * (u / 0x20 % 0x40) + 0x8000_0000 * (u / 0x1000)
  {
    Cuts(offset % 0x2000);
    Weights(BType(offset, rs2, rs1, funct3, op));
  }

  /** The bits of a jump offset as the format holds them. */
  lemma JTypeFields(offset: int, rd: RegIdx, op: int, u: nat, f: Fields)
    requires 0 <= op < 128 && u == offset % 0x20_0000 && f == JType(offset, rd, op)
    ensures f.Valid() && f.op == op && f.b7 == rd % 2 && f.b11 == rd / 2
    ensures f.b14 == u / 0x1000 % 8 && f.b19 == u / 0x8000 % 32 && f.b20 == u / 0x800 % 2
    ensures f.b24 == u / 2 % 16 && f.b30 == u / 0x20 % 64 && f.b31 == u / 0x10_0000
  {
    Cuts(u);
  }

  lemma JTypeSum(b14: int, b19: int, b24: int, b30: int, upper: int, lower: int)
    requires upper == b14 + 8 * b19 && lower == b24 + 16 * b30
    ensures 0x1000 * b14 + 0x8000 * b19 == 0x1000 * upper && 0x20_0000 * b24 + 0x200_0000 * b30 == 0x20_0000 * lower
  {
  }

  lemma JTypeWord(offset: int, rd: RegIdx, op: int)
    requires 0 <= op < 128
    ensures var u := offset % 0x20_0000;
            && JType(offset, rd, op).Valid()
            && Pack(JType(offset, rd, op))
               == op + 0x80 * rd + 0x1000 * (u / 0x1000 % 0x100) + 0x10_0000 * (u / 0x800 % 2)
                  + 0x20_0000 * (u / 2 % 0x400) + 0x8000_0000 * (u / 0x10_0000)
  {
    var u, f := offset % 0x20_0000, JType(offset, rd, op);
    JTypeFields(offset, rd, op, u, f);
    Weights(f);
    Cuts(u);
    JoinsEight(u / 0x1000);
    JoinsTen(u / 2);
    JTypeSum(f.b14, f.b19, f.b24, f.b30, u / 0x1000 % 0x100, u / 2 % 0x400);
  }

  /** The encoder assembles the manual's words. */
  lemma EncodesAs(i: Instr)
    requires Encodable(i)
    ensures Encode(i) == WordOf(i)
  {
    match i
    case LoadUpper(rd, upper) => UTypeWord(upper, rd, 0x37);
    case AddUpperPc(rd, upper) => UTypeWord(upper, rd, 0x17);
    case JumpLink(rd, offset) => JTypeWord(offset, rd, 0x6F);
    case JumpLinkReg(rd, rs1, imm) => ITypeWord(imm, rs1, 0, rd, 0x67);
    case BranchIf(test, rs1, rs2, offset) => BTypeWord(offset, rs2, rs1, TestCode(test), 0x63);
    case LoadFrom(width, rd, rs1, imm) => ITypeWord(imm, rs1, width, rd, 0x03);
    case StoreTo(width, rs1, rs2, imm) => STypeWord(imm, rs2, rs1, width, 0x23);
    case OpImm(op, rd, rs1, imm) => ITypeWord(imm, rs1, OpCode(op), rd, 0x13);
    case ShiftImm(op, rd, rs1, shamt) => RTypeWord(if op.Sra? then 32 else 0, shamt, rs1, OpCode(op), rd, 0x13);
    case OpReg(op, rd, rs1, rs2) => RTypeWord(if op.Sub? || op.Sra? then 32 else 0, rs2, rs1, OpCode(op), rd, 0x33);
    case Multiply(op, rd, rs1, rs2) => RTypeWord(1, rs2, rs1, MulCode(op), rd, 0x33);
    case Fence(hint) => FTypeWord(hint, 0x0F);
  }

  // ---------------------------------------------------------------------------------------------------
  // The decoder on any word
  // ---------------------------------------------------------------------------------------------------

  /** The fields of a word by their places. */
  lemma Slices(w: Word)
    ensures var f := Unpack(w);
            && f.op == w % 0x80 && f.b7 == w / 0x80 % 2 && f.b11 == w / 0x100 % 16 && f.b14 == w / 0x1000 % 8
            && f.b19 == w / 0x8000 % 32 && f.b20 == w / 0x10_0000 % 2 && f.b24 == w / 0x20_0000 % 16
            && f.b30 == w / 0x200_0000 % 64 && f.b31 == w / 0x8000_0000
  {
    assert w / 0x80 / 2 == w / 0x100 && w / 0x100 / 16 == w / 0x1000 && w / 0x1000 / 8 == w / 0x8000;
    assert w / 0x8000 / 32 == w / 0x10_0000 && w / 0x10_0000 / 2 == w / 0x20_0000;
    assert w / 0x20_0000 / 16 == w / 0x200_0000 && w / 0x200_0000 / 64 == w / 0x8000_0000;
  }

  lemma Pairs(x: nat)
    ensures x % 32 == x % 2 + 2 * (x / 2 % 16)
  {
    RemainderIs(x, x / 2 / 16, 32, x % 2 + 2 * (x / 2 % 16));
  }

  /** The register numbers and funct7 of a word. */
  lemma RegisterFields(w: Word)
    ensures var d := DecodeWord(w);
            && d.rd == w / 0x80 % 32 && d.rs1 == w / 0x8000 % 32 && d.rs2 == w / 0x10_0000 % 32
            && Funct7(Unpack(w)) == w / 0x200_0000
  {
    Slices(w);
    Pairs(w / 0x80);
    Pairs(w / 0x10_0000);
    assert w / 0x80 / 2 == w / 0x100 && w / 0x10_0000 / 2 == w / 0x20_0000 && w / 0x200_0000 / 64 == w / 0x8000_0000;
  }

  /** The operation of OP and OP-IMM, by funct3 and bit 30. */
  predicate Operation(op: AluOp, funct3: int, alternative: bool, register: bool) {
    match funct3
    case 0 => if alternative && register then op == Sub else op == Add
    case 1 => op == Sll
    case 2 => op == Slt
    case 3 => op == Sltu
    case 4 => op == Xor
    case 5 => if alternative then op == Sra else op == Srl
    case 6 => op == Or
    case _ => op == And
  }

  predicate Extension(op: MulDiv.MextOp, funct3: int) {
    match funct3
    case 0 => op == MulDiv.Mul
    case 1 => op == MulDiv.Mulh
    case 2 => op == MulDiv.Mulhsu
    case 3 => op == MulDiv.Mulhu
    case 4 => op == MulDiv.Div
    case 5 => op == MulDiv.Divu
    case 6 => op == MulDiv.Rem
    case _ => op == MulDiv.Remu
  }

  /** Quiet signals raise nothing. */
  lemma NothingRaised()
    ensures var c := QUIET;
            && c.aluOp.Add? && !c.srcPc && !c.srcImm && !c.mextEn && c.mextOp.Mul? && !c.regWrite && c.wbSel.WbAlu?
            && !c.memRead && !c.memWrite && c.memFunct3 == 0 && !c.branch && !c.jal && !c.jalr && c.branchFunct3 == 0
            && !c.csrEn && !c.ecall && !c.ebreak && !c.mret && !c.fence && !c.illegal
  {
  }

  /** The control signals of every word, by its opcode, funct3, funct7 and bit 20, as the decoder should raise them;
      every other opcode is illegal. */
  predicate RaisedBy(c: Ctrl, opcode: int, funct3: Funct3, funct7: int, rs2: int) {
    if opcode == 0x37 then c == QUIET.(aluOp := Lui, srcImm := true, regWrite := true)
    else if opcode == 0x17 then c == QUIET.(aluOp := Auipc, srcPc := true, srcImm := true, regWrite := true)
    else if opcode == 0x6F then c == QUIET.(jal := true, regWrite := true, wbSel := WbLink)
    else if opcode == 0x67 then c == QUIET.(jalr := true, srcImm := true, regWrite := true, wbSel := WbLink)
    else if opcode == 0x63 then c == QUIET.(branch := true, branchFunct3 := funct3)
    else if opcode == 0x03 then
      c == QUIET.(srcImm := true, memRead := true, memFunct3 := funct3, regWrite := true, wbSel := WbMem)
    else if opcode == 0x23 then c == QUIET.(srcImm := true, memWrite := true, memFunct3 := funct3)
    else if opcode == 0x13 then
      c == QUIET.(srcImm := true, regWrite := true, aluOp := c.aluOp)
      && Operation(c.aluOp, funct3, funct7 / 32 % 2 == 1, false)
    else if opcode == 0x33 && funct7 == 1 then
      c == QUIET.(regWrite := true, mextEn := true, mextOp := c.mextOp) && Extension(c.mextOp, funct3)
    else if opcode == 0x33 then
      c == QUIET.(regWrite := true, aluOp := c.aluOp) && Operation(c.aluOp, funct3, funct7 / 32 % 2 == 1, true)
    else if opcode == 0x0F then c == QUIET.(fence := true)
    else if opcode == 0x73 && funct3 == 0 then
      if funct7 == 0x18 && rs2 == 2 then c == QUIET.(mret := true)
      else if rs2 % 2 == 0 then c == QUIET.(ecall := true) else c == QUIET.(ebreak := true)
    else if opcode == 0x73 then
      c == QUIET.(csrEn := true, regWrite := true, wbSel := WbCsr, illegal := funct3 == 4)
    else c == QUIET.(illegal := true)
  }

  lemma RaisedByFields(f: Fields, opcode: int, funct3: Funct3, funct7: int, rs2: int)
    requires f.Valid() && opcode == f.op && funct3 == f.b14 && funct7 == Funct7(f) && rs2 == 2 * f.b24 + f.b20
    ensures RaisedBy(Control(f), opcode, funct3, funct7, rs2)
  {
    assert funct7 / 32 % 2 == f.b30 / 32;
  }

  lemma DecodesByOpcode(w: Word)
    ensures RaisedBy(DecodeWord(w).ctrl, w % 0x80, w / 0x1000 % 8, w / 0x200_0000, w / 0x10_0000 % 32)
  {
    Slices(w);
    RegisterFields(w);
    RaisedByFields(Unpack(w), w % 0x80, w / 0x1000 % 8, w / 0x200_0000, w / 0x10_0000 % 32);
  }

  /** The decoder delivers every instruction from the manual's word. */
  lemma DecodesWordOf(i: Instr)
    requires Encodable(i)
    ensures 0 <= WordOf(i) < 0x1_0000_0000 && Delivers(DecodeWord(WordOf(i)), i)
  {
    EncodesAs(i);
    DecodeRecovers(i);
  }

  // ---------------------------------------------------------------------------------------------------
  // Every word of the subset
  // ---------------------------------------------------------------------------------------------------

  /** The words of RV32I without system instructions, and of the multiplications, by their fields. */
  predicate InManual(f: Fields) {
    var funct7 := Funct7(f);
    if f.op == 0x63 then f.b14 != 2 && f.b14 != 3
    else if f.op == 0x67 then f.b14 == 0
    else if f.op == 0x03 then f.b14 <= 2 || f.b14 == 4 || f.b14 == 5
    else if f.op == 0x23 then f.b14 <= 2
    else if f.op == 0x13 then
      (f.b14 == 1 ==> funct7 == 0) && (f.b14 == 5 ==> funct7 == 0 || funct7 == 0x20)
    else if f.op == 0x33 then
      funct7 == 0 || (funct7 == 0x20 && (f.b14 == 0 || f.b14 == 5)) || (funct7 == 1 && f.b14 < 4)
    else f.op == 0x37 || f.op == 0x17 || f.op == 0x6F || f.op == 0x0F
  }

  /** A field of n values, the upper half of which is negative. */
  function WithSign(u: int, n: int): int {
    if 2 * u >= n then u - n else u
  }

  function TestOf(funct3: int): Test {
    match funct3
    case 0 => Eq
    case 1 => Ne
    case 4 => Lt
    case 5 => Ge
    case 6 => Ltu
    case _ => Geu
  }

  function MulOf(funct3: int): MulDiv.MextOp {
    match funct3
    case 0 => MulDiv.Mul
    case 1 => MulDiv.Mulh
    case 2 => MulDiv.Mulhsu
    case _ => MulDiv.Mulhu
  }

  function OpOf(funct3: int, alternative: bool): AluOp {
    match funct3
    case 0 => if alternative then Sub else Add
    case 1 => Sll
    case 2 => Slt
    case 3 => Sltu
    case 4 => Xor
    case 5 => if alternative then Sra else Srl
    case 6 => Or
    case _ => And
  }

  function RdOf(f: Fields): RegIdx
    requires f.Valid()
  {
    2 * f.b11 + f.b7
  }

  function Rs2Of(f: Fields): RegIdx
    requires f.Valid()
  {
    2 * f.b24 + f.b20
  }

  function ImmI(f: Fields): Imm12
    requires f.Valid()
  {
    WithSign(32 * Funct7(f) + Rs2Of(f), 0x1000)
  }

  function ImmS(f: Fields): Imm12
    requires f.Valid()
  {
    WithSign(32 * Funct7(f) + RdOf(f), 0x1000)
  }

  function OffsetB(f: Fields): int {
    WithSign(2 * (f.b11 + 16 * (f.b30 + 64 * (f.b7 + 2 * f.b31))), 0x2000)
  }

  function OffsetJ(f: Fields): int {
    WithSign(2 * (f.b24 + 16 * (f.b30 + 64 * (f.b20 + 2 * (f.b14 + 8 * (f.b19 + 32 * f.b31))))), 0x20_0000)
  }

  function UpperOf(f: Fields): Imm20
    requires f.Valid()
  {
    f.b14 + 8 * (f.b19 + 32 * (f.b20 + 2 * (f.b24 + 16 * (f.b30 + 64 * f.b31))))
  }

  function HintOf(f: Fields): Hint
    requires f.Valid()
  {
    f.b7 + 2 * (f.b11 + 16 * UpperOf(f))
  }

  /** The instruction of a word. */
  function Disassembled(f: Fields): Instr
    requires f.Valid()
  {
    if f.op == 0x37 then LoadUpper(RdOf(f), UpperOf(f))
    else if f.op == 0x17 then AddUpperPc(RdOf(f), UpperOf(f))
    else if f.op == 0x6F then JumpLink(RdOf(f), OffsetJ(f))
    else if f.op == 0x67 then JumpLinkReg(RdOf(f), f.b19, ImmI(f))
    else if f.op == 0x63 then BranchIf(TestOf(f.b14), f.b19, Rs2Of(f), OffsetB(f))
    else if f.op == 0x03 then LoadFrom(f.b14, RdOf(f), f.b19, ImmI(f))
    else if f.op == 0x23 then StoreTo(f.b14, f.b19, Rs2Of(f), ImmS(f))
    else if f.op == 0x13 && (f.b14 == 1 || f.b14 == 5) then
      ShiftImm(OpOf(f.b14, Funct7(f) == 0x20), RdOf(f), f.b19, Rs2Of(f))
    else if f.op == 0x13 then OpImm(OpOf(f.b14, false), RdOf(f), f.b19, ImmI(f))
    else if f.op == 0x33 && Funct7(f) == 1 then Multiply(MulOf(f.b14), RdOf(f), f.b19, Rs2Of(f))
    else if f.op == 0x33 then OpReg(OpOf(f.b14, Funct7(f) == 0x20), RdOf(f), f.b19, Rs2Of(f))
    else Fence(HintOf(f))
  }

  lemma SignKeeps(u: nat, n: int)
    requires 0 <= u < n && n > 0
    ensures WithSign(u, n) % n == u
  {
  }

  lemma FromRType(f: Fields)
    requires f.Valid()
    ensures RType(Funct7(f), Rs2Of(f), f.b19, f.b14, RdOf(f), f.op) == f
  {
  }

  lemma FromIType(f: Fields)
    requires f.Valid()
    ensures IType(ImmI(f), f.b19, f.b14, RdOf(f), f.op) == f
  {
    var u := 32 * Funct7(f) + Rs2Of(f);
    SignKeeps(u, 0x1000);
    assert u / 32 == Funct7(f) && u % 32 == Rs2Of(f);
    FromRType(f);
  }

  lemma FromSType(f: Fields)
    requires f.Valid()
    ensures SType(ImmS(f), Rs2Of(f), f.b19, f.b14, f.op) == f
  {
    var u := 32 * Funct7(f) + RdOf(f);
    SignKeeps(u, 0x1000);
    assert u / 32 == Funct7(f) && u % 32 == RdOf(f);
    FromRType(f);
  }

  lemma FromBType(f: Fields)
    requires f.Valid()
    ensures BType(OffsetB(f), Rs2Of(f), f.b19, f.b14, f.op) == f
    ensures -0x1000 <= OffsetB(f) < 0x1000 && OffsetB(f) % 2 == 0
  {
    var u11 := f.b7 + 2 * f.b31;
    var u5 := f.b30 + 64 * u11;
    var u1 := f.b11 + 16 * u5;
    SignKeeps(2 * u1, 0x2000);
    assert 2 * u1 / 2 == u1 && u1 / 16 == u5 && u1 % 16 == f.b11 && u5 / 64 == u11 && u5 % 64 == f.b30;
  }

  /** The half of a jump offset, cut where the format cuts it. */
  lemma JumpParts(f: Fields, u1: int)
    requires f.Valid() && u1 == f.b24 + 16 * (f.b30 + 64 * (f.b20 + 2 * (f.b14 + 8 * (f.b19 + 32 * f.b31))))
    ensures 0 <= u1 < 0x10_0000 && u1 % 16 == f.b24 && u1 / 16 % 64 == f.b30 && u1 / 16 / 64 % 2 == f.b20
    ensures u1 / 16 / 64 / 2 % 8 == f.b14 && u1 / 16 / 64 / 2 / 8 % 32 == f.b19 && u1 / 16 / 64 / 2 / 8 / 32 == f.b31
  {
    var u15 := f.b19 + 32 * f.b31;
    var u12 := f.b14 + 8 * u15;
    var u11 := f.b20 + 2 * u12;
    var u5 := f.b30 + 64 * u11;
    assert u1 / 16 == u5 && u5 / 64 == u11 && u11 / 2 == u12 && u12 / 8 == u15;
  }

  lemma FromJType(f: Fields)
    requires f.Valid()
    ensures JType(OffsetJ(f), RdOf(f), f.op) == f
    ensures -0x10_0000 <= OffsetJ(f) < 0x10_0000 && OffsetJ(f) % 2 == 0
  {
    var u1 := f.b24 + 16 * (f.b30 + 64 * (f.b20 + 2 * (f.b14 + 8 * (f.b19 + 32 * f.b31))));
    JumpParts(f, u1);
    SignKeeps(2 * u1, 0x20_0000);
    assert 2 * u1 / 2 == u1;
  }

  lemma UpperParts(f: Fields)
    requires f.Valid()
    ensures var u := UpperOf(f);
            && u % 8 == f.b14 && u / 8 % 32 == f.b19 && u / 8 / 32 % 2 == f.b20 && u / 8 / 32 / 2 % 16 == f.b24
            && u / 8 / 32 / 2 / 16 % 64 == f.b30 && u / 8 / 32 / 2 / 16 / 64 == f.b31
  {
    var u25 := f.b30 + 64 * f.b31;
    var u21 := f.b24 + 16 * u25;
    var u20 := f.b20 + 2 * u21;
    var u15 := f.b19 + 32 * u20;
    assert UpperOf(f) / 8 == u15 && u15 / 32 == u20 && u20 / 2 == u21 && u21 / 16 == u25;
  }

  lemma FromUType(f: Fields)
    requires f.Valid()
    ensures UType(UpperOf(f), RdOf(f), f.op) == f
  {
    UpperParts(f);
  }

  lemma FromFType(f: Fields)
    requires f.Valid()
    ensures FType(HintOf(f), f.op) == f
  {
    UpperParts(f);
    assert HintOf(f) / 2 == f.b11 + 16 * UpperOf(f) && HintOf(f) / 2 / 16 == UpperOf(f);
  }

  /** Formatting the instruction again gives the word back. */
  lemma FormatOfDisassembled(f: Fields)
    requires f.Valid() && InManual(f)
    ensures Encodable(Disassembled(f)) && Format(Disassembled(f)) == f
  {
    FromRType(f);
    if f.op == 0x37 || f.op == 0x17 { FromUType(f); }
    else if f.op == 0x6F { FromJType(f); }
    else if f.op == 0x63 { FromBType(f); }
    else if f.op == 0x23 { FromSType(f); }
    else if f.op == 0x67 || f.op == 0x03 || f.op == 0x13 { FromIType(f); }
    else if f.op == 0x0F { FromFType(f); }
  }

  lemma PackOfUnpack(w: Word)
    ensures Pack(Unpack(w)) == w
  {
    Slices(w);
    Weights(Unpack(w));
  }

  lemma FormatInManual(i: Instr)
    requires Encodable(i)
    ensures Format(i).Valid() && InManual(Format(i))
  {
    FormatValid(i);
  }

  /** The theorems about encoded programs are about exactly these words. */
  lemma EveryWord(w: Word)
    ensures InManual(Unpack(w)) <==> exists i: Instr :: Encodable(i) && WordOf(i) == w
  {
    if InManual(Unpack(w)) {
      var i := Disassembled(Unpack(w));
      FormatOfDisassembled(Unpack(w));
      PackOfUnpack(w);
      EncodesAs(i);
      assert Encodable(i) && WordOf(i) == w;
    }
    forall i: Instr | Encodable(i) && WordOf(i) == w ensures InManual(Unpack(w)) {
      EncodesAs(i);
      FormatInManual(i);
    }
  }
}
