/** RV32I with the multiplications, one instruction at a time, and its instruction formats. */
module Isa {
  import opened Words
  import opened Registers
  import opened Pipeline
  import opened Decode
  import AluBits
  import ByteMemory
  import MulDiv

  type Imm12 = i: int | -0x800 <= i < 0x800
  type Imm20 = i: int | 0 <= i < 0x10_0000
  type Hint = h: int | 0 <= h < 0x200_0000

  datatype Test = Eq | Ne | Lt | Ge | Ltu | Geu

  datatype Instr =
    | LoadUpper(rd: RegIdx, upper: Imm20)
    | AddUpperPc(rd: RegIdx, upper: Imm20)
    | JumpLink(rd: RegIdx, offset: int)
    | JumpLinkReg(rd: RegIdx, rs1: RegIdx, imm: Imm12)
    | BranchIf(test: Test, rs1: RegIdx, rs2: RegIdx, offset: int)
    | LoadFrom(width: Funct3, rd: RegIdx, rs1: RegIdx, imm: Imm12)
    | StoreTo(width: Funct3, rs1: RegIdx, rs2: RegIdx, imm: Imm12)
    | OpImm(op: AluOp, rd: RegIdx, rs1: RegIdx, imm: Imm12)
    | ShiftImm(op: AluOp, rd: RegIdx, rs1: RegIdx, shamt: RegIdx)
    | OpReg(op: AluOp, rd: RegIdx, rs1: RegIdx, rs2: RegIdx)
    | Multiply(mop: MulDiv.MextOp, rd: RegIdx, rs1: RegIdx, rs2: RegIdx)
    | Fence(hint: Hint)

  /** Operands the formats can express. */
  predicate Encodable(i: Instr) {
    match i
    case JumpLink(_, offset) => -0x10_0000 <= offset < 0x10_0000 && offset % 2 == 0
    case BranchIf(_, _, _, offset) => -0x1000 <= offset < 0x1000 && offset % 2 == 0
    case LoadFrom(width, _, _, _) => width <= 2 || width == 4 || width == 5
    case StoreTo(width, _, _, _) => width <= 2
    case OpImm(op, _, _, _) => op.Add? || op.Slt? || op.Sltu? || op.Xor? || op.Or? || op.And?
    case ShiftImm(op, _, _, _) => op.Sll? || op.Srl? || op.Sra?
    case OpReg(op, _, _, _) => !op.Lui? && !op.Auipc?
    case Multiply(op, _, _, _) => MulDiv.IsMul(op)
    case _ => true
  }

  // ---------------------------------------------------------------------------------------------------
  // Meaning
  // ---------------------------------------------------------------------------------------------------

  predicate Holds(test: Test, x: Word, y: Word) {
    match test
    case Eq => x == y
    case Ne => x != y
    case Lt => Signed(x) < Signed(y)
    case Ge => Signed(x) >= Signed(y)
    case Ltu => x < y
    case Geu => x >= y
  }

  function Set(regs: Regs, rd: RegIdx, value: Word): Regs {
    if rd == 0 then regs else regs[rd := value]
  }

  /** A logical operation on n binary digits, from the lowest on. */
  function Digitwise(f: (bool, bool) -> bool, x: nat, y: nat, n: nat): (r: nat)
    ensures r < Pow2(n)
  {
    if n == 0 then 0 else Bit(f(x % 2 == 1, y % 2 == 1)) + 2 * Digitwise(f, x / 2, y / 2, n - 1)
  }

  function Logical(f: (bool, bool) -> bool, x: Word, y: Word): Word {
    Pow2Values();
    Digitwise(f, x, y, 32)
  }

  /** The computational operations; shifts use the low five bits of the second operand. */
  function Compute(op: AluOp, x: Word, y: Word): Word {
    match op
    case Add => Wrap(x + y)
    case Sub => Wrap(x - y)
    case Slt => Bit(Signed(x) < Signed(y))
    case Sltu => Bit(x < y)
    case And => Logical((p, q) => p && q, x, y)
    case Or => Logical((p, q) => p || q, x, y)
    case Xor => Logical((p, q) => p != q, x, y)
    case Sll => Wrap(AluBits.Shl(x, y % 32))
    case Srl => Wrap(AluBits.Shr(x, y % 32))
    case Sra => Wrap(AluBits.Shr(Signed(x), y % 32))
    case Lui => y
    case Auipc => Wrap(x + y)
  }

  /** The architectural state: program counter, registers and a byte-addressed data memory. */
  datatype Machine = Machine(pc: Word, regs: Regs, bytes: ByteMemory.ByteMap)
  {
    /** The part of it that is in the core. */
    function Core(): Arch {
      Arch(pc, regs)
    }
  }

  /** The access of a load or store. */
  function Access(i: Instr, m: Machine): ByteMemory.Op
    requires i.LoadFrom? || i.StoreTo?
  {
    var addr := Wrap(Rd(m.regs, i.rs1) + i.imm);
    if i.LoadFrom? then ByteMemory.Load(i.width, addr) else ByteMemory.Store(i.width, addr, Rd(m.regs, i.rs2))
  }

  /** The access, if there is one, is aligned; otherwise the instruction traps. */
  predicate Accesses(i: Instr, m: Machine) {
    i.LoadFrom? || i.StoreTo? ==> ByteMemory.Aligned(Access(i, m))
  }

  /** One instruction. */
  function Perform(i: Instr, m: Machine): Machine
    requires Accesses(i, m)
  {
    var next := Wrap(m.pc + 4);
    match i
    case LoadUpper(rd, upper) => m.(pc := next, regs := Set(m.regs, rd, upper * 0x1000))
    case AddUpperPc(rd, upper) => m.(pc := next, regs := Set(m.regs, rd, Wrap(m.pc + upper * 0x1000)))
    case JumpLink(rd, offset) => m.(pc := Wrap(m.pc + offset), regs := Set(m.regs, rd, next))
    case JumpLinkReg(rd, rs1, imm) =>
      var target := Wrap(Rd(m.regs, rs1) + imm);
      m.(pc := target - target % 2, regs := Set(m.regs, rd, next))
    case BranchIf(test, rs1, rs2, offset) =>
      m.(pc := if Holds(test, Rd(m.regs, rs1), Rd(m.regs, rs2)) then Wrap(m.pc + offset) else next)
    case LoadFrom(_, rd, _, _) =>
      m.(pc := next, regs := Set(m.regs, rd, ByteMemory.Expected(m.bytes, Access(i, m)).1))
    case StoreTo(_, _, _, _) => m.(pc := next, bytes := ByteMemory.Expected(m.bytes, Access(i, m)).0)
    case OpImm(op, rd, rs1, imm) => m.(pc := next, regs := Set(m.regs, rd, Compute(op, Rd(m.regs, rs1), Wrap(imm))))
    case ShiftImm(op, rd, rs1, shamt) => m.(pc := next, regs := Set(m.regs, rd, Compute(op, Rd(m.regs, rs1), shamt)))
    case OpReg(op, rd, rs1, rs2) =>
      m.(pc := next, regs := Set(m.regs, rd, Compute(op, Rd(m.regs, rs1), Rd(m.regs, rs2))))
    case Multiply(op, rd, rs1, rs2) =>
      if !MulDiv.IsMul(op) then m.(pc := next)
      else m.(pc := next, regs := Set(m.regs, rd, MulDiv.MulSpec(op, Rd(m.regs, rs1), Rd(m.regs, rs2))))
    case Fence(_) => m.(pc := next)
  }

  function TestCode(test: Test): Funct3 {
    match test
    case Eq => 0
    case Ne => 1
    case Lt => 4
    case Ge => 5
    case Ltu => 6
    case Geu => 7
  }

  /** Functional units that compute what the architecture says. */
  ghost predicate Standard(u: Datapath) {
    && (forall op, x, y :: u.alu(op, x, y) == Compute(op, x, y))
    && (forall test, x, y :: u.cond(TestCode(test), x, y) == Holds(test, x, y))
    && (forall op, x, y | MulDiv.IsMul(op) :: u.mul(op, x, y) == MulDiv.MulSpec(op, x, y))
    && (forall f, addr, w | ByteMemory.Aligned(ByteMemory.Load(f, addr)) ::
          u.extend(f, addr, w) == ByteMemory.Extended(f, ByteMemory.Lanes(w, ByteMemory.Load(f, addr))))
  }

  // ---------------------------------------------------------------------------------------------------
  // Formats
  // ---------------------------------------------------------------------------------------------------

  function OpCode(op: AluOp): Funct3 {
    match op
    case Add => 0
    case Sub => 0
    case Sll => 1
    case Slt => 2
    case Sltu => 3
    case Xor => 4
    case Srl => 5
    case Sra => 5
    case Or => 6
    case _ => 7
  }

  function MulCode(op: MulDiv.MextOp): Funct3 {
    match op
    case Mul => 0
    case Mulh => 1
    case Mulhsu => 2
    case _ => 3
  }

  /** R-type: funct7, rs2, rs1, funct3, rd. */
  function RType(funct7: int, rs2: RegIdx, rs1: RegIdx, funct3: Funct3, rd: RegIdx, op: int): Fields {
    Fields(funct7 / 64, funct7 % 64, rs2 / 2, rs2 % 2, rs1, funct3, rd / 2, rd % 2, op)
  }

  /** I-type: a 12-bit immediate in place of funct7 and rs2. */
  function IType(imm: Imm12, rs1: RegIdx, funct3: Funct3, rd: RegIdx, op: int): Fields {
    var u := imm % 0x1000;
    RType(u / 32, u % 32, rs1, funct3, rd, op)
  }

  /** S-type: the immediate split around the registers. */
  function SType(imm: Imm12, rs2: RegIdx, rs1: RegIdx, funct3: Funct3, op: int): Fields {
    var u := imm % 0x1000;
    RType(u / 32, rs2, rs1, funct3, u % 32, op)
  }

  /** B-type: bits 12, 10 to 5, 4 to 1 and 11 of the offset. */
  function BType(offset: int, rs2: RegIdx, rs1: RegIdx, funct3: Funct3, op: int): Fields {
    var u1 := offset % 0x2000 / 2;
    var u5 := u1 / 16;
    var u11 := u5 / 64;
    Fields(u11 / 2, u5 % 64, rs2 / 2, rs2 % 2, rs1, funct3, u1 % 16, u11 % 2, op)
  }

  /** U-type: bits 31 to 12 of the immediate. */
  function UType(upper: Imm20, rd: RegIdx, op: int): Fields {
    var u15 := upper / 8;
    var u20 := u15 / 32;
    var u21 := u20 / 2;
    var u25 := u21 / 16;
    Fields(u25 / 64, u25 % 64, u21 % 16, u20 % 2, u15 % 32, upper % 8, rd / 2, rd % 2, op)
  }

  /** J-type: bits 20, 10 to 1, 11 and 19 to 12 of the offset. */
  function JType(offset: int, rd: RegIdx, op: int): Fields {
    var u1 := offset % 0x20_0000 / 2;
    var u5 := u1 / 16;
    var u11 := u5 / 64;
    var u12 := u11 / 2;
    var u15 := u12 / 8;
    Fields(u15 / 32, u5 % 64, u1 % 16, u11 % 2, u15 % 32, u12 % 8, rd / 2, rd % 2, op)
  }

  /** The bits of a FENCE behind its opcode, which the core ignores. */
  function FType(hint: Hint, op: int): Fields {
    var u8 := hint / 2;
    var u12 := u8 / 16;
    var u15 := u12 / 8;
    var u20 := u15 / 32;
    var u21 := u20 / 2;
    var u25 := u21 / 16;
    Fields(u25 / 64, u25 % 64, u21 % 16, u20 % 2, u15 % 32, u12 % 8, u8 % 16, hint % 2, op)
  }

  function Format(i: Instr): Fields {
    match i
    case LoadUpper(rd, upper) => UType(upper, rd, OP_LUI)
    case AddUpperPc(rd, upper) => UType(upper, rd, OP_AUIPC)
    case JumpLink(rd, offset) => JType(offset, rd, OP_JAL)
    case JumpLinkReg(rd, rs1, imm) => IType(imm, rs1, 0, rd, OP_JALR)
    case BranchIf(test, rs1, rs2, offset) => BType(offset, rs2, rs1, TestCode(test), OP_BRANCH)
    case LoadFrom(width, rd, rs1, imm) => IType(imm, rs1, width, rd, OP_LOAD)
    case StoreTo(width, rs1, rs2, imm) => SType(imm, rs2, rs1, width, OP_STORE)
    case OpImm(op, rd, rs1, imm) => IType(imm, rs1, OpCode(op), rd, OP_OP_IMM)
    case ShiftImm(op, rd, rs1, shamt) => RType(if op.Sra? then 32 else 0, shamt, rs1, OpCode(op), rd, OP_OP_IMM)
    case OpReg(op, rd, rs1, rs2) => RType(if op.Sub? || op.Sra? then 32 else 0, rs2, rs1, OpCode(op), rd, OP_OP)
    case Multiply(op, rd, rs1, rs2) => RType(1, rs2, rs1, MulCode(op), rd, OP_OP)
    case Fence(hint) => FType(hint, OP_FENCE)
  }

  lemma FormatValid(i: Instr)
    requires Encodable(i)
    ensures Format(i).Valid()
  {
  }

  /** The instruction word. */
  function Encode(i: Instr): Word
    requires Encodable(i)
  {
    FormatValid(i);
    Pack(Format(i))
  }

  lemma PackedRType(funct7: int, rs2: RegIdx, rs1: RegIdx, funct3: Funct3, rd: RegIdx, op: int, w: int)
    requires 0 <= funct7 < 128 && 0 <= op < 128
    requires w == op + 0x80 * rd + 0x1000 * funct3 + 0x8000 * rs1 + 0x10_0000 * rs2 + 0x200_0000 * funct7
    ensures RType(funct7, rs2, rs1, funct3, rd, op).Valid() && Pack(RType(funct7, rs2, rs1, funct3, rd, op)) == w
  {
  }

  lemma SmallRemainder(x: int, d: int)
    requires 0 <= x < d
    ensures x % d == x
  {
  }

  lemma UpperBits(x: int)
    requires 0 <= x < 0x800
    ensures 0 <= x / 32 < 64 && x == 32 * (x / 32) + x % 32
  {
  }

  lemma SmallIType(imm: Imm12, rs1: RegIdx, funct3: Funct3, rd: RegIdx, op: int)
    requires imm >= 0
    ensures 0 <= imm / 32 < 64 && imm == 32 * (imm / 32) + imm % 32
    ensures IType(imm, rs1, funct3, rd, op) == RType(imm / 32, imm % 32, rs1, funct3, rd, op)
  {
    SmallRemainder(imm, 0x1000);
    UpperBits(imm);
  }

  /** The word of an I-type instruction with a non-negative immediate. */
  lemma PackedIType(imm: Imm12, rs1: RegIdx, funct3: Funct3, rd: RegIdx, op: int, w: int)
    requires 0 <= imm && 0 <= op < 128
    requires w == op + 0x80 * rd + 0x1000 * funct3 + 0x8000 * rs1 + 0x10_0000 * imm
    ensures IType(imm, rs1, funct3, rd, op).Valid() && Pack(IType(imm, rs1, funct3, rd, op)) == w
  {
    SmallIType(imm, rs1, funct3, rd, op);
    PackedRType(imm / 32, imm % 32, rs1, funct3, rd, op, w);
  }

  lemma EncodesOpImm(i: Instr, w: int)
    requires Encodable(i) && i.OpImm? && i.imm >= 0
    requires w == OP_OP_IMM + 0x80 * i.rd + 0x1000 * OpCode(i.op) + 0x8000 * i.rs1 + 0x10_0000 * i.imm
    ensures Encode(i) == w
  {
    PackedIType(i.imm, i.rs1, OpCode(i.op), i.rd, OP_OP_IMM, w);
  }

  lemma EncodesLoad(i: Instr, w: int)
    requires Encodable(i) && i.LoadFrom? && i.imm >= 0
    requires w == OP_LOAD + 0x80 * i.rd + 0x1000 * i.width + 0x8000 * i.rs1 + 0x10_0000 * i.imm
    ensures Encode(i) == w
  {
    PackedIType(i.imm, i.rs1, i.width, i.rd, OP_LOAD, w);
  }

  lemma EncodesJumpReg(i: Instr, w: int)
    requires i.JumpLinkReg? && i.imm >= 0
    requires w == OP_JALR + 0x80 * i.rd + 0x8000 * i.rs1 + 0x10_0000 * i.imm
    ensures Encode(i) == w
  {
    PackedIType(i.imm, i.rs1, 0, i.rd, OP_JALR, w);
  }

  // ---------------------------------------------------------------------------------------------------
  // The decoder recovers the operands
  // ---------------------------------------------------------------------------------------------------

  lemma ImmediateI(imm: Imm12, rs1: RegIdx, funct3: Funct3, rd: RegIdx, op: int)
    requires op == OP_JALR || op == OP_LOAD || op == OP_OP_IMM
    ensures IType(imm, rs1, funct3, rd, op).Valid() && Immediate(IType(imm, rs1, funct3, rd, op)) == Wrap(imm)
  {
  }

  lemma ImmediateS(imm: Imm12, rs2: RegIdx, rs1: RegIdx, funct3: Funct3)
    ensures var f := SType(imm, rs2, rs1, funct3, OP_STORE); f.Valid() && Immediate(f) == Wrap(imm)
  {
  }

  lemma ImmediateB(offset: int, rs2: RegIdx, rs1: RegIdx, funct3: Funct3)
    requires -0x1000 <= offset < 0x1000 && offset % 2 == 0
    ensures var f := BType(offset, rs2, rs1, funct3, OP_BRANCH); f.Valid() && Immediate(f) == Wrap(offset)
  {
  }

  lemma ImmediateU(upper: Imm20, rd: RegIdx, op: int)
    requires op == OP_LUI || op == OP_AUIPC
    ensures var f := UType(upper, rd, op); f.Valid() && Immediate(f) == upper * 0x1000
  {
  }

  lemma ImmediateJ(offset: int, rd: RegIdx)
    requires -0x10_0000 <= offset < 0x10_0000 && offset % 2 == 0
    ensures var f := JType(offset, rd, OP_JAL); f.Valid() && Immediate(f) == Wrap(offset)
  {
  }

  lemma RegistersR(funct7: int, rs2: RegIdx, rs1: RegIdx, funct3: Funct3, rd: RegIdx, op: int)
    requires 0 <= funct7 < 128 && 0 <= op < 128
    ensures var f := RType(funct7, rs2, rs1, funct3, rd, op);
            && f.Valid() && Funct7(f) == funct7 && (f.b30 / 32 == 1 <==> funct7 / 32 % 2 == 1)
            && DecodeFields(f).rs1 == rs1 && DecodeFields(f).rs2 == rs2 && DecodeFields(f).rd == rd
  {
  }

  /** The control signals an instruction should raise. */
  function Signals(i: Instr): Ctrl {
    match i
    case LoadUpper(_, _) => QUIET.(aluOp := Lui, srcImm := true, regWrite := true)
    case AddUpperPc(_, _) => QUIET.(aluOp := Auipc, srcPc := true, srcImm := true, regWrite := true)
    case JumpLink(_, _) => QUIET.(jal := true, regWrite := true, wbSel := WbLink)
    case JumpLinkReg(_, _, _) => QUIET.(jalr := true, srcImm := true, regWrite := true, wbSel := WbLink)
    case BranchIf(test, _, _, _) => QUIET.(branch := true, branchFunct3 := TestCode(test))
    case LoadFrom(width, _, _, _) =>
      QUIET.(srcImm := true, memRead := true, memFunct3 := width, regWrite := true, wbSel := WbMem)
    case StoreTo(width, _, _, _) => QUIET.(srcImm := true, memWrite := true, memFunct3 := width)
    case OpImm(op, _, _, _) => QUIET.(srcImm := true, regWrite := true, aluOp := op)
    case ShiftImm(op, _, _, _) => QUIET.(srcImm := true, regWrite := true, aluOp := op)
    case OpReg(op, _, _, _) => QUIET.(regWrite := true, aluOp := op)
    case Multiply(op, _, _, _) => QUIET.(regWrite := true, mextEn := true, mextOp := op)
    case Fence(_) => QUIET.(fence := true)
  }

  /** Which instructions read rs1, and which rs2. */
  lemma RegistersRead(i: Instr)
    requires Encodable(i)
    ensures UsesA(Signals(i)) <==> !(i.LoadUpper? || i.AddUpperPc? || i.JumpLink? || i.Fence?)
    ensures UsesB(Signals(i)) <==> i.BranchIf? || i.StoreTo? || i.OpReg? || i.Multiply?
  {
  }

  /** What the decoder must deliver for an instruction; operands that are not used may be anything. */
  ghost predicate Delivers(d: Decoded, i: Instr) {
    && d.ctrl == Signals(i)
    && match i
       case LoadUpper(rd, upper) => d.rd == rd && d.imm == upper * 0x1000
       case AddUpperPc(rd, upper) => d.rd == rd && d.imm == upper * 0x1000
       case JumpLink(rd, offset) => d.rd == rd && d.imm == Wrap(offset)
       case JumpLinkReg(rd, rs1, imm) => d.rd == rd && d.rs1 == rs1 && d.imm == Wrap(imm)
       case BranchIf(_, rs1, rs2, offset) => d.rs1 == rs1 && d.rs2 == rs2 && d.imm == Wrap(offset)
       case LoadFrom(_, rd, rs1, imm) => d.rd == rd && d.rs1 == rs1 && d.imm == Wrap(imm)
       case StoreTo(_, rs1, rs2, imm) => d.rs1 == rs1 && d.rs2 == rs2 && d.imm == Wrap(imm)
       case OpImm(_, rd, rs1, imm) => d.rd == rd && d.rs1 == rs1 && d.imm == Wrap(imm)
       case ShiftImm(_, rd, rs1, shamt) => d.rd == rd && d.rs1 == rs1 && d.imm % 32 == shamt
       case OpReg(_, rd, rs1, rs2) => d.rd == rd && d.rs1 == rs1 && d.rs2 == rs2
       case Multiply(_, rd, rs1, rs2) => d.rd == rd && d.rs1 == rs1 && d.rs2 == rs2
       case Fence(_) => true
  }

  lemma DeliversUpper(i: Instr)
    requires Encodable(i) && (i.LoadUpper? || i.AddUpperPc? || i.JumpLink?)
    ensures Format(i).Valid() && Delivers(DecodeFields(Format(i)), i)
  {
    match i
    case LoadUpper(rd, upper) => ImmediateU(upper, rd, OP_LUI);
    case AddUpperPc(rd, upper) => ImmediateU(upper, rd, OP_AUIPC);
    case JumpLink(rd, offset) => ImmediateJ(offset, rd);
    case _ =>
  }

  lemma DeliversImmediate(i: Instr)
    requires Encodable(i) && (i.JumpLinkReg? || i.LoadFrom? || i.OpImm?)
    ensures Format(i).Valid() && Delivers(DecodeFields(Format(i)), i)
  {
    match i
    case JumpLinkReg(rd, rs1, imm) => ImmediateI(imm, rs1, 0, rd, OP_JALR);
    case LoadFrom(width, rd, rs1, imm) => ImmediateI(imm, rs1, width, rd, OP_LOAD);
    case OpImm(op, rd, rs1, imm) => ImmediateI(imm, rs1, OpCode(op), rd, OP_OP_IMM);
    case _ =>
  }

  lemma DeliversSplit(i: Instr)
    requires Encodable(i) && (i.BranchIf? || i.StoreTo?)
    ensures Format(i).Valid() && Delivers(DecodeFields(Format(i)), i)
  {
    match i
    case BranchIf(test, rs1, rs2, offset) => ImmediateB(offset, rs2, rs1, TestCode(test));
    case StoreTo(width, rs1, rs2, imm) => ImmediateS(imm, rs2, rs1, width);
    case _ =>
  }

  lemma DeliversShift(i: Instr)
    requires Encodable(i) && i.ShiftImm?
    ensures Format(i).Valid() && Delivers(DecodeFields(Format(i)), i)
  {
    RegistersR(if i.op.Sra? then 32 else 0, i.shamt, i.rs1, OpCode(i.op), i.rd, OP_OP_IMM);
  }

  lemma DeliversOp(i: Instr)
    requires Encodable(i) && i.OpReg?
    ensures Format(i).Valid() && Delivers(DecodeFields(Format(i)), i)
  {
    RegistersR(if i.op.Sub? || i.op.Sra? then 32 else 0, i.rs2, i.rs1, OpCode(i.op), i.rd, OP_OP);
  }

  lemma DeliversMultiply(i: Instr)
    requires Encodable(i) && i.Multiply?
    ensures Format(i).Valid() && Delivers(DecodeFields(Format(i)), i)
  {
    RegistersR(1, i.rs2, i.rs1, MulCode(i.mop), i.rd, OP_OP);
  }

  lemma FenceSignals(f: Fields)
    requires f.Valid() && f.op == OP_FENCE
    ensures Control(f) == QUIET.(fence := true)
  {
  }

  lemma DeliversFence(i: Instr, d: Decoded)
    requires i.Fence? && d.ctrl == QUIET.(fence := true)
    ensures Delivers(d, i)
  {
  }

  lemma FieldsDeliver(i: Instr)
    requires Encodable(i)
    ensures Format(i).Valid() && Delivers(DecodeFields(Format(i)), i)
  {
    if i.LoadUpper? || i.AddUpperPc? || i.JumpLink? { DeliversUpper(i); }
    else if i.JumpLinkReg? || i.LoadFrom? || i.OpImm? { DeliversImmediate(i); }
    else if i.BranchIf? || i.StoreTo? { DeliversSplit(i); }
    else if i.ShiftImm? { DeliversShift(i); }
    else if i.OpReg? { DeliversOp(i); }
    else if i.Multiply? { DeliversMultiply(i); }
    else { FenceSignals(Format(i)); DeliversFence(i, DecodeFields(Format(i))); }
  }

  lemma DecodesFormat(i: Instr)
    requires Encodable(i)
    ensures Format(i).Valid() && DecodeWord(Encode(i)) == DecodeFields(Format(i))
  {
  }

  lemma SignalsInSubset(i: Instr)
    requires Encodable(i)
    ensures InSubset(Signals(i))
  {
  }

  /** Decoding an encoded instruction recovers its operands and raises exactly its control signals. */
  lemma DecodeRecovers(i: Instr)
    requires Encodable(i)
    ensures Delivers(DecodeWord(Encode(i)), i) && InSubset(DecodeWord(Encode(i)).ctrl)
  {
    DecodesFormat(i);
    FieldsDeliver(i);
    SignalsInSubset(i);
  }

  // ---------------------------------------------------------------------------------------------------
  // One instruction on the core's datapath
  // ---------------------------------------------------------------------------------------------------

  /** Adding an offset modulo 2^32, in either reading. */
  lemma PlusWrap(a: Word, x: int)
    ensures Plus(a, Wrap(x)) == Wrap(a + x)
  {
  }

  /** The memory word at the address of a load. */
  function Found(i: Instr, m: Machine): Word {
    if i.LoadFrom? then ByteMemory.WordAt(m.bytes, Access(i, m).addr) else 0
  }

  /** On the datapath the instruction does to the core what the architecture says, if a load finds its word. */
  predicate Agrees(u: Datapath, i: Instr, m: Machine)
    requires Accesses(i, m)
  {
    Execute(u, m.Core(), Found(i, m)) == Perform(i, m).Core()
  }

  lemma PerformsSimple(u: Datapath, i: Instr, m: Machine)
    requires Standard(u) && Delivers(Fetched(u, m.Core()), i)
    requires i.LoadUpper? || i.OpImm? || i.Fence?
    ensures Agrees(u, i, m)
  {
  }

  lemma PerformsAddPc(u: Datapath, i: Instr, m: Machine)
    requires Standard(u) && Delivers(Fetched(u, m.Core()), i) && i.AddUpperPc?
    ensures Agrees(u, i, m)
  {
    PlusWrap(m.pc, i.upper * 0x1000);
  }

  lemma PerformsJump(u: Datapath, i: Instr, m: Machine)
    requires Standard(u) && Delivers(Fetched(u, m.Core()), i) && i.JumpLink?
    ensures Agrees(u, i, m)
  {
    PlusWrap(m.pc, i.offset);
  }

  lemma PerformsJumpReg(u: Datapath, i: Instr, m: Machine)
    requires Standard(u) && Delivers(Fetched(u, m.Core()), i) && i.JumpLinkReg?
    ensures Agrees(u, i, m)
  {
    PlusWrap(Rd(m.regs, i.rs1), i.imm);
  }

  lemma PerformsBranch(u: Datapath, i: Instr, m: Machine)
    requires Standard(u) && Delivers(Fetched(u, m.Core()), i) && i.BranchIf?
    ensures Agrees(u, i, m)
  {
    PlusWrap(m.pc, i.offset);
  }

  lemma AccessAddress(u: Datapath, i: Instr, m: Machine)
    requires Standard(u) && Delivers(Fetched(u, m.Core()), i) && (i.LoadFrom? || i.StoreTo?)
    ensures Result(u, m.Core()) == Access(i, m).addr
    ensures i.StoreTo? ==> Y(u, m.Core()) == Access(i, m).value
  {
    PlusWrap(Rd(m.regs, i.rs1), i.imm);
  }

  lemma PerformsLoad(u: Datapath, i: Instr, m: Machine)
    requires Standard(u) && Delivers(Fetched(u, m.Core()), i) && i.LoadFrom? && Accesses(i, m)
    ensures Agrees(u, i, m)
  {
    var op := Access(i, m);
    AccessAddress(u, i, m);
    ByteMemory.LanesOfWord(m.bytes, op, op.addr % ByteMemory.SIZE, ByteMemory.Width(op.f));
  }

  lemma PerformsStore(u: Datapath, i: Instr, m: Machine)
    requires Standard(u) && Delivers(Fetched(u, m.Core()), i) && i.StoreTo? && Accesses(i, m)
    ensures Agrees(u, i, m)
  {
  }

  lemma PerformsShift(u: Datapath, i: Instr, m: Machine)
    requires Standard(u) && Encodable(i) && Delivers(Fetched(u, m.Core()), i) && i.ShiftImm?
    ensures Agrees(u, i, m)
  {
  }

  lemma PerformsRegister(u: Datapath, i: Instr, m: Machine)
    requires Standard(u) && Encodable(i) && Delivers(Fetched(u, m.Core()), i) && i.OpReg?
    ensures Agrees(u, i, m)
  {
  }

  lemma PerformsMultiply(u: Datapath, i: Instr, m: Machine)
    requires Standard(u) && Encodable(i) && Delivers(Fetched(u, m.Core()), i) && i.Multiply?
    ensures Agrees(u, i, m)
  {
  }

  lemma ExecutePerforms(u: Datapath, i: Instr, m: Machine)
    requires Standard(u) && Encodable(i) && Delivers(Fetched(u, m.Core()), i) && Accesses(i, m)
    ensures Agrees(u, i, m)
  {
    match i
    case AddUpperPc(_, _) => PerformsAddPc(u, i, m);
    case JumpLink(_, _) => PerformsJump(u, i, m);
    case JumpLinkReg(_, _, _) => PerformsJumpReg(u, i, m);
    case BranchIf(_, _, _, _) => PerformsBranch(u, i, m);
    case LoadFrom(_, _, _, _) => PerformsLoad(u, i, m);
    case StoreTo(_, _, _, _) => PerformsStore(u, i, m);
    case ShiftImm(_, _, _, _) => PerformsShift(u, i, m);
    case OpReg(_, _, _, _) => PerformsRegister(u, i, m);
    case Multiply(_, _, _, _) => PerformsMultiply(u, i, m);
    case _ => PerformsSimple(u, i, m);
  }

  // ---------------------------------------------------------------------------------------------------
  // The core's functional units
  // ---------------------------------------------------------------------------------------------------

  lemma {:induction false} NumberDigits(f: (bool, bool) -> bool, x: nat, y: nat, bits: seq<bool>)
    requires forall i | 0 <= i < |bits| :: bits[i] == f(Bits(x, |bits|)[i], Bits(y, |bits|)[i])
    ensures Number(bits) == Digitwise(f, x, y, |bits|)
  {
    if bits != [] {
      var n := |bits|;
      assert forall i | 0 < i < n :: Bits(x, n)[i] == Bits(x / 2, n - 1)[i - 1];
      assert forall i | 0 < i < n :: Bits(y, n)[i] == Bits(y / 2, n - 1)[i - 1];
      NumberDigits(f, x / 2, y / 2, bits[1..]);
    }
  }

  lemma BitwiseIsLogical(f: (bool, bool) -> bool, x: Word, y: Word)
    ensures Bitwise(f, x, y) == Logical(f, x, y)
  {
    var bits := seq(32, i requires 0 <= i < 32 => f(Bits(x, 32)[i], Bits(y, 32)[i]));
    assert Bitwise(f, x, y) == Number(bits);
    NumberDigits(f, x, y, bits);
  }

  /** The ALU computes the operations of the architecture. */
  lemma AluComputes(op: AluOp, x: Word, y: Word)
    ensures Alu(op, x, y) == Compute(op, x, y)
  {
    match op
    case And => BitwiseIsLogical((p, q) => p && q, x, y);
    case Or => BitwiseIsLogical((p, q) => p || q, x, y);
    case Xor => BitwiseIsLogical((p, q) => p != q, x, y);
    case Sll => AluBits.ShlIs(x, y % 32);
    case Srl => AluBits.ShrIs(x, y % 32);
    case Sra => AluBits.ShrIs(Signed(x), y % 32);
    case _ =>
  }

  lemma CoreComputes(imem: Word -> Word)
    ensures forall op, x, y :: Core(imem).alu(op, x, y) == Compute(op, x, y)
  {
    forall op, x, y ensures Core(imem).alu(op, x, y) == Compute(op, x, y) { AluComputes(op, x, y); }
  }

  lemma CoreMultiplies(imem: Word -> Word)
    ensures forall op, x, y | MulDiv.IsMul(op) :: Core(imem).mul(op, x, y) == MulDiv.MulSpec(op, x, y)
  {
    forall op: MulDiv.MextOp, x: Word, y: Word | MulDiv.IsMul(op)
      ensures Core(imem).mul(op, x, y) == MulDiv.MulSpec(op, x, y) {
      MulDiv.MultiplyIsExact(op, x, y);
    }
  }

  lemma CoreLoads(imem: Word -> Word)
    ensures forall f, addr, w | ByteMemory.Aligned(ByteMemory.Load(f, addr)) ::
              Core(imem).extend(f, addr, w) == ByteMemory.Extended(f, ByteMemory.Lanes(w, ByteMemory.Load(f, addr)))
  {
    forall f, addr, w | ByteMemory.Aligned(ByteMemory.Load(f, addr))
      ensures Core(imem).extend(f, addr, w) == ByteMemory.Extended(f, ByteMemory.Lanes(w, ByteMemory.Load(f, addr)))
    {
      ByteMemory.LoadExtends(f, addr, w);
    }
  }

  lemma CoreTests(imem: Word -> Word)
    ensures forall test, x, y :: Core(imem).cond(TestCode(test), x, y) == Holds(test, x, y)
  {
  }

  lemma CoreIsStandard(imem: Word -> Word)
    ensures Standard(Core(imem))
  {
    CoreComputes(imem);
    CoreMultiplies(imem);
    CoreLoads(imem);
    CoreTests(imem);
  }

  /** The datapath executes an encoded instruction as the architecture defines it. */
  lemma ExecuteIsPerform(imem: Word -> Word, i: Instr, m: Machine)
    requires Encodable(i) && imem(m.pc) == Encode(i) && Accesses(i, m)
    ensures Execute(Core(imem), m.Core(), Found(i, m)) == Perform(i, m).Core()
  {
    CoreIsStandard(imem);
    DecodeRecovers(i);
    ExecutePerforms(Core(imem), i, m);
  }
}
