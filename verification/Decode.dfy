/** The combinational blocks of the core: instruction decoder, ALU and branch comparator. */
module Decode {
  import opened Words
  import opened Pipeline
  import MulDiv
  import ByteMemory

  // ---------------------------------------------------------------------------------------------------
  // Instruction words
  // ---------------------------------------------------------------------------------------------------

  /** An instruction word cut where any of the formats cuts it: bit 31, bits 30 to 25, 24 to 21, 20, 19 to 15,
      14 to 12, 11 to 8, 7, and the opcode in bits 6 to 0. */
  datatype Fields = Fields(b31: int, b30: int, b24: int, b20: int, b19: int, b14: int, b11: int, b7: int, op: int)
  {
    predicate Valid() {
      && 0 <= b31 < 2 && 0 <= b30 < 64 && 0 <= b24 < 16 && 0 <= b20 < 2 && 0 <= b19 < 32 && 0 <= b14 < 8
      && 0 <= b11 < 16 && 0 <= b7 < 2 && 0 <= op < 128
    }
  }

  /** The low part of a number and the rest, as a bit slice cuts it. */
  function Unpack(w: Word): (f: Fields)
    ensures f.Valid()
  {
    var w7 := w / 128;
    var w8 := w7 / 2;
    var w12 := w8 / 16;
    var w15 := w12 / 8;
    var w20 := w15 / 32;
    var w21 := w20 / 2;
    var w25 := w21 / 16;
    Fields(w25 / 64, w25 % 64, w21 % 16, w20 % 2, w15 % 32, w12 % 8, w8 % 16, w7 % 2, w % 128)
  }

  function Pack(f: Fields): (w: Word)
    requires f.Valid()
    ensures Unpack(w) == f
  {
    var w25 := f.b30 + 64 * f.b31;
    var w21 := f.b24 + 16 * w25;
    var w20 := f.b20 + 2 * w21;
    var w15 := f.b19 + 32 * w20;
    var w12 := f.b14 + 8 * w15;
    var w8 := f.b11 + 16 * w12;
    var w7 := f.b7 + 2 * w8;
    f.op + 128 * w7
  }

  const OP_LUI := 0x37
  const OP_AUIPC := 0x17
  const OP_JAL := 0x6F
  const OP_JALR := 0x67
  const OP_BRANCH := 0x63
  const OP_LOAD := 0x03
  const OP_STORE := 0x23
  const OP_OP_IMM := 0x13
  const OP_OP := 0x33
  const OP_FENCE := 0x0F
  const OP_SYSTEM := 0x73

  // ---------------------------------------------------------------------------------------------------
  // The decoder
  // ---------------------------------------------------------------------------------------------------

  /** The bits above a sign bit. */
  function SignBits(b31: int, from: int): int {
    if b31 == 1 then 0x1_0000_0000 - from else 0
  }

  function Immediate(f: Fields): Word
    requires f.Valid()
  {
    if f.op == OP_LUI || f.op == OP_AUIPC then
      0x8000_0000 * f.b31 + 0x200_0000 * f.b30 + 0x20_0000 * f.b24 + 0x10_0000 * f.b20 + 0x8000 * f.b19 + 0x1000 * f.b14
    else if f.op == OP_JAL then
      SignBits(f.b31, 0x10_0000) + 0x8000 * f.b19 + 0x1000 * f.b14 + 0x800 * f.b20 + 0x20 * f.b30 + 2 * f.b24
    else if f.op == OP_BRANCH then
      SignBits(f.b31, 0x1000) + 0x800 * f.b7 + 0x20 * f.b30 + 2 * f.b11
    else if f.op == OP_STORE then
      SignBits(f.b31, 0x800) + 0x20 * f.b30 + 2 * f.b11 + f.b7
    else
      SignBits(f.b31, 0x800) + 0x20 * f.b30 + 2 * f.b24 + f.b20
  }

  function Funct7(f: Fields): int {
    64 * f.b31 + f.b30
  }

  /** The operation of OP and, without subtraction, of OP-IMM; bit 30 of the word tells SUB and SRA apart. */
  function AluOpOf(funct3: Funct3, alternative: bool, register: bool): AluOp {
    match funct3
    case 0 => if alternative && register then Sub else Add
    case 1 => Sll
    case 2 => Slt
    case 3 => Sltu
    case 4 => Xor
    case 5 => if alternative then Sra else Srl
    case 6 => Or
    case _ => And
  }

  function MextOpOf(funct3: Funct3): MulDiv.MextOp {
    match funct3
    case 0 => MulDiv.Mul
    case 1 => MulDiv.Mulh
    case 2 => MulDiv.Mulhsu
    case 3 => MulDiv.Mulhu
    case 4 => MulDiv.Div
    case 5 => MulDiv.Divu
    case 6 => MulDiv.Rem
    case _ => MulDiv.Remu
  }

  function Control(f: Fields): Ctrl
    requires f.Valid()
  {
    var alternative := f.b30 / 32 == 1;
    if f.op == OP_LUI then QUIET.(aluOp := Lui, srcImm := true, regWrite := true)
    else if f.op == OP_AUIPC then QUIET.(aluOp := Auipc, srcPc := true, srcImm := true, regWrite := true)
    else if f.op == OP_JAL then QUIET.(jal := true, regWrite := true, wbSel := WbLink)
    else if f.op == OP_JALR then QUIET.(jalr := true, srcImm := true, regWrite := true, wbSel := WbLink)
    else if f.op == OP_BRANCH then QUIET.(branch := true, branchFunct3 := f.b14)
    else if f.op == OP_LOAD then
      QUIET.(srcImm := true, memRead := true, memFunct3 := f.b14, regWrite := true, wbSel := WbMem)
    else if f.op == OP_STORE then QUIET.(srcImm := true, memWrite := true, memFunct3 := f.b14)
    else if f.op == OP_OP_IMM then
      QUIET.(srcImm := true, regWrite := true, aluOp := AluOpOf(f.b14, alternative, false))
    else if f.op == OP_OP then
      if Funct7(f) == 1 then QUIET.(regWrite := true, mextEn := true, mextOp := MextOpOf(f.b14))
      else QUIET.(regWrite := true, aluOp := AluOpOf(f.b14, alternative, true))
    else if f.op == OP_FENCE then QUIET.(fence := true)
    else if f.op == OP_SYSTEM then
      if f.b14 == 0 then
        if Funct7(f) == 0x18 && 2 * f.b24 + f.b20 == 2 then QUIET.(mret := true)
        else if f.b20 == 0 then QUIET.(ecall := true)
        else QUIET.(ebreak := true)
      else QUIET.(csrEn := true, regWrite := true, wbSel := WbCsr, illegal := f.b14 == 4)
    else QUIET.(illegal := true)
  }

  function DecodeFields(f: Fields): Decoded
    requires f.Valid()
  {
    Decoded(f.b19, 2 * f.b24 + f.b20, 2 * f.b11 + f.b7, Immediate(f), Control(f))
  }

  function DecodeWord(w: Word): Decoded {
    DecodeFields(Unpack(w))
  }

  // ---------------------------------------------------------------------------------------------------
  // ALU and branch comparator
  // ---------------------------------------------------------------------------------------------------

  /** A bitwise operation on words. */
  function Bitwise(f: (bool, bool) -> bool, a: Word, b: Word): Word {
    var bits := seq(32, i requires 0 <= i < 32 => f(Bits(a, 32)[i], Bits(b, 32)[i]));
    NumberBound(bits);
    Pow2Values();
    Number(bits)
  }

  function Alu(op: AluOp, a: Word, b: Word): Word {
    var shamt := b % 32;
    match op
    case Add => Plus(a, b)
    case Sub => Wrap(a - b)
    case Sll => Wrap(a * Pow2(shamt))
    case Slt => if Signed(a) < Signed(b) then 1 else 0
    case Sltu => if a < b then 1 else 0
    case Xor => Bitwise((x, y) => x != y, a, b)
    case Srl => Wrap(a / Pow2(shamt))
    case Sra => Wrap(Signed(a) / Pow2(shamt))
    case Or => Bitwise((x, y) => x || y, a, b)
    case And => Bitwise((x, y) => x && y, a, b)
    case Lui => b
    case Auipc => Plus(a, b)
  }

  predicate Condition(funct3: Funct3, a: Word, b: Word) {
    match funct3
    case 0 => a == b
    case 1 => a != b
    case 4 => Signed(a) < Signed(b)
    case 5 => Signed(a) >= Signed(b)
    case 6 => a < b
    case 7 => a >= b
    case _ => false
  }

  /** A branch with one of the two reserved codes is never taken. */
  lemma ReservedConditions(a: Word, b: Word)
    ensures !Condition(2, a, b) && !Condition(3, a, b)
  {
  }

  function Multiplier(op: MulDiv.MextOp, a: Word, b: Word): Word {
    if MulDiv.IsMul(op) then MulDiv.Multiply(op, a, b) else 0
  }

  /** The core's datapath over an instruction memory. */
  function Core(imem: Word -> Word): Datapath {
    Datapath(imem, DecodeWord, Alu, Multiplier, Condition,
        (f: Funct3, addr: Word, rdata: Word) => ByteMemory.LoadData(f, addr, rdata))
  }
}
