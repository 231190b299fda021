/** The five-stage pipeline of the core, as one step function per clock edge, over any datapath:
    instruction memory, decoder, ALU, multiplier, branch comparator and load extension are parameters. */
module Pipeline {
  import opened Words
  import opened Registers
  import Fetch
  import opened MulDiv

  datatype AluOp = Add | Sub | Sll | Slt | Sltu | Xor | Srl | Sra | Or | And | Lui | Auipc
  datatype WbSel = WbAlu | WbMem | WbLink | WbCsr

  /** Control signals of the decode stage. */
  datatype Ctrl = Ctrl(
    aluOp: AluOp, srcPc: bool, srcImm: bool, mextEn: bool, mextOp: MextOp, regWrite: bool, wbSel: WbSel,
    memRead: bool, memWrite: bool, memFunct3: Funct3, branch: bool, jal: bool, jalr: bool,
    branchFunct3: Funct3, csrEn: bool, ecall: bool, ebreak: bool, mret: bool, fence: bool, illegal: bool)

  /** A decoded instruction word: register fields, immediate and control signals. */
  datatype Decoded = Decoded(rs1: RegIdx, rs2: RegIdx, rd: RegIdx, imm: Word, ctrl: Ctrl)

  /** Control signals that request nothing; also what a flush leaves in ID/EX. */
  const QUIET := Ctrl(Add, false, false, false, Mul, false, WbAlu, false, false, 0, false, false, false,
                      0, false, false, false, false, false, false)
  const NOTHING := Decoded(0, 0, 0, 0, QUIET)

  /** The combinational blocks around the pipeline control. */
  datatype Datapath = Datapath(
    fetch: Word -> Word,
    decode: Word -> Decoded,
    alu: (AluOp, Word, Word) -> Word,
    mul: (MextOp, Word, Word) -> Word,
    cond: (Funct3, Word, Word) -> bool,
    extend: (Funct3, Word, Word) -> Word)

  datatype IdEx = IdEx(pc: Word, a: Word, b: Word, d: Decoded, valid: bool)
  datatype ExMem = ExMem(pc: Word, alu: Word, rs2: Word, rd: RegIdx, regWrite: bool, wbSel: WbSel,
                         memRead: bool, memWrite: bool, memFunct3: Funct3, valid: bool)
  datatype MemWb = MemWb(pc: Word, alu: Word, rdata: Word, rd: RegIdx, regWrite: bool, wbSel: WbSel, valid: bool)

  const NO_IDEX := IdEx(0, 0, 0, NOTHING, false)
  const NO_EXMEM := ExMem(0, 0, 0, 0, false, WbAlu, false, false, 0, false)
  const NO_MEMWB := MemWb(0, 0, 0, 0, false, WbAlu, false)

  /** All clocked registers of the core that the subset uses. */
  datatype Pipe = Pipe(fetch: Fetch.State, idEx: IdEx, exMem: ExMem, memWb: MemWb, regs: Regs, reqSent: bool)

  /** The data memory's answer in one cycle. */
  datatype MemIn = MemIn(ready: bool, rdata: Word)

  function ResetPipe(imemOut: Word): Pipe {
    Pipe(Fetch.Reset(imemOut), NO_IDEX, NO_EXMEM, NO_MEMWB, Zeros(), false)
  }

  // ---------------------------------------------------------------------------------------------------
  // Combinational logic
  // ---------------------------------------------------------------------------------------------------

  function AluResult(dp: Datapath, d: Decoded, pc: Word, x: Word, y: Word): Word {
    dp.alu(d.ctrl.aluOp, if d.ctrl.srcPc then pc else x, if d.ctrl.srcImm then d.imm else y)
  }

  /** What the execute stage hands to EX/MEM for an instruction. */
  function Exec(dp: Datapath, d: Decoded, pc: Word, x: Word, y: Word): Word {
    if d.ctrl.mextEn && IsMul(d.ctrl.mextOp) then dp.mul(d.ctrl.mextOp, x, y) else AluResult(dp, d, pc, x, y)
  }

  predicate Jumps(dp: Datapath, d: Decoded, x: Word, y: Word) {
    (d.ctrl.branch && dp.cond(d.ctrl.branchFunct3, x, y)) || d.ctrl.jal || d.ctrl.jalr
  }

  function Target(d: Decoded, pc: Word, x: Word): Word {
    if d.ctrl.jalr then var t := Plus(x, d.imm); t - t % 2 else Plus(pc, d.imm)
  }

  /** The writeback multiplexer; CSR read data is tied to zero in EX/MEM. */
  function Select(sel: WbSel, pc: Word, alu: Word, loaded: Word): Word {
    match sel
    case WbAlu => alu
    case WbMem => loaded
    case WbLink => Plus4(pc)
    case WbCsr => 0
  }

  function WbData(w: MemWb): Word {
    Select(w.wbSel, w.pc, w.alu, w.rdata)
  }

  /** The register file as its write-first read ports show it. */
  function View(s: Pipe): Regs {
    WriteReg(s.regs, s.memWb.regWrite && s.memWb.valid, s.memWb.rd, WbData(s.memWb))
  }

  /** The operand without the EX/MEM source: forwarded from MEM/WB, else as latched. */
  function Base(s: Pipe, r: RegIdx, latched: Word): Word {
    if s.memWb.regWrite && s.memWb.rd != 0 && s.memWb.rd == r then WbData(s.memWb) else latched
  }

  function Forward(s: Pipe, r: RegIdx, latched: Word): Word {
    if s.exMem.regWrite && !s.exMem.memRead && s.exMem.rd != 0 && s.exMem.rd == r then s.exMem.alu
    else Base(s, r, latched)
  }

  function OpA(s: Pipe): Word {
    Forward(s, s.idEx.d.rs1, s.idEx.a)
  }

  function OpB(s: Pipe): Word {
    Forward(s, s.idEx.d.rs2, s.idEx.b)
  }

  predicate Names(d: Decoded, r: RegIdx) {
    r != 0 && (d.rs1 == r || d.rs2 == r)
  }

  predicate HazardEx(s: Pipe) {
    s.exMem.memRead && Names(s.idEx.d, s.exMem.rd)
  }

  predicate HazardId(dp: Datapath, s: Pipe) {
    s.exMem.memRead && Names(dp.decode(s.fetch.ifId.instr), s.exMem.rd)
  }

  predicate Hazard(dp: Datapath, s: Pipe) {
    HazardEx(s) || HazardId(dp, s)
  }

  predicate Taken(dp: Datapath, s: Pipe) {
    s.idEx.valid && Jumps(dp, s.idEx.d, OpA(s), OpB(s))
  }

  predicate Redirects(dp: Datapath, s: Pipe) {
    Taken(dp, s) && !HazardEx(s)
  }

  predicate MemOp(s: Pipe) {
    (s.exMem.memRead || s.exMem.memWrite) && s.exMem.valid
  }

  predicate MemStall(s: Pipe, m: MemIn) {
    MemOp(s) && !(s.reqSent && m.ready)
  }

  /** The EX/MEM entry of the instruction in ID/EX; multiplier, write and memory enables are gated with valid. */
  function Issue(dp: Datapath, i: IdEx, x: Word, y: Word): ExMem {
    ExMem(i.pc, if i.valid then Exec(dp, i.d, i.pc, x, y) else AluResult(dp, i.d, i.pc, x, y), y, i.d.rd,
          i.d.ctrl.regWrite && i.valid, i.d.ctrl.wbSel, i.d.ctrl.memRead && i.valid, i.d.ctrl.memWrite && i.valid,
          i.d.ctrl.memFunct3, i.valid)
  }

  /** The MEM/WB entry of the instruction in EX/MEM. */
  function Drain(dp: Datapath, e: ExMem, rdata: Word): MemWb {
    MemWb(e.pc, e.alu, dp.extend(e.memFunct3, e.alu, rdata), e.rd, e.regWrite && e.valid, e.wbSel, e.valid)
  }

  /** The ID/EX entry of the instruction in IF/ID. */
  function Latch(dp: Datapath, ifId: Fetch.IfId, view: Regs): IdEx {
    var d := dp.decode(ifId.instr);
    IdEx(ifId.pc, Rd(view, d.rs1), Rd(view, d.rs2), d, ifId.valid)
  }

  /** What the core feeds to the fetch stage. */
  function FetchControl(dp: Datapath, s: Pipe, stall: bool): Fetch.Control {
    Fetch.Control(stall || Hazard(dp, s), Redirects(dp, s), Redirects(dp, s), Target(s.idEx.d, s.idEx.pc, OpA(s)))
  }

  /** One clock edge. ID/EX lets a flush win over a stall, EX/MEM a stall over a flush. */
  function Step(dp: Datapath, s: Pipe, m: MemIn): Pipe {
    var stall := MemStall(s, m);
    Pipe(
      Fetch.Next(dp.fetch, s.fetch, FetchControl(dp, s, stall)),
      if Redirects(dp, s) && !stall then NO_IDEX
      else if stall || Hazard(dp, s) then s.idEx
      else Latch(dp, s.fetch.ifId, View(s)),
      if stall then s.exMem
      else if Hazard(dp, s) then NO_EXMEM
      else Issue(dp, s.idEx, OpA(s), OpB(s)),
      if stall then s.memWb else Drain(dp, s.exMem, m.rdata),
      View(s),
      if MemOp(s) && !s.reqSent then true else if s.reqSent && m.ready then false else s.reqSent)
  }

  // ---------------------------------------------------------------------------------------------------
  // The one-instruction-at-a-time machine over the same datapath
  // ---------------------------------------------------------------------------------------------------

  datatype Arch = Arch(pc: Word, regs: Regs)

  function Fetched(dp: Datapath, a: Arch): Decoded {
    dp.decode(dp.fetch(a.pc))
  }

  function X(dp: Datapath, a: Arch): Word {
    Rd(a.regs, Fetched(dp, a).rs1)
  }

  function Y(dp: Datapath, a: Arch): Word {
    Rd(a.regs, Fetched(dp, a).rs2)
  }

  function Result(dp: Datapath, a: Arch): Word {
    Exec(dp, Fetched(dp, a), a.pc, X(dp, a), Y(dp, a))
  }

  function Written(dp: Datapath, a: Arch, raw: Word): Word {
    var c := Fetched(dp, a).ctrl;
    Select(c.wbSel, a.pc, Result(dp, a), dp.extend(c.memFunct3, Result(dp, a), raw))
  }

  /** Executes the instruction at the PC; raw is the word the memory returns if it is a load. */
  function Execute(dp: Datapath, a: Arch, raw: Word): Arch {
    var d := Fetched(dp, a);
    Arch(
      if Jumps(dp, d, X(dp, a), Y(dp, a)) then Target(d, a.pc, X(dp, a)) else Plus4(a.pc),
      WriteReg(a.regs, d.ctrl.regWrite, d.rd, Written(dp, a, raw)))
  }

  /** k instructions, one at a time. */
  function Iterate(dp: Datapath, data: nat -> Word, k: nat): Arch {
    if k == 0 then Arch(0, Zeros()) else Execute(dp, Iterate(dp, data, k - 1), data(k - 1))
  }

  /** The architectural state before dynamic instruction k, when the memory returns data(i) to instruction i. */
  function Seq(dp: Datapath, data: nat -> Word, k: nat): Arch {
    Iterate(dp, data, k)
  }

  /** The decoded dynamic instruction k. */
  function Dyn(dp: Datapath, data: nat -> Word, k: nat): Decoded {
    Fetched(dp, Seq(dp, data, k))
  }

  predicate JumpsAt(dp: Datapath, data: nat -> Word, k: nat) {
    var a := Seq(dp, data, k);
    Jumps(dp, Fetched(dp, a), X(dp, a), Y(dp, a))
  }

  // ---------------------------------------------------------------------------------------------------
  // Which instruction paths the theorems are about
  // ---------------------------------------------------------------------------------------------------

  /** LUI passes its immediate on, whatever the other operand is. */
  ghost predicate LuiAlone(dp: Datapath) {
    forall x, x', y :: dp.alu(Lui, x, y) == dp.alu(Lui, x', y)
  }

  /** Facts about the datapath itself: a flushed slot names no register, LUI ignores its first operand. */
  ghost predicate WellFormed(dp: Datapath) {
    && dp.decode(Fetch.NOP).rs1 == 0 && dp.decode(Fetch.NOP).rs2 == 0
    && LuiAlone(dp)
  }

  /** Control signals of LUI, AUIPC, JAL, JALR, branches, loads, stores, OP-IMM, OP, MUL* and FENCE. */
  predicate InSubset(c: Ctrl) {
    && !c.illegal && !c.ecall && !c.ebreak && !c.mret && !c.csrEn
    && (c.mextEn ==> IsMul(c.mextOp))
    && (c.memRead ==> c.regWrite && c.wbSel.WbMem? && !c.memWrite && !c.branch && !c.jal && !c.jalr)
    && (c.memWrite ==> !c.regWrite && !c.branch && !c.jal && !c.jalr)
    && (c.regWrite && !c.memRead ==> if c.jal || c.jalr then c.wbSel.WbLink? else c.wbSel.WbAlu?)
  }

  predicate UsesA(c: Ctrl) {
    c.branch || c.jalr || c.memRead || c.memWrite || c.mextEn ||
    (c.regWrite && !c.jal && !c.srcPc && !c.aluOp.Lui?)
  }

  predicate UsesB(c: Ctrl) {
    c.branch || c.memWrite || c.mextEn || (c.regWrite && !c.jal && !c.jalr && !c.srcImm)
  }

  /** If the branch unit, given these operands, redirects, it redirects to a word boundary. */
  predicate LandsAligned(dp: Datapath, d: Decoded, pc: Word, x: Word, y: Word) {
    Jumps(dp, d, x, y) ==> Target(d, pc, x) % 4 == 0
  }

  predicate AccessAligned(f: Funct3, addr: Word) {
    && (f % 4 == 1 ==> addr % 2 == 0)
    && (f % 4 == 2 ==> addr % 4 == 0)
  }

  /** Dynamic instruction k is in the subset and raises no alignment exception. */
  predicate Legal(dp: Datapath, data: nat -> Word, k: nat) {
    var a := Seq(dp, data, k);
    var d := Fetched(dp, a);
    && InSubset(d.ctrl)
    && LandsAligned(dp, d, a.pc, X(dp, a), Y(dp, a))
    && (d.ctrl.memRead || d.ctrl.memWrite ==> AccessAligned(d.ctrl.memFunct3, Result(dp, a)))
  }

  /** While load n waits, the branch unit evaluates the next instruction on the registers in front of the load;
      on those it must not redirect to a misaligned address either. */
  predicate StaleSafe(dp: Datapath, data: nat -> Word, n: nat) {
    var before, a := Seq(dp, data, n).regs, Seq(dp, data, n + 1);
    var d := Fetched(dp, a);
    Dyn(dp, data, n).ctrl.memRead ==> LandsAligned(dp, d, a.pc, Rd(before, d.rs1), Rd(before, d.rs2))
  }

  /** Load k makes the hazard unit replay instruction k + 1: that instruction names the loaded register, or
      it falls through and the word after it does. */
  predicate Replays(dp: Datapath, data: nat -> Word, k: nat) {
    var d := Dyn(dp, data, k);
    d.ctrl.memRead && (Names(Dyn(dp, data, k + 1), d.rd) ||
                       (!JumpsAt(dp, data, k + 1) &&
                        Names(dp.decode(dp.fetch(Plus4(Seq(dp, data, k + 1).pc))), d.rd)))
  }

  /** Instruction k follows its predecessor through the pipeline without a bubble. */
  predicate BackToBack(dp: Datapath, data: nat -> Word, k: nat) {
    k > 0 && !JumpsAt(dp, data, k - 1) && !Replays(dp, data, k - 1)
  }

  /** The predecessor of load k leaves register r as it was, or the load overwrites it. */
  predicate Keeps(dp: Datapath, data: nat -> Word, k: nat, r: RegIdx)
    requires k > 0
  {
    (r != 0 && r == Dyn(dp, data, k).rd) ||
    Rd(Seq(dp, data, k - 1).regs, r) == Rd(Seq(dp, data, k).regs, r)
  }

  /** The replay behind load k loses no operand. A replayed instruction keeps the operands it latched while
      the load's predecessor drains, so it must not depend on what that predecessor wrote. */
  predicate ReplaySafe(dp: Datapath, data: nat -> Word, k: nat) {
    Replays(dp, data, k) && BackToBack(dp, data, k) ==>
      var j := Dyn(dp, data, k + 1);
      && (UsesA(j.ctrl) ==> Keeps(dp, data, k, j.rs1))
      && (UsesB(j.ctrl) ==> Keeps(dp, data, k, j.rs2))
  }

  /** The first length dynamic instructions do not trap. */
  ghost predicate Path(dp: Datapath, data: nat -> Word, length: nat) {
    WellFormed(dp) && forall k: nat | k < length :: Legal(dp, data, k)
  }

  /** No trap, system instruction, CSR access or division starts in this cycle. */
  predicate Quiet(dp: Datapath, s: Pipe) {
    var c := s.idEx.d.ctrl;
    && (s.idEx.valid ==> !c.illegal && !c.ecall && !c.ebreak && !c.mret && !c.csrEn && (c.mextEn ==> IsMul(c.mextOp)))
    && (Taken(dp, s) ==> Target(s.idEx.d, s.idEx.pc, OpA(s)) % 4 == 0)
    && (MemOp(s) ==> AccessAligned(s.exMem.memFunct3, s.exMem.alu))
  }
}
