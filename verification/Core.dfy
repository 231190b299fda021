/** The core itself: fetch stage, register file and pipeline registers, updated in place on each clock edge. */
module CoreUnit {
  import opened Words
  import opened Registers
  import opened Pipeline
  import Fetch

  class Core {
    const dp: Datapath
    const fetchStage: Fetch.FetchStage
    const regFile: RegisterFile
    var idEx: IdEx
    var exMem: ExMem
    var memWb: MemWb
    var memReqSent: bool

    ghost predicate Valid()
      reads this, fetchStage
    {
      regFile.Valid() && fetchStage.mem == dp.fetch
    }

    ghost function Abstract(): Pipe
      reads this, fetchStage, regFile.regs
      requires Valid()
    {
      Pipe(fetchStage.Regs(), idEx, exMem, memWb, regFile.regs[..], memReqSent)
    }

    constructor (dp: Datapath, garbage: Word)
      ensures Valid() && fresh(fetchStage) && fresh(regFile.regs)
      ensures this.dp == dp && Abstract() == ResetPipe(garbage)
    {
      this.dp := dp;
      fetchStage := new Fetch.FetchStage(dp.fetch, garbage);
      regFile := new RegisterFile();
      idEx, exMem, memWb, memReqSent := NO_IDEX, NO_EXMEM, NO_MEMWB, false;
    }

    /** The forwarding multiplexer for one operand. */
    method ForwardMux(r: RegIdx, latched: Word) returns (operand: Word)
      requires Valid()
      ensures operand == Forward(Abstract(), r, latched)
    {
      if exMem.regWrite && !exMem.memRead && exMem.rd != 0 && exMem.rd == r {
        operand := exMem.alu;
      } else if memWb.regWrite && memWb.rd != 0 && memWb.rd == r {
        operand := WbData(memWb);
      } else {
        operand := latched;
      }
    }

    /** ID/EX on a clock edge; a flush wins over a stall. */
    method ClockIdEx(flush: bool, stall: bool)
      requires Valid()
      modifies `idEx
      ensures idEx == if flush then NO_IDEX else if stall then old(idEx)
                      else Latch(dp, fetchStage.ifId, View(old(Abstract())))
    {
      if flush {
        idEx := NO_IDEX;
      } else if !stall {
        var d := dp.decode(fetchStage.ifId.instr);
        var writes := memWb.regWrite && memWb.valid;
        var a := regFile.Read(d.rs1, writes, memWb.rd, WbData(memWb));
        var b := regFile.Read(d.rs2, writes, memWb.rd, WbData(memWb));
        idEx := IdEx(fetchStage.ifId.pc, a, b, d, fetchStage.ifId.valid);
      }
    }

    /** EX/MEM on a clock edge; a stall wins over a flush. */
    method ClockExMem(stall: bool, flush: bool, i: IdEx, x: Word, y: Word)
      modifies `exMem
      ensures exMem == if stall then old(exMem) else if flush then NO_EXMEM else Issue(dp, i, x, y)
    {
      if !stall {
        exMem := if flush then NO_EXMEM else Issue(dp, i, x, y);
      }
    }

    /** The hazard unit: the load in EX/MEM is needed in EX or in ID. */
    method HazardUnit() returns (hazardEx: bool, hazard: bool)
      requires Valid()
      ensures hazardEx == HazardEx(Abstract()) && hazard == Hazard(dp, Abstract())
    {
      var load := exMem.memRead && exMem.rd != 0;
      var d := dp.decode(fetchStage.ifId.instr);
      hazardEx := load && (idEx.d.rs1 == exMem.rd || idEx.d.rs2 == exMem.rd);
      hazard := hazardEx || (load && (d.rs1 == exMem.rd || d.rs2 == exMem.rd));
    }

    /** All pipeline registers and the register file on a clock edge; redirect, stall and hazard are the control
        signals of the cycle, x and y the operands in EX. */
    method ClockStages(m: MemIn, redirect: bool, stall: bool, hazard: bool, x: Word, y: Word)
      requires Valid()
      modifies `idEx, `exMem, `memWb, regFile.regs
      ensures idEx == if redirect && !stall then NO_IDEX else if stall || hazard then old(idEx)
                      else Latch(dp, fetchStage.ifId, View(old(Abstract())))
      ensures exMem == if stall then old(exMem) else if hazard then NO_EXMEM else Issue(dp, old(idEx), x, y)
      ensures memWb == if stall then old(memWb) else Drain(dp, old(exMem), m.rdata)
      ensures regFile.regs[..] == View(old(Abstract()))
    {
      var issued, w := idEx, memWb;
      ClockIdEx(redirect && !stall, stall || hazard);
      if !stall {
        memWb := Drain(dp, exMem, m.rdata);
      }
      ClockExMem(stall, hazard, issued, x, y);
      regFile.Clock(w.regWrite && w.valid, w.rd, WbData(w));
    }

    /** One clock edge of the core, given the data memory's answer. */
    method Clock(m: MemIn)
      requires Valid()
      modifies this, fetchStage, regFile.regs
      ensures Valid() && Abstract() == Step(dp, old(Abstract()), m)
    {
      ghost var was := Abstract();
      var x := ForwardMux(idEx.d.rs1, idEx.a);
      var y := ForwardMux(idEx.d.rs2, idEx.b);
      var hazardEx, hazard := HazardUnit();
      var redirect := idEx.valid && Jumps(dp, idEx.d, x, y) && !hazardEx;
      var target := Target(idEx.d, idEx.pc, x);
      // The memory request of the instruction in EX/MEM freezes the pipeline until it is answered.
      var memOp := (exMem.memRead || exMem.memWrite) && exMem.valid;
      var stall := memOp && !(memReqSent && m.ready);
      assert redirect == Redirects(dp, was) && stall == MemStall(was, m) && hazard == Hazard(dp, was);
      assert target == Target(was.idEx.d, was.idEx.pc, OpA(was));
      ClockStages(m, redirect, stall, hazard, x, y);
      fetchStage.Clock(stall || hazard, redirect, redirect, target);
      if memOp && !memReqSent {
        memReqSent := true;
      } else if memReqSent && m.ready {
        memReqSent := false;
      }
    }
  }
}
