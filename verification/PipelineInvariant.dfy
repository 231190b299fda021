/** The invariant of the pipeline and its preservation by one clock edge, stated over the architectural
    states around the instructions in flight. */
module PipelineInvariant {
  import opened Words
  import opened Registers
  import opened Pipeline
  import Fetch

  predicate JumpsIn(dp: Datapath, a: Arch) {
    Jumps(dp, Fetched(dp, a), X(dp, a), Y(dp, a))
  }

  /** EX/MEM holds the instruction at architectural state a. */
  ghost predicate InMem(dp: Datapath, e: ExMem, a: Arch) {
    var c := Fetched(dp, a).ctrl;
    && e.pc == a.pc && e.rd == Fetched(dp, a).rd && e.regWrite == c.regWrite && e.wbSel == c.wbSel
    && e.memRead == c.memRead && e.memWrite == c.memWrite && e.memFunct3 == c.memFunct3
    && (e.regWrite && !e.wbSel.WbLink? ==> e.alu == Result(dp, a))
    && (e.memWrite ==> e.alu == Result(dp, a) && e.rs2 == Y(dp, a))
  }

  /** cur is the architectural state after the instructions up to MEM/WB. */
  ghost predicate MemInv(dp: Datapath, s: Pipe, cur: Arch) {
    && View(s) == cur.regs
    && (!s.memWb.valid ==> !s.memWb.regWrite)
    && (if s.exMem.valid then InMem(dp, s.exMem, cur)
        else !s.exMem.regWrite && !s.exMem.memRead && !s.exMem.memWrite)
    && (s.reqSent ==> MemOp(s))
  }

  /** An operand register of ID/EX: what MEM/WB forwards, or else the latched word, is the value after the
      instructions up to MEM/WB. While three instructions are back to back, the latched word is one older. */
  ghost predicate OperandInv(s: Pipe, prev: Arch, cur: Arch, uses: bool, r: RegIdx, latched: Word) {
    && (uses ==> Base(s, r, latched) == Rd(cur.regs, r))
    && (s.exMem.valid && s.memWb.valid ==> latched == Rd(prev.regs, r))
  }

  /** ex is the architectural state in front of ID/EX: cur, or the state after the instruction in EX/MEM. */
  ghost predicate ExInv(dp: Datapath, s: Pipe, prev: Arch, cur: Arch, ex: Arch) {
    && (s.exMem.valid ==> s.idEx.valid == !JumpsIn(dp, cur))
    && (s.idEx.valid ==>
          && s.idEx.pc == ex.pc && s.idEx.d == Fetched(dp, ex)
          && OperandInv(s, prev, cur, UsesA(s.idEx.d.ctrl), s.idEx.d.rs1, s.idEx.a)
          && OperandInv(s, prev, cur, UsesB(s.idEx.d.ctrl), s.idEx.d.rs2, s.idEx.b))
  }

  function NextPc(f: Fetch.State): Word {
    if f.ifId.valid then f.ifId.pc else Fetch.Upcoming(f)
  }

  /** Behind a valid ID/EX the next word waits in IF/ID, unless a redirect already flushed it; behind an
      empty ID/EX the fetch stage is on the architectural path. */
  ghost predicate FetchInv(dp: Datapath, s: Pipe, ex: Arch) {
    && Fetch.Coherent(dp.fetch, s.fetch)
    && (s.idEx.valid ==>
          if s.fetch.ifId.valid then s.fetch.ifId.pc == Plus4(s.idEx.pc)
          else Redirects(dp, s) && s.fetch.ifId == Fetch.FLUSHED)
    && (Redirects(dp, s) && s.reqSent ==> !s.fetch.ifId.valid)
    && (!s.idEx.valid ==> NextPc(s.fetch) == ex.pc)
  }

  /** ex is the state after the instruction in EX/MEM, to which the memory returns raw if it is a load. */
  predicate Chain(dp: Datapath, s: Pipe, cur: Arch, raw: Word, ex: Arch) {
    ex == if s.exMem.valid then Execute(dp, cur, raw) else cur
  }

  ghost predicate Inv(dp: Datapath, s: Pipe, prev: Arch, cur: Arch, raw: Word, ex: Arch) {
    && Chain(dp, s, cur, raw, ex)
    && MemInv(dp, s, cur) && ExInv(dp, s, prev, cur, ex) && FetchInv(dp, s, ex)
  }

  // ---------------------------------------------------------------------------------------------------
  // Operands in EX
  // ---------------------------------------------------------------------------------------------------

  /** A register operand in EX is the value in front of a load in EX/MEM, and behind any other instruction. */
  lemma Operand(dp: Datapath, s: Pipe, prev: Arch, cur: Arch, raw: Word, ex: Arch, uses: bool, r: RegIdx, latched: Word)
    requires InSubset(Fetched(dp, cur).ctrl)
    requires MemInv(dp, s, cur) && OperandInv(s, prev, cur, uses, r, latched) && uses
    requires Chain(dp, s, cur, raw, ex) && (s.exMem.valid ==> !JumpsIn(dp, cur))
    ensures Forward(s, r, latched) == Rd((if s.exMem.memRead then cur else ex).regs, r)
    ensures s.exMem.memRead && (r == 0 || r != s.exMem.rd) ==> Rd(cur.regs, r) == Rd(ex.regs, r)
  {
  }

  lemma Operands(dp: Datapath, s: Pipe, prev: Arch, cur: Arch, raw: Word, ex: Arch)
    requires InSubset(Fetched(dp, cur).ctrl)
    requires MemInv(dp, s, cur) && ExInv(dp, s, prev, cur, ex) && Chain(dp, s, cur, raw, ex) && s.idEx.valid
    ensures var shown := if s.exMem.memRead then cur else ex;
            && (UsesA(s.idEx.d.ctrl) ==> OpA(s) == Rd(shown.regs, s.idEx.d.rs1))
            && (UsesB(s.idEx.d.ctrl) ==> OpB(s) == Rd(shown.regs, s.idEx.d.rs2))
    ensures !HazardEx(s) ==>
              && (UsesA(s.idEx.d.ctrl) ==> OpA(s) == X(dp, ex))
              && (UsesB(s.idEx.d.ctrl) ==> OpB(s) == Y(dp, ex))
  {
    var c := s.idEx.d.ctrl;
    if UsesA(c) { Operand(dp, s, prev, cur, raw, ex, true, s.idEx.d.rs1, s.idEx.a); }
    if UsesB(c) { Operand(dp, s, prev, cur, raw, ex, true, s.idEx.d.rs2, s.idEx.b); }
  }

  /** Without a hazard in EX, the branch unit decides as the architecture does. */
  lemma TrueBranch(dp: Datapath, s: Pipe, prev: Arch, cur: Arch, raw: Word, ex: Arch, any: Word)
    requires InSubset(Fetched(dp, cur).ctrl)
    requires MemInv(dp, s, cur) && ExInv(dp, s, prev, cur, ex) && Chain(dp, s, cur, raw, ex)
    requires s.idEx.valid && !HazardEx(s)
    ensures Taken(dp, s) == JumpsIn(dp, ex)
    ensures Taken(dp, s) ==> Target(s.idEx.d, s.idEx.pc, OpA(s)) == Execute(dp, ex, any).pc
  {
    Operands(dp, s, prev, cur, raw, ex);
  }

  // ---------------------------------------------------------------------------------------------------
  // A memory stall freezes everything but a pending redirect
  // ---------------------------------------------------------------------------------------------------

  lemma StallView(dp: Datapath, s: Pipe, m: MemIn)
    requires MemStall(s, m)
    ensures var t := Step(dp, s, m);
            && View(t) == View(s) && t.idEx == s.idEx && t.exMem == s.exMem && t.memWb == s.memWb
            && OpA(t) == OpA(s) && OpB(t) == OpB(s) && MemOp(t) == MemOp(s)
            && Redirects(dp, t) == Redirects(dp, s)
  {
  }

  lemma StallFetch(dp: Datapath, s: Pipe, m: MemIn, ex: Arch)
    requires FetchInv(dp, s, ex) && MemStall(s, m)
    ensures FetchInv(dp, Step(dp, s, m), ex)
  {
    StallView(dp, s, m);
    var c := FetchControl(dp, s, true);
    assert Step(dp, s, m).fetch == Fetch.Next(dp.fetch, s.fetch, c);
    assert c.stall && c.flush == c.taken == Redirects(dp, s);
  }

  lemma StallKeeps(dp: Datapath, s: Pipe, m: MemIn, prev: Arch, cur: Arch, raw: Word, ex: Arch)
    requires Inv(dp, s, prev, cur, raw, ex) && MemStall(s, m)
    ensures Inv(dp, Step(dp, s, m), prev, cur, raw, ex)
  {
    StallView(dp, s, m);
    StallFetch(dp, s, m, ex);
  }

  // ---------------------------------------------------------------------------------------------------
  // The pipeline advances
  // ---------------------------------------------------------------------------------------------------

  /** The instruction that moves from EX/MEM to MEM/WB carries the architectural value. */
  lemma DrainValue(dp: Datapath, e: ExMem, cur: Arch, raw: Word)
    requires InSubset(Fetched(dp, cur).ctrl) && InMem(dp, e, cur) && e.regWrite
    ensures WbData(Drain(dp, e, raw)) == Written(dp, cur, raw)
  {
  }

  lemma DrainView(dp: Datapath, s: Pipe, m: MemIn, cur: Arch, raw: Word, ex: Arch)
    requires InSubset(Fetched(dp, cur).ctrl)
    requires MemInv(dp, s, cur) && Chain(dp, s, cur, raw, ex) && !MemStall(s, m)
    requires s.exMem.memRead ==> m.rdata == raw
    ensures View(Step(dp, s, m)) == ex.regs
  {
    if s.exMem.valid && s.exMem.regWrite {
      DrainValue(dp, s.exMem, cur, m.rdata);
    }
  }

  lemma IssueIsInMem(dp: Datapath, s: Pipe, ex: Arch)
    requires InSubset(Fetched(dp, ex).ctrl) && WellFormed(dp)
    requires s.idEx.valid && s.idEx.pc == ex.pc && s.idEx.d == Fetched(dp, ex)
    requires UsesA(s.idEx.d.ctrl) ==> OpA(s) == X(dp, ex)
    requires UsesB(s.idEx.d.ctrl) ==> OpB(s) == Y(dp, ex)
    ensures InMem(dp, Issue(dp, s.idEx, OpA(s), OpB(s)), ex)
  {
  }

  /** The state in front of ID/EX after an advance without a replay. */
  function NextEx(dp: Datapath, s: Pipe, ex: Arch, raw: Word): Arch {
    if s.idEx.valid then Execute(dp, ex, raw) else ex
  }

  lemma AdvanceMem(dp: Datapath, s: Pipe, m: MemIn, prev: Arch, cur: Arch, raw: Word, ex: Arch)
    requires WellFormed(dp) && InSubset(Fetched(dp, cur).ctrl) && InSubset(Fetched(dp, ex).ctrl)
    requires Inv(dp, s, prev, cur, raw, ex) && !MemStall(s, m) && !Hazard(dp, s)
    requires s.exMem.memRead ==> m.rdata == raw
    ensures MemInv(dp, Step(dp, s, m), ex)
  {
    DrainView(dp, s, m, cur, raw, ex);
    if s.idEx.valid {
      Operands(dp, s, prev, cur, raw, ex);
      IssueIsInMem(dp, s, ex);
    }
  }

  /** The instruction latched from IF/ID. */
  lemma LatchedOperand(dp: Datapath, s: Pipe, m: MemIn, cur: Arch, ex: Arch, uses: bool, r: RegIdx)
    requires View(s) == cur.regs && View(Step(dp, s, m)) == ex.regs
    requires Step(dp, s, m).memWb.regWrite ==> Step(dp, s, m).memWb.valid
    ensures OperandInv(Step(dp, s, m), cur, ex, uses, r, Rd(View(s), r))
  {
  }

  lemma AdvanceEx(dp: Datapath, s: Pipe, m: MemIn, prev: Arch, cur: Arch, raw: Word, ex: Arch, raw2: Word)
    requires InSubset(Fetched(dp, cur).ctrl)
    requires Inv(dp, s, prev, cur, raw, ex) && !MemStall(s, m) && !Hazard(dp, s)
    requires s.exMem.memRead ==> m.rdata == raw
    ensures ExInv(dp, Step(dp, s, m), cur, ex, NextEx(dp, s, ex, raw2))
  {
    var t := Step(dp, s, m);
    DrainView(dp, s, m, cur, raw, ex);
    if s.idEx.valid {
      TrueBranch(dp, s, prev, cur, raw, ex, raw2);
    }
    if t.idEx.valid {
      LatchedOperand(dp, s, m, cur, ex, UsesA(t.idEx.d.ctrl), t.idEx.d.rs1);
      LatchedOperand(dp, s, m, cur, ex, UsesB(t.idEx.d.ctrl), t.idEx.d.rs2);
    }
  }

  lemma AdvanceFetch(dp: Datapath, s: Pipe, m: MemIn, prev: Arch, cur: Arch, raw: Word, ex: Arch, raw2: Word)
    requires InSubset(Fetched(dp, cur).ctrl)
    requires Inv(dp, s, prev, cur, raw, ex) && !MemStall(s, m) && !Hazard(dp, s)
    requires MemInv(dp, Step(dp, s, m), ex)
    ensures FetchInv(dp, Step(dp, s, m), NextEx(dp, s, ex, raw2))
  {
    var t := Step(dp, s, m);
    var c := FetchControl(dp, s, false);
    assert t.fetch == Fetch.Next(dp.fetch, s.fetch, c);
    if s.idEx.valid {
      TrueBranch(dp, s, prev, cur, raw, ex, raw2);
    }
    assert !t.reqSent;
  }

  lemma AdvanceKeeps(dp: Datapath, s: Pipe, m: MemIn, prev: Arch, cur: Arch, raw: Word, ex: Arch, raw2: Word, ex2: Arch)
    requires ex2 == NextEx(dp, s, ex, raw2)
    requires WellFormed(dp) && InSubset(Fetched(dp, cur).ctrl) && InSubset(Fetched(dp, ex).ctrl)
    requires Inv(dp, s, prev, cur, raw, ex) && !MemStall(s, m) && !Hazard(dp, s)
    requires s.exMem.memRead ==> m.rdata == raw
    ensures Inv(dp, Step(dp, s, m), cur, ex, raw2, ex2)
  {
    AdvanceMem(dp, s, m, prev, cur, raw, ex);
    AdvanceEx(dp, s, m, prev, cur, raw, ex, raw2);
    AdvanceFetch(dp, s, m, prev, cur, raw, ex, raw2);
  }

  // ---------------------------------------------------------------------------------------------------
  // A load leaves EX/MEM and the instruction behind it is replayed
  // ---------------------------------------------------------------------------------------------------

  /** The replayed instruction, if it is not itself waiting for the load, does not redirect in this cycle. */
  lemma ReplayHolds(dp: Datapath, s: Pipe, m: MemIn, ex: Arch)
    requires WellFormed(dp) && FetchInv(dp, s, ex) && !MemStall(s, m) && Hazard(dp, s)
    requires s.exMem.valid
    ensures !Redirects(dp, s)
    ensures var t := Step(dp, s, m);
            t.idEx == s.idEx && t.exMem == NO_EXMEM && t.fetch == s.fetch && !t.reqSent
  {
  }

  /** Register r survives the replay: the load overwrites it, or the instruction before it left it alone. */
  predicate Survives(s: Pipe, prev: Arch, cur: Arch, r: RegIdx) {
    s.memWb.valid ==> (r != 0 && r == s.exMem.rd) || Rd(prev.regs, r) == Rd(cur.regs, r)
  }

  /** An operand in use is the architectural one after the replay exactly when its register survives; else it is
      the one from before the instruction in front of the load. */
  lemma ReplayedOperand(dp: Datapath, s: Pipe, m: MemIn, prev: Arch, cur: Arch, raw: Word, ex: Arch, r: RegIdx,
      latched: Word)
    requires WellFormed(dp) && InSubset(Fetched(dp, cur).ctrl)
    requires Inv(dp, s, prev, cur, raw, ex) && !MemStall(s, m) && Hazard(dp, s)
    requires s.exMem.memRead ==> m.rdata == raw
    requires s.exMem.valid && OperandInv(s, prev, cur, true, r, latched)
    ensures Forward(Step(dp, s, m), r, latched) == Rd(ex.regs, r) <==> Survives(s, prev, cur, r)
    ensures !Survives(s, prev, cur, r) ==> Forward(Step(dp, s, m), r, latched) == Rd(prev.regs, r)
  {
    ReplayHolds(dp, s, m, ex);
    DrainView(dp, s, m, cur, raw, ex);
  }

  lemma ReplayKeeps(dp: Datapath, s: Pipe, m: MemIn, prev: Arch, cur: Arch, raw: Word, ex: Arch, raw2: Word)
    requires WellFormed(dp) && InSubset(Fetched(dp, cur).ctrl)
    requires Inv(dp, s, prev, cur, raw, ex) && !MemStall(s, m) && Hazard(dp, s)
    requires s.exMem.memRead ==> m.rdata == raw
    requires s.exMem.valid
    requires UsesA(s.idEx.d.ctrl) ==> Survives(s, prev, cur, s.idEx.d.rs1)
    requires UsesB(s.idEx.d.ctrl) ==> Survives(s, prev, cur, s.idEx.d.rs2)
    ensures Inv(dp, Step(dp, s, m), cur, ex, raw2, ex)
  {
    var c := s.idEx.d.ctrl;
    ReplayHolds(dp, s, m, ex);
    DrainView(dp, s, m, cur, raw, ex);
    if s.idEx.valid && UsesA(c) { ReplayedOperand(dp, s, m, prev, cur, raw, ex, s.idEx.d.rs1, s.idEx.a); }
    if s.idEx.valid && UsesB(c) { ReplayedOperand(dp, s, m, prev, cur, raw, ex, s.idEx.d.rs2, s.idEx.b); }
  }

  // ---------------------------------------------------------------------------------------------------
  // No exceptional event
  // ---------------------------------------------------------------------------------------------------

  /** While the load behind it waits, a dependent branch is evaluated on the registers in front of the load. */
  lemma StaleBranch(dp: Datapath, s: Pipe, prev: Arch, cur: Arch, raw: Word, ex: Arch)
    requires InSubset(Fetched(dp, cur).ctrl)
    requires MemInv(dp, s, cur) && ExInv(dp, s, prev, cur, ex) && Chain(dp, s, cur, raw, ex)
    requires s.idEx.valid && s.exMem.memRead
    ensures var d := Fetched(dp, ex);
            && Taken(dp, s) == Jumps(dp, d, Rd(cur.regs, d.rs1), Rd(cur.regs, d.rs2))
            && (Taken(dp, s) ==>
                  Target(s.idEx.d, s.idEx.pc, OpA(s)) == Target(d, ex.pc, Rd(cur.regs, d.rs1)))
  {
    Operands(dp, s, prev, cur, raw, ex);
  }

  lemma TrueTarget(dp: Datapath, s: Pipe, prev: Arch, cur: Arch, raw: Word, ex: Arch)
    requires InSubset(Fetched(dp, cur).ctrl)
    requires MemInv(dp, s, cur) && ExInv(dp, s, prev, cur, ex) && Chain(dp, s, cur, raw, ex)
    requires s.idEx.valid && !s.exMem.memRead
    ensures Taken(dp, s) == JumpsIn(dp, ex)
    ensures Taken(dp, s) ==> Target(s.idEx.d, s.idEx.pc, OpA(s)) == Target(Fetched(dp, ex), ex.pc, X(dp, ex))
  {
    Operands(dp, s, prev, cur, raw, ex);
  }
}
