/** Whole runs of the pipeline: it commits what the one-instruction-at-a-time machine commits, in the cycles a
    closed formula gives, and raises an exception of its own exactly where a load is not safe for a jump. */
module PipelineRefinement {
  import opened Words
  import opened Registers
  import opened Pipeline
  import opened PipelineInvariant

  function Bump(n: nat, b: bool): nat {
    if b then n + 1 else n
  }

  // ---------------------------------------------------------------------------------------------------
  // Runs and what they show
  // ---------------------------------------------------------------------------------------------------

  datatype Commit = RegWrite(rd: RegIdx, value: Word) | Store(addr: Word, value: Word, width: Funct3)

  /** What leaves the pipeline at the end of a cycle: a completed store, and the register write of an
      instruction that has just entered MEM/WB. */
  function Commits(dp: Datapath, s: Pipe, m: MemIn): seq<Commit> {
    if MemStall(s, m) then []
    else
      var w := Step(dp, s, m).memWb;
      (if s.exMem.memWrite && s.exMem.valid then [Store(s.exMem.alu, s.exMem.rs2, s.exMem.memFunct3)] else [])
      + (if w.valid && w.regWrite && w.rd != 0 then [RegWrite(w.rd, WbData(w))] else [])
  }

  /** What an observer of a run keeps: the state, the number of instructions that have entered MEM/WB, the
      number that have left ID/EX for good, the number of cycles that were not memory stalls, and everything
      committed so far. */
  datatype Track = Track(s: Pipe, count: nat, issued: nat, time: nat, log: seq<Commit>)

  function Proceed(dp: Datapath, r: Track, m: MemIn): Track {
    var t := Step(dp, r.s, m);
    if MemStall(r.s, m) then Track(t, r.count, r.issued, r.time, r.log)
    else Track(t, r.issued, Bump(r.issued, !Hazard(dp, r.s) && r.s.idEx.valid), r.time + 1,
               r.log + Commits(dp, r.s, m))
  }

  /** One cycle. An exceptional event ends the run: what the core's trap logic does then is not modelled. */
  function Follow(dp: Datapath, r: Track, m: MemIn): Track {
    if Quiet(dp, r.s) then Proceed(dp, r, m) else r
  }

  /** Cycle t of a run leads to cycle t + 1, the data memory answering env(t). */
  predicate Clocked(dp: Datapath, env: nat -> MemIn, run: nat -> Track, t: nat) {
    run(t + 1) == Follow(dp, run(t), env(t))
  }

  /** A run from reset, whatever the instruction memory's output register held. */
  ghost predicate Behaviour(dp: Datapath, env: nat -> MemIn, run: nat -> Track) {
    && run(0) == Track(ResetPipe(run(0).s.fetch.imemOut), 0, 0, 0, [])
    && forall t: nat :: Clocked(dp, env, run, t)
  }

  /** What dynamic instruction k commits on the one-instruction-at-a-time machine. */
  function SeqCommits(dp: Datapath, data: nat -> Word, k: nat): seq<Commit> {
    var a := Seq(dp, data, k);
    var d := Dyn(dp, data, k);
    (if d.ctrl.memWrite then [Store(Result(dp, a), Y(dp, a), d.ctrl.memFunct3)] else [])
    + (if d.ctrl.regWrite && d.rd != 0 then [RegWrite(d.rd, Written(dp, a, data(k)))] else [])
  }

  function SeqLog(dp: Datapath, data: nat -> Word, n: nat): seq<Commit> {
    if n == 0 then [] else SeqLog(dp, data, n - 1) + SeqCommits(dp, data, n - 1)
  }

  /** A load that leaves EX/MEM as dynamic instruction k takes data(k) with it. */
  predicate Answered(dp: Datapath, data: nat -> Word, r: Track, m: MemIn) {
    Quiet(dp, r.s) && r.s.exMem.memRead && !MemStall(r.s, m) ==> m.rdata == data(r.count)
  }

  ghost predicate Answers(dp: Datapath, data: nat -> Word, env: nat -> MemIn, run: nat -> Track, t: nat) {
    forall u: nat | u < t :: Answered(dp, data, run(u), env(u))
  }

  // ---------------------------------------------------------------------------------------------------
  // Timing
  // ---------------------------------------------------------------------------------------------------

  function JumpsBefore(dp: Datapath, data: nat -> Word, k: nat): nat {
    if k == 0 then 0 else JumpsBefore(dp, data, k - 1) + Bit(JumpsAt(dp, data, k - 1))
  }

  function ReplaysBefore(dp: Datapath, data: nat -> Word, k: nat): nat {
    if k == 0 then 0 else ReplaysBefore(dp, data, k - 1) + Bit(Replays(dp, data, k - 1))
  }

  /** The unstalled cycle in which dynamic instruction k is in MEM/WB. */
  function Slot(dp: Datapath, data: nat -> Word, k: nat): nat {
    5 + k + 3 * JumpsBefore(dp, data, k) + ReplaysBefore(dp, data, k)
  }

  /** The slot of the instruction before n; nothing before the first. */
  function SlotBefore(dp: Datapath, data: nat -> Word, n: nat): int {
    if n == 0 then -1 else Slot(dp, data, n - 1)
  }

  /** Where the instructions in flight stand at unstalled cycle tau: last is the slot of the newest one that
      reached MEM/WB, mem that of the next, ex that of the one in (or bound for) ID/EX. */
  ghost predicate OnTime(s: Pipe, last: int, mem: int, ex: int, replays: bool, tau: nat) {
    && last <= tau && (s.memWb.valid <==> last == tau)
    && (s.exMem.valid ==> mem == tau + 1)
    && ex == tau + if s.idEx.valid then 2 + Bit(s.exMem.valid && replays)
                   else if s.fetch.ifId.valid then 3
                   else if s.fetch.suppressValid then 5 else 4
  }

  function Prev(dp: Datapath, data: nat -> Word, n: nat): Arch {
    if n == 0 then Seq(dp, data, 0) else Seq(dp, data, n - 1)
  }

  /** n instructions have entered MEM/WB, and ID/EX holds or awaits dynamic instruction k, at unstalled
      cycle tau. */
  ghost predicate RunInv(dp: Datapath, data: nat -> Word, s: Pipe, n: nat, k: nat, tau: nat) {
    && k == Bump(n, s.exMem.valid)
    && Inv(dp, s, Prev(dp, data, n), Seq(dp, data, n), data(n), Seq(dp, data, k))
    && OnTime(s, SlotBefore(dp, data, n), Slot(dp, data, n), Slot(dp, data, k), Replays(dp, data, n), tau)
  }

  /** When a load leaves EX/MEM, the hazard unit sees exactly the replays of the instruction path. */
  lemma HazardIsReplay(dp: Datapath, data: nat -> Word, s: Pipe, m: MemIn, n: nat, k: nat, tau: nat)
    requires WellFormed(dp) && Legal(dp, data, n) && RunInv(dp, data, s, n, k, tau) && !MemStall(s, m)
    ensures Hazard(dp, s) <==> s.exMem.valid && Replays(dp, data, n)
  {
    if s.exMem.valid && s.exMem.memRead && !HazardEx(s) {
      TrueBranch(dp, s, Prev(dp, data, n), Seq(dp, data, n), data(n), Seq(dp, data, k), 0);
    }
  }

  lemma SlotAfter(dp: Datapath, data: nat -> Word, k: nat)
    ensures Slot(dp, data, k + 1)
            == Slot(dp, data, k) + 1 + 3 * Bit(JumpsAt(dp, data, k)) + Bit(Replays(dp, data, k))
  {
  }

  lemma SlotUnfolds(dp: Datapath, data: nat -> Word, k: nat, i: nat)
    requires i == k + 1
    ensures Slot(dp, data, i)
            == Slot(dp, data, k) + 1 + 3 * Bit(JumpsAt(dp, data, k)) + Bit(Replays(dp, data, k))
    ensures SlotBefore(dp, data, i) == Slot(dp, data, k)
  {
    SlotAfter(dp, data, k);
  }

  /** An instruction in MEM/WB right ahead of the one in EX/MEM is its predecessor without a bubble. */
  lemma Adjacent(dp: Datapath, data: nat -> Word, s: Pipe, n: nat, k: nat, tau: nat)
    requires RunInv(dp, data, s, n, k, tau) && s.exMem.valid
    ensures s.memWb.valid <==> BackToBack(dp, data, n)
  {
    if n > 0 { SlotUnfolds(dp, data, n - 1, n); }
  }

  // ---------------------------------------------------------------------------------------------------
  // One clock edge keeps the invariant
  // ---------------------------------------------------------------------------------------------------

  lemma SeqUnfolds(dp: Datapath, data: nat -> Word, k: nat, i: nat)
    requires i == k + 1
    ensures Seq(dp, data, i) == Execute(dp, Seq(dp, data, k), data(k))
    ensures Prev(dp, data, i) == Seq(dp, data, k)
  {
  }

  lemma StallShape(dp: Datapath, s: Pipe, m: MemIn)
    requires MemStall(s, m)
    ensures var t := Step(dp, s, m);
            s.exMem.valid && t.exMem == s.exMem && t.memWb == s.memWb && t.idEx == s.idEx
            && (!s.idEx.valid ==> t.fetch == s.fetch)
  {
  }

  lemma StallStep(dp: Datapath, data: nat -> Word, s: Pipe, m: MemIn, n: nat, k: nat, tau: nat)
    requires RunInv(dp, data, s, n, k, tau) && MemStall(s, m)
    ensures RunInv(dp, data, Step(dp, s, m), n, k, tau)
  {
    StallKeeps(dp, s, m, Prev(dp, data, n), Seq(dp, data, n), data(n), Seq(dp, data, k));
    StallShape(dp, s, m);
  }

  lemma ReplayStep(dp: Datapath, data: nat -> Word, s: Pipe, m: MemIn, n: nat, k: nat, tau: nat)
    requires WellFormed(dp) && Legal(dp, data, n) && ReplaySafe(dp, data, n)
    requires RunInv(dp, data, s, n, k, tau) && !MemStall(s, m) && Hazard(dp, s)
    requires s.exMem.memRead ==> m.rdata == data(n)
    ensures s.exMem.valid && RunInv(dp, data, Step(dp, s, m), k, k, tau + 1)
  {
    HazardIsReplay(dp, data, s, m, n, k, tau);
    Adjacent(dp, data, s, n, k, tau);
    SeqUnfolds(dp, data, n, k);
    SlotUnfolds(dp, data, n, k);
    ReplayHolds(dp, s, m, Seq(dp, data, k));
    ReplayKeeps(dp, s, m, Prev(dp, data, n), Seq(dp, data, n), data(n), Seq(dp, data, k), data(k));
  }

  /** Which stages are occupied after a step without stall or replay. */
  lemma AdvanceShape(dp: Datapath, s: Pipe, m: MemIn)
    requires !MemStall(s, m) && !Hazard(dp, s)
    ensures var t := Step(dp, s, m);
            && t.memWb.valid == s.exMem.valid && t.exMem.valid == s.idEx.valid
            && t.idEx.valid == (s.fetch.ifId.valid && !Redirects(dp, s))
            && t.fetch.ifId.valid == (!s.fetch.suppressValid && !Redirects(dp, s))
            && t.fetch.suppressValid == Redirects(dp, s)
  {
  }

  /** The timing of such a step, in terms of the occupied stages alone. */
  lemma AdvanceTime(s: Pipe, t: Pipe, last: int, mem: int, ex: int, replays: bool, tau: nat,
                    last2: int, ex2: int, jump: bool, replays2: bool)
    requires OnTime(s, last, mem, ex, replays, tau) && !(s.exMem.valid && replays)
    requires t.memWb.valid == s.exMem.valid && t.exMem.valid == s.idEx.valid
    requires t.idEx.valid == (s.fetch.ifId.valid && !jump)
    requires t.fetch.ifId.valid == (!s.fetch.suppressValid && !jump)
    requires t.fetch.suppressValid == jump
    requires last2 == if s.exMem.valid then mem else last
    requires ex2 == ex + if s.idEx.valid then 1 + 3 * Bit(jump) + Bit(replays2) else 0
    requires jump ==> s.idEx.valid && !replays2
    requires s.idEx.valid && !jump ==> s.fetch.ifId.valid
    requires s.fetch.suppressValid ==> !s.fetch.ifId.valid
    ensures OnTime(t, last2, ex, ex2, replays2, tau + 1)
  {
  }

  lemma AdvanceOnTime(dp: Datapath, data: nat -> Word, s: Pipe, m: MemIn, n: nat, k: nat, i: nat, tau: nat)
    requires WellFormed(dp) && Legal(dp, data, n) && Legal(dp, data, k) && RunInv(dp, data, s, n, k, tau)
    requires !MemStall(s, m) && !Hazard(dp, s) && i == Bump(k, s.idEx.valid)
    ensures OnTime(Step(dp, s, m), SlotBefore(dp, data, k), Slot(dp, data, k), Slot(dp, data, i),
                   Replays(dp, data, k), tau + 1)
  {
    HazardIsReplay(dp, data, s, m, n, k, tau);
    if s.idEx.valid {
      TrueBranch(dp, s, Prev(dp, data, n), Seq(dp, data, n), data(n), Seq(dp, data, k), data(k));
      SlotUnfolds(dp, data, k, i);
    }
    if s.exMem.valid { SlotUnfolds(dp, data, n, k); }
    AdvanceShape(dp, s, m);
    AdvanceTime(s, Step(dp, s, m), SlotBefore(dp, data, n), Slot(dp, data, n), Slot(dp, data, k),
                Replays(dp, data, n), tau, SlotBefore(dp, data, k), Slot(dp, data, i),
                s.idEx.valid && JumpsAt(dp, data, k), Replays(dp, data, k));
  }

  lemma PrevIrrelevant(dp: Datapath, s: Pipe, prev: Arch, prev2: Arch, cur: Arch, raw: Word, ex: Arch)
    requires Inv(dp, s, prev, cur, raw, ex) && !s.memWb.valid
    ensures Inv(dp, s, prev2, cur, raw, ex)
  {
  }

  lemma AdvanceStep(dp: Datapath, data: nat -> Word, s: Pipe, m: MemIn, n: nat, k: nat, i: nat, tau: nat)
    requires WellFormed(dp) && Legal(dp, data, n) && Legal(dp, data, k) && RunInv(dp, data, s, n, k, tau)
    requires !MemStall(s, m) && !Hazard(dp, s) && i == Bump(k, s.idEx.valid)
    requires s.exMem.memRead ==> m.rdata == data(n)
    ensures RunInv(dp, data, Step(dp, s, m), k, i, tau + 1)
  {
    AdvanceOnTime(dp, data, s, m, n, k, i, tau);
    AdvanceShape(dp, s, m);
    if s.idEx.valid { SeqUnfolds(dp, data, k, i); }
    if s.exMem.valid { SeqUnfolds(dp, data, n, k); }
    AdvanceKeeps(dp, s, m, Prev(dp, data, n), Seq(dp, data, n), data(n), Seq(dp, data, k), data(k), Seq(dp, data, i));
    if !s.exMem.valid { PrevIrrelevant(dp, Step(dp, s, m), Seq(dp, data, n), Prev(dp, data, k), Seq(dp, data, k),
        data(k), Seq(dp, data, i)); }
  }

  /** A load leaves in this cycle and the instruction behind it is replayed. */
  predicate ReplayNow(dp: Datapath, s: Pipe, m: MemIn) {
    !MemStall(s, m) && Hazard(dp, s)
  }

  lemma StepKeeps(dp: Datapath, data: nat -> Word, s: Pipe, m: MemIn, n: nat, k: nat, tau: nat, i: nat)
    requires i == if MemStall(s, m) then k else Bump(k, !Hazard(dp, s) && s.idEx.valid)
    requires WellFormed(dp) && Legal(dp, data, n) && Legal(dp, data, k) && RunInv(dp, data, s, n, k, tau)
    requires ReplayNow(dp, s, m) ==> ReplaySafe(dp, data, n)
    requires s.exMem.memRead && !MemStall(s, m) ==> m.rdata == data(n)
    ensures if MemStall(s, m) then RunInv(dp, data, Step(dp, s, m), n, i, tau)
            else RunInv(dp, data, Step(dp, s, m), k, i, tau + 1)
  {
    if MemStall(s, m) {
      StallStep(dp, data, s, m, n, k, tau);
    } else if Hazard(dp, s) {
      HazardIsReplay(dp, data, s, m, n, k, tau);
      ReplayStep(dp, data, s, m, n, k, tau);
    } else {
      AdvanceStep(dp, data, s, m, n, k, i, tau);
    }
  }

  /** The operands that the instruction in ID/EX uses are the architectural ones. */
  predicate OperandsRight(dp: Datapath, s: Pipe, a: Arch) {
    var c := s.idEx.d.ctrl;
    (UsesA(c) ==> OpA(s) == X(dp, a)) && (UsesB(c) ==> OpB(s) == Y(dp, a))
  }

  lemma OperandsAfterReplay(dp: Datapath, data: nat -> Word, s: Pipe, m: MemIn, n: nat, k: nat, tau: nat)
    requires WellFormed(dp) && Legal(dp, data, n) && RunInv(dp, data, s, n, k, tau)
    requires ReplayNow(dp, s, m) && (s.exMem.memRead ==> m.rdata == data(n))
    ensures ReplaySafe(dp, data, n) <==> OperandsRight(dp, Step(dp, s, m), Seq(dp, data, k))
  {
    var prev, cur, ex := Prev(dp, data, n), Seq(dp, data, n), Seq(dp, data, k);
    HazardIsReplay(dp, data, s, m, n, k, tau);
    Adjacent(dp, data, s, n, k, tau);
    SeqUnfolds(dp, data, n, k);
    ReplayHolds(dp, s, m, ex);
    var c := s.idEx.d.ctrl;
    if UsesA(c) { ReplayedOperand(dp, s, m, prev, cur, data(n), ex, s.idEx.d.rs1, s.idEx.a); }
    if UsesB(c) { ReplayedOperand(dp, s, m, prev, cur, data(n), ex, s.idEx.d.rs2, s.idEx.b); }
  }

  /** What an operand is after a replay that loses it: its value in front of the load's predecessor. */
  lemma LostAfterReplay(dp: Datapath, data: nat -> Word, s: Pipe, m: MemIn, n: nat, k: nat, tau: nat, r: RegIdx,
                        latched: Word)
    requires WellFormed(dp) && Legal(dp, data, n) && RunInv(dp, data, s, n, k, tau)
    requires ReplayNow(dp, s, m) && (s.exMem.memRead ==> m.rdata == data(n)) && s.exMem.valid
    requires OperandInv(s, Prev(dp, data, n), Seq(dp, data, n), true, r, latched)
    requires BackToBack(dp, data, n) && !Keeps(dp, data, n, r)
    ensures Forward(Step(dp, s, m), r, latched) == Rd(Seq(dp, data, n - 1).regs, r)
  {
    var prev, cur, ex := Prev(dp, data, n), Seq(dp, data, n), Seq(dp, data, k);
    Adjacent(dp, data, s, n, k, tau);
    ReplayedOperand(dp, s, m, prev, cur, data(n), ex, r, latched);
  }

  /** An operand of the instruction in ID/EX is left with its value in front of the load's predecessor. */
  ghost predicate Stale(dp: Datapath, data: nat -> Word, n: nat, q: Pipe, d: Decoded)
    requires n > 0
  {
    && (UsesA(d.ctrl) && !Keeps(dp, data, n, d.rs1) ==> OpA(q) == Rd(Seq(dp, data, n - 1).regs, d.rs1))
    && (UsesB(d.ctrl) && !Keeps(dp, data, n, d.rs2) ==> OpB(q) == Rd(Seq(dp, data, n - 1).regs, d.rs2))
  }

  /** The instruction behind a load in EX/MEM is in ID/EX. */
  lemma BehindLoad(dp: Datapath, data: nat -> Word, s: Pipe, n: nat, k: nat, tau: nat)
    requires RunInv(dp, data, s, n, k, tau) && Legal(dp, data, n) && s.exMem.memRead
    ensures s.idEx.valid && k == n + 1 && Dyn(dp, data, n).ctrl.memRead
  {
  }

  lemma StaleAfterReplay(dp: Datapath, data: nat -> Word, s: Pipe, m: MemIn, n: nat, k: nat, tau: nat)
    requires WellFormed(dp) && Legal(dp, data, n) && RunInv(dp, data, s, n, k, tau)
    requires ReplayNow(dp, s, m) && (s.exMem.memRead ==> m.rdata == data(n)) && BackToBack(dp, data, n)
    ensures Stale(dp, data, n, Step(dp, s, m), s.idEx.d) && Step(dp, s, m).idEx == s.idEx
  {
    HazardIsReplay(dp, data, s, m, n, k, tau);
    BehindLoad(dp, data, s, n, k, tau);
    ReplayHolds(dp, s, m, Seq(dp, data, k));
    var i := s.idEx;
    if UsesA(i.d.ctrl) && !Keeps(dp, data, n, i.d.rs1) {
      LostAfterReplay(dp, data, s, m, n, k, tau, i.d.rs1, i.a);
    }
    if UsesB(i.d.ctrl) && !Keeps(dp, data, n, i.d.rs2) {
      LostAfterReplay(dp, data, s, m, n, k, tau, i.d.rs2, i.b);
    }
  }

  // ---------------------------------------------------------------------------------------------------
  // Theorems about every run
  // ---------------------------------------------------------------------------------------------------

  ghost predicate Holds(dp: Datapath, data: nat -> Word, r: Track) {
    && RunInv(dp, data, r.s, r.count, r.issued, r.time)
    && r.log == SeqLog(dp, data, r.count)
  }

  lemma CommitsAreArchitectural(dp: Datapath, data: nat -> Word, s: Pipe, m: MemIn, n: nat, k: nat, tau: nat)
    requires Legal(dp, data, n) && RunInv(dp, data, s, n, k, tau)
    requires s.exMem.memRead && !MemStall(s, m) ==> m.rdata == data(n)
    ensures Commits(dp, s, m) == if !MemStall(s, m) && s.exMem.valid then SeqCommits(dp, data, n) else []
  {
    if s.exMem.valid && s.exMem.regWrite {
      DrainValue(dp, s.exMem, Seq(dp, data, n), m.rdata);
    }
  }

  lemma SeqLogAfter(dp: Datapath, data: nat -> Word, n: nat)
    ensures SeqLog(dp, data, n + 1) == SeqLog(dp, data, n) + SeqCommits(dp, data, n)
  {
  }

  lemma SeqLogUnfolds(dp: Datapath, data: nat -> Word, n: nat, k: nat)
    requires k == n + 1
    ensures SeqLog(dp, data, k) == SeqLog(dp, data, n) + SeqCommits(dp, data, n)
  {
    SeqLogAfter(dp, data, n);
  }

  lemma IssuedNext(dp: Datapath, data: nat -> Word, s: Pipe, n: nat, k: nat, tau: nat)
    requires RunInv(dp, data, s, n, k, tau)
    ensures k == n || k == n + 1
  {
  }

  /** Both instructions around EX/MEM are legal. */
  lemma LegalAround(dp: Datapath, data: nat -> Word, length: nat, r: Track)
    requires Path(dp, data, length) && r.count + 1 < length && Holds(dp, data, r)
    ensures Legal(dp, data, r.count) && Legal(dp, data, r.issued)
  {
    IssuedNext(dp, data, r.s, r.count, r.issued, r.time);
  }

  lemma ProceedKeepsLog(dp: Datapath, data: nat -> Word, r: Track, m: MemIn, q: Track)
    requires Legal(dp, data, r.count) && Holds(dp, data, r) && q == Proceed(dp, r, m)
    requires r.s.exMem.memRead && !MemStall(r.s, m) ==> m.rdata == data(r.count)
    ensures q.log == SeqLog(dp, data, q.count)
  {
    CommitsAreArchitectural(dp, data, r.s, m, r.count, r.issued, r.time);
    if r.s.exMem.valid { SeqLogUnfolds(dp, data, r.count, r.issued); }
  }

  lemma FollowKeeps(dp: Datapath, data: nat -> Word, length: nat, r: Track, m: MemIn, q: Track)
    requires Path(dp, data, length) && r.count + 1 < length && Holds(dp, data, r)
    requires Answered(dp, data, r, m) && q == Follow(dp, r, m)
    requires r.count < q.count ==> ReplaySafe(dp, data, r.count)
    ensures Holds(dp, data, q)
  {
    if Quiet(dp, r.s) {
      LegalAround(dp, data, length, r);
      ProceedKeepsLog(dp, data, r, m, q);
      if ReplayNow(dp, r.s, m) { HazardIsReplay(dp, data, r.s, m, r.count, r.issued, r.time); }
      StepKeeps(dp, data, r.s, m, r.count, r.issued, r.time, q.issued);
    }
  }

  lemma ResetHolds(dp: Datapath, data: nat -> Word, garbage: Word)
    requires WellFormed(dp)
    ensures RunInv(dp, data, ResetPipe(garbage), 0, 0, 0)
  {
    var s := ResetPipe(garbage);
    assert View(s) == Zeros();
    assert Seq(dp, data, 0) == Arch(0, Zeros());
    assert Slot(dp, data, 0) == 5;
  }

  /** Instructions never leave MEM/WB backwards. */
  lemma {:induction false} CountGrows(dp: Datapath, env: nat -> MemIn, run: nat -> Track, t: nat)
    requires Behaviour(dp, env, run)
    ensures run(t).count <= run(t).issued && run(t).count <= run(t + 1).count
  {
    if t > 0 {
      var u := t - 1;
      CountGrows(dp, env, run, u);
      assert Clocked(dp, env, run, u);
    }
    assert Clocked(dp, env, run, t);
  }

  /** A property holds of the first n instructions. */
  ghost predicate UpTo(safe: nat -> bool, n: nat) {
    forall k: nat | k < n :: safe(k)
  }

  lemma OneMore(safe: nat -> bool, n: nat, more: bool)
    requires UpTo(safe, n)
    ensures UpTo(safe, n + Bit(more)) <==> (more ==> safe(n))
  {
  }

  lemma UpToAt(safe: nat -> bool, n: nat, k: nat)
    requires UpTo(safe, n) && k < n
    ensures safe(k)
  {
  }

  function ReplaySafeAt(dp: Datapath, data: nat -> Word): nat -> bool {
    (n: nat) => ReplaySafe(dp, data, n)
  }

  /** The run has not left the first length instructions in cycle t, and no load that has left EX/MEM lost an
      operand of its successor. */
  ghost predicate OnPath(dp: Datapath, data: nat -> Word, length: nat, env: nat -> MemIn, run: nat -> Track, t: nat) {
    && Path(dp, data, length) && Behaviour(dp, env, run) && Answers(dp, data, env, run, t)
    && run(t).count + 1 < length && UpTo(ReplaySafeAt(dp, data), run(t).count)
  }

  lemma OnPathBefore(dp: Datapath, data: nat -> Word, length: nat, env: nat -> MemIn, run: nat -> Track, u: nat, t: nat)
    requires OnPath(dp, data, length, env, run, t) && t == u + 1
    ensures OnPath(dp, data, length, env, run, u) && Answered(dp, data, run(u), env(u)) && Clocked(dp, env, run, u)
    ensures run(u).count <= run(u).issued && run(u).count <= run(t).count
    ensures run(u).count < run(t).count ==> ReplaySafe(dp, data, run(u).count)
  {
    CountGrows(dp, env, run, u);
    assert Clocked(dp, env, run, u) && Answered(dp, data, run(u), env(u));
    if run(u).count < run(t).count { UpToAt(ReplaySafeAt(dp, data), run(t).count, run(u).count); }
  }

  lemma OnPathNext(dp: Datapath, data: nat -> Word, length: nat, env: nat -> MemIn, run: nat -> Track, u: nat, t: nat)
    requires OnPath(dp, data, length, env, run, u) && Answered(dp, data, run(u), env(u)) && t == u + 1
    requires run(t).count + 1 < length
    requires run(t).count == run(u).count || (run(t).count == run(u).count + 1 && ReplaySafe(dp, data, run(u).count))
    ensures OnPath(dp, data, length, env, run, t)
  {
    OneMore(ReplaySafeAt(dp, data), run(u).count, run(u).count < run(t).count);
  }

  lemma {:induction false} RunHolds(dp: Datapath, data: nat -> Word, length: nat, env: nat -> MemIn,
      run: nat -> Track, t: nat)
    requires OnPath(dp, data, length, env, run, t)
    ensures Holds(dp, data, run(t))
  {
    if t == 0 {
      ResetHolds(dp, data, run(0).s.fetch.imemOut);
    } else {
      var u := t - 1;
      OnPathBefore(dp, data, length, env, run, u, t);
      RunHolds(dp, data, length, env, run, u);
      FollowKeeps(dp, data, length, run(u), env(u), run(t));
    }
  }

  /** Refinement: after every cycle of every run the committed register writes and stores, in order, are those
      of the first count instructions executed one at a time, and so is the register file. */
  lemma PipelineRefinesSequential(dp: Datapath, data: nat -> Word, length: nat, env: nat -> MemIn, run: nat -> Track,
      t: nat)
    requires OnPath(dp, data, length, env, run, t)
    ensures View(run(t).s) == Seq(dp, data, run(t).count).regs
    ensures run(t).log == SeqLog(dp, data, run(t).count)
  {
    RunHolds(dp, data, length, env, run, t);
  }

  /** The condition on replays is exact. In every run whose earlier replays were safe, the instruction replayed
      in cycle t has the architectural operands afterwards if and only if the replay is safe. */
  lemma ReplayIsExact(dp: Datapath, data: nat -> Word, length: nat, env: nat -> MemIn, run: nat -> Track, t: nat)
    requires OnPath(dp, data, length, env, run, t) && Answered(dp, data, run(t), env(t))
    requires Quiet(dp, run(t).s) && ReplayNow(dp, run(t).s, env(t))
    ensures ReplaySafe(dp, data, run(t).count)
            <==> OperandsRight(dp, run(t + 1).s, Seq(dp, data, run(t).issued))
  {
    RunHolds(dp, data, length, env, run, t);
    LegalAround(dp, data, length, run(t));
    assert Clocked(dp, env, run, t);
    OperandsAfterReplay(dp, data, run(t).s, env(t), run(t).count, run(t).issued, run(t).time);
  }

  /** What an unsafe replay does: an operand that is lost in it is left with its value in front of the instruction
      before the load. */
  lemma LostOperands(dp: Datapath, data: nat -> Word, length: nat, env: nat -> MemIn, run: nat -> Track, t: nat)
    requires OnPath(dp, data, length, env, run, t) && Answered(dp, data, run(t), env(t))
    requires Quiet(dp, run(t).s) && ReplayNow(dp, run(t).s, env(t)) && BackToBack(dp, data, run(t).count)
    ensures Stale(dp, data, run(t).count, run(t + 1).s, run(t).s.idEx.d)
  {
    RunHolds(dp, data, length, env, run, t);
    LegalAround(dp, data, length, run(t));
    assert Clocked(dp, env, run, t);
    StaleAfterReplay(dp, data, run(t).s, env(t), run(t).count, run(t).issued, run(t).time);
  }

  lemma SlotBounds(dp: Datapath, data: nat -> Word, s: Pipe, n: nat, k: nat, tau: nat)
    requires RunInv(dp, data, s, n, k, tau)
    ensures SlotBefore(dp, data, n) <= tau < Slot(dp, data, n)
    ensures s.memWb.valid <==> SlotBefore(dp, data, n) == tau
  {
  }

  function Slots(dp: Datapath, data: nat -> Word): nat -> int {
    (k: nat) => Slot(dp, data, k)
  }

  lemma SlotsIncrease(dp: Datapath, data: nat -> Word, f: nat -> int)
    requires f == Slots(dp, data)
    ensures forall k: nat :: f(k) < f(k + 1)
  {
    forall k: nat ensures f(k) < f(k + 1) { SlotAfter(dp, data, k); }
  }

  lemma {:induction false} Increasing(f: nat -> int, i: nat, j: nat)
    requires i < j && forall k: nat :: f(k) < f(k + 1)
    ensures f(i) < f(j)
    decreases j
  {
    assert f(j - 1) < f(j - 1 + 1);
    if i < j - 1 { Increasing(f, i, j - 1); }
  }

  /** An increasing sequence takes a value at most once. */
  lemma OnlyOnce(f: nat -> int, n: nat, tau: int, i: nat)
    requires forall k: nat :: f(k) < f(k + 1)
    requires (n > 0 ==> f(n - 1) <= tau) && tau < f(n)
    ensures n == i + 1 && f(n - 1) == tau <==> tau == f(i)
  {
    if n > 0 && i < n - 1 { Increasing(f, i, n - 1); }
    if n < i { Increasing(f, n, i); }
  }

  /** Between the newest instruction in MEM/WB and the next one there is no other slot. */
  lemma SlotOnlyOnce(dp: Datapath, data: nat -> Word, n: nat, tau: nat, i: nat, f: nat -> int)
    requires f == Slots(dp, data) && SlotBefore(dp, data, n) <= tau < Slot(dp, data, n)
    ensures n == i + 1 && SlotBefore(dp, data, n) == tau <==> tau == Slot(dp, data, i)
  {
    SlotsIncrease(dp, data, f);
    assert n > 0 ==> f(n - 1) == SlotBefore(dp, data, n);
    OnlyOnce(f, n, tau, i);
  }

  /** Exact timing: dynamic instruction i is in MEM/WB in exactly the cycles whose number, memory stalls not
      counted, is 5 + i + 3 per earlier redirect + 1 per earlier replay. */
  lemma ExactTiming(dp: Datapath, data: nat -> Word, length: nat, env: nat -> MemIn, run: nat -> Track, t: nat, i: nat)
    requires OnPath(dp, data, length, env, run, t)
    ensures run(t).s.memWb.valid && run(t).count == i + 1 <==> run(t).time == Slot(dp, data, i)
  {
    RunHolds(dp, data, length, env, run, t);
    SlotBounds(dp, data, run(t).s, run(t).count, run(t).issued, run(t).time);
    SlotOnlyOnce(dp, data, run(t).count, run(t).time, i, Slots(dp, data));
  }

  // ---------------------------------------------------------------------------------------------------
  // Exceptional events
  // ---------------------------------------------------------------------------------------------------

  lemma StaleUnfolds(dp: Datapath, data: nat -> Word, n: nat, k: nat, before: Regs, a: Arch, d: Decoded)
    requires k == n + 1 && Dyn(dp, data, n).ctrl.memRead
    requires before == Seq(dp, data, n).regs && a == Seq(dp, data, k) && d == Fetched(dp, a)
    ensures StaleSafe(dp, data, n) <==> LandsAligned(dp, d, a.pc, Rd(before, d.rs1), Rd(before, d.rs2))
  {
  }

  /** Between traps of the program itself, the branch unit on stale registers is all that can go wrong. */
  lemma QuietState(dp: Datapath, data: nat -> Word, s: Pipe, n: nat, k: nat, tau: nat)
    requires RunInv(dp, data, s, n, k, tau) && Legal(dp, data, n) && Legal(dp, data, k)
    ensures Quiet(dp, s) <==> (s.exMem.memRead ==> StaleSafe(dp, data, n))
  {
    if s.exMem.memRead {
      var before, a := Seq(dp, data, n).regs, Seq(dp, data, k);
      BehindLoad(dp, data, s, n, k, tau);
      StaleUnfolds(dp, data, n, k, before, a, Fetched(dp, a));
      StaleBranch(dp, s, Prev(dp, data, n), Seq(dp, data, n), data(n), Seq(dp, data, k));
    } else if s.idEx.valid {
      TrueTarget(dp, s, Prev(dp, data, n), Seq(dp, data, n), data(n), Seq(dp, data, k));
    }
  }

  /** A load leaves EX/MEM in a quiet cycle only. */
  lemma LeavesQuietly(dp: Datapath, data: nat -> Word, r: Track, m: MemIn)
    requires Holds(dp, data, r) && Legal(dp, data, r.count) && Legal(dp, data, r.issued)
    requires Follow(dp, r, m).count > r.count
    ensures StaleSafe(dp, data, r.count) && Follow(dp, r, m).count == r.count + 1
  {
    QuietState(dp, data, r.s, r.count, r.issued, r.time);
  }

  function StaleSafeAt(dp: Datapath, data: nat -> Word): nat -> bool {
    (n: nat) => StaleSafe(dp, data, n)
  }

  /** An instruction that enters MEM/WB at the end of cycle t is the next one, and safe. */
  predicate LeavesSafely(run: nat -> Track, safe: nat -> bool, t: nat) {
    run(t + 1).count == run(t).count || (run(t + 1).count == run(t).count + 1 && safe(run(t).count))
  }

  lemma CycleIsSafe(dp: Datapath, data: nat -> Word, length: nat, env: nat -> MemIn, run: nat -> Track, t: nat,
                    safe: nat -> bool)
    requires OnPath(dp, data, length, env, run, t) && safe == StaleSafeAt(dp, data)
    ensures LeavesSafely(run, safe, t)
  {
    RunHolds(dp, data, length, env, run, t);
    LegalAround(dp, data, length, run(t));
    CountGrows(dp, env, run, t);
    assert Clocked(dp, env, run, t);
    if run(t).count < run(t + 1).count { LeavesQuietly(dp, data, run(t), env(t)); }
  }

  lemma {:induction false} Accumulates(run: nat -> Track, safe: nat -> bool, t: nat)
    requires run(0).count == 0 && forall u: nat | u < t :: LeavesSafely(run, safe, u)
    ensures UpTo(safe, run(t).count)
  {
    if t > 0 {
      Accumulates(run, safe, t - 1);
      assert LeavesSafely(run, safe, t - 1);
    }
  }

  lemma {:induction false} AllLeaveSafely(dp: Datapath, data: nat -> Word, length: nat, env: nat -> MemIn,
                                          run: nat -> Track, t: nat, safe: nat -> bool)
    requires OnPath(dp, data, length, env, run, t) && safe == StaleSafeAt(dp, data)
    ensures forall u: nat | u < t :: LeavesSafely(run, safe, u)
  {
    if t > 0 {
      OnPathBefore(dp, data, length, env, run, t - 1, t);
      CycleIsSafe(dp, data, length, env, run, t - 1, safe);
      AllLeaveSafely(dp, data, length, env, run, t - 1, safe);
    }
  }

  lemma CycleIsQuiet(dp: Datapath, data: nat -> Word, length: nat, env: nat -> MemIn, run: nat -> Track, t: nat,
                     safe: nat -> bool)
    requires OnPath(dp, data, length, env, run, t) && safe == StaleSafeAt(dp, data)
    ensures Quiet(dp, run(t).s) <==> (run(t).s.exMem.memRead ==> safe(run(t).count))
  {
    RunHolds(dp, data, length, env, run, t);
    LegalAround(dp, data, length, run(t));
    QuietState(dp, data, run(t).s, run(t).count, run(t).issued, run(t).time);
  }

  /** Which programs the core runs without an exceptional event of its own making, exactly: cycle t is quiet if
      and only if every load that has come to EX/MEM so far is StaleSafe. */
  lemma QuietExactly(dp: Datapath, data: nat -> Word, length: nat, env: nat -> MemIn, run: nat -> Track, t: nat)
    requires OnPath(dp, data, length, env, run, t)
    ensures Quiet(dp, run(t).s) <==> UpTo(StaleSafeAt(dp, data), run(t).count + Bit(run(t).s.exMem.memRead))
  {
    var safe := StaleSafeAt(dp, data);
    AllLeaveSafely(dp, data, length, env, run, t, safe);
    Accumulates(run, safe, t);
    CycleIsQuiet(dp, data, length, env, run, t, safe);
    OneMore(safe, run(t).count, run(t).s.exMem.memRead);
  }

  // ---------------------------------------------------------------------------------------------------
  // Without loads and stores there are no stalls and no replays: the timing formula counts clock cycles
  // ---------------------------------------------------------------------------------------------------

  /** Dynamic instruction k is neither a load nor a store. */
  predicate NoAccess(dp: Datapath, data: nat -> Word, k: nat) {
    !Dyn(dp, data, k).ctrl.memRead && !Dyn(dp, data, k).ctrl.memWrite
  }

  ghost predicate MemoryFree(dp: Datapath, data: nat -> Word, length: nat) {
    forall k: nat | k < length :: NoAccess(dp, data, k)
  }

  lemma MemoryFreeState(dp: Datapath, data: nat -> Word, s: Pipe, n: nat, k: nat, tau: nat)
    requires RunInv(dp, data, s, n, k, tau) && Legal(dp, data, n) && Legal(dp, data, k)
    requires NoAccess(dp, data, n)
    ensures Quiet(dp, s) && !MemOp(s)
  {
    QuietState(dp, data, s, n, k, tau);
  }

  lemma NoMemoryCycle(dp: Datapath, data: nat -> Word, length: nat, env: nat -> MemIn, run: nat -> Track, t: nat)
    requires OnPath(dp, data, length, env, run, t) && MemoryFree(dp, data, length)
    ensures Quiet(dp, run(t).s) && !MemOp(run(t).s)
  {
    RunHolds(dp, data, length, env, run, t);
    LegalAround(dp, data, length, run(t));
    assert NoAccess(dp, data, run(t).count);
    MemoryFreeState(dp, data, run(t).s, run(t).count, run(t).issued, run(t).time);
  }

  lemma {:induction false} NoMemoryNoStall(dp: Datapath, data: nat -> Word, length: nat, env: nat -> MemIn,
      run: nat -> Track, t: nat)
    requires OnPath(dp, data, length, env, run, t) && MemoryFree(dp, data, length)
    ensures run(t).time == t
  {
    if t > 0 {
      var u := t - 1;
      OnPathBefore(dp, data, length, env, run, u, t);
      NoMemoryNoStall(dp, data, length, env, run, u);
      NoMemoryCycle(dp, data, length, env, run, u);
    }
  }

  lemma NoReplayHere(dp: Datapath, data: nat -> Word, j: nat, k: nat)
    requires NoAccess(dp, data, j) && k == j + 1
    ensures ReplaysBefore(dp, data, k) == ReplaysBefore(dp, data, j)
  {
  }

  lemma {:induction false} NoLoadsNoReplays(dp: Datapath, data: nat -> Word, length: nat, k: nat)
    requires k < length && MemoryFree(dp, data, length)
    ensures ReplaysBefore(dp, data, k) == 0
  {
    if k > 0 {
      var j := k - 1;
      NoLoadsNoReplays(dp, data, length, j);
      assert NoAccess(dp, data, j);
      NoReplayHere(dp, data, j, k);
    }
  }

  /** Exact timing in clock cycles, for paths without loads and stores: dynamic instruction i is in MEM/WB
      exactly in cycle 5 + i + 3 per earlier taken branch or jump. */
  lemma MemoryFreeTiming(dp: Datapath, data: nat -> Word, length: nat, env: nat -> MemIn, run: nat -> Track, t: nat,
      i: nat)
    requires OnPath(dp, data, length, env, run, t) && MemoryFree(dp, data, length) && i < length
    ensures run(t).s.memWb.valid && run(t).count == i + 1 <==> t == 5 + i + 3 * JumpsBefore(dp, data, i)
  {
    ExactTiming(dp, data, length, env, run, t, i);
    NoMemoryNoStall(dp, data, length, env, run, t);
    NoLoadsNoReplays(dp, data, length, i);
  }
}
