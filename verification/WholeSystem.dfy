/** Core, bus and data memory together run every program of the data memory: with the architecture's results, and in
    clock cycles that a closed formula gives. */
module WholeSystem {
  import opened Words
  import opened Pipeline
  import opened PipelineInvariant
  import opened PipelineRefinement
  import opened PipelineMemory
  import ByteMemory
  import Bus
  import Interconnect
  import Decode
  import opened Isa
  import opened Rv32
  import opened DataBus

  function CoreRun(run: nat -> System): nat -> Track {
    (t: nat) => run(t).core
  }

  function CoreEnv(run: nat -> System): nat -> MemIn {
    (t: nat) => Answer(run(t).bus.master)
  }

  /** Seen alone, the core in the system behaves as the core does against some data memory. */
  lemma CoreBehaves(dp: Datapath, mem: ByteMemory.Memory, env: nat -> Outside, run: nat -> System)
    requires Operates(dp, mem, env, run)
    ensures Behaviour(dp, CoreEnv(run), CoreRun(run))
  {
    forall t: nat ensures Clocked(dp, CoreEnv(run), CoreRun(run), t) {
      assert Edge(dp, env, run, t);
    }
  }

  // ---------------------------------------------------------------------------------------------------
  // Clock cycles
  // ---------------------------------------------------------------------------------------------------

  function CostOf(dp: Datapath, data: nat -> Word, k: nat): nat {
    Cost(Dyn(dp, data, k).ctrl.memRead, Dyn(dp, data, k).ctrl.memWrite)
  }

  /** The cycles that the accesses of the first n instructions wait. */
  function Costs(dp: Datapath, data: nat -> Word, n: nat): nat {
    if n == 0 then 0 else Costs(dp, data, n - 1) + CostOf(dp, data, n - 1)
  }

  lemma CostsAfter(dp: Datapath, data: nat -> Word, n: nat)
    ensures Costs(dp, data, n + 1) == Costs(dp, data, n) + CostOf(dp, data, n)
  {
  }

  lemma CostsUnfold(dp: Datapath, data: nat -> Word, n: nat, k: nat)
    requires k == n + 1
    ensures Costs(dp, data, k) == Costs(dp, data, n) + CostOf(dp, data, n)
  {
    CostsAfter(dp, data, n);
  }

  /** The clock at which instruction k enters MEM/WB. */
  function Clock(dp: Datapath, data: nat -> Word, k: nat): nat {
    Slot(dp, data, k) + Costs(dp, data, k + 1)
  }

  function CostsAt(dp: Datapath, data: nat -> Word): nat -> int {
    (k: nat) => Costs(dp, data, k)
  }

  function Clocks(slots: nat -> int, costs: nat -> int): nat -> int {
    (k: nat) => slots(k) + costs(k + 1)
  }

  lemma CostsGrow(dp: Datapath, data: nat -> Word, costs: nat -> int)
    requires costs == CostsAt(dp, data)
    ensures forall k: nat :: costs(k) <= costs(k + 1)
  {
    forall k: nat ensures costs(k) <= costs(k + 1) { CostsAfter(dp, data, k); }
  }

  ghost predicate Rising(f: nat -> int) {
    forall j: nat, k: nat | j < k :: f(j) < f(k)
  }

  lemma ClocksIncrease(slots: nat -> int, costs: nat -> int, f: nat -> int)
    requires (forall k: nat :: slots(k) < slots(k + 1)) && (forall k: nat :: costs(k) <= costs(k + 1))
    requires f == Clocks(slots, costs)
    ensures Rising(f)
  {
    forall k: nat ensures f(k) < f(k + 1) {
      assert slots(k) < slots(k + 1);
      var j := k + 1;
      assert costs(j) <= costs(j + 1);
    }
    forall j: nat, k: nat | j < k ensures f(j) < f(k) { Increasing(f, j, k); }
  }

  /** The clocks as a function, and that it increases. */
  lemma ClockFunction(dp: Datapath, data: nat -> Word, f: nat -> int)
    requires f == Clocks(Slots(dp, data), CostsAt(dp, data))
    ensures Rising(f)
  {
    SlotsIncrease(dp, data, Slots(dp, data));
    CostsGrow(dp, data, CostsAt(dp, data));
    ClocksIncrease(Slots(dp, data), CostsAt(dp, data), f);
  }

  lemma ClockIs(dp: Datapath, data: nat -> Word, k: nat, f: nat -> int)
    requires f == Clocks(Slots(dp, data), CostsAt(dp, data))
    ensures f(k) == Clock(dp, data, k)
  {
  }

  // ---------------------------------------------------------------------------------------------------
  // The system keeps step
  // ---------------------------------------------------------------------------------------------------

  /** Instruction k stays within the data memory. */
  predicate LocalAt(dp: Datapath, data: nat -> Word, k: nat) {
    var c := Dyn(dp, data, k).ctrl;
    && (c.memRead || c.memWrite ==> Interconnect.Decode(Result(dp, Seq(dp, data, k))) == Interconnect.To(DMEM))
    && (c.memWrite ==> c.memFunct3 <= 2)
  }

  /** A system with a program whose instructions neither trap nor leave the data memory, and whose loads are safe
      for the instructions behind them. */
  ghost predicate Sound(dp: Datapath, mem: ByteMemory.Memory, data: nat -> Word, length: nat, env: nat -> Outside,
                        run: nat -> System) {
    && Path(dp, data, length) && Operates(dp, mem, env, run)
    && (forall k: nat | k < length :: Finds(dp, mem, data, k) && LocalAt(dp, data, k))
    && length > 1 && UpTo(ReplaySafeAt(dp, data), length) && UpTo(StaleSafeAt(dp, data), length - 1)
  }

  lemma TidyState(dp: Datapath, data: nat -> Word, s: Pipe, n: nat, k: nat, tau: nat)
    requires RunInv(dp, data, s, n, k, tau) && Legal(dp, data, n) && LocalAt(dp, data, n)
    ensures Tidy(s) && k == Bump(n, s.exMem.valid)
    ensures Cost(s.exMem.memRead, s.exMem.memWrite) == if s.exMem.valid then CostOf(dp, data, n) else 0
  {
    if s.exMem.valid { assert InMem(dp, s.exMem, Seq(dp, data, n)); }
  }

  /** What the rest of the system needs to know about a cycle of the core. */
  lemma CoreCycle(dp: Datapath, mem: ByteMemory.Memory, data: nat -> Word, length: nat, env: nat -> MemIn,
                  run: nat -> Track, t: nat)
    requires OnPath(dp, data, length, env, run, t) && LocalAt(dp, data, run(t).count)
    ensures Tidy(run(t).s) && run(t).issued == Bump(run(t).count, run(t).s.exMem.valid)
    ensures Costs(dp, data, run(t).issued)
            == Costs(dp, data, run(t).count) + Cost(run(t).s.exMem.memRead, run(t).s.exMem.memWrite)
    ensures SlotBefore(dp, data, run(t).count) <= run(t).time < Slot(dp, data, run(t).count)
  {
    RunHolds(dp, data, length, env, run, t);
    LegalAround(dp, data, length, run(t));
    TidyState(dp, data, run(t).s, run(t).count, run(t).issued, run(t).time);
    SlotBounds(dp, data, run(t).s, run(t).count, run(t).issued, run(t).time);
    if run(t).s.exMem.valid { CostsUnfold(dp, data, run(t).count, run(t).issued); }
  }

  lemma BusCycle(dp: Datapath, mem: ByteMemory.Memory, x: System, o: Outside, spent: nat, next: nat, t: nat, y: System)
    requires Synchronous(x, mem, spent, t) && Quiet(dp, x.core.s) && Tidy(x.core.s) && y == DataBus.Step(dp, x, o)
    requires next == spent + Cost(x.core.s.exMem.memRead, x.core.s.exMem.memWrite)
    ensures if y.core.time == x.core.time
            then y.core.count == x.core.count && Synchronous(y, mem, spent, t + 1)
            else y.core.count == x.core.issued && Synchronous(y, mem, next, t + 1)
  {
    SynchronousStep(dp, mem, x, o, spent, t, y);
  }

  /** The state of the system at clock t. */
  ghost predicate InStep(dp: Datapath, mem: ByteMemory.Memory, data: nat -> Word, length: nat, run: nat -> System,
                         t: nat) {
    && OnPath(dp, data, length, CoreEnv(run), CoreRun(run), t) && Quiet(dp, run(t).core.s)
    && Synchronous(run(t), mem, Costs(dp, data, run(t).core.count), t)
  }

  lemma Shorter(safe: nat -> bool, n: nat, length: nat)
    requires UpTo(safe, length) && n <= length
    ensures UpTo(safe, n)
  {
  }

  lemma QuietHere(dp: Datapath, data: nat -> Word, length: nat, env: nat -> MemIn, run: nat -> Track, t: nat)
    requires OnPath(dp, data, length, env, run, t) && UpTo(StaleSafeAt(dp, data), length - 1)
    ensures Quiet(dp, run(t).s)
  {
    QuietExactly(dp, data, length, env, run, t);
    Shorter(StaleSafeAt(dp, data), run(t).count + Bit(run(t).s.exMem.memRead), length - 1);
  }

  lemma StartsInStep(dp: Datapath, mem: ByteMemory.Memory, data: nat -> Word, length: nat, env: nat -> Outside,
                     run: nat -> System)
    requires Sound(dp, mem, data, length, env, run)
    ensures InStep(dp, mem, data, length, run, 0)
  {
    CoreBehaves(dp, mem, env, run);
    QuietHere(dp, data, length, CoreEnv(run), CoreRun(run), 0);
  }

  lemma AnswersHere(dp: Datapath, mem: ByteMemory.Memory, data: nat -> Word, length: nat, env: nat -> Outside,
                    run: nat -> System, t: nat)
    requires Sound(dp, mem, data, length, env, run) && InStep(dp, mem, data, length, run, t)
    requires Tidy(run(t).core.s)
    ensures Answered(dp, data, CoreRun(run)(t), CoreEnv(run)(t))
  {
    BusServes(dp, mem, run(t), Costs(dp, data, run(t).core.count), t);
    CycleAnswers(dp, mem, data, length, CoreEnv(run), CoreRun(run), t);
  }

  /** One clock later the core is still on its path. */
  lemma PathGoesOn(dp: Datapath, mem: ByteMemory.Memory, data: nat -> Word, length: nat, env: nat -> Outside,
                   run: nat -> System, u: nat, t: nat)
    requires Sound(dp, mem, data, length, env, run) && InStep(dp, mem, data, length, run, u) && t == u + 1
    requires run(t).core.count + 1 < length && Tidy(run(u).core.s)
    requires run(t).core.count == run(u).core.count || run(t).core.count == run(u).core.count + 1
    ensures OnPath(dp, data, length, CoreEnv(run), CoreRun(run), t) && Quiet(dp, run(t).core.s)
  {
    AnswersHere(dp, mem, data, length, env, run, u);
    UpToAt(ReplaySafeAt(dp, data), length, run(u).core.count);
    OnPathNext(dp, data, length, CoreEnv(run), CoreRun(run), u, t);
    QuietHere(dp, data, length, CoreEnv(run), CoreRun(run), t);
  }

  lemma StaysInStep(dp: Datapath, mem: ByteMemory.Memory, data: nat -> Word, length: nat, env: nat -> Outside,
                    run: nat -> System, u: nat, t: nat)
    requires Sound(dp, mem, data, length, env, run) && InStep(dp, mem, data, length, run, u) && t == u + 1
    ensures run(u).core.count <= run(t).core.count <= run(u).core.count + 1
    ensures run(t).core.count + 1 < length ==> InStep(dp, mem, data, length, run, t)
  {
    var x := run(u);
    assert Edge(dp, env, run, u) && LocalAt(dp, data, x.core.count);
    CoreCycle(dp, mem, data, length, CoreEnv(run), CoreRun(run), u);
    BusCycle(dp, mem, x, env(u), Costs(dp, data, x.core.count), Costs(dp, data, x.core.issued), u, run(t));
    if run(t).core.count + 1 < length { PathGoesOn(dp, mem, data, length, env, run, u, t); }
  }

  // ---------------------------------------------------------------------------------------------------
  // Which instruction the clock has reached
  // ---------------------------------------------------------------------------------------------------

  lemma WaitBounds(c: Pipe, s: Bus.State, b: Adapter, r: ByteMemory.Ram, before: ByteMemory.Memory)
    requires InPhase(c, s, b, r, before) && Tidy(c)
    ensures Waited(c, s, b) <= Cost(c.exMem.memRead, c.exMem.memWrite)
    ensures Waited(c, s, b) == 0 ==> AtRest(s, b, r, before)
  {
  }

  lemma CostHere(dp: Datapath, data: nat -> Word, n: nat, k: nat, valid: bool, cost: nat)
    requires k == Bump(n, valid) && Costs(dp, data, k) == Costs(dp, data, n) + cost
    ensures Costs(dp, data, n) + cost <= Costs(dp, data, n + 1)
  {
    if !valid { CostsUnfold(dp, data, n, n + 1); }
  }

  /** n instructions have entered MEM/WB at clock t. */
  predicate Reached(f: nat -> int, n: nat, t: int) {
    (n > 0 ==> f(n - 1) <= t) && t < f(n)
  }

  lemma Values(dp: Datapath, data: nat -> Word, k: nat, slots: nat -> int, costs: nat -> int)
    requires slots == Slots(dp, data) && costs == CostsAt(dp, data)
    ensures slots(k) == Slot(dp, data, k) && costs(k) == Costs(dp, data, k)
  {
  }

  lemma SlotBeforeValue(dp: Datapath, data: nat -> Word, n: nat, slots: nat -> int)
    requires slots == Slots(dp, data) && n > 0
    ensures slots(n - 1) == SlotBefore(dp, data, n)
  {
  }

  lemma ReachedFrom(slots: nat -> int, costs: nat -> int, n: nat, tau: nat, waited: nat, t: int, last: int, slot: int,
                    cost: int, next: int)
    requires (n > 0 ==> slots(n - 1) == last) && slots(n) == slot && costs(n) == cost && costs(n + 1) == next
    requires last <= tau < slot && t == tau + cost + waited && cost + waited <= next
    ensures Reached(Clocks(slots, costs), n, t)
  {
  }

  lemma ClockBounds(dp: Datapath, mem: ByteMemory.Memory, data: nat -> Word, length: nat, env: nat -> Outside,
                    run: nat -> System, t: nat)
    requires Sound(dp, mem, data, length, env, run) && InStep(dp, mem, data, length, run, t)
    ensures Reached(Clocks(Slots(dp, data), CostsAt(dp, data)), run(t).core.count, t)
  {
    var x := run(t);
    assert LocalAt(dp, data, x.core.count);
    CoreCycle(dp, mem, data, length, CoreEnv(run), CoreRun(run), t);
    WaitBounds(x.core.s, x.bus, x.adapter, x.ram, After(mem, x.core.log));
    CostHere(dp, data, x.core.count, x.core.issued, x.core.s.exMem.valid,
             Cost(x.core.s.exMem.memRead, x.core.s.exMem.memWrite));
    var n, slots, costs := x.core.count, Slots(dp, data), CostsAt(dp, data);
    Values(dp, data, n, slots, costs);
    Values(dp, data, n + 1, slots, costs);
    if n > 0 { SlotBeforeValue(dp, data, n, slots); }
    ReachedFrom(slots, costs, n, x.core.time, Waited(x.core.s, x.bus, x.adapter), t, SlotBefore(dp, data, n),
                Slot(dp, data, n), Costs(dp, data, n), Costs(dp, data, n + 1));
  }

  /** Between the clocks of consecutive instructions. */
  lemma Between(f: nat -> int, n: nat, t: int, i: nat)
    requires Rising(f) && Reached(f, n, t)
    ensures t < f(i) ==> n <= i
    ensures t == f(i) ==> n == i + 1
  {
    assert n > 0 && i < n - 1 ==> f(i) < f(n - 1);
    assert n < i ==> f(n) < f(i);
  }

  lemma CountAt(dp: Datapath, mem: ByteMemory.Memory, data: nat -> Word, length: nat, env: nat -> Outside,
                run: nat -> System, t: nat, i: nat, n: nat, f: nat -> int)
    requires Sound(dp, mem, data, length, env, run) && InStep(dp, mem, data, length, run, t) && n == run(t).core.count
    requires f == Clocks(Slots(dp, data), CostsAt(dp, data))
    ensures t < f(i) ==> n <= i
    ensures t == f(i) ==> n == i + 1
  {
    ClockBounds(dp, mem, data, length, env, run, t);
    ClockFunction(dp, data, f);
    Between(f, n, t, i);
  }

  lemma {:induction false} InStepUntil(dp: Datapath, mem: ByteMemory.Memory, data: nat -> Word, length: nat,
                                       env: nat -> Outside, run: nat -> System, t: nat, i: nat, f: nat -> int)
    requires Sound(dp, mem, data, length, env, run) && i + 2 < length
    requires f == Clocks(Slots(dp, data), CostsAt(dp, data)) && t <= f(i)
    ensures InStep(dp, mem, data, length, run, t)
    decreases t
  {
    if t == 0 {
      StartsInStep(dp, mem, data, length, env, run);
    } else {
      var u := t - 1;
      InStepUntil(dp, mem, data, length, env, run, u, i, f);
      CountAt(dp, mem, data, length, env, run, u, i, run(u).core.count, f);
      StaysInStep(dp, mem, data, length, env, run, u, t);
    }
  }

  /** At its clock, and not before, instruction i enters MEM/WB, and the bus is at rest. */
  lemma EntersAtClock(dp: Datapath, mem: ByteMemory.Memory, data: nat -> Word, length: nat, env: nat -> Outside,
                      run: nat -> System, i: nat, t: nat)
    requires Sound(dp, mem, data, length, env, run) && i + 2 < length && t == Clock(dp, data, i)
    ensures InStep(dp, mem, data, length, run, t) && run(t).core.count == i + 1
    ensures forall c: nat | c < t :: run(c).core.count <= i
  {
    var f := Clocks(Slots(dp, data), CostsAt(dp, data));
    ClockIs(dp, data, i, f);
    InStepUntil(dp, mem, data, length, env, run, t, i, f);
    CountAt(dp, mem, data, length, env, run, t, i, run(t).core.count, f);
    forall c: nat | c < t ensures run(c).core.count <= i {
      InStepUntil(dp, mem, data, length, env, run, c, i, f);
      CountAt(dp, mem, data, length, env, run, c, i, run(c).core.count, f);
    }
  }

  lemma OnTheDot(dp: Datapath, data: nat -> Word, i: nat, tau: nat, waited: nat, t: nat)
    requires t == Clock(dp, data, i) == tau + Costs(dp, data, i + 1) + waited && SlotBefore(dp, data, i + 1) <= tau
    ensures tau == Slot(dp, data, i) && waited == 0
  {
  }

  lemma SettledAtClock(dp: Datapath, mem: ByteMemory.Memory, data: nat -> Word, length: nat, env: nat -> Outside,
                       run: nat -> System, i: nat, t: nat)
    requires Sound(dp, mem, data, length, env, run) && InStep(dp, mem, data, length, run, t)
    requires run(t).core.count == i + 1 && t == Clock(dp, data, i)
    ensures run(t).core.s.memWb.valid && run(t).ram.mem == After(mem, run(t).core.log)
  {
    var x := run(t);
    assert LocalAt(dp, data, x.core.count);
    CoreCycle(dp, mem, data, length, CoreEnv(run), CoreRun(run), t);
    OnTheDot(dp, data, i, x.core.time, Waited(x.core.s, x.bus, x.adapter), t);
    WaitBounds(x.core.s, x.bus, x.adapter, x.ram, After(mem, x.core.log));
    ExactTiming(dp, data, length, CoreEnv(run), CoreRun(run), t, i);
  }

  lemma ResultsAtClock(dp: Datapath, mem: ByteMemory.Memory, data: nat -> Word, length: nat, env: nat -> Outside,
                       run: nat -> System, i: nat, t: nat, n: nat)
    requires Sound(dp, mem, data, length, env, run) && i + 2 < length && t == Clock(dp, data, i) && n == i + 1
    ensures run(t).core.count == n && run(t).core.s.memWb.valid
    ensures forall c: nat | c < t :: run(c).core.count <= i
    ensures View(run(t).core.s) == Seq(dp, data, n).regs && run(t).core.log == SeqLog(dp, data, n)
    ensures run(t).ram.mem == After(mem, SeqLog(dp, data, n))
  {
    EntersAtClock(dp, mem, data, length, env, run, i, t);
    SettledAtClock(dp, mem, data, length, env, run, i, t);
    PipelineRefinesSequential(dp, data, length, CoreEnv(run), CoreRun(run), t);
  }

  // ---------------------------------------------------------------------------------------------------
  // Programs of the architecture
  // ---------------------------------------------------------------------------------------------------

  /** A load or store stays within the data memory. */
  predicate InDataMemory(code: Word -> Instr, bytes: ByteMemory.ByteMap, k: nat) {
    var m := State(code, bytes, k);
    var i := code(m.pc);
    i.LoadFrom? || i.StoreTo? ==> Interconnect.Decode(Access(i, m).addr) == Interconnect.To(DMEM)
  }

  lemma LocalHere(u: Datapath, data: nat -> Word, k: nat, i: Instr, m: Machine)
    requires Standard(u) && Encodable(i) && Delivers(Fetched(u, m.Core()), i) && Seq(u, data, k) == m.Core()
    requires i.LoadFrom? || i.StoreTo? ==> Interconnect.Decode(Access(i, m).addr) == Interconnect.To(DMEM)
    ensures LocalAt(u, data, k)
  {
    if i.LoadFrom? || i.StoreTo? { AccessAddress(u, i, m); }
  }

  lemma StaysLocal(u: Datapath, code: Word -> Instr, bytes: ByteMemory.ByteMap, data: nat -> Word, k: nat, m: Machine)
    requires Standard(u) && data == Loads(code, bytes) && m == State(code, bytes, k) && InDataMemory(code, bytes, k)
    requires forall i: nat | i <= k :: Delivered(u, code, bytes, i)
    ensures LocalAt(u, data, k)
  {
    SameState(u, code, bytes, data, k, m);
    assert Delivered(u, code, bytes, k);
    LocalHere(u, data, k, code(m.pc), m);
  }

  /** A program of the data memory whose loads are safe for the instructions behind them. */
  ghost predicate SafeProgram(u: Datapath, code: Word -> Instr, bytes: ByteMemory.ByteMap, length: nat) {
    && length > 1 && (forall k: nat | k < length :: InDataMemory(code, bytes, k))
    && UpTo(ReplaySafeAt(u, Loads(code, bytes)), length) && UpTo(JumpSafeAt(code, bytes), length - 1)
  }

  lemma ProgramIsSound(u: Datapath, mem: ByteMemory.Memory, code: Word -> Instr, bytes: ByteMemory.ByteMap,
                       data: nat -> Word, length: nat, env: nat -> Outside, run: nat -> System)
    requires AllCovered(u, code, bytes, length) && SafeProgram(u, code, bytes, length)
    requires bytes == ByteMemory.Bytes(mem) && data == Loads(code, bytes) && Operates(u, mem, env, run)
    ensures Sound(u, mem, data, length, env, run)
  {
    CoveredUnfolds(u, code, bytes, length);
    ProgramIsPath(u, mem, code, bytes, data, length);
    SameSafety(u, code, bytes, data, length, length - 1);
    forall k: nat | k < length ensures LocalAt(u, data, k) {
      StaysLocal(u, code, bytes, data, k, State(code, bytes, k));
    }
  }

  lemma SameResults(u: Datapath, mem: ByteMemory.Memory, code: Word -> Instr, bytes: ByteMemory.ByteMap,
                    data: nat -> Word, length: nat, n: nat)
    requires AllCovered(u, code, bytes, length) && n < length
    requires bytes == ByteMemory.Bytes(mem) && data == Loads(code, bytes)
    ensures Seq(u, data, n).regs == State(code, bytes, n).regs && SeqLog(u, data, n) == History(code, bytes, n)
    ensures ByteMemory.Bytes(After(mem, SeqLog(u, data, n))) == State(code, bytes, n).bytes
  {
    CoveredUnfolds(u, code, bytes, length);
    SameState(u, code, bytes, data, n, State(code, bytes, n));
    SameHistory(u, code, bytes, data, n);
    MemoryIsBytes(mem, code, bytes, n);
  }

  lemma ProgramAtClock(u: Datapath, mem: ByteMemory.Memory, code: Word -> Instr, bytes: ByteMemory.ByteMap,
                       data: nat -> Word, length: nat, env: nat -> Outside, run: nat -> System, i: nat, t: nat, n: nat)
    requires AllCovered(u, code, bytes, length) && SafeProgram(u, code, bytes, length)
    requires bytes == ByteMemory.Bytes(mem) && data == Loads(code, bytes) && Operates(u, mem, env, run)
    requires i + 2 < length && t == Clock(u, data, i) && n == i + 1
    ensures run(t).core.count == n && run(t).core.s.memWb.valid
    ensures forall c: nat | c < t :: run(c).core.count <= i
    ensures View(run(t).core.s) == Seq(u, data, n).regs && run(t).core.log == SeqLog(u, data, n)
    ensures run(t).ram.mem == After(mem, SeqLog(u, data, n))
  {
    ProgramIsSound(u, mem, code, bytes, data, length, env, run);
    ResultsAtClock(u, mem, data, length, env, run, i, t, n);
  }

  lemma AnySystem(u: Datapath, mem: ByteMemory.Memory, code: Word -> Instr, bytes: ByteMemory.ByteMap,
                  data: nat -> Word, length: nat, env: nat -> Outside, run: nat -> System, i: nat, t: nat, n: nat)
    requires AllCovered(u, code, bytes, length) && SafeProgram(u, code, bytes, length)
    requires bytes == ByteMemory.Bytes(mem) && data == Loads(code, bytes) && Operates(u, mem, env, run)
    requires i + 2 < length && t == Clock(u, data, i) && n == i + 1
    ensures run(t).core.count == n && run(t).core.s.memWb.valid
    ensures forall c: nat | c < t :: run(c).core.count <= i
    ensures View(run(t).core.s) == State(code, bytes, n).regs && run(t).core.log == History(code, bytes, n)
    ensures ByteMemory.Bytes(run(t).ram.mem) == State(code, bytes, n).bytes
  {
    ProgramAtClock(u, mem, code, bytes, data, length, env, run, i, t, n);
    SameResults(u, mem, code, bytes, data, length, n);
  }

  /** The whole system, cycle by cycle. Core, bus master, interconnect, memory adapter and block RAM together run
      every encoded program that does not trap, stays within the data memory, and has loads that are safe for the
      instructions behind them; whatever peripherals and other slaves do, instruction i enters MEM/WB at clock
        5 + i + 3 per earlier taken branch or jump + 1 per earlier replay + 4 per load and 5 per store up to i
      and not before. At that clock register file and RAM are those of the architecture after i + 1 instructions. */
  lemma SystemRunsProgram(imem: Word -> Word, u: Datapath, mem: ByteMemory.Memory, code: Word -> Instr,
                          bytes: ByteMemory.ByteMap, data: nat -> Word, length: nat, env: nat -> Outside,
                          run: nat -> System, i: nat, t: nat, n: nat)
    requires u == Decode.Core(imem) && bytes == ByteMemory.Bytes(mem) && Operates(u, mem, env, run)
    requires Program(imem, code, bytes, length) && SafeProgram(u, code, bytes, length) && i + 2 < length
    requires data == Loads(code, bytes) && t == Clock(u, data, i) && n == i + 1
    ensures run(t).core.count == n && run(t).core.s.memWb.valid
    ensures forall c: nat | c < t :: run(c).core.count <= i
    ensures View(run(t).core.s) == State(code, bytes, n).regs && run(t).core.log == History(code, bytes, n)
    ensures ByteMemory.Bytes(run(t).ram.mem) == State(code, bytes, n).bytes
  {
    CoreCoversAll(imem, u, code, bytes, length);
    AnySystem(u, mem, code, bytes, data, length, env, run, i, t, n);
  }
}
