/** RV32 programs with peripherals: the architecture with loads that devices answer, and the system against it. */
module IoProgram {
  import opened Words
  import opened Registers
  import opened Pipeline
  import opened PipelineRefinement
  import opened DataBus
  import opened DeviceIo
  import opened Isa
  import opened Rv32
  import Bus
  import ByteMemory
  import Decode

  // ---------------------------------------------------------------------------------------------------
  // The architecture with devices
  // ---------------------------------------------------------------------------------------------------

  /** A load or store outside the data memory. */
  predicate Outward(i: Instr, m: Machine) {
    (i.LoadFrom? || i.StoreTo?) && !ToRam(Access(i, m).addr)
  }

  /** What a load makes of the word that a device answers. */
  function LoadedFrom(i: Instr, m: Machine, w: Word): Word
    requires i.LoadFrom? && Accesses(i, m)
  {
    ByteMemory.Extended(i.width, ByteMemory.Lanes(w, Access(i, m)))
  }

  /** One instruction; w is the word that a device answers if it loads from one. */
  function IoNext(i: Instr, m: Machine, w: Word): Machine {
    if !Accesses(i, m) then m
    else if !Outward(i, m) then Perform(i, m)
    else if i.LoadFrom? then m.(pc := Wrap(m.pc + 4), regs := Set(m.regs, i.rd, LoadedFrom(i, m, w)))
    else m.(pc := Wrap(m.pc + 4))
  }

  /** The architectural state before instruction k, when devices answer input(j) to instruction j. */
  function IoState(code: Word -> Instr, bytes: ByteMemory.ByteMap, input: nat -> Word, k: nat): Machine {
    if k == 0 then Machine(0, Zeros(), bytes)
    else
      var m := IoState(code, bytes, input, k - 1);
      IoNext(code(m.pc), m, input(k - 1))
  }

  /** The word that an instruction takes from the bus if it is a load. */
  function Taken(i: Instr, m: Machine, w: Word): Word {
    if Outward(i, m) then w else Found(i, m)
  }

  /** What an instruction does to the peripherals. */
  function DeviceAccess(i: Instr, m: Machine, w: Word): seq<Io> {
    if !(i.LoadFrom? || i.StoreTo?) || !Peripheral(Access(i, m).addr) then []
    else if i.LoadFrom? then [Read(Access(i, m).addr, w)]
    else [Write(Access(i, m).addr, ByteMemory.StoreData(i.width, Access(i, m).addr, Access(i, m).value))]
  }

  /** What the first n instructions do. */
  function DeviceAccesses(code: Word -> Instr, bytes: ByteMemory.ByteMap, input: nat -> Word, n: nat): seq<Io> {
    if n == 0 then []
    else
      var m := IoState(code, bytes, input, n - 1);
      DeviceAccesses(code, bytes, input, n - 1) + DeviceAccess(code(m.pc), m, input(n - 1))
  }

  lemma IoStateUnfolds(code: Word -> Instr, bytes: ByteMemory.ByteMap, input: nat -> Word, j: nat, k: nat, m: Machine)
    requires k == j + 1 && m == IoState(code, bytes, input, j)
    ensures IoState(code, bytes, input, k) == IoNext(code(m.pc), m, input(j))
    ensures DeviceAccesses(code, bytes, input, k)
            == DeviceAccesses(code, bytes, input, j) + DeviceAccess(code(m.pc), m, input(j))
  {
  }

  // ---------------------------------------------------------------------------------------------------
  // One instruction on the datapath
  // ---------------------------------------------------------------------------------------------------

  /** The instruction at the PC is delivered by the decoder and does not trap. */
  ghost predicate Fine(u: Datapath, i: Instr, m: Machine) {
    && Encodable(i) && Delivers(Fetched(u, m.Core()), i)
    && Accesses(i, m) && m.pc % 4 == 0 && Perform(i, m).pc % 4 == 0
  }

  lemma DeviceLoads(u: Datapath, i: Instr, m: Machine, w: Word)
    requires Standard(u) && Fine(u, i, m) && i.LoadFrom?
    ensures Execute(u, m.Core(), w) == Arch(Wrap(m.pc + 4), Set(m.regs, i.rd, LoadedFrom(i, m, w)))
  {
    AccessAddress(u, i, m);
  }

  lemma StoreIgnores(u: Datapath, i: Instr, m: Machine, w: Word)
    requires Standard(u) && Fine(u, i, m) && i.StoreTo?
    ensures Execute(u, m.Core(), w) == Execute(u, m.Core(), Found(i, m))
  {
  }

  lemma IoStep(u: Datapath, i: Instr, m: Machine, w: Word)
    requires Standard(u) && Fine(u, i, m)
    ensures Execute(u, m.Core(), Taken(i, m, w)) == IoNext(i, m, w).Core()
  {
    if Outward(i, m) && i.LoadFrom? {
      DeviceLoads(u, i, m, w);
    } else {
      ExecutePerforms(u, i, m);
      if Outward(i, m) { StoreIgnores(u, i, m, w); }
    }
  }

  lemma AccessIsDevice(u: Datapath, data: nat -> Word, i: Instr, m: Machine, w: Word, k: nat)
    requires Standard(u) && Fine(u, i, m) && Seq(u, data, k) == m.Core()
    requires Outward(i, m) && i.LoadFrom? ==> data(k) == w
    ensures AccessAt(u, data, k) == DeviceAccess(i, m, w)
  {
    if i.LoadFrom? || i.StoreTo? { AccessAddress(u, i, m); }
  }

  lemma SameMemoryStore(u: Datapath, data: nat -> Word, mem: ByteMemory.Memory, log: seq<Commit>, i: Instr, m: Machine,
                        w: Word, k: nat)
    requires Standard(u) && Fine(u, i, m) && Seq(u, data, k) == m.Core() && i.StoreTo?
    requires ByteMemory.Bytes(RamAfter(mem, log)) == m.bytes
    ensures ByteMemory.Bytes(RamAfter(mem, log + SeqCommits(u, data, k))) == IoNext(i, m, w).bytes
  {
    var op := Access(i, m);
    var store := Store(op.addr, op.value, op.f);
    AccessAddress(u, i, m);
    assert SeqCommits(u, data, k) == [store];
    RamAfterOne(mem, log, store);
    ByteMemory.StoreRefines(RamAfter(mem, log), op);
  }

  lemma OnlyStoresStore(i: Instr, m: Machine, w: Word)
    requires !i.StoreTo?
    ensures IoNext(i, m, w).bytes == m.bytes
  {
  }

  lemma OnlyStoresCommit(u: Datapath, data: nat -> Word, mem: ByteMemory.Memory, log: seq<Commit>, k: nat)
    requires !Dyn(u, data, k).ctrl.memWrite
    ensures RamAfter(mem, log + SeqCommits(u, data, k)) == RamAfter(mem, log)
  {
    var e := SeqCommits(u, data, k);
    if e == [] {
      assert log + e == log;
    } else {
      RamAfterOne(mem, log, e[0]);
      assert e == [e[0]];
    }
  }

  /** The data memory after the instruction's commits is the architecture's. */
  lemma SameMemory(u: Datapath, data: nat -> Word, mem: ByteMemory.Memory, log: seq<Commit>, i: Instr, m: Machine,
                   w: Word, k: nat)
    requires Standard(u) && Fine(u, i, m) && Seq(u, data, k) == m.Core()
    requires ByteMemory.Bytes(RamAfter(mem, log)) == m.bytes
    ensures ByteMemory.Bytes(RamAfter(mem, log + SeqCommits(u, data, k))) == IoNext(i, m, w).bytes
  {
    if i.StoreTo? {
      SameMemoryStore(u, data, mem, log, i, m, w, k);
    } else {
      OnlyStoresStore(i, m, w);
      OnlyStoresCommit(u, data, mem, log, k);
    }
  }

  lemma LoadInRam(u: Datapath, ram: ByteMemory.Memory, i: Instr, m: Machine, w: Word, d: Word)
    requires Standard(u) && Fine(u, i, m) && d == Taken(i, m, w) && i.LoadFrom? && ByteMemory.Bytes(ram) == m.bytes
    ensures ToRam(Result(u, m.Core())) ==> d == ram[ByteMemory.Index(Result(u, m.Core()))]
  {
    AccessAddress(u, i, m);
    ByteMemory.WordAtIs(ram, Access(i, m).addr);
  }

  lemma FoundInRam(u: Datapath, ram: ByteMemory.Memory, i: Instr, m: Machine, w: Word, d: Word, c: Ctrl, addr: Word)
    requires Standard(u) && Fine(u, i, m) && d == Taken(i, m, w) && ByteMemory.Bytes(ram) == m.bytes
    requires c == Fetched(u, m.Core()).ctrl && addr == Result(u, m.Core())
    ensures (c.memRead && ToRam(addr) ==> d == ram[ByteMemory.Index(addr)]) && (c.memWrite ==> c.memFunct3 <= 2)
  {
    if i.LoadFrom? { LoadInRam(u, ram, i, m, w, d); }
  }

  lemma RamHere(u: Datapath, data: nat -> Word, mem: ByteMemory.Memory, k: nat, a: Arch, ram: ByteMemory.Memory)
    requires a == Seq(u, data, k) && ram == RamAfter(mem, SeqLog(u, data, k))
    requires Fetched(u, a).ctrl.memRead && ToRam(Result(u, a)) ==> data(k) == ram[ByteMemory.Index(Result(u, a))]
    requires Fetched(u, a).ctrl.memWrite ==> Fetched(u, a).ctrl.memFunct3 <= 2
    ensures RamAt(u, mem, data, k)
  {
  }

  lemma FindsInRam(u: Datapath, data: nat -> Word, mem: ByteMemory.Memory, i: Instr, m: Machine, w: Word, k: nat)
    requires Standard(u) && Fine(u, i, m) && Seq(u, data, k) == m.Core() && data(k) == Taken(i, m, w)
    requires ByteMemory.Bytes(RamAfter(mem, SeqLog(u, data, k))) == m.bytes
    ensures RamAt(u, mem, data, k)
  {
    var ram := RamAfter(mem, SeqLog(u, data, k));
    FoundInRam(u, ram, i, m, w, data(k), Fetched(u, m.Core()).ctrl, Result(u, m.Core()));
    RamHere(u, data, mem, k, m.Core(), ram);
  }

  // ---------------------------------------------------------------------------------------------------
  // Whole programs on the datapath
  // ---------------------------------------------------------------------------------------------------

  /** The words that the program's loads take. */
  function Takes(code: Word -> Instr, bytes: ByteMemory.ByteMap, input: nat -> Word): nat -> Word {
    (k: nat) => var m := IoState(code, bytes, input, k); Taken(code(m.pc), m, input(k))
  }

  ghost predicate FineAt(u: Datapath, code: Word -> Instr, bytes: ByteMemory.ByteMap, input: nat -> Word, k: nat) {
    var m := IoState(code, bytes, input, k);
    Fine(u, code(m.pc), m)
  }

  /** Both machines before an instruction, and what the program has done so far. */
  ghost predicate Same(u: Datapath, data: nat -> Word, mem: ByteMemory.Memory, m: Machine, done: seq<Io>, k: nat) {
    && Seq(u, data, k) == m.Core() && ProgramIo(u, data, k) == done
    && ByteMemory.Bytes(RamAfter(mem, SeqLog(u, data, k))) == m.bytes
  }

  lemma SameNext(u: Datapath, data: nat -> Word, mem: ByteMemory.Memory, i: Instr, m: Machine, done: seq<Io>, w: Word,
                 j: nat, k: nat)
    requires Standard(u) && Fine(u, i, m) && Same(u, data, mem, m, done, j) && k == j + 1
    requires data(j) == Taken(i, m, w)
    ensures Same(u, data, mem, IoNext(i, m, w), done + DeviceAccess(i, m, w), k)
  {
    IoStep(u, i, m, w);
    SeqUnfolds(u, data, j, k);
    SeqLogUnfolds(u, data, j, k);
    ProgramIoUnfolds(u, data, j, k);
    AccessIsDevice(u, data, i, m, w, j);
    SameMemory(u, data, mem, SeqLog(u, data, j), i, m, w, j);
  }

  lemma FineHere(u: Datapath, code: Word -> Instr, bytes: ByteMemory.ByteMap, input: nat -> Word, data: nat -> Word,
                 k: nat, m: Machine)
    requires data == Takes(code, bytes, input) && m == IoState(code, bytes, input, k)
    requires FineAt(u, code, bytes, input, k)
    ensures Fine(u, code(m.pc), m) && data(k) == Taken(code(m.pc), m, input(k))
  {
  }

  lemma SameAtReset(u: Datapath, data: nat -> Word, mem: ByteMemory.Memory, bytes: ByteMemory.ByteMap)
    requires bytes == ByteMemory.Bytes(mem)
    ensures Same(u, data, mem, Machine(0, Zeros(), bytes), [], 0)
  {
  }

  lemma SameAfter(u: Datapath, code: Word -> Instr, bytes: ByteMemory.ByteMap, input: nat -> Word, data: nat -> Word,
                  mem: ByteMemory.Memory, j: nat, k: nat, before: Machine, m: Machine)
    requires Standard(u) && data == Takes(code, bytes, input) && k == j + 1 && FineAt(u, code, bytes, input, j)
    requires before == IoState(code, bytes, input, j) && m == IoState(code, bytes, input, k)
    requires Same(u, data, mem, before, DeviceAccesses(code, bytes, input, j), j)
    ensures Same(u, data, mem, m, DeviceAccesses(code, bytes, input, k), k)
  {
    FineHere(u, code, bytes, input, data, j, before);
    SameNext(u, data, mem, code(before.pc), before, DeviceAccesses(code, bytes, input, j), input(j), j, k);
    IoStateUnfolds(code, bytes, input, j, k, before);
  }

  /** The first n instructions. */
  ghost predicate AllFine(u: Datapath, code: Word -> Instr, bytes: ByteMemory.ByteMap, input: nat -> Word, n: nat) {
    forall k: nat | k < n :: FineAt(u, code, bytes, input, k)
  }

  lemma AllFineBefore(u: Datapath, code: Word -> Instr, bytes: ByteMemory.ByteMap, input: nat -> Word, j: nat, k: nat)
    requires AllFine(u, code, bytes, input, k) && j < k
    ensures AllFine(u, code, bytes, input, j) && FineAt(u, code, bytes, input, j)
  {
  }

  lemma {:induction false} SameProgram(u: Datapath, code: Word -> Instr, bytes: ByteMemory.ByteMap, input: nat -> Word,
                                       data: nat -> Word, mem: ByteMemory.Memory, k: nat, m: Machine)
    requires Standard(u) && data == Takes(code, bytes, input)
    requires Same(u, data, mem, Machine(0, Zeros(), bytes), [], 0)
    requires m == IoState(code, bytes, input, k) && AllFine(u, code, bytes, input, k)
    ensures Same(u, data, mem, m, DeviceAccesses(code, bytes, input, k), k)
  {
    if k > 0 {
      var j := k - 1;
      var before := IoState(code, bytes, input, j);
      AllFineBefore(u, code, bytes, input, j, k);
      SameProgram(u, code, bytes, input, data, mem, j, before);
      SameAfter(u, code, bytes, input, data, mem, j, k, before, m);
    }
  }

  lemma LegalAndFound(u: Datapath, data: nat -> Word, mem: ByteMemory.Memory, i: Instr, m: Machine, done: seq<Io>,
                      w: Word, k: nat)
    requires Standard(u) && Fine(u, i, m) && Same(u, data, mem, m, done, k) && data(k) == Taken(i, m, w)
    ensures Legal(u, data, k) && RamAt(u, mem, data, k)
  {
    LegalHere(u, data, k, i, m);
    FindsInRam(u, data, mem, i, m, w, k);
  }

  /** A program that does not trap is one that the theorem about the system covers. */
  lemma PathWithDevices(u: Datapath, code: Word -> Instr, bytes: ByteMemory.ByteMap, input: nat -> Word,
                        data: nat -> Word, mem: ByteMemory.Memory, k: nat, n: nat)
    requires Standard(u) && data == Takes(code, bytes, input)
    requires Same(u, data, mem, Machine(0, Zeros(), bytes), [], 0)
    requires AllFine(u, code, bytes, input, n) && k < n
    ensures Legal(u, data, k) && RamAt(u, mem, data, k)
  {
    var m := IoState(code, bytes, input, k);
    AllFineBefore(u, code, bytes, input, k, n);
    SameProgram(u, code, bytes, input, data, mem, k, m);
    FineHere(u, code, bytes, input, data, k, m);
    LegalAndFound(u, data, mem, code(m.pc), m, DeviceAccesses(code, bytes, input, k), input(k), k);
  }

  // ---------------------------------------------------------------------------------------------------
  // Whole programs on the system
  // ---------------------------------------------------------------------------------------------------

  /** Instruction k of the path is in the instruction memory, in its encoding, and does not trap. */
  ghost predicate InPlace(imem: Word -> Word, code: Word -> Instr, bytes: ByteMemory.ByteMap, input: nat -> Word,
                          k: nat) {
    var m := IoState(code, bytes, input, k);
    && Encodable(code(m.pc)) && imem(m.pc) == Encode(code(m.pc))
    && Accesses(code(m.pc), m) && m.pc % 4 == 0 && IoNext(code(m.pc), m, input(k)).pc % 4 == 0
  }

  /** The first length instructions of a program with devices are in memory and do not trap. */
  ghost predicate ProgramWithDevices(imem: Word -> Word, code: Word -> Instr, bytes: ByteMemory.ByteMap,
                                     input: nat -> Word, length: nat) {
    forall k: nat | k < length :: InPlace(imem, code, bytes, input, k)
  }

  lemma NextLands(i: Instr, m: Machine, w: Word)
    requires Accesses(i, m) && IoNext(i, m, w).pc % 4 == 0
    ensures Perform(i, m).pc % 4 == 0
  {
  }

  lemma FineInPlace(imem: Word -> Word, u: Datapath, code: Word -> Instr, bytes: ByteMemory.ByteMap,
                    input: nat -> Word, k: nat, m: Machine)
    requires u == Decode.Core(imem) && InPlace(imem, code, bytes, input, k) && m == IoState(code, bytes, input, k)
    ensures Fine(u, code(m.pc), m)
  {
    NextLands(code(m.pc), m, input(k));
    DecodeRecovers(code(m.pc));
  }

  lemma CoreAllFine(imem: Word -> Word, u: Datapath, code: Word -> Instr, bytes: ByteMemory.ByteMap,
                    input: nat -> Word, length: nat)
    requires u == Decode.Core(imem) && ProgramWithDevices(imem, code, bytes, input, length)
    ensures AllFine(u, code, bytes, input, length)
  {
    forall k: nat | k < length ensures FineAt(u, code, bytes, input, k) {
      assert InPlace(imem, code, bytes, input, k);
      FineInPlace(imem, u, code, bytes, input, k, IoState(code, bytes, input, k));
    }
  }

  /** A program on a datapath that computes as the architecture says. */
  ghost predicate Ready(u: Datapath, mem: ByteMemory.Memory, code: Word -> Instr, bytes: ByteMemory.ByteMap,
                        input: nat -> Word, data: nat -> Word, length: nat) {
    && Standard(u) && WellFormed(u) && AllFine(u, code, bytes, input, length)
    && data == Takes(code, bytes, input) && Same(u, data, mem, Machine(0, Zeros(), bytes), [], 0)
  }

  lemma CoreReady(imem: Word -> Word, u: Datapath, mem: ByteMemory.Memory, code: Word -> Instr,
                  bytes: ByteMemory.ByteMap, input: nat -> Word, data: nat -> Word, length: nat)
    requires u == Decode.Core(imem) && AllFine(u, code, bytes, input, length) && data == Takes(code, bytes, input)
    requires Same(u, data, mem, Machine(0, Zeros(), bytes), [], 0)
    ensures Ready(u, mem, code, bytes, input, data, length)
  {
    CoreWellFormed(imem);
    CoreIsStandard(imem);
  }

  lemma ProgramReady(imem: Word -> Word, u: Datapath, mem: ByteMemory.Memory, code: Word -> Instr,
                     bytes: ByteMemory.ByteMap, input: nat -> Word, data: nat -> Word, length: nat)
    requires u == Decode.Core(imem) && bytes == ByteMemory.Bytes(mem)
    requires ProgramWithDevices(imem, code, bytes, input, length) && data == Takes(code, bytes, input)
    ensures Ready(u, mem, code, bytes, input, data, length)
  {
    CoreAllFine(imem, u, code, bytes, input, length);
    SameAtReset(u, data, mem, bytes);
    CoreReady(imem, u, mem, code, bytes, input, data, length);
  }

  /** A run of the system in which the devices answer what the program takes, until cycle t. */
  ghost predicate Serviced(u: Datapath, mem: ByteMemory.Memory, data: nat -> Word, length: nat, env: nat -> Outside,
                           run: nat -> System, t: nat) {
    && Operates(u, mem, env, run) && (forall c: nat | c < t :: DeviceAnswered(u, data, run(c)))
    && run(t).core.count + 1 < length && UpTo(ReplaySafeAt(u, data), run(t).core.count)
  }

  lemma ServicedUses(u: Datapath, mem: ByteMemory.Memory, code: Word -> Instr, bytes: ByteMemory.ByteMap,
                     input: nat -> Word, data: nat -> Word, length: nat, env: nat -> Outside,
                     run: nat -> System, t: nat)
    requires Ready(u, mem, code, bytes, input, data, length)
    requires Serviced(u, mem, data, length, env, run, t)
    ensures Uses(u, mem, data, length, env, run, t)
  {
    forall k: nat | k < length ensures Legal(u, data, k) && RamAt(u, mem, data, k) {
      PathWithDevices(u, code, bytes, input, data, mem, k, length);
    }
  }

  /** System and architecture at clock t: the registers are the architecture's after the n instructions that have
      entered MEM/WB; the APB has seen exactly what they do to the peripherals, in program order, and at most the access
      in EX/MEM beyond it; and between accesses the RAM is the architecture's memory. */
  ghost predicate InAccord(u: Datapath, code: Word -> Instr, bytes: ByteMemory.ByteMap, input: nat -> Word,
                           env: nat -> Outside, run: nat -> System, t: nat) {
    var n, current := run(t).core.count, OpenIo(Recorded(u, env, run, t).open);
    var m := IoState(code, bytes, input, n);
    && View(run(t).core.s) == m.regs && ApbIo(u, env, run, t) == DeviceAccesses(code, bytes, input, n) + current
    && if run(t).core.s.reqSent then Begins(u, Takes(code, bytes, input), n, current)
       else current == [] && ByteMemory.Bytes(run(t).ram.mem) == m.bytes
  }

  lemma AnySystemWithDevices(u: Datapath, mem: ByteMemory.Memory, code: Word -> Instr, bytes: ByteMemory.ByteMap,
                             input: nat -> Word, data: nat -> Word, length: nat, env: nat -> Outside,
                             run: nat -> System, t: nat)
    requires Ready(u, mem, code, bytes, input, data, length) && Serviced(u, mem, data, length, env, run, t)
    ensures InAccord(u, code, bytes, input, env, run, t)
  {
    var n := run(t).core.count;
    ServicedUses(u, mem, code, bytes, input, data, length, env, run, t);
    EveryAccessOnce(u, mem, data, length, env, run, t, n, Recorded(u, env, run, t));
    AllFineBefore(u, code, bytes, input, n, length);
    SameProgram(u, code, bytes, input, data, mem, n, IoState(code, bytes, input, n));
  }

  /** The system runs every encoded RV32 program that does not trap, with its data memory and its devices: after every
      clock with safe replays it is in accord with the architecture, where devices answer input(k) to instruction k. */
  lemma SystemRunsIo(imem: Word -> Word, u: Datapath, mem: ByteMemory.Memory, code: Word -> Instr,
                     bytes: ByteMemory.ByteMap, input: nat -> Word, data: nat -> Word, length: nat,
                     env: nat -> Outside, run: nat -> System, t: nat)
    requires u == Decode.Core(imem) && bytes == ByteMemory.Bytes(mem)
    requires ProgramWithDevices(imem, code, bytes, input, length) && data == Takes(code, bytes, input)
    requires Serviced(u, mem, data, length, env, run, t)
    ensures InAccord(u, code, bytes, input, env, run, t)
  {
    ProgramReady(imem, u, mem, code, bytes, input, data, length);
    AnySystemWithDevices(u, mem, code, bytes, input, data, length, env, run, t);
  }
}
