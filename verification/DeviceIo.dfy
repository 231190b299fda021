/** Programs that access peripherals: the APB transfers of a run of the system are the program's loads from and stores
    to peripheral addresses, once each, in program order and with the program's data. */
module DeviceIo {
  import opened Words
  import opened Pipeline
  import opened PipelineInvariant
  import opened PipelineRefinement
  import opened PipelineMemory
  import opened DataBus
  import opened WholeSystem
  import ByteMemory
  import AxiMaster
  import Bus
  import Interconnect

  /** An access of a peripheral register. */
  datatype Io = Read(addr: Word, value: Word) | Write(addr: Word, value: Word)

  // ---------------------------------------------------------------------------------------------------
  // What the program accesses
  // ---------------------------------------------------------------------------------------------------

  predicate ToRam(addr: Word) {
    Interconnect.Decode(addr) == Interconnect.To(DMEM)
  }

  predicate Peripheral(addr: Word) {
    Interconnect.Decode(addr) == Interconnect.To(Interconnect.APB)
  }

  /** The two by their addresses. */
  lemma Windows(addr: Word)
    ensures ToRam(addr) <==> addr / 0x4000 == 4
    ensures Peripheral(addr) <==>
            addr / 0x1_0000 == 0x200 || addr / 0x1000 == 0xC000
            || addr / 0x100 == 0x10_0000 || addr / 0x100 == 0x10_0001
  {
    Interconnect.AddressMap(addr);
  }

  /** What dynamic instruction k of the one-instruction-at-a-time machine does to the peripherals. */
  function AccessAt(dp: Datapath, data: nat -> Word, k: nat): seq<Io> {
    var a := Seq(dp, data, k);
    var c, addr := Dyn(dp, data, k).ctrl, Result(dp, a);
    if !Peripheral(addr) then []
    else if c.memRead then [Read(addr, data(k))]
    else if c.memWrite then [Write(addr, ByteMemory.StoreData(c.memFunct3, addr, Y(dp, a)))]
    else []
  }

  function Joined(access: nat -> seq<Io>, n: nat): seq<Io> {
    if n == 0 then [] else Joined(access, n - 1) + access(n - 1)
  }

  function AccessesAt(dp: Datapath, data: nat -> Word): nat -> seq<Io> {
    (k: nat) => AccessAt(dp, data, k)
  }

  /** What the first n instructions do. */
  function ProgramIo(dp: Datapath, data: nat -> Word, n: nat): seq<Io> {
    Joined(AccessesAt(dp, data), n)
  }

  lemma JoinedNext(access: nat -> seq<Io>, n: nat, k: nat)
    requires k == n + 1
    ensures Joined(access, k) == Joined(access, n) + access(n)
  {
  }

  lemma ProgramIoUnfolds(dp: Datapath, data: nat -> Word, n: nat, k: nat)
    requires k == n + 1
    ensures ProgramIo(dp, data, k) == ProgramIo(dp, data, n) + AccessAt(dp, data, n)
  {
    JoinedNext(AccessesAt(dp, data), n, k);
  }

  // ---------------------------------------------------------------------------------------------------
  // What the APB sees
  // ---------------------------------------------------------------------------------------------------

  function IoOf(a: Bus.Transfer): Io {
    if a.write then Write(a.addr, a.wdata) else Read(a.addr, a.prdata)
  }

  function Ios(transfers: seq<Bus.Transfer>): (ios: seq<Io>)
    ensures |ios| == |transfers|
  {
    seq(|transfers|, i requires 0 <= i < |transfers| => IoOf(transfers[i]))
  }

  lemma IosAppend(a: seq<Bus.Transfer>, b: seq<Bus.Transfer>)
    ensures Ios(a + b) == Ios(a) + Ios(b)
  {
  }

  /** The APB transfers that complete in a cycle of the system. */
  function CycleIo(dp: Datapath, x: System, o: Outside): seq<Io> {
    if Quiet(dp, x.core.s) then Ios(Bus.Accesses(x.bus, o.apb)) else []
  }

  /** All transfers of the first t cycles, in order. */
  function ApbIo(dp: Datapath, env: nat -> Outside, run: nat -> System, t: nat): seq<Io> {
    if t == 0 then [] else ApbIo(dp, env, run, t - 1) + CycleIo(dp, run(t - 1), env(t - 1))
  }

  // ---------------------------------------------------------------------------------------------------
  // The record of the bus
  // ---------------------------------------------------------------------------------------------------

  /** The observer of the bus, in a system that stops in front of an exceptional event. */
  function Recorded(dp: Datapath, env: nat -> Outside, run: nat -> System, t: nat): Bus.Log {
    if t == 0 then Bus.Log(Bus.START, [], [], Bus.None, [], [])
    else
      var r := Recorded(dp, env, run, t - 1);
      if Quiet(dp, run(t - 1).core.s) then Bus.Follow(r, Inputs(run(t - 1), env(t - 1))) else r
  }

  function OpenIo(o: Bus.Open): seq<Io> {
    if o.Open? then Ios(o.accesses) else []
  }

  /** The transfers of finished commands, in order. */
  function ClosedIo(closed: seq<Bus.Closed>): seq<Io> {
    if closed == [] then [] else ClosedIo(closed[..|closed| - 1]) + OpenIo(closed[|closed| - 1].what)
  }

  function LogIo(r: Bus.Log): seq<Io> {
    ClosedIo(r.closed) + OpenIo(r.open)
  }

  lemma ClosedIoAppend(closed: seq<Bus.Closed>, last: Bus.Closed)
    ensures ClosedIo(closed + [last]) == ClosedIo(closed) + OpenIo(last.what)
  {
    assert (closed + [last])[..|closed|] == closed;
  }

  /** The record is complete: it gains exactly the transfers of the cycle. */
  lemma LogIoStep(r: Bus.Log, i: Bus.Inputs)
    requires Bus.Inv(r)
    ensures LogIo(Bus.Follow(r, i)) == LogIo(r) + Ios(Bus.Accesses(r.s, i.apb))
  {
    Bus.StepKeeps(r, i);
    if r.open.Open? {
      if r.s.master.state.Done? {
        ClosedIoAppend(r.closed, Bus.Closed(r.open, r.s.master.rdata, r.s.master.error));
      } else {
        IosAppend(r.open.accesses, Bus.Accesses(r.s, i.apb));
      }
    }
  }

  // ---------------------------------------------------------------------------------------------------
  // Core and bus
  // ---------------------------------------------------------------------------------------------------

  function OpenAge(o: Bus.Open): nat {
    if o.Open? then o.age else 0
  }

  /** The clocks of finished commands. */
  function Ages(closed: seq<Bus.Closed>): nat {
    if closed == [] then 0 else Ages(closed[..|closed| - 1]) + OpenAge(closed[|closed| - 1].what)
  }

  /** The clocks of all commands so far. */
  function Busy(r: Bus.Log): nat {
    Ages(r.closed) + OpenAge(r.open)
  }

  lemma AgesAppend(closed: seq<Bus.Closed>, last: Bus.Closed)
    ensures Ages(closed + [last]) == Ages(closed) + OpenAge(last.what)
  {
    assert (closed + [last])[..|closed|] == closed;
  }

  /** The bus works on the access in EX/MEM, once its request is out, and on nothing else. */
  predicate Linked(s: Pipe, r: Bus.Log) {
    && (s.reqSent ==> MemOp(s))
    && r.open.Open? == s.reqSent && (s.reqSent ==> r.open.cmd == Command(s))
  }

  function Finished(r: Bus.Log): Bus.Closed {
    Bus.Closed(r.open, r.s.master.rdata, r.s.master.error)
  }

  /** The link stays, an access that leaves EX/MEM finishes its command, and a clock of a command is a memory stall. */
  lemma LinkedStep(dp: Datapath, s: Pipe, r: Bus.Log, i: Bus.Inputs, q: Bus.Log)
    requires Linked(s, r) && Bus.Inv(r) && i.cmd == Command(s) && q == Bus.Follow(r, i)
    ensures Linked(Pipeline.Step(dp, s, Answer(r.s.master)), q)
    ensures q.closed == if s.reqSent && r.s.master.state.Done? then r.closed + [Finished(r)] else r.closed
    ensures Busy(q) == Busy(r) + Bit(MemStall(s, Answer(r.s.master)))
  {
    if s.reqSent {
      if r.s.master.state.Done? { AgesAppend(r.closed, Finished(r)); } else { Bus.InStepKept(r.s, r.open, i); }
    }
  }

  // ---------------------------------------------------------------------------------------------------
  // The bus tells the program
  // ---------------------------------------------------------------------------------------------------

  predicate Accessing(dp: Datapath, data: nat -> Word, k: nat) {
    Dyn(dp, data, k).ctrl.memRead || Dyn(dp, data, k).ctrl.memWrite
  }

  /** The command that instruction k gives to the bus, if it is a load or a store. */
  function CommandAt(dp: Datapath, data: nat -> Word, k: nat): AxiMaster.Cmd {
    var a := Seq(dp, data, k);
    var c, addr := Dyn(dp, data, k).ctrl, Result(dp, a);
    AxiMaster.Cmd(c.memRead, c.memWrite, addr,
                  if c.memWrite then ByteMemory.StoreData(c.memFunct3, addr, Y(dp, a)) else 0,
                  StrobesOf(c.memFunct3, addr))
  }

  /** A finished command is that of instruction k: it had its effect, a load took its reply, and an access of the
      data memory took its fixed number of clocks. */
  ghost predicate TellsOf(dp: Datapath, data: nat -> Word, k: nat, c: Bus.Closed) {
    var load, store := Dyn(dp, data, k).ctrl.memRead, Dyn(dp, data, k).ctrl.memWrite;
    && c.what.Open? && c.what.cmd == CommandAt(dp, data, k) && Bus.Right(c)
    && (load ==> c.rdata == data(k)) && (ToRam(c.what.cmd.addr) ==> c.what.age == Cost(load, store))
  }

  /** The finished commands are those of the selected ones among the first n instructions, in order. */
  ghost predicate InOrder(selected: nat -> bool, told: (nat, Bus.Closed) -> bool, n: nat, closed: seq<Bus.Closed>) {
    if n == 0 then closed == []
    else if selected(n - 1) then
      && closed != [] && told(n - 1, closed[|closed| - 1])
      && InOrder(selected, told, n - 1, closed[..|closed| - 1])
    else InOrder(selected, told, n - 1, closed)
  }

  lemma InOrderNext(selected: nat -> bool, told: (nat, Bus.Closed) -> bool, n: nat, k: nat, closed: seq<Bus.Closed>,
                    c: Bus.Closed)
    requires InOrder(selected, told, n, closed) && k == n + 1
    ensures !selected(n) ==> InOrder(selected, told, k, closed)
    ensures selected(n) && told(n, c) ==> InOrder(selected, told, k, closed + [c])
  {
    var all := closed + [c];
    assert all != [] && all[|all| - 1] == c && all[..|all| - 1] == closed;
  }

  function AccessingAt(dp: Datapath, data: nat -> Word): nat -> bool {
    (k: nat) => Accessing(dp, data, k)
  }

  ghost function ToldAt(dp: Datapath, data: nat -> Word): (nat, Bus.Closed) -> bool {
    (k: nat, c: Bus.Closed) => TellsOf(dp, data, k, c)
  }

  /** The finished commands are those of the loads and stores among the first n instructions, in order. */
  ghost predicate Tells(dp: Datapath, data: nat -> Word, n: nat, closed: seq<Bus.Closed>) {
    InOrder(AccessingAt(dp, data), ToldAt(dp, data), n, closed)
  }

  lemma TellsNext(dp: Datapath, data: nat -> Word, n: nat, k: nat, closed: seq<Bus.Closed>, c: Bus.Closed)
    requires Tells(dp, data, n, closed) && k == n + 1
    ensures !Accessing(dp, data, n) ==> Tells(dp, data, k, closed)
    ensures Accessing(dp, data, n) && TellsOf(dp, data, n, c) ==> Tells(dp, data, k, closed + [c])
  {
    InOrderNext(AccessingAt(dp, data), ToldAt(dp, data), n, k, closed, c);
  }

  lemma ToldIo(dp: Datapath, data: nat -> Word, k: nat, c: Bus.Closed)
    requires TellsOf(dp, data, k, c) && Accessing(dp, data, k)
    ensures OpenIo(c.what) == AccessAt(dp, data, k)
  {
  }

  lemma {:induction false} ToldInOrder(selected: nat -> bool, told: (nat, Bus.Closed) -> bool, access: nat -> seq<Io>,
                                       n: nat, closed: seq<Bus.Closed>)
    requires InOrder(selected, told, n, closed)
    requires forall k: nat, c | selected(k) && told(k, c) :: OpenIo(c.what) == access(k)
    requires forall k: nat | !selected(k) :: access(k) == []
    ensures ClosedIo(closed) == Joined(access, n)
  {
    if n > 0 {
      var k := n - 1;
      if selected(k) {
        assert told(k, closed[|closed| - 1]);
        ToldInOrder(selected, told, access, k, closed[..|closed| - 1]);
      } else {
        ToldInOrder(selected, told, access, k, closed);
      }
    }
  }

  /** What such a record shows of the APB is what the program does to the peripherals. */
  lemma ToldIsProgram(dp: Datapath, data: nat -> Word, n: nat, closed: seq<Bus.Closed>)
    requires Tells(dp, data, n, closed)
    ensures ClosedIo(closed) == ProgramIo(dp, data, n)
  {
    var selected, told, access := AccessingAt(dp, data), ToldAt(dp, data), AccessesAt(dp, data);
    forall k: nat, c | selected(k) && told(k, c) ensures OpenIo(c.what) == access(k) { ToldIo(dp, data, k, c); }
    ToldInOrder(selected, told, access, n, closed);
  }

  // ---------------------------------------------------------------------------------------------------
  // One clock edge of the record
  // ---------------------------------------------------------------------------------------------------

  /** What EX/MEM holds is the program's. */
  lemma InMemory(dp: Datapath, data: nat -> Word, s: Pipe, n: nat, k: nat, tau: nat)
    requires RunInv(dp, data, s, n, k, tau) && Legal(dp, data, n)
    ensures k == Bump(n, s.exMem.valid) && (MemOp(s) ==> s.exMem.valid && Command(s) == CommandAt(dp, data, n))
    ensures s.exMem.valid ==> MemOp(s) == Accessing(dp, data, n)
    ensures s.exMem.valid ==> s.exMem.memRead == Dyn(dp, data, n).ctrl.memRead
    ensures s.exMem.valid ==> s.exMem.memWrite == Dyn(dp, data, n).ctrl.memWrite
  {
    if s.exMem.valid { assert InMem(dp, s.exMem, Seq(dp, data, n)); }
  }

  lemma FinishedTells(dp: Datapath, data: nat -> Word, s: Pipe, r: Bus.Log, n: nat)
    requires Linked(s, r) && Bus.Inv(r) && s.reqSent && r.s.master.state.Done?
    requires Command(s) == CommandAt(dp, data, n) && s.exMem.memRead == Dyn(dp, data, n).ctrl.memRead
    requires s.exMem.memWrite == Dyn(dp, data, n).ctrl.memWrite
    requires s.exMem.memRead ==> r.s.master.rdata == data(n)
    requires ToRam(s.exMem.alu) ==> r.open.age == Cost(s.exMem.memRead, s.exMem.memWrite)
    ensures TellsOf(dp, data, n, Finished(r))
  {
  }

  lemma TellsStep(dp: Datapath, data: nat -> Word, s: Pipe, r: Bus.Log, i: Bus.Inputs, q: Bus.Log, n: nat, k: nat,
                  tau: nat)
    requires RunInv(dp, data, s, n, k, tau) && Legal(dp, data, n)
    requires Linked(s, r) && Bus.Inv(r) && i.cmd == Command(s) && q == Bus.Follow(r, i) && Tells(dp, data, n, r.closed)
    requires s.exMem.memRead && !MemStall(s, Answer(r.s.master)) ==> r.s.master.rdata == data(n)
    requires s.reqSent && r.s.master.state.Done? && ToRam(s.exMem.alu) ==>
               r.open.age == Cost(s.exMem.memRead, s.exMem.memWrite)
    ensures Tells(dp, data, if MemStall(s, Answer(r.s.master)) then n else k, q.closed)
  {
    LinkedStep(dp, s, r, i, q);
    InMemory(dp, data, s, n, k, tau);
    if s.exMem.valid && !MemStall(s, Answer(r.s.master)) {
      if MemOp(s) { FinishedTells(dp, data, s, r, n); }
      TellsNext(dp, data, n, k, r.closed, Finished(r));
    }
  }

  // ---------------------------------------------------------------------------------------------------
  // The data memory beside them
  // ---------------------------------------------------------------------------------------------------

  /** The commits that concern the data memory: register writes do not, stores to other addresses do not. */
  function RamCommits(log: seq<Commit>): seq<Commit> {
    if log == [] then []
    else
      var c := log[|log| - 1];
      RamCommits(log[..|log| - 1]) + if c.Store? && ToRam(c.addr) then [c] else []
  }

  lemma RamCommitsAppend(log: seq<Commit>, c: Commit)
    ensures RamCommits(log + [c]) == RamCommits(log) + if c.Store? && ToRam(c.addr) then [c] else []
  {
    assert (log + [c])[..|log|] == log;
  }

  /** The data memory after a history that also has stores to other addresses. */
  function RamAfter(mem: ByteMemory.Memory, log: seq<Commit>): ByteMemory.Memory {
    After(mem, RamCommits(log))
  }

  lemma RamAfterOne(mem: ByteMemory.Memory, log: seq<Commit>, c: Commit)
    ensures RamAfter(mem, log + [c])
            == if c.Store? && ToRam(c.addr) then AfterCommit(RamAfter(mem, log), c) else RamAfter(mem, log)
  {
    RamCommitsAppend(log, c);
    if c.Store? && ToRam(c.addr) {
      AfterOne(mem, RamCommits(log), c);
    } else {
      assert RamCommits(log) + [] == RamCommits(log);
    }
  }

  function AfterEx(before: ByteMemory.Memory, e: ExMem): ByteMemory.Memory {
    if ToRam(e.alu) then AfterAccess(before, e) else before
  }

  lemma RamAfterCommits(dp: Datapath, mem: ByteMemory.Memory, s: Pipe, m: MemIn, log: seq<Commit>)
    requires !MemStall(s, m) && (s.exMem.memWrite ==> s.exMem.valid)
    ensures RamAfter(mem, log + Commits(dp, s, m)) == AfterEx(RamAfter(mem, log), s.exMem)
  {
    var e := Commits(dp, s, m);
    var w := Pipeline.Step(dp, s, m).memWb;
    var stored := if s.exMem.memWrite then log + [Store(s.exMem.alu, s.exMem.rs2, s.exMem.memFunct3)] else log;
    if s.exMem.memWrite { RamAfterOne(mem, log, Store(s.exMem.alu, s.exMem.rs2, s.exMem.memFunct3)); }
    if w.valid && w.regWrite && w.rd != 0 {
      RamAfterOne(mem, stored, RegWrite(w.rd, WbData(w)));
      assert log + e == stored + [RegWrite(w.rd, WbData(w))];
    } else {
      assert log + e == stored;
    }
  }

  /** What is known about EX/MEM in a reachable state. */
  predicate Sane(s: Pipe) {
    && (s.reqSent ==> MemOp(s)) && (s.exMem.memRead || s.exMem.memWrite ==> s.exMem.valid)
    && (MemOp(s) ==> !(s.exMem.memRead && s.exMem.memWrite) && AccessAligned(s.exMem.memFunct3, s.exMem.alu))
    && (MemOp(s) && ToRam(s.exMem.alu) && s.exMem.memWrite ==> s.exMem.memFunct3 <= 2)
  }

  /** While the bus works for another slave, adapter and RAM are at rest. */
  ghost predicate RamPhase(c: Pipe, s: Bus.State, b: Adapter, r: ByteMemory.Ram, before: ByteMemory.Memory) {
    if MemOp(c) && c.reqSent && !ToRam(c.exMem.alu) then b.state.Idle? && r.mem == before
    else InPhase(c, s, b, r, before)
  }

  lemma NothingToRam(s: Bus.State, o: Bus.Open)
    requires Bus.InStep(s, o) && (o.Open? ==> !ToRam(o.cmd.addr))
    ensures !Down(s).arvalid && !Down(s).awvalid && !Down(s).wvalid
  {
  }

  /** An access of another slave. */
  lemma ElsewhereStep(dp: Datapath, x: System, o: Outside, r: Bus.Log, before: ByteMemory.Memory, y: System)
    requires Quiet(dp, x.core.s) && Sane(x.core.s) && Linked(x.core.s, r) && Bus.Inv(r) && r.s == x.bus
    requires RamPhase(x.core.s, x.bus, x.adapter, x.ram, before) && y == DataBus.Step(dp, x, o)
    requires MemOp(x.core.s) && !ToRam(x.core.s.exMem.alu)
    ensures RamPhase(y.core.s, y.bus, y.adapter, y.ram, before)
  {
    var q := Bus.Follow(r, Inputs(x, o));
    NothingToRam(x.bus, r.open);
    LinkedStep(dp, x.core.s, r, Inputs(x, o), q);
    Bus.StepKeeps(r, Inputs(x, o));
  }

  /** The record counts the clocks of an access of the data memory. */
  predicate InTime(x: System, r: Bus.Log) {
    x.core.s.reqSent && MemOp(x.core.s) && ToRam(x.core.s.exMem.alu) ==>
      OpenAge(r.open) == Waited(x.core.s, x.bus, x.adapter)
  }

  lemma RamStep(dp: Datapath, x: System, o: Outside, r: Bus.Log, before: ByteMemory.Memory, y: System)
    requires Quiet(dp, x.core.s) && Sane(x.core.s) && Linked(x.core.s, r) && Bus.Inv(r) && r.s == x.bus
    requires RamPhase(x.core.s, x.bus, x.adapter, x.ram, before) && y == DataBus.Step(dp, x, o)
    ensures RamPhase(y.core.s, y.bus, y.adapter, y.ram,
                     if MemStall(x.core.s, Answer(x.bus.master)) then before else AfterEx(before, x.core.s.exMem))
    ensures InTime(x, r) ==> InTime(y, Bus.Follow(r, Inputs(x, o)))
    ensures x.core.s.reqSent && x.bus.master.state.Done? && ToRam(x.core.s.exMem.alu) && InTime(x, r) ==>
              r.open.age == Cost(x.core.s.exMem.memRead, x.core.s.exMem.memWrite)
  {
    var q := Bus.Follow(r, Inputs(x, o));
    LinkedStep(dp, x.core.s, r, Inputs(x, o), q);
    if MemOp(x.core.s) && !ToRam(x.core.s.exMem.alu) {
      ElsewhereStep(dp, x, o, r, before, y);
    } else if MemStall(x.core.s, Answer(x.bus.master)) {
      StalledStep(dp, x, o, before, y);
      StallShape(dp, x.core.s, Answer(x.bus.master));
    } else {
      FreeStep(dp, x, o, before, y);
    }
  }

  // ---------------------------------------------------------------------------------------------------
  // Every run
  // ---------------------------------------------------------------------------------------------------

  /** On the one-instruction-at-a-time machine, a load from the data memory finds the word that the stores before it
      left there; a store to it is of a width that exists. */
  predicate RamAt(dp: Datapath, mem: ByteMemory.Memory, data: nat -> Word, k: nat) {
    var c, addr := Dyn(dp, data, k).ctrl, Result(dp, Seq(dp, data, k));
    ToRam(addr) ==>
      && (c.memRead ==> data(k) == RamAfter(mem, SeqLog(dp, data, k))[ByteMemory.Index(addr)])
      && (c.memWrite ==> c.memFunct3 <= 2)
  }

  /** A load from elsewhere that leaves EX/MEM as dynamic instruction k takes data(k) with it. */
  predicate DeviceAnswered(dp: Datapath, data: nat -> Word, x: System) {
    var e, m := x.core.s.exMem, Answer(x.bus.master);
    Quiet(dp, x.core.s) && e.memRead && !MemStall(x.core.s, m) && !ToRam(e.alu) ==> m.rdata == data(x.core.count)
  }

  /** A run of the system on a path whose loads from the data memory find what was stored and whose other loads find
      what the devices answer, until cycle t. */
  ghost predicate Uses(dp: Datapath, mem: ByteMemory.Memory, data: nat -> Word, length: nat, env: nat -> Outside,
                       run: nat -> System, t: nat) {
    && Path(dp, data, length) && Operates(dp, mem, env, run) && (forall k: nat | k < length :: RamAt(dp, mem, data, k))
    && (forall u: nat | u < t :: DeviceAnswered(dp, data, run(u)))
    && run(t).core.count + 1 < length && UpTo(ReplaySafeAt(dp, data), run(t).core.count)
  }

  /** System and record at the same clock. */
  ghost predicate Recording(dp: Datapath, mem: ByteMemory.Memory, data: nat -> Word, x: System, r: Bus.Log) {
    && r.s == x.bus && Bus.Inv(r) && Linked(x.core.s, r) && InTime(x, r)
    && Tells(dp, data, x.core.count, r.closed)
    && RamPhase(x.core.s, x.bus, x.adapter, x.ram, RamAfter(mem, x.core.log))
  }

  lemma SaneState(dp: Datapath, mem: ByteMemory.Memory, data: nat -> Word, s: Pipe, n: nat, k: nat, tau: nat)
    requires RunInv(dp, data, s, n, k, tau) && Legal(dp, data, n) && RamAt(dp, mem, data, n)
    ensures Sane(s)
  {
    if s.exMem.valid { assert InMem(dp, s.exMem, Seq(dp, data, n)); }
  }

  /** Every load takes its word. */
  lemma TakesData(dp: Datapath, mem: ByteMemory.Memory, data: nat -> Word, x: System, r: Bus.Log)
    requires PipelineRefinement.Holds(dp, data, x.core) && Legal(dp, data, x.core.count)
    requires RamAt(dp, mem, data, x.core.count) && DeviceAnswered(dp, data, x) && Recording(dp, mem, data, x, r)
    ensures Answered(dp, data, x.core, Answer(x.bus.master))
  {
    var s, n := x.core.s, x.core.count;
    SaneState(dp, mem, data, s, n, x.core.issued, x.core.time);
    if s.exMem.memRead { assert InMem(dp, s.exMem, Seq(dp, data, n)); }
  }

  lemma RecordingStep(dp: Datapath, mem: ByteMemory.Memory, data: nat -> Word, x: System, o: Outside, r: Bus.Log,
                      y: System, q: Bus.Log)
    requires PipelineRefinement.Holds(dp, data, x.core) && Legal(dp, data, x.core.count) && Quiet(dp, x.core.s)
    requires RamAt(dp, mem, data, x.core.count) && DeviceAnswered(dp, data, x) && Recording(dp, mem, data, x, r)
    requires y == DataBus.Step(dp, x, o) && q == Bus.Follow(r, Inputs(x, o))
    ensures Recording(dp, mem, data, y, q)
  {
    var s, n, k, m := x.core.s, x.core.count, x.core.issued, Answer(x.bus.master);
    SaneState(dp, mem, data, s, n, k, x.core.time);
    TakesData(dp, mem, data, x, r);
    Bus.StepKeeps(r, Inputs(x, o));
    RamStep(dp, x, o, r, RamAfter(mem, x.core.log), y);
    LinkedStep(dp, s, r, Inputs(x, o), q);
    TellsStep(dp, data, s, r, Inputs(x, o), q, n, k, x.core.time);
    if !MemStall(s, m) { RamAfterCommits(dp, mem, s, m, x.core.log); }
  }

  /** One more clock of the system and its record. */
  function RecordNext(dp: Datapath, x: System, o: Outside, r: Bus.Log): Bus.Log {
    if Quiet(dp, x.core.s) then Bus.Follow(r, Inputs(x, o)) else r
  }

  lemma BothNext(dp: Datapath, mem: ByteMemory.Memory, data: nat -> Word, x: System, o: Outside, r: Bus.Log,
                 y: System, q: Bus.Log)
    requires PipelineRefinement.Holds(dp, data, x.core) && Legal(dp, data, x.core.count)
    requires RamAt(dp, mem, data, x.core.count) && DeviceAnswered(dp, data, x) && Recording(dp, mem, data, x, r)
    requires y == DataBus.Step(dp, x, o) && q == RecordNext(dp, x, o, r)
    ensures Recording(dp, mem, data, y, q)
  {
    if Quiet(dp, x.core.s) { RecordingStep(dp, mem, data, x, o, r, y, q); }
  }

  /** The record gains the transfers of the cycle, and its clocks are the memory stalls. */
  lemma RecordGains(dp: Datapath, x: System, o: Outside, r: Bus.Log, y: System, q: Bus.Log)
    requires Linked(x.core.s, r) && Bus.Inv(r) && r.s == x.bus
    requires y == DataBus.Step(dp, x, o) && q == RecordNext(dp, x, o, r)
    ensures LogIo(q) == LogIo(r) + CycleIo(dp, x, o)
    ensures Quiet(dp, x.core.s) ==> y.core.time + Busy(q) == x.core.time + Busy(r) + 1
  {
    if Quiet(dp, x.core.s) {
      LogIoStep(r, Inputs(x, o));
      LinkedStep(dp, x.core.s, r, Inputs(x, o), q);
    } else {
      assert LogIo(r) + [] == LogIo(r);
    }
  }

  lemma RecordedUnfolds(dp: Datapath, env: nat -> Outside, run: nat -> System, u: nat, t: nat)
    requires t == u + 1
    ensures Recorded(dp, env, run, t) == RecordNext(dp, run(u), env(u), Recorded(dp, env, run, u))
  {
  }

  lemma ApbIoUnfolds(dp: Datapath, env: nat -> Outside, run: nat -> System, u: nat, t: nat)
    requires t == u + 1
    ensures ApbIo(dp, env, run, t) == ApbIo(dp, env, run, u) + CycleIo(dp, run(u), env(u))
  {
  }

  ghost predicate QuietUntil(dp: Datapath, run: nat -> System, t: nat) {
    forall u: nat | u < t :: Quiet(dp, run(u).core.s)
  }

  /** The system at clock t, on its path and recorded by r. */
  ghost predicate Kept(dp: Datapath, mem: ByteMemory.Memory, data: nat -> Word, length: nat, env: nat -> Outside,
                       run: nat -> System, t: nat, r: Bus.Log) {
    && OnPath(dp, data, length, CoreEnv(run), CoreRun(run), t) && Recording(dp, mem, data, run(t), r)
    && LogIo(r) == ApbIo(dp, env, run, t) && (QuietUntil(dp, run, t) ==> t == run(t).core.time + Busy(r))
  }

  lemma KeptAtReset(dp: Datapath, mem: ByteMemory.Memory, data: nat -> Word, length: nat, env: nat -> Outside,
                    run: nat -> System)
    requires Uses(dp, mem, data, length, env, run, 0)
    ensures Kept(dp, mem, data, length, env, run, 0, Recorded(dp, env, run, 0))
  {
    CoreBehaves(dp, mem, env, run);
  }

  lemma UsesBefore(dp: Datapath, mem: ByteMemory.Memory, data: nat -> Word, length: nat, env: nat -> Outside,
                   run: nat -> System, u: nat, t: nat)
    requires Uses(dp, mem, data, length, env, run, t) && t == u + 1
    ensures Uses(dp, mem, data, length, env, run, u) && DeviceAnswered(dp, data, run(u)) && Edge(dp, env, run, u)
  {
    CoreBehaves(dp, mem, env, run);
    CountGrows(dp, CoreEnv(run), CoreRun(run), u);
    assert CoreRun(run)(u) == run(u).core && CoreRun(run)(t) == run(t).core;
    Shorter(ReplaySafeAt(dp, data), run(u).core.count, run(t).core.count);
  }

  lemma HoldsHere(dp: Datapath, mem: ByteMemory.Memory, data: nat -> Word, length: nat, env: nat -> Outside,
                  run: nat -> System, t: nat)
    requires Uses(dp, mem, data, length, env, run, t) && OnPath(dp, data, length, CoreEnv(run), CoreRun(run), t)
    ensures PipelineRefinement.Holds(dp, data, run(t).core) && Legal(dp, data, run(t).core.count)
    ensures RamAt(dp, mem, data, run(t).core.count)
  {
    RunHolds(dp, data, length, CoreEnv(run), CoreRun(run), t);
    LegalAround(dp, data, length, run(t).core);
  }

  lemma PathNext(dp: Datapath, mem: ByteMemory.Memory, data: nat -> Word, length: nat, env: nat -> Outside,
                 run: nat -> System, u: nat, t: nat)
    requires Uses(dp, mem, data, length, env, run, t) && t == u + 1
    requires OnPath(dp, data, length, CoreEnv(run), CoreRun(run), u)
    requires Answered(dp, data, run(u).core, Answer(run(u).bus.master))
    ensures OnPath(dp, data, length, CoreEnv(run), CoreRun(run), t)
  {
  }

  lemma KeptNext(dp: Datapath, mem: ByteMemory.Memory, data: nat -> Word, length: nat, env: nat -> Outside,
                 run: nat -> System, u: nat, t: nat, r: Bus.Log, q: Bus.Log)
    requires Uses(dp, mem, data, length, env, run, t) && t == u + 1 && Kept(dp, mem, data, length, env, run, u, r)
    requires r == Recorded(dp, env, run, u) && q == Recorded(dp, env, run, t)
    ensures Kept(dp, mem, data, length, env, run, t, q)
  {
    UsesBefore(dp, mem, data, length, env, run, u, t);
    HoldsHere(dp, mem, data, length, env, run, u);
    TakesData(dp, mem, data, run(u), r);
    PathNext(dp, mem, data, length, env, run, u, t);
    RecordedUnfolds(dp, env, run, u, t);
    ApbIoUnfolds(dp, env, run, u, t);
    BothNext(dp, mem, data, run(u), env(u), r, run(t), q);
    RecordGains(dp, run(u), env(u), r, run(t), q);
    assert QuietUntil(dp, run, t) ==> QuietUntil(dp, run, u) && Quiet(dp, run(u).core.s);
  }

  lemma {:induction false} AlwaysKept(dp: Datapath, mem: ByteMemory.Memory, data: nat -> Word, length: nat,
                                      env: nat -> Outside, run: nat -> System, t: nat)
    requires Uses(dp, mem, data, length, env, run, t)
    ensures Kept(dp, mem, data, length, env, run, t, Recorded(dp, env, run, t))
  {
    if t == 0 {
      KeptAtReset(dp, mem, data, length, env, run);
    } else {
      var u := t - 1;
      UsesBefore(dp, mem, data, length, env, run, u, t);
      AlwaysKept(dp, mem, data, length, env, run, u);
      KeptNext(dp, mem, data, length, env, run, u, t, Recorded(dp, env, run, u), Recorded(dp, env, run, t));
    }
  }

  /** One access follows the other, up to the value of a read that is not answered yet. */
  predicate SameAccess(a: Io, b: Io) {
    a == b || (a.Read? && b.Read? && a.addr == b.addr)
  }

  /** The transfers of the access in EX/MEM, instruction n: none yet, or its own. */
  predicate Begins(dp: Datapath, data: nat -> Word, n: nat, ios: seq<Io>) {
    var own := AccessAt(dp, data, n);
    ios == [] || (|ios| == 1 && |own| == 1 && SameAccess(ios[0], own[0]))
  }

  /** A command in progress has made no transfer, or its own. */
  lemma OpenTransfers(s: Bus.State, o: Bus.Open)
    requires Bus.InStep(s, o) && o.Open? && o.accesses != []
    ensures |o.accesses| == 1 && Peripheral(o.cmd.addr) && Bus.Carries(o.accesses[0], o.cmd)
  {
  }

  lemma OpenBegins(dp: Datapath, data: nat -> Word, r: Bus.Log, n: nat)
    requires Bus.Inv(r) && r.open.Open? && r.open.cmd == CommandAt(dp, data, n) && Accessing(dp, data, n)
    ensures Begins(dp, data, n, OpenIo(r.open))
  {
    if r.open.accesses != [] { OpenTransfers(r.s, r.open); }
  }

  /** Programs with peripherals. Core, bus master, interconnect, APB bridge, memory adapter and block RAM together, with
      any peripherals and any slaves at the other ports: after every clock of every run whose replays are safe,
        - registers and commits are those of the first n instructions executed one at a time;
        - the finished bus commands are the loads and stores among them, one command for each, in program order;
        - the APB transfers so far are their peripheral accesses, one transfer for each, with the program's addresses
          and data, and at most one more, that of the access in EX/MEM;
        - between accesses the RAM holds what the stores to it left;
        - and every clock was an unstalled cycle of the core or belongs to a command. */
  lemma EveryAccessOnce(dp: Datapath, mem: ByteMemory.Memory, data: nat -> Word, length: nat, env: nat -> Outside,
                        run: nat -> System, t: nat, n: nat, r: Bus.Log)
    requires Uses(dp, mem, data, length, env, run, t) && n == run(t).core.count && r == Recorded(dp, env, run, t)
    ensures View(run(t).core.s) == Seq(dp, data, n).regs && run(t).core.log == SeqLog(dp, data, n)
    ensures Tells(dp, data, n, r.closed)
    ensures ApbIo(dp, env, run, t) == ProgramIo(dp, data, n) + OpenIo(r.open)
    ensures if run(t).core.s.reqSent then Begins(dp, data, n, OpenIo(r.open))
            else OpenIo(r.open) == [] && run(t).ram.mem == RamAfter(mem, SeqLog(dp, data, n))
    ensures QuietUntil(dp, run, t) ==> t == run(t).core.time + Busy(r)
  {
    AlwaysKept(dp, mem, data, length, env, run, t);
    HoldsHere(dp, mem, data, length, env, run, t);
    PipelineRefinesSequential(dp, data, length, CoreEnv(run), CoreRun(run), t);
    ToldIsProgram(dp, data, n, r.closed);
    if run(t).core.s.reqSent {
      InMemory(dp, data, run(t).core.s, n, run(t).core.issued, run(t).core.time);
      OpenBegins(dp, data, r, n);
    }
  }
}
