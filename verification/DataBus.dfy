/** The core with its data memory behind the AXI bus: pipeline, master, interconnect, the adapter in front of the
    block RAM, and the RAM itself, all clocked by the same edge. */
module DataBus {
  import opened Words
  import opened AxiChannels
  import opened Pipeline
  import opened PipelineRefinement
  import opened PipelineMemory
  import ByteMemory
  import AxiMaster
  import ApbBridge
  import Interconnect
  import Bus

  // ---------------------------------------------------------------------------------------------------
  // The adapter from AXI to the block RAM
  // ---------------------------------------------------------------------------------------------------

  datatype AState = Idle | WriteData | WriteResp | ReadWait | ReadData

  datatype Adapter = Adapter(state: AState, addr: Word)

  const QUIESCENT := Adapter(Idle, 0)

  /** Write strobes, bit by bit. */
  function EnablesOf(s: Strobes): ByteMemory.Enables {
    [s % 2 == 1, s / 2 % 2 == 1, s / 4 % 2 == 1, s / 8 % 2 == 1]
  }

  /** What the adapter drives on its AXI port; read data come straight from the RAM's register. */
  function Port(b: Adapter, rdata: Word, down: ToSlave): FromSlave {
    FromSlave(b.state.Idle? && !down.awvalid && down.arvalid, b.state.ReadData?, rdata, OKAY,
              b.state.Idle? && down.awvalid, b.state.WriteData?, b.state.WriteResp?, OKAY)
  }

  /** One clock edge of the adapter. */
  function AdapterNext(b: Adapter, down: ToSlave): Adapter {
    match b.state
    case Idle =>
      if down.awvalid then Adapter(WriteData, down.awaddr)
      else if down.arvalid then Adapter(ReadWait, down.araddr) else b
    case WriteData => if down.wvalid then b.(state := WriteResp) else b
    case WriteResp => if down.bready then b.(state := Idle) else b
    case ReadWait => b.(state := ReadData)
    case ReadData => if down.rready then b.(state := Idle) else b
  }

  /** One clock edge of the RAM behind it. */
  function RamNext(b: Adapter, r: ByteMemory.Ram, down: ToSlave): ByteMemory.Ram {
    var we := b.state.WriteData? && down.wvalid;
    ByteMemory.Next(r, b.addr, down.wdata, we, EnablesOf(down.wstrb), b.state.ReadWait?)
  }

  /** The adapter itself, updated in place. */
  class AdapterUnit {
    var state: AState
    var addrReg: Word

    function Regs(): Adapter
      reads this
    {
      Adapter(state, addrReg)
    }

    constructor ()
      ensures Regs() == QUIESCENT
    {
      state, addrReg := Idle, 0;
    }

    /** A clock edge with the RAM's. */
    method Clock(down: ToSlave, ram: ByteMemory.BlockRam)
      requires ram.Valid()
      modifies this, ram, ram.mem
      ensures Regs() == AdapterNext(old(Regs()), down)
      ensures ram.Contents() == RamNext(old(Regs()), old(ram.Contents()), down)
    {
      var we := state.WriteData? && down.wvalid;
      ram.Clock(addrReg, down.wdata, we, EnablesOf(down.wstrb), state.ReadWait?);
      match state {
        case Idle =>
          if down.awvalid {
            state, addrReg := WriteData, down.awaddr;
          } else if down.arvalid {
            state, addrReg := ReadWait, down.araddr;
          }
        case WriteData =>
          if down.wvalid { state := WriteResp; }
        case WriteResp =>
          if down.bready { state := Idle; }
        case ReadWait =>
          state := ReadData;
        case ReadData =>
          if down.rready { state := Idle; }
      }
    }
  }

  // ---------------------------------------------------------------------------------------------------
  // The system
  // ---------------------------------------------------------------------------------------------------

  const DMEM: Interconnect.Port := 0

  /** The core, observed as before, the bus, the adapter and the RAM. */
  datatype System = System(core: Track, bus: Bus.State, adapter: Adapter, ram: ByteMemory.Ram)

  /** What the peripherals and the other slaves answer in a cycle. */
  datatype Outside = Outside(apb: ApbBridge.ApbIn, others: Interconnect.Port -> FromSlave)

  /** The strobes that go with an access width. */
  function StrobesOf(f: Funct3, addr: Word): Strobes {
    var k := addr % 4;
    if f == 0 then (if k == 0 then 1 else if k == 1 then 2 else if k == 2 then 4 else 8)
    else if f == 1 then (if k == 0 then 3 else if k == 1 then 6 else if k == 2 then 12 else 8)
    else 15
  }

  /** The command that the memory stage gives to the bus master. */
  function Command(s: Pipe): AxiMaster.Cmd {
    var e := s.exMem;
    AxiMaster.Cmd(e.memRead && e.valid, e.memWrite && e.valid, e.alu,
                  if e.memWrite && e.valid then ByteMemory.StoreData(e.memFunct3, e.alu, e.rs2) else 0,
                  StrobesOf(e.memFunct3, e.alu))
  }

  /** What the core sees of the master: done is its ready. */
  function Answer(m: AxiMaster.Master): MemIn {
    MemIn(m.state.Done?, m.rdata)
  }

  function Down(s: Bus.State): ToSlave {
    Interconnect.Toward(s.fabric, AxiMaster.Drive(s.master), DMEM)
  }

  function Inputs(x: System, o: Outside): Bus.Inputs {
    Bus.Inputs(Command(x.core.s), o.apb,
               (p: Interconnect.Port) => if p == DMEM then Port(x.adapter, x.ram.rdata, Down(x.bus)) else o.others(p))
  }

  /** One clock edge of everything. */
  function Step(dp: Datapath, x: System, o: Outside): System {
    if !Quiet(dp, x.core.s) then x
    else System(Proceed(dp, x.core, Answer(x.bus.master)), Bus.Step(x.bus, Inputs(x, o)),
                AdapterNext(x.adapter, Down(x.bus)), RamNext(x.adapter, x.ram, Down(x.bus)))
  }

  predicate Edge(dp: Datapath, env: nat -> Outside, run: nat -> System, t: nat) {
    run(t + 1) == Step(dp, run(t), env(t))
  }

  /** A run from reset with a data memory that starts as mem. */
  ghost predicate Operates(dp: Datapath, mem: ByteMemory.Memory, env: nat -> Outside, run: nat -> System) {
    && run(0).core == Track(ResetPipe(run(0).core.s.fetch.imemOut), 0, 0, 0, [])
    && run(0).bus == Bus.START && run(0).adapter == QUIESCENT && run(0).ram.mem == mem
    && forall t: nat :: Edge(dp, env, run, t)
  }

  // ---------------------------------------------------------------------------------------------------
  // How far the access in EX/MEM has come
  // ---------------------------------------------------------------------------------------------------

  /** The memory after the access in EX/MEM. */
  function AfterAccess(before: ByteMemory.Memory, e: ExMem): ByteMemory.Memory {
    if e.memWrite then ByteMemory.Stored(before, ByteMemory.Store(e.memFunct3, e.alu, e.rs2)) else before
  }

  ghost predicate Reading(e: ExMem, s: Bus.State, b: Adapter, r: ByteMemory.Ram, before: ByteMemory.Memory) {
    && r.mem == before
    && match s.master.state
       case RdAddr => s.fabric.state.Idle? && b.state.Idle?
       case RdData =>
         && s.fabric.state.Read? && s.fabric.active == DMEM && b.addr == e.alu
         && (b.state.ReadWait? || (b.state.ReadData? && r.rdata == before[ByteMemory.Index(e.alu)]))
       case Done => s.fabric.state.Idle? && b.state.Idle? && s.master.rdata == before[ByteMemory.Index(e.alu)]
       case _ => false
  }

  ghost predicate Writing(e: ExMem, s: Bus.State, b: Adapter, r: ByteMemory.Ram, before: ByteMemory.Memory) {
    var m, x := s.master, s.fabric;
    && m.wdata == ByteMemory.StoreData(e.memFunct3, e.alu, e.rs2) && m.wstrb == StrobesOf(e.memFunct3, e.alu)
    && r.mem == (if m.state.WrAddr? || m.state.WrData? then before else AfterAccess(before, e))
    && match m.state
       case WrAddr =>
         && !m.awDone && !m.wDone && b.state.Idle?
         && (x.state.Idle? || (x.state.WriteAw? && x.active == DMEM && !x.awAccepted))
       case WrData => x.state.WriteW? && x.active == DMEM && b.state.WriteData? && b.addr == e.alu
       case WrResp => x.state.WriteB? && x.active == DMEM && b.state.WriteResp?
       case Done => x.state.Idle? && b.state.Idle?
       case _ => false
  }

  /** The bus is idle, and the RAM holds what it should. */
  ghost predicate AtRest(s: Bus.State, b: Adapter, r: ByteMemory.Ram, mem: ByteMemory.Memory) {
    s.master.state.Idle? && s.fabric.state.Idle? && b.state.Idle? && r.mem == mem
  }

  /** Bus, adapter and RAM in step with the core; before is the memory that the committed stores left. */
  ghost predicate InPhase(c: Pipe, s: Bus.State, b: Adapter, r: ByteMemory.Ram, before: ByteMemory.Memory) {
    if !MemOp(c) || !c.reqSent then AtRest(s, b, r, before)
    else s.master.addr == c.exMem.alu &&
         if c.exMem.memRead then Reading(c.exMem, s, b, r, before) else Writing(c.exMem, s, b, r, before)
  }

  /** An access of the data memory: within its address range, of a width and alignment that exist. */
  predicate Local(e: ExMem) {
    && Interconnect.Decode(e.alu) == Interconnect.To(DMEM)
    && !(e.memRead && e.memWrite) && (e.memWrite ==> e.memFunct3 <= 2) && AccessAligned(e.memFunct3, e.alu)
  }

  lemma StrobesAreEnables(f: Funct3, addr: Word)
    requires f <= 2 && AccessAligned(f, addr)
    ensures EnablesOf(StrobesOf(f, addr)) == ByteMemory.StoreEnables(f, addr)
  {
  }

  /** Strobe j is the bit of weight 2^j. */
  lemma EnablesAre(s: Strobes)
    ensures var e := EnablesOf(s); s == Bit(e[0]) + 2 * Bit(e[1]) + 4 * Bit(e[2]) + 8 * Bit(e[3])
  {
  }

  /** The strobes of every width and address, lane by lane. */
  lemma StrobesByLane(f: Funct3, addr: Word, j: nat)
    requires j < 4
    ensures EnablesOf(StrobesOf(f, addr))[j]
            <==> match f
                 case 0 => j == addr % 4
                 case 1 => j == addr % 4 || j == addr % 4 + 1
                 case _ => true
  {
  }

  /** The cycles that a load or a store waits in EX/MEM. */
  function Cost(load: bool, store: bool): nat {
    if load then 4 else if store then 5 else 0
  }

  /** The cycles that an access has waited so far. */
  function Waited(c: Pipe, s: Bus.State, b: Adapter): nat {
    if !MemOp(c) || !c.reqSent then 0
    else
      match s.master.state
      case RdAddr => 1
      case RdData => if b.state.ReadWait? then 2 else 3
      case WrAddr => if s.fabric.state.Idle? then 1 else 2
      case WrData => 3
      case WrResp => 4
      case Done => Cost(c.exMem.memRead, c.exMem.memWrite)
      case Idle => 0
  }

  // ---------------------------------------------------------------------------------------------------
  // One clock edge
  // ---------------------------------------------------------------------------------------------------

  /** The access goes out. */
  lemma Departs(x: System, o: Outside, c: Pipe, before: ByteMemory.Memory)
    requires InPhase(x.core.s, x.bus, x.adapter, x.ram, before) && MemOp(x.core.s) && !x.core.s.reqSent
    requires Local(x.core.s.exMem) && c.exMem == x.core.s.exMem && c.reqSent
    ensures var s, b := Bus.Step(x.bus, Inputs(x, o)), AdapterNext(x.adapter, Down(x.bus));
            InPhase(c, s, b, RamNext(x.adapter, x.ram, Down(x.bus)), before) && Waited(c, s, b) == 1
  {
  }

  /** The next clock edge finds the access one cycle further. */
  ghost predicate MovesOn(x: System, o: Outside, before: ByteMemory.Memory) {
    var s, b := Bus.Step(x.bus, Inputs(x, o)), AdapterNext(x.adapter, Down(x.bus));
    && InPhase(x.core.s, s, b, RamNext(x.adapter, x.ram, Down(x.bus)), before)
    && Waited(x.core.s, s, b) == Waited(x.core.s, x.bus, x.adapter) + 1
  }

  /** An access is on its way. */
  ghost predicate Underway(x: System, before: ByteMemory.Memory) {
    && MemOp(x.core.s) && x.core.s.reqSent && Local(x.core.s.exMem) && !x.bus.master.state.Done?
    && InPhase(x.core.s, x.bus, x.adapter, x.ram, before)
  }

  lemma ReadMoves(x: System, o: Outside, before: ByteMemory.Memory)
    requires Underway(x, before) && x.core.s.exMem.memRead
    ensures MovesOn(x, o, before)
  {
  }

  lemma WriteAddressMoves(x: System, o: Outside, before: ByteMemory.Memory)
    requires Underway(x, before) && !x.core.s.exMem.memRead && x.bus.master.state.WrAddr?
    ensures MovesOn(x, o, before)
  {
  }

  lemma WriteDataMoves(x: System, o: Outside, before: ByteMemory.Memory)
    requires Underway(x, before) && !x.core.s.exMem.memRead && x.bus.master.state.WrData?
    ensures MovesOn(x, o, before)
  {
    StrobesAreEnables(x.core.s.exMem.memFunct3, x.core.s.exMem.alu);
  }

  lemma WriteResponseMoves(x: System, o: Outside, before: ByteMemory.Memory)
    requires Underway(x, before) && !x.core.s.exMem.memRead && x.bus.master.state.WrResp?
    ensures MovesOn(x, o, before)
  {
  }

  lemma AccessMoves(x: System, o: Outside, before: ByteMemory.Memory)
    requires Underway(x, before)
    ensures MovesOn(x, o, before)
  {
    if x.core.s.exMem.memRead { ReadMoves(x, o, before); }
    else if x.bus.master.state.WrAddr? { WriteAddressMoves(x, o, before); }
    else if x.bus.master.state.WrData? { WriteDataMoves(x, o, before); }
    else { WriteResponseMoves(x, o, before); }
  }

  /** Without an access the bus stays at rest. */
  lemma StaysAtRest(x: System, o: Outside, mem: ByteMemory.Memory)
    requires AtRest(x.bus, x.adapter, x.ram, mem) && !MemOp(x.core.s)
    ensures AtRest(Bus.Step(x.bus, Inputs(x, o)), AdapterNext(x.adapter, Down(x.bus)),
                   RamNext(x.adapter, x.ram, Down(x.bus)), mem)
  {
  }

  /** It comes to rest when the access is done. */
  lemma ComesToRest(x: System, o: Outside, before: ByteMemory.Memory)
    requires InPhase(x.core.s, x.bus, x.adapter, x.ram, before)
    requires MemOp(x.core.s) && x.core.s.reqSent && x.bus.master.state.Done? && Local(x.core.s.exMem)
    ensures AtRest(Bus.Step(x.bus, Inputs(x, o)), AdapterNext(x.adapter, Down(x.bus)),
                   RamNext(x.adapter, x.ram, Down(x.bus)), AfterAccess(before, x.core.s.exMem))
  {
  }

  /** What is known about EX/MEM in a reachable state of a program that stays in the data memory. */
  predicate Tidy(s: Pipe) {
    && (s.reqSent ==> MemOp(s)) && (MemOp(s) ==> Local(s.exMem))
    && (s.exMem.memRead || s.exMem.memWrite ==> s.exMem.valid)
  }

  lemma StalledStep(dp: Datapath, x: System, o: Outside, before: ByteMemory.Memory, y: System)
    requires Quiet(dp, x.core.s) && Tidy(x.core.s) && InPhase(x.core.s, x.bus, x.adapter, x.ram, before)
    requires MemStall(x.core.s, Answer(x.bus.master)) && y == Step(dp, x, o)
    ensures InPhase(y.core.s, y.bus, y.adapter, y.ram, before)
    ensures Waited(y.core.s, y.bus, y.adapter) == Waited(x.core.s, x.bus, x.adapter) + 1
  {
    StallShape(dp, x.core.s, Answer(x.bus.master));
    if x.core.s.reqSent { AccessMoves(x, o, before); } else { Departs(x, o, y.core.s, before); }
  }

  lemma FreeStep(dp: Datapath, x: System, o: Outside, before: ByteMemory.Memory, y: System)
    requires Quiet(dp, x.core.s) && Tidy(x.core.s) && InPhase(x.core.s, x.bus, x.adapter, x.ram, before)
    requires !MemStall(x.core.s, Answer(x.bus.master)) && y == Step(dp, x, o)
    ensures InPhase(y.core.s, y.bus, y.adapter, y.ram,
                    if MemOp(x.core.s) then AfterAccess(before, x.core.s.exMem) else before)
    ensures Waited(y.core.s, y.bus, y.adapter) == 0
    ensures Waited(x.core.s, x.bus, x.adapter) == Cost(x.core.s.exMem.memRead, x.core.s.exMem.memWrite)
  {
    if MemOp(x.core.s) { ComesToRest(x, o, before); } else { StaysAtRest(x, o, before); }
    assert !y.core.s.reqSent;
  }

  lemma AfterOne(mem: ByteMemory.Memory, log: seq<Commit>, c: Commit)
    ensures After(mem, log + [c]) == AfterCommit(After(mem, log), c)
  {
    assert (log + [c])[..|log|] == log;
  }

  lemma AfterStores(mem: ByteMemory.Memory, log: seq<Commit>, stores: seq<Commit>)
    requires |stores| <= 1
    ensures After(mem, log + stores)
            == if stores == [] then After(mem, log) else AfterCommit(After(mem, log), stores[0])
  {
    if stores == [] {
      assert log + stores == log;
    } else {
      assert stores == [stores[0]];
      AfterOne(mem, log, stores[0]);
    }
  }

  lemma AfterWrites(mem: ByteMemory.Memory, log: seq<Commit>, writes: seq<Commit>)
    requires |writes| <= 1 && forall c | c in writes :: c.RegWrite?
    ensures After(mem, log + writes) == After(mem, log)
  {
    AfterStores(mem, log, writes);
  }

  lemma AfterCommits(dp: Datapath, mem: ByteMemory.Memory, s: Pipe, m: MemIn, log: seq<Commit>)
    requires !MemStall(s, m) && (s.exMem.memWrite ==> s.exMem.valid)
    ensures After(mem, log + Commits(dp, s, m)) == AfterAccess(After(mem, log), s.exMem)
  {
    var e := Commits(dp, s, m);
    var w := Pipeline.Step(dp, s, m).memWb;
    var stores := if s.exMem.memWrite then [Store(s.exMem.alu, s.exMem.rs2, s.exMem.memFunct3)] else [];
    var writes := if w.valid && w.regWrite && w.rd != 0 then [RegWrite(w.rd, WbData(w))] else [];
    assert e == stores + writes;
    AfterStores(mem, log, stores);
    AfterWrites(mem, log + stores, writes);
    assert log + e == (log + stores) + writes;
  }

  /** The system in step, at clock t: the RAM holds what the committed stores left, and every clock so far was an
      unstalled cycle of the core, or belongs to an access that is over or to the present one. */
  ghost predicate Synchronous(x: System, mem: ByteMemory.Memory, spent: nat, t: nat) {
    && InPhase(x.core.s, x.bus, x.adapter, x.ram, After(mem, x.core.log))
    && t == x.core.time + spent + Waited(x.core.s, x.bus, x.adapter)
  }

  lemma SynchronousStep(dp: Datapath, mem: ByteMemory.Memory, x: System, o: Outside, spent: nat, t: nat, y: System)
    requires Synchronous(x, mem, spent, t) && Quiet(dp, x.core.s) && Tidy(x.core.s) && y == Step(dp, x, o)
    ensures Synchronous(y, mem, if MemStall(x.core.s, Answer(x.bus.master)) then spent
                                else spent + Cost(x.core.s.exMem.memRead, x.core.s.exMem.memWrite), t + 1)
  {
    var before := After(mem, x.core.log);
    if MemStall(x.core.s, Answer(x.bus.master)) {
      StalledStep(dp, x, o, before, y);
    } else {
      FreeStep(dp, x, o, before, y);
      AfterCommits(dp, mem, x.core.s, Answer(x.bus.master), x.core.log);
    }
  }

  /** A load that leaves takes the word that the committed stores left. */
  lemma BusServes(dp: Datapath, mem: ByteMemory.Memory, x: System, spent: nat, t: nat)
    requires Synchronous(x, mem, spent, t) && Tidy(x.core.s)
    ensures Serves(dp, mem, x.core, Answer(x.bus.master))
  {
  }
}
