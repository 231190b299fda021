/** Master, interconnect and bridge in composition: every command exactly once. */
module Bus {
  import opened Words
  import opened AxiChannels
  import opened AxiMaster
  import opened ApbBridge
  import Interconnect

  /** The registers of the three units. */
  datatype State = State(master: Master, fabric: Interconnect.Fabric, bridge: Bridge)

  const START := State(AxiMaster.RESET, Interconnect.RESET, ApbBridge.RESET)

  /** Everything outside: the CPU's command port, the APB slave, and the slaves at the other ports. */
  datatype Inputs = Inputs(cmd: Cmd, apb: ApbIn, others: Interconnect.Port -> FromSlave)

  function Ports(s: State, i: Inputs): Interconnect.Slaves {
    Interconnect.Slaves(Port(s.bridge, Interconnect.Toward(s.fabric, Drive(s.master), Interconnect.APB)), i.others)
  }

  /** One clock edge of all three. */
  function Step(s: State, i: Inputs): State {
    var up := Drive(s.master);
    State(
      AxiMaster.Next(s.master, i.cmd, Interconnect.Back(s.fabric, up, Ports(s, i))),
      Interconnect.Next(s.fabric, up, Ports(s, i)),
      ApbBridge.Next(s.bridge, Interconnect.Toward(s.fabric, up, Interconnect.APB), i.apb))
  }

  // ---------------------------------------------------------------------------------------------------
  // What an observer sees
  // ---------------------------------------------------------------------------------------------------

  /** A completed APB transfer. */
  datatype Transfer = Transfer(write: bool, addr: Word, wdata: Word, prdata: Word, pslverr: bool)

  /** A transfer on one of the five channels between the interconnect and the slave at a port. */
  datatype Move =
    | ReadAddress(port: Interconnect.Port, addr: Word)
    | ReadData(port: Interconnect.Port, rdata: Word, resp: Resp)
    | WriteAddress(port: Interconnect.Port, addr: Word)
    | WriteData(port: Interconnect.Port, wdata: Word, wstrb: Strobes)
    | WriteResponse(port: Interconnect.Port, resp: Resp)

  /** A command with the APB transfers and the transfers at the ports that it caused so far, the clocks since its
      acceptance and the wait states of the APB among them. */
  datatype Open = None | Open(cmd: Cmd, accesses: seq<Transfer>, moves: seq<Move>, age: nat, waits: nat)

  /** A finished command and its reply. */
  datatype Closed = Closed(what: Open, rdata: Word, error: bool)

  /** Accepted commands, finished ones, the current one, and transfers outside any command, on the APB and at the
      ports. */
  datatype Log = Log(s: State, accepted: seq<Cmd>, closed: seq<Closed>, open: Open, stray: seq<Transfer>,
                     strayMoves: seq<Move>)

  /** What is transferred at a port in a cycle: the master side's VALID or READY meets the slave's. */
  function MovesAt(s: State, i: Inputs, p: Interconnect.Port): seq<Move> {
    var d, f := Interconnect.Toward(s.fabric, Drive(s.master), p), Ports(s, i).At(p);
    (if d.arvalid && f.arready then [ReadAddress(p, d.araddr)] else [])
    + (if f.rvalid && d.rready then [ReadData(p, f.rdata, f.rresp)] else [])
    + (if d.awvalid && f.awready then [WriteAddress(p, d.awaddr)] else [])
    + (if d.wvalid && f.wready then [WriteData(p, d.wdata, d.wstrb)] else [])
    + (if f.bvalid && d.bready then [WriteResponse(p, f.bresp)] else [])
  }

  /** What is transferred at the first n ports. */
  function MovesBelow(s: State, i: Inputs, n: nat): seq<Move>
    requires n <= 6
  {
    if n == 0 then [] else MovesBelow(s, i, n - 1) + MovesAt(s, i, n - 1)
  }

  /** What is transferred at all six ports. */
  function Moves(s: State, i: Inputs): seq<Move> {
    MovesBelow(s, i, 6)
  }

  function Accesses(s: State, a: ApbIn): seq<Transfer> {
    var o := Apb(s.bridge);
    if o.psel && o.penable && a.pready then [Transfer(o.pwrite, o.paddr, o.pwdata, a.prdata, a.pslverr)] else []
  }

  predicate Waits(s: State, a: ApbIn) {
    Apb(s.bridge).penable && !a.pready
  }

  /** The record of a command in progress after one more clock. */
  function Older(o: Open, s: State, i: Inputs): Open
    requires o.Open?
  {
    Open(o.cmd, o.accesses + Accesses(s, i.apb), o.moves + Moves(s, i), o.age + 1,
         o.waits + if Waits(s, i.apb) then 1 else 0)
  }

  function Follow(r: Log, i: Inputs): Log {
    var next := Step(r.s, i);
    var accepts, done := Accepts(r.s.master, i.cmd), r.s.master.state.Done? && r.open.Open?;
    Log(next,
        if accepts then r.accepted + [i.cmd] else r.accepted,
        if done then r.closed + [Closed(r.open, r.s.master.rdata, r.s.master.error)] else r.closed,
        if accepts then Open(i.cmd, [], [], 1, 0) else if done || r.open.None? then None else Older(r.open, r.s, i),
        if accepts || done || r.open.None? then r.stray + Accesses(r.s, i.apb) else r.stray,
        if accepts || done || r.open.None? then r.strayMoves + Moves(r.s, i) else r.strayMoves)
  }

  predicate Clocked(env: nat -> Inputs, run: nat -> Log, t: nat) {
    run(t + 1) == Follow(run(t), env(t))
  }

  /** A run from reset; commands, APB answers and the other slaves are arbitrary in every cycle. */
  ghost predicate Behaviour(env: nat -> Inputs, run: nat -> Log) {
    && run(0) == Log(START, [], [], None, [], [])
    && forall t: nat :: Clocked(env, run, t)
  }

  // ---------------------------------------------------------------------------------------------------
  // What is expected
  // ---------------------------------------------------------------------------------------------------

  predicate ToApb(c: Cmd) {
    Interconnect.Decode(c.addr) == Interconnect.To(Interconnect.APB)
  }

  predicate Unmapped(c: Cmd) {
    Interconnect.Decode(c.addr).Unmapped?
  }

  /** The transfer is the command's: same direction, address and, for a write, data. */
  predicate Carries(a: Transfer, c: Cmd) {
    a.write == !c.read && a.addr == c.addr && (a.write ==> a.wdata == c.wdata)
  }

  /** Clocks from the acceptance of a command to its completion. */
  function Latency(c: Cmd, waits: nat): nat {
    if ToApb(c) then if c.read then 5 + waits else 7 + waits
    else if c.read then 3 else 4
  }

  /** The transfers of a command to the slave at port p, with that slave's answer: one on each channel it needs, at that
      port alone, with its address, data and strobes; a response other than 0 is an error. */
  predicate Served(c: Cmd, p: Interconnect.Port, moves: seq<Move>, rdata: Word, error: bool) {
    if c.read then
      |moves| == 2 && moves[0] == ReadAddress(p, c.addr) && moves[1].ReadData? && moves[1].port == p
      && rdata == moves[1].rdata && error == (moves[1].resp != 0)
    else
      |moves| == 3 && moves[0] == WriteAddress(p, c.addr) && moves[1] == WriteData(p, c.wdata, c.wstrb)
      && moves[2].WriteResponse? && moves[2].port == p && error == (moves[2].resp != 0)
  }

  /** On the APB a finished command had exactly the effect and the reply it should have, in the time it should take. */
  ghost predicate RightOnApb(t: Closed) {
    var o := t.what;
    && o.Open?
    && (ToApb(o.cmd) ==>
          && |o.accesses| == 1 && Carries(o.accesses[0], o.cmd)
          && t.error == o.accesses[0].pslverr && (o.cmd.read ==> t.rdata == o.accesses[0].prdata))
    && (!ToApb(o.cmd) ==> o.accesses == [])
    && (Unmapped(o.cmd) ==> t.error && (o.cmd.read ==> t.rdata == 0))
    && (ToApb(o.cmd) || Unmapped(o.cmd) ==> o.age == Latency(o.cmd, o.waits))
  }

  /** At the ports it had exactly the transfers it should have. */
  predicate RightAtPorts(t: Closed) {
    var o := t.what;
    o.Open? && match Interconnect.Decode(o.cmd.addr)
               case To(p) => Served(o.cmd, p, o.moves, t.rdata, t.error)
               case Unmapped => o.moves == []
  }

  /** A finished command had exactly the effect and the reply it should have. */
  ghost predicate Right(t: Closed) {
    RightOnApb(t) && RightAtPorts(t)
  }

  // ---------------------------------------------------------------------------------------------------
  // The invariant
  // ---------------------------------------------------------------------------------------------------

  /** How many clocks before completion an APB command stands, wait states not counted. */
  function Remaining(b: Bridge): int {
    match b.state
    case WrWait => 4
    case Setup => 3
    case Access => 2
    case WrRespond => 1
    case RdRespond => 1
    case Idle => 0
  }

  /** The bridge is working on the command; after its transfer it holds the slave's answer. */
  ghost predicate Working(b: Bridge, o: Open)
    requires o.Open?
  {
    && b.addr == o.cmd.addr && b.isWrite == !o.cmd.read
    && (b.isWrite && !b.state.WrWait? ==> b.wdata == o.cmd.wdata)
    && (b.state.WrRespond? ==> b.isWrite) && (b.state.RdRespond? ==> !b.isWrite)
    && (if b.state.WrRespond? || b.state.RdRespond? then
          && |o.accesses| == 1 && Carries(o.accesses[0], o.cmd)
          && b.rdata == o.accesses[0].prdata && b.error == o.accesses[0].pslverr
        else o.accesses == [])
  }

  /** A command to the APB in progress: the units move in lock step, and the bridge serves nothing else. */
  ghost predicate ApbStep(m: MState, x: Interconnect.Fabric, b: Bridge, o: Open)
    requires o.Open?
  {
    match m
    case RdAddr => x.state.Idle? && b.state.Idle? && o.age == 1 && o.waits == 0
    case RdData =>
      && x.state.Read? && (b.state.Setup? || b.state.Access? || b.state.RdRespond?)
      && Working(b, o) && o.age + Remaining(b) == 5 + o.waits
    case WrAddr => b.state.Idle? && o.waits == 0 && if x.state.Idle? then o.age == 1 else x.state.WriteAw? && o.age == 2
    case WrData => x.state.WriteW? && b.state.WrWait? && Working(b, o) && o.age == 3 && o.waits == 0
    case WrResp =>
      && x.state.WriteB? && (b.state.Setup? || b.state.Access? || b.state.WrRespond?)
      && Working(b, o) && o.age + Remaining(b) == 7 + o.waits
    case _ => false
  }

  /** A command to an unmapped address in progress. */
  predicate ErrorStep(m: MState, x: Interconnect.Fabric, o: Open)
    requires o.Open?
  {
    match m
    case RdAddr => x.state.Idle? && o.age == 1
    case RdData => x.state.DecErrR? && o.age == 2
    case WrAddr => x.state.Idle? && o.age == 1
    case WrData => x.state.DecErrB? && o.age == 2
    case WrResp => x.state.DecErrB? && o.age == 3
    case _ => false
  }

  /** A command to another slave in progress. */
  predicate OtherStep(m: MState, x: Interconnect.Fabric) {
    match m
    case RdAddr => x.state.Idle? || x.state.Read?
    case RdData => x.state.Read?
    case WrAddr => x.state.Idle? || x.state.WriteAw?
    case WrData => x.state.WriteW?
    case WrResp => x.state.WriteB?
    case _ => false
  }

  /** The units in step, by the state of the master and the target of the command. */
  ghost predicate InStep(s: State, o: Open) {
    var m, x, b := s.master, s.fabric, s.bridge;
    if o.None? then m.state.Idle? && x.state.Idle? && b.state.Idle?
    else if m.state.Done? then x.state.Idle? && b.state.Idle? && RightOnApb(Closed(o, m.rdata, m.error))
    else
      var c := o.cmd;
      && m.addr == c.addr && (!c.read ==> m.wdata == c.wdata) && (m.state.WrAddr? ==> !m.awDone && !m.wDone)
      && c.read == (m.state.RdAddr? || m.state.RdData?)
      && (x.state.WriteAw? ==> !x.awAccepted)
      && (b.state.Idle? ==> o.accesses == [])
      && match Interconnect.Decode(c.addr)
         case Unmapped => b.state.Idle? && ErrorStep(m.state, x, o)
         case To(p) =>
           && (!x.state.Idle? ==> x.active == p)
           && if p == Interconnect.APB then ApbStep(m.state, x, b, o) else b.state.Idle? && OtherStep(m.state, x)
  }

  function CommandOf(o: Open): seq<Cmd> {
    if o.Open? then [o.cmd] else []
  }

  /** The commands of finished records, in order. */
  function Commands(closed: seq<Closed>): seq<Cmd> {
    if closed == [] then [] else Commands(closed[..|closed| - 1]) + CommandOf(closed[|closed| - 1].what)
  }

  /** What a command to port p has transferred when the master is in this state. */
  function Made(m: MState, c: Cmd, p: Interconnect.Port): seq<Move> {
    match m
    case RdData => [ReadAddress(p, c.addr)]
    case WrData => [WriteAddress(p, c.addr)]
    case WrResp => [WriteAddress(p, c.addr), WriteData(p, c.wdata, c.wstrb)]
    case _ => []
  }

  /** The transfers of the command in progress, or of the one that has just finished. */
  predicate OnItsWay(m: Master, o: Open) {
    o.Open? ==>
      && (!o.cmd.read ==> m.wstrb == o.cmd.wstrb)
      && if m.state.Done? then RightAtPorts(Closed(o, m.rdata, m.error))
         else match Interconnect.Decode(o.cmd.addr)
              case To(p) => o.moves == Made(m.state, o.cmd, p)
              case Unmapped => o.moves == []
  }

  ghost predicate Inv(r: Log) {
    && InStep(r.s, r.open) && OnItsWay(r.s.master, r.open) && r.stray == [] && r.strayMoves == []
    && (forall k | 0 <= k < |r.closed| :: Right(r.closed[k]))
    && r.accepted == Commands(r.closed) + CommandOf(r.open)
  }

  // ---------------------------------------------------------------------------------------------------
  // Which port is served
  // ---------------------------------------------------------------------------------------------------

  /** The port with which the interconnect exchanges anything in this cycle. */
  function Serves(s: State): Interconnect.Route {
    match s.fabric.state
    case Idle => if s.master.state.RdAddr? then Interconnect.Decode(s.master.addr) else Interconnect.Unmapped
    case Read => Interconnect.To(s.fabric.active)
    case WriteAw => Interconnect.To(s.fabric.active)
    case WriteW => Interconnect.To(s.fabric.active)
    case WriteB => Interconnect.To(s.fabric.active)
    case _ => Interconnect.Unmapped
  }

  lemma NothingElsewhere(s: State, i: Inputs, p: Interconnect.Port)
    requires Serves(s) != Interconnect.To(p)
    ensures MovesAt(s, i, p) == []
  {
  }

  lemma {:induction false} OnlyServed(s: State, i: Inputs, n: nat)
    requires n <= 6
    ensures MovesBelow(s, i, n)
            == if Serves(s).To? && Serves(s).port < n then MovesAt(s, i, Serves(s).port) else []
  {
    if n > 0 {
      OnlyServed(s, i, n - 1);
      if Serves(s) != Interconnect.To(n - 1) { NothingElsewhere(s, i, n - 1); }
    }
  }

  /** What a command in progress transfers in a cycle. */
  function Expected(s: State, f: FromSlave, p: Interconnect.Port): seq<Move> {
    var m := s.master;
    match m.state
    case RdAddr => if s.fabric.state.Idle? && f.arready then [ReadAddress(p, m.addr)] else []
    case RdData => if f.rvalid then [ReadData(p, f.rdata, f.rresp)] else []
    case WrAddr => if s.fabric.state.WriteAw? && f.awready then [WriteAddress(p, m.addr)] else []
    case WrData => if f.wready then [WriteData(p, m.wdata, m.wstrb)] else []
    case WrResp => if f.bvalid then [WriteResponse(p, f.bresp)] else []
    case _ => []
  }

  /** The fabric stands where the master's state says. */
  predicate FabricFollows(s: State, p: Interconnect.Port) {
    var m, x := s.master, s.fabric;
    match m.state
    case RdAddr => x.state.Idle? || (x.state.Read? && x.active == p)
    case RdData => x.state.Read? && x.active == p
    case WrAddr =>
      !m.awDone && !m.wDone && (x.state.Idle? || (x.state.WriteAw? && x.active == p && !x.awAccepted))
    case WrData => x.state.WriteW? && x.active == p
    case WrResp => x.state.WriteB? && x.active == p
    case _ => false
  }

  lemma InStepFollows(s: State, o: Open)
    requires InStep(s, o) && o.Open? && !s.master.state.Done? && !Unmapped(o.cmd)
    ensures FabricFollows(s, Interconnect.Decode(o.cmd.addr).port) && s.master.addr == o.cmd.addr
    ensures o.cmd.read == (s.master.state.RdAddr? || s.master.state.RdData?)
    ensures !o.cmd.read ==> s.master.wdata == o.cmd.wdata
  {
  }

  lemma MovesNow(s: State, i: Inputs, p: Interconnect.Port)
    requires FabricFollows(s, p) && Interconnect.Decode(s.master.addr) == Interconnect.To(p)
    ensures Moves(s, i) == Expected(s, Ports(s, i).At(p), p)
  {
    OnlyServed(s, i, 6);
  }

  /** What the master makes of it. */
  lemma MasterMoves(s: State, i: Inputs, p: Interconnect.Port)
    requires FabricFollows(s, p) && Interconnect.Decode(s.master.addr) == Interconnect.To(p)
    ensures var m, q, f := s.master, Step(s, i).master, Ports(s, i).At(p);
            && q.wstrb == m.wstrb
            && match m.state
               case RdAddr => q.state == if s.fabric.state.Idle? && f.arready then RdData else RdAddr
               case RdData =>
                 q.state == (if f.rvalid then Done else RdData)
                 && (f.rvalid ==> q.rdata == f.rdata && q.error == (f.rresp != 0))
               case WrAddr => q.state == if s.fabric.state.WriteAw? && f.awready then WrData else WrAddr
               case WrData => q.state == if f.wready then WrResp else WrData
               case WrResp =>
                 q.state == (if f.bvalid then Done else WrResp) && (f.bvalid ==> q.error == (f.bresp != 0))
               case _ => true
  {
  }

  lemma MovesKept(s: State, o: Open, i: Inputs, p: Interconnect.Port)
    requires InStep(s, o) && o.Open? && !s.master.state.Done? && OnItsWay(s.master, o)
    requires Interconnect.Decode(o.cmd.addr) == Interconnect.To(p)
    ensures OnItsWay(Step(s, i).master, Older(o, s, i))
  {
    InStepFollows(s, o);
    MovesNow(s, i, p);
    MasterMoves(s, i, p);
  }

  lemma NoMovesUnmapped(s: State, o: Open, i: Inputs)
    requires InStep(s, o) && o.Open? && !s.master.state.Done? && OnItsWay(s.master, o) && Unmapped(o.cmd)
    ensures OnItsWay(Step(s, i).master, Older(o, s, i))
  {
    OnlyServed(s, i, 6);
  }

  // ---------------------------------------------------------------------------------------------------
  // One clock edge
  // ---------------------------------------------------------------------------------------------------

  /** A command to the APB on its way to the bridge. */
  lemma ApbStarts(s: State, o: Open, i: Inputs)
    requires InStep(s, o) && o.Open? && !s.master.state.Done? && ToApb(o.cmd) && s.bridge.state.Idle?
    ensures InStep(Step(s, i), Older(o, s, i))
  {
  }

  /** The bridge takes the write data. */
  lemma ApbWaits(s: State, o: Open, i: Inputs)
    requires InStep(s, o) && o.Open? && !s.master.state.Done? && ToApb(o.cmd) && s.bridge.state.WrWait?
    ensures InStep(Step(s, i), Older(o, s, i))
  {
  }

  /** The bridge runs the APB transfer. */
  lemma ApbTransfers(s: State, o: Open, i: Inputs)
    requires InStep(s, o) && o.Open? && !s.master.state.Done? && ToApb(o.cmd)
    requires s.bridge.state.Setup? || s.bridge.state.Access?
    ensures InStep(Step(s, i), Older(o, s, i))
  {
  }

  /** The bridge returns the answer. */
  lemma ApbReturns(s: State, o: Open, i: Inputs)
    requires InStep(s, o) && o.Open? && !s.master.state.Done? && ToApb(o.cmd)
    requires s.bridge.state.RdRespond? || s.bridge.state.WrRespond?
    ensures InStep(Step(s, i), Older(o, s, i))
  {
  }

  lemma ErrorKeeps(s: State, o: Open, i: Inputs)
    requires InStep(s, o) && o.Open? && !s.master.state.Done? && Unmapped(o.cmd)
    ensures InStep(Step(s, i), Older(o, s, i))
  {
  }

  lemma OtherReadKeeps(s: State, o: Open, i: Inputs)
    requires InStep(s, o) && o.Open? && !s.master.state.Done? && !Unmapped(o.cmd) && !ToApb(o.cmd) && o.cmd.read
    ensures InStep(Step(s, i), Older(o, s, i))
  {
  }

  lemma OtherAddressKeeps(s: State, o: Open, i: Inputs)
    requires InStep(s, o) && o.Open? && s.master.state.WrAddr? && !Unmapped(o.cmd) && !ToApb(o.cmd)
    ensures InStep(Step(s, i), Older(o, s, i))
  {
  }

  lemma OtherWriteKeeps(s: State, o: Open, i: Inputs)
    requires InStep(s, o) && o.Open? && !s.master.state.Done? && !Unmapped(o.cmd) && !ToApb(o.cmd) && !o.cmd.read
    requires s.master.state.WrData?
    ensures InStep(Step(s, i), Older(o, s, i))
  {
  }

  lemma OtherResponseKeeps(s: State, o: Open, i: Inputs)
    requires InStep(s, o) && o.Open? && !s.master.state.Done? && !Unmapped(o.cmd) && !ToApb(o.cmd) && !o.cmd.read
    requires s.master.state.WrResp?
    ensures InStep(Step(s, i), Older(o, s, i))
  {
  }

  lemma BoundaryKeeps(s: State, o: Open, i: Inputs)
    requires InStep(s, o) && (o.None? || s.master.state.Done?)
    ensures InStep(Step(s, i), if Accepts(s.master, i.cmd) then Open(i.cmd, [], [], 1, 0) else None)
    ensures Accesses(s, i.apb) == [] && Moves(s, i) == []
    ensures OnItsWay(Step(s, i).master, if Accepts(s.master, i.cmd) then Open(i.cmd, [], [], 1, 0) else None)
  {
    OnlyServed(s, i, 6);
  }

  lemma InStepKept(s: State, o: Open, i: Inputs)
    requires InStep(s, o) && o.Open? && !s.master.state.Done?
    ensures InStep(Step(s, i), Older(o, s, i)) && !Accepts(s.master, i.cmd)
  {
    if Unmapped(o.cmd) {
      ErrorKeeps(s, o, i);
    } else if !ToApb(o.cmd) {
      if o.cmd.read { OtherReadKeeps(s, o, i); }
      else if s.master.state.WrAddr? { OtherAddressKeeps(s, o, i); }
      else if s.master.state.WrData? { OtherWriteKeeps(s, o, i); }
      else { OtherResponseKeeps(s, o, i); }
    } else if s.bridge.state.Idle? {
      ApbStarts(s, o, i);
    } else if s.bridge.state.WrWait? {
      ApbWaits(s, o, i);
    } else if s.bridge.state.Setup? || s.bridge.state.Access? {
      ApbTransfers(s, o, i);
    } else {
      ApbReturns(s, o, i);
    }
  }

  lemma CommandsAppend(closed: seq<Closed>, last: Closed)
    ensures Commands(closed + [last]) == Commands(closed) + CommandOf(last.what)
  {
    assert (closed + [last])[..|closed|] == closed;
  }

  lemma BoundaryStep(r: Log, i: Inputs)
    requires Inv(r) && (r.open.None? || r.s.master.state.Done?)
    ensures Inv(Follow(r, i))
  {
    BoundaryKeeps(r.s, r.open, i);
    if r.open.Open? { CommandsAppend(r.closed, Closed(r.open, r.s.master.rdata, r.s.master.error)); }
  }

  lemma InnerStep(r: Log, i: Inputs)
    requires Inv(r) && r.open.Open? && !r.s.master.state.Done?
    ensures Inv(Follow(r, i))
  {
    InStepKept(r.s, r.open, i);
    if Unmapped(r.open.cmd) { NoMovesUnmapped(r.s, r.open, i); }
    else { MovesKept(r.s, r.open, i, Interconnect.Decode(r.open.cmd.addr).port); }
  }

  lemma StepKeeps(r: Log, i: Inputs)
    requires Inv(r)
    ensures Inv(Follow(r, i))
  {
    if r.open.None? || r.s.master.state.Done? { BoundaryStep(r, i); } else { InnerStep(r, i); }
  }

  // ---------------------------------------------------------------------------------------------------
  // Every run
  // ---------------------------------------------------------------------------------------------------

  lemma {:induction false} AlwaysInv(env: nat -> Inputs, run: nat -> Log, t: nat)
    requires Behaviour(env, run)
    ensures Inv(run(t))
  {
    if t > 0 {
      AlwaysInv(env, run, t - 1);
      assert Clocked(env, run, t - 1);
      StepKeeps(run(t - 1), env(t - 1));
    }
  }

  /** Exactly once: commands finish in the order of their acceptance. A finished command to the slave at any port made
      one transfer on each channel it needs, at that port alone, with its address, data and strobes, and returned that
      slave's data and error; one to the APB caused exactly one APB transfer, with its address, direction and data, and
      returned that transfer's data and error; an unmapped one caused none and returned an error. There are no other
      transfers, at the ports or on the APB. */
  lemma ExactlyOnce(env: nat -> Inputs, run: nat -> Log, t: nat)
    requires Behaviour(env, run)
    ensures run(t).accepted == Commands(run(t).closed) + CommandOf(run(t).open)
    ensures forall k | 0 <= k < |run(t).closed| :: Right(run(t).closed[k])
    ensures run(t).stray == [] && run(t).strayMoves == []
  {
    AlwaysInv(env, run, t);
  }

  /** A read address that the slave at its port did not take. */
  predicate Lost(s: State, p: Interconnect.Port) {
    s.master.state.RdAddr? && s.fabric.state.Read? && s.fabric.active == p
  }

  lemma StaysLost(s: State, i: Inputs, p: Interconnect.Port)
    requires Lost(s, p)
    ensures Lost(Step(s, i), p)
  {
  }

  lemma {:induction false} LostForGood(env: nat -> Inputs, run: nat -> Log, p: Interconnect.Port, t: nat, u: nat)
    requires Behaviour(env, run) && Lost(run(t).s, p) && t <= u
    ensures Lost(run(u).s, p)
    decreases u
  {
    if t < u {
      LostForGood(env, run, p, t, u - 1);
      assert Clocked(env, run, u - 1);
      StaysLost(run(u - 1).s, env(u - 1), p);
    }
  }

  lemma AddressPresented(s: State, i: Inputs, p: Interconnect.Port)
    requires s.master.state.RdAddr? && s.fabric.state.Idle? && Interconnect.Decode(s.master.addr) == Interconnect.To(p)
    ensures if Ports(s, i).At(p).arready then Step(s, i).master.state.RdData? else Lost(Step(s, i), p)
  {
  }

  /** A slave sees the address of a read for one cycle only. If it is ready in that cycle the read goes on to its data;
      if it is not, the read never does, whatever the slave does later. */
  lemma OnlyChance(env: nat -> Inputs, run: nat -> Log, t: nat, p: Interconnect.Port)
    requires Behaviour(env, run) && run(t).s.master.state.RdAddr? && run(t).s.fabric.state.Idle?
    requires Interconnect.Decode(run(t).s.master.addr) == Interconnect.To(p)
    ensures if Ports(run(t).s, env(t)).At(p).arready then run(t + 1).s.master.state.RdData?
            else forall u: nat | u > t :: run(u).s.master.state.RdAddr?
  {
    assert Clocked(env, run, t);
    AddressPresented(run(t).s, env(t), p);
    if !Ports(run(t).s, env(t)).At(p).arready {
      forall u: nat | u > t ensures run(u).s.master.state.RdAddr? { LostForGood(env, run, p, t + 1, u); }
    }
  }

  /** How many clocks a command has before it if its slave never keeps it waiting. */
  function Ahead(s: State): nat {
    match s.master.state
    case RdAddr => 2
    case RdData => 1
    case WrAddr => if s.fabric.state.Idle? then 4 else 3
    case WrData => 2
    case WrResp => 1
    case _ => 0
  }

  /** The slave at port p keeps the command waiting in this cycle. */
  predicate KeptWaiting(s: State, i: Inputs, p: Interconnect.Port) {
    var f := Ports(s, i).At(p);
    match s.master.state
    case RdData => !f.rvalid
    case WrAddr => s.fabric.state.WriteAw? && !f.awready
    case WrData => !f.wready
    case WrResp => !f.bvalid
    case _ => false
  }

  lemma ClockForward(s: State, i: Inputs, p: Interconnect.Port)
    requires FabricFollows(s, p) && Interconnect.Decode(s.master.addr) == Interconnect.To(p)
    requires !Lost(s, p) && !Lost(Step(s, i), p)
    ensures Ahead(s) > 0 && Ahead(Step(s, i)) == if KeptWaiting(s, i, p) then Ahead(s) else Ahead(s) - 1
  {
  }

  /** In how many of n clocks the slave kept the command waiting. */
  function Kept(env: nat -> Inputs, run: nat -> Log, p: Interconnect.Port, t: nat, n: nat): nat {
    if n == 0 then 0
    else Kept(env, run, p, t, n - 1) + Bit(KeptWaiting(run(t + n - 1).s, env(t + n - 1), p))
  }

  /** Between clocks u and u + 1 the command is not done yet, and its address, if it is a read, is not lost. */
  predicate UnderWay(run: nat -> Log, p: Interconnect.Port, u: nat) {
    !run(u).s.master.state.Done? && !Lost(run(u).s, p) && !Lost(run(u + 1).s, p)
  }

  lemma OneClock(r: Log, i: Inputs, q: Log, p: Interconnect.Port)
    requires Inv(r) && q == Follow(r, i) && r.open.Open? && !r.s.master.state.Done?
    requires Interconnect.Decode(r.open.cmd.addr) == Interconnect.To(p) && !Lost(r.s, p) && !Lost(q.s, p)
    ensures q.open.Open? && q.open.cmd == r.open.cmd
    ensures Ahead(r.s) > 0 && Ahead(q.s) == if KeptWaiting(r.s, i, p) then Ahead(r.s) else Ahead(r.s) - 1
  {
    InStepFollows(r.s, r.open);
    ClockForward(r.s, i, p);
  }

  lemma OneClockOfRun(env: nat -> Inputs, run: nat -> Log, p: Interconnect.Port, u: nat, v: nat)
    requires Behaviour(env, run) && run(u).open.Open? && UnderWay(run, p, u) && v == u + 1
    requires Interconnect.Decode(run(u).open.cmd.addr) == Interconnect.To(p)
    ensures run(v).open.Open? && run(v).open.cmd == run(u).open.cmd
    ensures Ahead(run(v).s) == Ahead(run(u).s) - 1 + Bit(KeptWaiting(run(u).s, env(u), p))
  {
    AlwaysInv(env, run, u);
    assert Clocked(env, run, u);
    OneClock(run(u), env(u), run(v), p);
  }

  lemma NothingAhead(env: nat -> Inputs, run: nat -> Log, t: nat)
    requires Behaviour(env, run) && run(t).open.Open?
    ensures run(t).s.master.state.Done? <==> Ahead(run(t).s) == 0
  {
    AlwaysInv(env, run, t);
  }

  lemma {:induction false} CountsDown(env: nat -> Inputs, run: nat -> Log, p: Interconnect.Port, t: nat, n: nat)
    requires Behaviour(env, run) && run(t).open.Open?
    requires Interconnect.Decode(run(t).open.cmd.addr) == Interconnect.To(p)
    requires forall u | t <= u < t + n :: UnderWay(run, p, u)
    ensures run(t + n).open.Open? && run(t + n).open.cmd == run(t).open.cmd
    ensures n + Ahead(run(t + n).s) == Ahead(run(t).s) + Kept(env, run, p, t, n)
    decreases n
  {
    if n > 0 {
      CountsDown(env, run, p, t, n - 1);
      OneClockOfRun(env, run, p, t + n - 1, t + n);
    }
  }

  /** Progress at every port: a command is done after a fixed number of clocks and those in which its slave kept it
      waiting, and not before. */
  lemma FinishesAtPort(env: nat -> Inputs, run: nat -> Log, p: Interconnect.Port, t: nat, n: nat)
    requires Behaviour(env, run) && run(t).open.Open?
    requires Interconnect.Decode(run(t).open.cmd.addr) == Interconnect.To(p)
    requires forall u | t <= u < t + n :: UnderWay(run, p, u)
    ensures run(t + n).s.master.state.Done? <==> n == Ahead(run(t).s) + Kept(env, run, p, t, n)
  {
    CountsDown(env, run, p, t, n);
    NothingAhead(env, run, t + n);
  }

  /** Progress with exact latency: a command to the APB or to an unmapped address is done exactly Latency
      clocks after its acceptance, and not before. */
  lemma ExactLatency(env: nat -> Inputs, run: nat -> Log, t: nat)
    requires Behaviour(env, run) && run(t).open.Open?
    ensures var o := run(t).open;
            ToApb(o.cmd) || Unmapped(o.cmd) ==>
              o.age <= Latency(o.cmd, o.waits) && (run(t).s.master.state.Done? <==> o.age == Latency(o.cmd, o.waits))
  {
    AlwaysInv(env, run, t);
  }

  /** Whenever the interconnect is idle the bridge is too, so it takes an address in the only cycle in which
      the interconnect presents it. */
  lemma AddressNeverLost(env: nat -> Inputs, run: nat -> Log, t: nat)
    requires Behaviour(env, run)
    ensures var s := run(t).s;
            var down := Interconnect.Toward(s.fabric, Drive(s.master), Interconnect.APB);
            && (s.fabric.state.Idle? ==> s.bridge.state.Idle?)
            && (down.arvalid ==> Port(s.bridge, down).arready)
            && (down.awvalid ==> Port(s.bridge, down).awready)
            && (down.wvalid ==> Port(s.bridge, down).wready)
  {
    AlwaysInv(env, run, t);
  }

  /** Section 3 of ARM IHI 0024: on the APB every transfer starts with one setup cycle, select without enable; in the
      access cycles behind it select and enable are up and address, direction and write data do not change until the
      slave is ready, and then select drops. */
  lemma ApbProtocol(env: nat -> Inputs, run: nat -> Log, t: nat)
    requires Behaviour(env, run)
    ensures var o, q := Apb(run(t).s.bridge), Apb(run(t + 1).s.bridge);
            && (o.penable ==> o.psel) && (!o.psel ==> !q.penable)
            && (o.psel && (!o.penable || !env(t).apb.pready) ==>
                  q.psel && q.penable && q.paddr == o.paddr && q.pwrite == o.pwrite && q.pwdata == o.pwdata)
            && (o.penable && env(t).apb.pready ==> !q.psel)
  {
    assert Clocked(env, run, t);
  }

  /** The three units wired together, all clocked by the same edge. */
  class BusSystem {
    const master: AxiMaster.MasterUnit
    const fabric: Interconnect.InterconnectUnit
    const bridge: ApbBridge.BridgeUnit

    function Abstract(): State
      reads master, fabric, bridge
    {
      State(master.Regs(), fabric.Regs(), bridge.Regs())
    }

    constructor ()
      ensures fresh(master) && fresh(fabric) && fresh(bridge) && Abstract() == START
    {
      master := new AxiMaster.MasterUnit();
      fabric := new Interconnect.InterconnectUnit();
      bridge := new ApbBridge.BridgeUnit();
    }

    method Clock(i: Inputs)
      modifies master, fabric, bridge
      ensures Abstract() == Step(old(Abstract()), i)
    {
      var up := Drive(master.Regs());
      var down := Interconnect.Toward(fabric.Regs(), up, Interconnect.APB);
      var ports := Interconnect.Slaves(Port(bridge.Regs(), down), i.others);
      var back := Interconnect.Back(fabric.Regs(), up, ports);
      master.Clock(i.cmd, back);
      fabric.Clock(up, ports);
      bridge.Clock(down, i.apb);
    }
  }
}
