/** The one-to-six AXI4 interconnect. */
module Interconnect {
  import opened Words
  import opened AxiChannels

  type Port = p: int | 0 <= p < 6
  const APB: Port := 2

  datatype Route = Unmapped | To(port: Port)

  predicate Within(a: Word, base: int, end: int) {
    base <= a <= end
  }

  /** The address map. */
  function Decode(a: Word): Route {
    if Within(a, 0x0001_0000, 0x0001_3FFF) then To(0)
    else if Within(a, 0x2000_0000, 0x2FFF_FFFF) then To(1)
    else if Within(a, 0x0200_0000, 0x0200_FFFF) || Within(a, 0x0C00_0000, 0x0C00_0FFF)
         || Within(a, 0x1000_0000, 0x1000_00FF) || Within(a, 0x1000_0100, 0x1000_01FF) then To(APB)
    else if Within(a, 0x1100_0000, 0x1100_FFFF) then To(3)
    else if Within(a, 0x1200_0000, 0x1200_FFFF) then To(4)
    else if Within(a, 0x0000_0000, 0x0000_FFFF) then To(5)
    else Unmapped
  }

  /** The address map by prefixes: data memory (16 KB), HyperRAM, CLINT, PLIC, UART and GPIO behind the APB bridge, RTOS
      and POSIX blocks, instruction memory (64 KB); everything else is unmapped. */
  lemma AddressMap(a: Word)
    ensures Decode(a) == To(0) <==> a / 0x4000 == 4
    ensures Decode(a) == To(1) <==> a / 0x1000_0000 == 2
    ensures Decode(a) == To(2) <==>
            a / 0x1_0000 == 0x200 || a / 0x1000 == 0xC000 || a / 0x100 == 0x10_0000 || a / 0x100 == 0x10_0001
    ensures Decode(a) == To(3) <==> a / 0x1_0000 == 0x1100
    ensures Decode(a) == To(4) <==> a / 0x1_0000 == 0x1200
    ensures Decode(a) == To(5) <==> a / 0x1_0000 == 0
  {
  }

  datatype IState = Idle | Read | WriteAw | WriteW | WriteB | DecErrR | DecErrB

  datatype Fabric = Fabric(state: IState, active: Port, isRead: bool, awAccepted: bool)

  const RESET := Fabric(Idle, 0, false, false)

  /** What the six slaves drive. */
  datatype Slaves = Slaves(apb: FromSlave, others: Port -> FromSlave)
  {
    function At(p: Port): FromSlave {
      if p == APB then apb else others(p)
    }
  }

  /** What the slave at a port sees. */
  function Toward(x: Fabric, up: ToSlave, p: Port): ToSlave {
    up.(arvalid := x.state.Idle? && up.arvalid && Decode(up.araddr) == To(p),
        rready := x.state.Read? && x.active == p && up.rready,
        awvalid := x.state.WriteAw? && !x.awAccepted && x.active == p,
        wvalid := x.state.WriteW? && x.active == p && up.wvalid,
        bready := x.state.WriteB? && x.active == p && up.bready)
  }

  /** What the master sees, given what the slaves drive. */
  function Back(x: Fabric, up: ToSlave, ports: Slaves): FromSlave {
    var slave := ports.At(x.active);
    FromSlave(
      x.state.Idle? && up.arvalid &&
        (match Decode(up.araddr) case To(p) => ports.At(p).arready case Unmapped => true),
      x.state.DecErrR? || (x.state.Read? && slave.rvalid),
      if x.state.Read? then slave.rdata else 0,
      if x.state.DecErrR? then DECERR else if x.state.Read? then slave.rresp else OKAY,
      if x.state.WriteAw? && !x.awAccepted then slave.awready
      else x.state.Idle? && !up.arvalid && up.awvalid && Decode(up.awaddr).Unmapped?,
      if x.state.WriteW? then slave.wready else x.state.DecErrB? && up.wvalid,
      x.state.DecErrB? || (x.state.WriteB? && slave.bvalid),
      if x.state.DecErrB? then DECERR else if x.state.WriteB? then slave.bresp else OKAY)
  }

  /** The slave index a decode leaves in the register; zero if nothing matches. */
  function Index(a: Word): Port {
    match Decode(a) case To(p) => p case Unmapped => 0
  }

  /** One clock edge. */
  function Next(x: Fabric, up: ToSlave, ports: Slaves): Fabric {
    var slave := ports.At(x.active);
    match x.state
    case Idle =>
      if up.arvalid then Fabric(if Decode(up.araddr).To? then Read else DecErrR, Index(up.araddr), true, false)
      else if up.awvalid then Fabric(if Decode(up.awaddr).To? then WriteAw else DecErrB, Index(up.awaddr), false, false)
      else x.(awAccepted := false)
    case Read => if slave.rvalid && up.rready then x.(state := Idle) else x
    case WriteAw =>
      var fires := !x.awAccepted && slave.awready;
      x.(state := if x.awAccepted || fires then WriteW else WriteAw, awAccepted := x.awAccepted || fires)
    case WriteW => if up.wvalid && slave.wready then x.(state := WriteB) else x
    case WriteB => if slave.bvalid && up.bready then x.(state := Idle) else x
    case DecErrR => if up.rready then x.(state := Idle) else x
    case DecErrB => if up.bready then x.(state := Idle) else x
  }

  /** The interconnect itself, updated in place. */
  class InterconnectUnit {
    var state: IState
    var activeSlave: Port
    var activeIsRead: bool
    var awAccepted: bool

    function Regs(): Fabric
      reads this
    {
      Fabric(state, activeSlave, activeIsRead, awAccepted)
    }

    constructor ()
      ensures Regs() == RESET
    {
      state, activeSlave, activeIsRead, awAccepted := Idle, 0, false, false;
    }

    method Clock(up: ToSlave, ports: Slaves)
      modifies this
      ensures Regs() == Next(old(Regs()), up, ports)
    {
      var slave := ports.At(activeSlave);
      var down := Toward(Regs(), up, activeSlave);
      match state {
        case Idle =>
          awAccepted := false;
          if up.arvalid {
            state := if Decode(up.araddr).To? then Read else DecErrR;
            activeSlave, activeIsRead := Index(up.araddr), true;
          } else if up.awvalid {
            state := if Decode(up.awaddr).To? then WriteAw else DecErrB;
            activeSlave, activeIsRead := Index(up.awaddr), false;
          }
        case Read =>
          if slave.rvalid && up.rready { state := Idle; }
        case WriteAw =>
          if awAccepted || (down.awvalid && slave.awready) { state := WriteW; }
          if down.awvalid && slave.awready { awAccepted := true; }
        case WriteW =>
          if down.wvalid && slave.wready { state := WriteB; }
        case WriteB =>
          if slave.bvalid && up.bready { state := Idle; }
        case DecErrR =>
          if up.rready { state := Idle; }
        case DecErrB =>
          if up.bready { state := Idle; }
      }
    }
  }
}
