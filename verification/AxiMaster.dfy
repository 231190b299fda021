/** The AXI4 master of the core. */
module AxiMaster {
  import opened Words
  import opened AxiChannels

  /** The command port of the CPU in one cycle. */
  datatype Cmd = Cmd(read: bool, write: bool, addr: Word, wdata: Word, wstrb: Strobes)

  datatype MState = Idle | RdAddr | RdData | WrAddr | WrData | WrResp | Done

  datatype Master = Master(state: MState, addr: Word, wdata: Word, wstrb: Strobes, rdata: Word, error: bool,
                           isRead: bool, awDone: bool, wDone: bool)

  const RESET := Master(Idle, 0, 0, 0, 0, false, false, false, false)

  function Drive(m: Master): ToSlave {
    ToSlave(m.state.RdAddr?, m.addr, m.state.RdData?,
            m.state.WrAddr? && !m.awDone, m.addr,
            (m.state.WrAddr? && !m.wDone) || m.state.WrData?, m.wdata, m.wstrb, m.state.WrResp?)
  }

  predicate Accepts(m: Master, c: Cmd) {
    m.state.Idle? && (c.read || c.write)
  }

  predicate ArFires(m: Master, f: FromSlave) { Drive(m).arvalid && f.arready }
  predicate RFires(m: Master, f: FromSlave) { Drive(m).rready && f.rvalid }
  predicate AwFires(m: Master, f: FromSlave) { Drive(m).awvalid && f.awready }
  predicate WFires(m: Master, f: FromSlave) { Drive(m).wvalid && f.wready }
  predicate BFires(m: Master, f: FromSlave) { Drive(m).bready && f.bvalid }

  /** One clock edge. */
  function Next(m: Master, c: Cmd, f: FromSlave): Master {
    match m.state
    case Idle =>
      if c.read then
        m.(state := RdAddr, addr := c.addr, isRead := true, error := false, awDone := false, wDone := false)
      else if c.write then
        Master(WrAddr, c.addr, c.wdata, c.wstrb, m.rdata, false, false, false, false)
      else m.(error := false, awDone := false, wDone := false)
    case RdAddr => if ArFires(m, f) then m.(state := RdData) else m
    case RdData => if RFires(m, f) then m.(state := Done, rdata := f.rdata, error := f.rresp != OKAY) else m
    case WrAddr =>
      m.(state := if (m.awDone || AwFires(m, f)) && (m.wDone || WFires(m, f)) then WrResp
                  else if AwFires(m, f) && !WFires(m, f) then WrData else WrAddr,
         awDone := m.awDone || AwFires(m, f), wDone := m.wDone || WFires(m, f))
    case WrData => if WFires(m, f) then m.(state := WrResp) else m
    case WrResp => if BFires(m, f) then m.(state := Done, error := f.bresp != OKAY) else m
    case Done => m.(state := Idle, awDone := false, wDone := false)
  }

  // ---------------------------------------------------------------------------------------------------
  // The master against any slave
  // ---------------------------------------------------------------------------------------------------

  datatype Event = Ar(addr: Word) | R | Aw(addr: Word) | W(data: Word, strb: Strobes) | B

  /** The transfers that complete in one cycle. */
  function Transfers(m: Master, f: FromSlave): seq<Event> {
    (if ArFires(m, f) then [Ar(Drive(m).araddr)] else []) + (if RFires(m, f) then [R] else [])
    + (if AwFires(m, f) then [Aw(Drive(m).awaddr)] else [])
    + (if WFires(m, f) then [W(Drive(m).wdata, Drive(m).wstrb)] else []) + (if BFires(m, f) then [B] else [])
  }

  /** The command last accepted and the transfers since then. */
  datatype Track = Track(m: Master, cmd: Cmd, events: seq<Event>)

  function Follow(r: Track, c: Cmd, f: FromSlave): Track {
    if Accepts(r.m, c) then Track(Next(r.m, c, f), c, [])
    else Track(Next(r.m, c, f), r.cmd, r.events + Transfers(r.m, f))
  }

  predicate Clocked(cmds: nat -> Cmd, slave: nat -> FromSlave, run: nat -> Track, t: nat) {
    run(t + 1) == Follow(run(t), cmds(t), slave(t))
  }

  /** A run from reset against a slave that may do anything. */
  ghost predicate Behaviour(cmds: nat -> Cmd, slave: nat -> FromSlave, run: nat -> Track) {
    && run(0).m == RESET && run(0).events == []
    && forall t: nat :: Clocked(cmds, slave, run, t)
  }

  /** The transfers a command has caused so far, by the state of the master. */
  ghost predicate Disciplined(r: Track) {
    var m, c := r.m, r.cmd;
    var ar, aw, w := Ar(c.addr), Aw(c.addr), W(c.wdata, c.wstrb);
    && (!m.state.Idle? ==> m.addr == c.addr && m.isRead == c.read)
    && (!m.state.Idle? && !c.read ==> c.write && m.wdata == c.wdata && m.wstrb == c.wstrb)
    && match m.state
       case Idle => true
       case RdAddr => c.read && r.events == []
       case RdData => c.read && r.events == [ar]
       case WrAddr => !c.read && !m.awDone && r.events == if m.wDone then [w] else []
       case WrData => !c.read && r.events == [aw]
       case WrResp => !c.read && (r.events == [aw, w] || r.events == [w, aw])
       case Done => if c.read then r.events == [ar, R] else r.events == [aw, w, B] || r.events == [w, aw, B]
  }

  lemma DisciplineKept(r: Track, c: Cmd, f: FromSlave)
    requires Disciplined(r)
    ensures Disciplined(Follow(r, c, f))
  {
  }

  /** Against any slave, a finished read made exactly one AR and then one R transfer, and a finished write
      exactly one AW and one W transfer, in either order, before its B transfer; all with the address, data
      and strobes of the accepted command. */
  lemma {:induction false} MasterDiscipline(cmds: nat -> Cmd, slave: nat -> FromSlave, run: nat -> Track, t: nat)
    requires Behaviour(cmds, slave, run)
    ensures Disciplined(run(t))
  {
    if t > 0 {
      MasterDiscipline(cmds, slave, run, t - 1);
      assert Clocked(cmds, slave, run, t - 1);
      DisciplineKept(run(t - 1), cmds(t - 1), slave(t - 1));
    }
  }

  /** A VALID that was not answered stays, with the same payload. */
  predicate Holds(before: ToSlave, f: FromSlave, after: ToSlave) {
    && (before.arvalid && !f.arready ==> after.arvalid && after.araddr == before.araddr)
    && (before.awvalid && !f.awready ==> after.awvalid && after.awaddr == before.awaddr)
    && (before.wvalid && !f.wready ==> after.wvalid && after.wdata == before.wdata && after.wstrb == before.wstrb)
  }

  /** Section A3.2.1 of ARM IHI 0022E: once raised, each VALID stays raised with a stable payload until READY. */
  lemma ValidIsStable(cmds: nat -> Cmd, slave: nat -> FromSlave, run: nat -> Track, t: nat)
    requires Behaviour(cmds, slave, run)
    ensures Holds(Drive(run(t).m), slave(t), Drive(run(t + 1).m))
  {
    MasterDiscipline(cmds, slave, run, t);
    assert Clocked(cmds, slave, run, t);
  }

  /** The master itself, updated in place. */
  class MasterUnit {
    var state: MState
    var addrReg: Word
    var wdataReg: Word
    var wstrbReg: Strobes
    var rdataReg: Word
    var errorReg: bool
    var isReadReg: bool
    var awDone: bool
    var wDone: bool

    function Regs(): Master
      reads this
    {
      Master(state, addrReg, wdataReg, wstrbReg, rdataReg, errorReg, isReadReg, awDone, wDone)
    }

    constructor ()
      ensures Regs() == RESET
    {
      state, addrReg, wdataReg, wstrbReg, rdataReg := Idle, 0, 0, 0, 0;
      errorReg, isReadReg, awDone, wDone := false, false, false, false;
    }

    method Clock(c: Cmd, f: FromSlave)
      modifies this
      ensures Regs() == Next(old(Regs()), c, f)
    {
      var out := Drive(Regs());
      var aw, w := out.awvalid && f.awready, out.wvalid && f.wready;
      match state {
        case Idle =>
          errorReg, awDone, wDone := false, false, false;
          if c.read {
            state, addrReg, isReadReg := RdAddr, c.addr, true;
          } else if c.write {
            state, addrReg, wdataReg, wstrbReg, isReadReg := WrAddr, c.addr, c.wdata, c.wstrb, false;
          }
        case RdAddr =>
          if out.arvalid && f.arready { state := RdData; }
        case RdData =>
          if f.rvalid && out.rready { state, rdataReg, errorReg := Done, f.rdata, f.rresp != OKAY; }
        case WrAddr =>
          if (awDone || aw) && (wDone || w) {
            state := WrResp;
          } else if aw && !w {
            state := WrData;
          }
          if aw { awDone := true; }
          if w { wDone := true; }
        case WrData =>
          if w { state := WrResp; }
        case WrResp =>
          if f.bvalid && out.bready { state, errorReg := Done, f.bresp != OKAY; }
        case Done =>
          state, awDone, wDone := Idle, false, false;
      }
    }
  }
}
