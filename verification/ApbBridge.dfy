/** The AXI4-to-APB bridge. */
module ApbBridge {
  import opened Words
  import opened AxiChannels

  datatype BState = Idle | Setup | Access | WrRespond | RdRespond | WrWait

  datatype Bridge = Bridge(state: BState, addr: Word, wdata: Word, isWrite: bool, rdata: Word, error: bool)

  const RESET := Bridge(Idle, 0, 0, false, 0, false)

  /** What the bridge drives on the APB. */
  datatype ApbOut = ApbOut(psel: bool, penable: bool, pwrite: bool, paddr: Word, pwdata: Word)

  /** What the selected APB slave answers. */
  datatype ApbIn = ApbIn(prdata: Word, pready: bool, pslverr: bool)

  function Apb(b: Bridge): ApbOut {
    ApbOut(b.state.Setup? || b.state.Access?, b.state.Access?, b.isWrite, b.addr, b.wdata)
  }

  /** What the bridge drives on its AXI port. */
  function Port(b: Bridge, up: ToSlave): FromSlave {
    var resp := if b.error then SLVERR else OKAY;
    FromSlave(b.state.Idle? && up.arvalid, b.state.RdRespond?, b.rdata, resp,
              b.state.Idle? && !up.arvalid && up.awvalid,
              (b.state.Idle? && !up.arvalid && up.awvalid && up.wvalid) || b.state.WrWait?,
              b.state.WrRespond?, resp)
  }

  /** One clock edge. */
  function Next(b: Bridge, up: ToSlave, a: ApbIn): Bridge {
    match b.state
    case Idle =>
      if up.arvalid then b.(state := Setup, addr := up.araddr, isWrite := false)
      else if up.awvalid && up.wvalid then b.(state := Setup, addr := up.awaddr, wdata := up.wdata, isWrite := true)
      else if up.awvalid then b.(state := WrWait, addr := up.awaddr, isWrite := true)
      else b
    case WrWait => if up.wvalid then b.(state := Setup, wdata := up.wdata) else b
    case Setup => b.(state := Access)
    case Access =>
      if a.pready then b.(state := if b.isWrite then WrRespond else RdRespond, rdata := a.prdata, error := a.pslverr)
          else b
    case WrRespond => if up.bready then b.(state := Idle) else b
    case RdRespond => if up.rready then b.(state := Idle) else b
  }

  /** The bridge itself, updated in place. */
  class BridgeUnit {
    var state: BState
    var txnAddr: Word
    var txnWdata: Word
    var txnIsWrite: bool
    var txnRdata: Word
    var txnError: bool

    function Regs(): Bridge
      reads this
    {
      Bridge(state, txnAddr, txnWdata, txnIsWrite, txnRdata, txnError)
    }

    constructor ()
      ensures Regs() == RESET
    {
      state, txnAddr, txnWdata, txnIsWrite, txnRdata, txnError := Idle, 0, 0, false, 0, false;
    }

    method Clock(up: ToSlave, a: ApbIn)
      modifies this
      ensures Regs() == Next(old(Regs()), up, a)
    {
      var out := Port(Regs(), up);
      match state {
        case Idle =>
          if up.arvalid {
            state, txnAddr, txnIsWrite := Setup, up.araddr, false;
          } else if up.awvalid && up.wvalid {
            state, txnAddr, txnWdata, txnIsWrite := Setup, up.awaddr, up.wdata, true;
          } else if up.awvalid {
            state, txnAddr, txnIsWrite := WrWait, up.awaddr, true;
          }
        case WrWait =>
          if up.wvalid { state, txnWdata := Setup, up.wdata; }
        case Setup =>
          state := Access;
        case Access =>
          if a.pready {
            state := if txnIsWrite then WrRespond else RdRespond;
            txnRdata, txnError := a.prdata, a.pslverr;
          }
        case WrRespond =>
          if out.bvalid && up.bready { state := Idle; }
        case RdRespond =>
          if out.rvalid && up.rready { state := Idle; }
      }
    }
  }
}
