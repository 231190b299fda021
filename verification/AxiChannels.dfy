/** The five AXI4 channels, single-beat, as one master and one slave drive them. */
module AxiChannels {
  import opened Words

  type Strobes = s: int | 0 <= s < 16
  type Resp = r: int | 0 <= r < 4
  const OKAY: Resp := 0
  const SLVERR: Resp := 2
  const DECERR: Resp := 3

  /** What a master drives in one cycle. */
  datatype ToSlave = ToSlave(arvalid: bool, araddr: Word, rready: bool,
                             awvalid: bool, awaddr: Word, wvalid: bool, wdata: Word, wstrb: Strobes, bready: bool)

  /** What a slave drives in one cycle. */
  datatype FromSlave = FromSlave(arready: bool, rvalid: bool, rdata: Word, rresp: Resp,
                                 awready: bool, wready: bool, bvalid: bool, bresp: Resp)
}
