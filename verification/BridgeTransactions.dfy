/** The APB bridge against any master and any APB slave: every request taken is carried out and answered once. */
module BridgeTransactions {
  import opened Words
  import opened AxiChannels
  import opened ApbBridge

  datatype Request = Read(addr: Word) | Write(addr: Word, wdata: Word)

  /** A completed APB transfer, with the slave's answer. */
  datatype Transfer = Transfer(request: Request, prdata: Word, pslverr: bool)

  /** A reply taken by the master. */
  datatype Reply = ReadReply(rdata: Word, resp: Resp) | WriteReply(resp: Resp)

  /** The bridge, the requests it has taken so far, write addresses taken whose data is to come, transfers, replies, and
      write data taken without an address. */
  datatype Track = Track(b: Bridge, asked: seq<Request>, half: seq<Word>, transfers: seq<Transfer>,
                         replies: seq<Reply>, strays: nat)

  function Finished(b: Bridge, a: ApbIn): seq<Transfer> {
    var o := Apb(b);
    if o.psel && o.penable && a.pready
    then [Transfer(if o.pwrite then Write(o.paddr, o.pwdata) else Read(o.paddr), a.prdata, a.pslverr)]
    else []
  }

  /** One clock edge; a handshake is VALID and READY in the same cycle. */
  function Follow(r: Track, up: ToSlave, a: ApbIn): Track {
    var f := Port(r.b, up);
    var half := r.half + if up.awvalid && f.awready then [up.awaddr] else [];
    var data := up.wvalid && f.wready;
    Track(Next(r.b, up, a),
          r.asked + (if up.arvalid && f.arready then [Read(up.araddr)] else [])
          + (if data && half != [] then [Write(half[0], up.wdata)] else []),
          if data && half != [] then half[1..] else half,
          r.transfers + Finished(r.b, a),
          r.replies + (if f.rvalid && up.rready then [ReadReply(f.rdata, f.rresp)] else [])
          + (if f.bvalid && up.bready then [WriteReply(f.bresp)] else []),
          r.strays + Bit(data && half == []))
  }

  predicate Clocked(master: nat -> ToSlave, apb: nat -> ApbIn, run: nat -> Track, t: nat) {
    run(t + 1) == Follow(run(t), master(t), apb(t))
  }

  /** A run from reset; master and slave do whatever they like. */
  ghost predicate Behaviour(master: nat -> ToSlave, apb: nat -> ApbIn, run: nat -> Track) {
    && run(0) == Track(RESET, [], [], [], [], 0)
    && forall t: nat :: Clocked(master, apb, run, t)
  }

  /** The reply to a transfer: its data, and 2 if the slave reported an error. */
  predicate Answers(reply: Reply, t: Transfer) {
    var resp := if t.pslverr then 2 else 0;
    if t.request.Read? then reply == ReadReply(t.prdata, resp) else reply == WriteReply(resp)
  }

  ghost predicate Faithful(r: Track) {
    && |r.transfers| <= |r.asked| <= |r.transfers| + 1 && |r.replies| <= |r.transfers| <= |r.replies| + 1
    && |r.asked| <= |r.replies| + 1 && |r.half| <= 1 && r.strays == 0
    && (forall k | 0 <= k < |r.transfers| :: r.transfers[k].request == r.asked[k])
    && (forall k | 0 <= k < |r.replies| :: Answers(r.replies[k], r.transfers[k]))
  }

  /** Where the bridge stands. */
  ghost predicate InStep(r: Track) {
    var b, n := r.b, |r.transfers|;
    && Faithful(r)
    && (!b.state.WrWait? ==> r.half == [])
    && match b.state
       case Idle => |r.asked| == n == |r.replies|
       case WrWait => |r.asked| == n == |r.replies| && r.half == [b.addr] && b.isWrite
       case RdRespond =>
         |r.asked| == n == |r.replies| + 1 && r.transfers[n - 1] == Transfer(Read(b.addr), b.rdata, b.error)
       case WrRespond =>
         |r.asked| == n == |r.replies| + 1 && r.transfers[n - 1] == Transfer(Write(b.addr, b.wdata), b.rdata, b.error)
       case _ =>
         && |r.asked| == n + 1 == |r.replies| + 1
         && r.asked[n] == if b.isWrite then Write(b.addr, b.wdata) else Read(b.addr)
  }

  lemma TakingKeeps(r: Track, up: ToSlave, a: ApbIn)
    requires InStep(r) && (r.b.state.Idle? || r.b.state.WrWait?)
    ensures InStep(Follow(r, up, a))
  {
  }

  lemma AnsweringKeeps(r: Track, up: ToSlave, a: ApbIn)
    requires InStep(r) && (r.b.state.RdRespond? || r.b.state.WrRespond?)
    ensures InStep(Follow(r, up, a))
  {
  }

  lemma TransferKeeps(r: Track, up: ToSlave, a: ApbIn)
    requires InStep(r) && (r.b.state.Setup? || r.b.state.Access?)
    ensures InStep(Follow(r, up, a))
  {
  }

  lemma StepKeeps(r: Track, up: ToSlave, a: ApbIn)
    requires InStep(r)
    ensures InStep(Follow(r, up, a))
  {
    if r.b.state.Idle? || r.b.state.WrWait? {
      TakingKeeps(r, up, a);
    } else if r.b.state.RdRespond? || r.b.state.WrRespond? {
      AnsweringKeeps(r, up, a);
    } else {
      TransferKeeps(r, up, a);
    }
  }

  lemma {:induction false} AlwaysInStep(master: nat -> ToSlave, apb: nat -> ApbIn, run: nat -> Track, t: nat)
    requires Behaviour(master, apb, run)
    ensures InStep(run(t))
  {
    if t > 0 {
      AlwaysInStep(master, apb, run, t - 1);
      assert Clocked(master, apb, run, t - 1);
      StepKeeps(run(t - 1), master(t - 1), apb(t - 1));
    }
  }

  /** In every run the APB transfers are the requests taken, in order, with their addresses and data, but for the last
      one, which may be in progress; the replies are those of the transfers, in order; no write data is taken without
      its address. */
  lemma OneForOne(master: nat -> ToSlave, apb: nat -> ApbIn, run: nat -> Track, t: nat)
    requires Behaviour(master, apb, run)
    ensures Faithful(run(t))
  {
    AlwaysInStep(master, apb, run, t);
  }

  /** It takes a request whenever it has nothing to do, a read in front of a write. */
  lemma TakesWhenIdle(master: nat -> ToSlave, apb: nat -> ApbIn, run: nat -> Track, t: nat)
    requires Behaviour(master, apb, run) && |run(t).asked| == |run(t).replies| && run(t).half == []
    ensures master(t).arvalid ==> run(t + 1).asked == run(t).asked + [Read(master(t).araddr)]
    ensures !master(t).arvalid && master(t).awvalid ==>
              if master(t).wvalid then run(t + 1).asked == run(t).asked + [Write(master(t).awaddr, master(t).wdata)]
              else run(t + 1).half == [master(t).awaddr]
  {
    AlwaysInStep(master, apb, run, t);
    assert Clocked(master, apb, run, t);
  }
}
