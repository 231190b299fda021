/** The fetch stage and the registered fetch port of the instruction memory. */
module Fetch {
  import opened Words

  const NOP: Word := 0x0000_0013

  /** The IF/ID pipeline register. */
  datatype IfId = IfId(pc: Word, instr: Word, valid: bool)

  /** What a flush leaves in IF/ID. */
  const FLUSHED := IfId(0, NOP, false)

  /** The registers of the stage, with the read register of the instruction memory. */
  datatype State = State(pc: Word, pcDelayed: Word, suppressValid: bool, imemOut: Word, ifId: IfId)

  /** One clock edge of the control inputs. */
  datatype Control = Control(stall: bool, flush: bool, taken: bool, target: Word)

  /** The state after reset: the memory's output register is not reset, so it may hold anything. */
  function Reset(imemOut: Word): State {
    State(0, 0, true, imemOut, FLUSHED)
  }

  /** The specification of one clock edge, register by register. */
  function Next(mem: Word -> Word, s: State, c: Control): State {
    State(
      if c.taken then c.target else if c.stall then s.pc else Plus4(s.pc),
      if c.stall then s.pcDelayed else s.pc,
      c.taken || (s.suppressValid && c.stall),
      if c.stall then s.imemOut else mem(s.pc),
      if c.flush then FLUSHED
      else if c.stall then s.ifId
      else IfId(s.pcDelayed, s.imemOut, !s.suppressValid))
  }

  /** The address the next valid IF/ID entry will carry. */
  function Upcoming(s: State): Word {
    if s.suppressValid then s.pc else s.pcDelayed
  }

  /** Whenever its output is not suppressed, the memory shows the word at the delayed PC, and the PC is
      one word further; a valid IF/ID entry pairs an address with its own word. */
  ghost predicate Coherent(mem: Word -> Word, s: State) {
    && (s.suppressValid ==> !s.ifId.valid)
    && (!s.suppressValid ==> s.imemOut == mem(s.pcDelayed) && s.pc == Plus4(s.pcDelayed))
    && (s.ifId.valid ==> s.ifId.instr == mem(s.ifId.pc) && s.pcDelayed == Plus4(s.ifId.pc))
  }

  /** A run: the control inputs of consecutive cycles, applied in order. */
  function Run(mem: Word -> Word, imemOut: Word, cs: seq<Control>): State {
    if cs == [] then Reset(imemOut) else Next(mem, Run(mem, imemOut, cs[..|cs| - 1]), cs[|cs| - 1])
  }

  /** The addresses that entered IF/ID as valid entries since the last redirect (or reset), in order. */
  function Delivered(mem: Word -> Word, imemOut: Word, cs: seq<Control>): seq<Word> {
    if cs == [] then []
    else
      var c := cs[|cs| - 1];
      var before := cs[..|cs| - 1];
      if c.taken then []
      else if c.stall || !Run(mem, imemOut, cs).ifId.valid then Delivered(mem, imemOut, before)
      else Delivered(mem, imemOut, before) + [Run(mem, imemOut, cs).ifId.pc]
  }

  /** Where the fetch stream last started. */
  function Origin(cs: seq<Control>): Word {
    if cs == [] then 0 else if cs[|cs| - 1].taken then cs[|cs| - 1].target else Origin(cs[..|cs| - 1])
  }

  /** The flush input accompanies every redirect and nothing else. */
  ghost predicate FlushIsRedirect(cs: seq<Control>) {
    forall i | 0 <= i < |cs| :: cs[i].flush == cs[i].taken
  }

  /** The address k words after base. */
  function Offset(base: Word, k: nat): Word {
    if k == 0 then base else Plus4(Offset(base, k - 1))
  }

  /** Fetch coherence for every pattern of stalls and redirects: IF/ID never pairs an address with a foreign
      word, and the addresses delivered after a redirect are target, target + 4, ... with none skipped and
      none repeated. */
  lemma {:induction false} StreamIsSequential(mem: Word -> Word, imemOut: Word, cs: seq<Control>)
    requires FlushIsRedirect(cs)
    ensures Coherent(mem, Run(mem, imemOut, cs))
    ensures forall k | 0 <= k < |Delivered(mem, imemOut, cs)| ::
              Delivered(mem, imemOut, cs)[k] == Offset(Origin(cs), k)
    ensures Upcoming(Run(mem, imemOut, cs)) == Offset(Origin(cs), |Delivered(mem, imemOut, cs)|)
  {
    if cs != [] {
      var before := cs[..|cs| - 1];
      StreamIsSequential(mem, imemOut, before);
    }
  }

  /** The stage itself, updated in place on each clock edge. */
  class FetchStage {
    const mem: Word -> Word
    var pc: Word
    var pcDelayed: Word
    var suppressValid: bool
    var imemOut: Word
    var ifId: IfId

    function Regs(): State
      reads this
    {
      State(pc, pcDelayed, suppressValid, imemOut, ifId)
    }

    constructor (mem: Word -> Word, garbage: Word)
      ensures this.mem == mem && Regs() == Reset(garbage)
    {
      this.mem := mem;
      pc, pcDelayed, suppressValid, imemOut, ifId := 0, 0, true, garbage, FLUSHED;
    }

    method Clock(stall: bool, flush: bool, taken: bool, target: Word)
      modifies this
      ensures Regs() == Next(mem, old(Regs()), Control(stall, flush, taken, target))
    {
      // IF/ID: flush wins over stall.
      if flush {
        ifId := FLUSHED;
      } else if !stall {
        ifId := IfId(pcDelayed, imemOut, !suppressValid);
      }
      // Instruction memory port, enabled when not stalled; delayed PC alongside it.
      if !stall {
        imemOut, pcDelayed := mem(pc), pc;
      }
      if taken {
        suppressValid := true;
      } else if suppressValid && !stall {
        suppressValid := false;
      }
      // A redirect wins over a stall.
      if taken {
        pc := target;
      } else if !stall {
        pc := Plus4(pc);
      }
    }
  }
}
