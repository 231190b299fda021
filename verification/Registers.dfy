/** The register file: x0 reads zero, reads show the write of the same cycle. */
module Registers {
  import opened Words

  type RegIdx = r: int | 0 <= r < 32

  function Zeros(): (z: seq<Word>)
    ensures |z| == 32
  {
    seq(32, _ => 0)
  }

  type Regs = s: seq<Word> | |s| == 32 witness Zeros()

  function Rd(regs: Regs, r: RegIdx): Word {
    if r == 0 then 0 else regs[r]
  }

  function WriteReg(regs: Regs, write: bool, rd: RegIdx, value: Word): Regs {
    if write && rd != 0 then regs[rd := value] else regs
  }

  /** A register holds what was written to it last; x0 is zero whatever is written. */
  lemma WriteThenRead(regs: Regs, rd: RegIdx, value: Word, r: RegIdx)
    ensures Rd(WriteReg(regs, true, rd, value), r) == if r == 0 then 0 else if r == rd then value else regs[r]
    ensures Rd(regs, r) == if r == 0 then 0 else regs[r]
    ensures WriteReg(regs, false, rd, value) == regs && WriteReg(regs, true, 0, value) == regs
  {
  }

  /** The register array, written in place. */
  class RegisterFile {
    const regs: array<Word>

    ghost predicate Valid() {
      regs.Length == 32
    }

    constructor ()
      ensures Valid() && fresh(regs) && regs[..] == Zeros()
    {
      regs := new Word[32](_ => 0);
    }

    /** A read port: zero for x0, the value being written if it is for the same register. */
    method Read(r: RegIdx, write: bool, rd: RegIdx, value: Word) returns (data: Word)
      requires Valid()
      ensures data == Rd(WriteReg(regs[..], write, rd, value), r)
    {
      data := if r == 0 then 0 else if write && rd != 0 && rd == r then value else regs[r];
    }

    /** The write port on a clock edge. */
    method Clock(write: bool, rd: RegIdx, value: Word)
      requires Valid()
      modifies regs
      ensures regs[..] == WriteReg(old(regs[..]), write, rd, value)
    {
      if write && rd != 0 {
        regs[rd] := value;
      }
    }
  }
}
