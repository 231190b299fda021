/** What an APB slave sees of its bus in one cycle. */
module ApbSlave {
  import opened Words

  datatype Apb = Apb(psel: bool, penable: bool, pwrite: bool, paddr: nat, pwdata: Word)

  /** The access phase of a write, of a read. */
  predicate Writing(a: Apb) {
    a.psel && a.penable && a.pwrite
  }

  predicate Reading(a: Apb) {
    a.psel && a.penable && !a.pwrite
  }

  predicate Writes(a: Apb, addr: nat) {
    Writing(a) && a.paddr == addr
  }

  predicate Reads(a: Apb, addr: nat) {
    Reading(a) && a.paddr == addr
  }

  /** A register is accessed in the access phase of a transfer to its address, and only then. */
  lemma AccessPhase(a: Apb, addr: nat)
    ensures Writes(a, addr) <==> a.psel && a.penable && a.pwrite && a.paddr == addr
    ensures Reads(a, addr) <==> a.psel && a.penable && !a.pwrite && a.paddr == addr
  {
  }
}
