/** The pipeline with its data memory: loads see the stores before them. */
module PipelineMemory {
  import opened Words
  import opened Pipeline
  import opened PipelineInvariant
  import opened PipelineRefinement
  import ByteMemory

  /** The word memory after a committed store. */
  function AfterCommit(mem: ByteMemory.Memory, c: Commit): ByteMemory.Memory {
    match c
    case RegWrite(_, _) => mem
    case Store(addr, value, width) => ByteMemory.Stored(mem, ByteMemory.Store(width, addr, value))
  }

  /** The word memory after a sequence of commits. */
  function After(mem: ByteMemory.Memory, log: seq<Commit>): ByteMemory.Memory {
    if log == [] then mem else AfterCommit(After(mem, log[..|log| - 1]), log[|log| - 1])
  }

  /** A word is what a history of commits left at an address. */
  predicate ReadsFrom(mem: ByteMemory.Memory, word: Word, history: seq<Commit>, addr: Word) {
    word == After(mem, history)[ByteMemory.Index(addr)]
  }

  /** On the one-instruction-at-a-time machine, load k finds the word that the stores before it left. */
  predicate Finds(dp: Datapath, mem: ByteMemory.Memory, data: nat -> Word, k: nat) {
    Dyn(dp, data, k).ctrl.memRead ==> ReadsFrom(mem, data(k), SeqLog(dp, data, k), Result(dp, Seq(dp, data, k)))
  }

  /** A load that leaves EX/MEM takes the word that the committed stores left at its address. */
  predicate Serves(dp: Datapath, mem: ByteMemory.Memory, r: Track, m: MemIn) {
    Quiet(dp, r.s) && r.s.exMem.memRead && !MemStall(r.s, m) ==> ReadsFrom(mem, m.rdata, r.log, r.s.exMem.alu)
  }

  /** The path and the run of a core with a data memory that starts as mem and serves its loads, until cycle t;
      how long it takes for that is up to it. */
  ghost predicate OnMemoryPath(dp: Datapath, mem: ByteMemory.Memory, data: nat -> Word, length: nat,
                               env: nat -> MemIn, run: nat -> Track, t: nat) {
    && Path(dp, data, length) && (forall k: nat | k < length :: Finds(dp, mem, data, k))
    && Behaviour(dp, env, run) && (forall u: nat | u < t :: Serves(dp, mem, run(u), env(u)))
    && run(t).count + 1 < length && UpTo(ReplaySafeAt(dp, data), run(t).count)
  }

  /** The memory's answer is the one the one-instruction-at-a-time machine gets. */
  lemma MemoryAnswers(dp: Datapath, mem: ByteMemory.Memory, data: nat -> Word, r: Track, m: MemIn)
    requires Legal(dp, data, r.count) && Holds(dp, data, r)
    requires Finds(dp, mem, data, r.count) && Serves(dp, mem, r, m)
    ensures Answered(dp, data, r, m)
  {
    if r.s.exMem.memRead {
      assert InMem(dp, r.s.exMem, Seq(dp, data, r.count));
    }
  }

  lemma CycleAnswers(dp: Datapath, mem: ByteMemory.Memory, data: nat -> Word, length: nat, env: nat -> MemIn,
                     run: nat -> Track, t: nat)
    requires OnPath(dp, data, length, env, run, t) && Serves(dp, mem, run(t), env(t))
    requires forall k: nat | k < length :: Finds(dp, mem, data, k)
    ensures Answered(dp, data, run(t), env(t))
  {
    RunHolds(dp, data, length, env, run, t);
    LegalAround(dp, data, length, run(t));
    assert Finds(dp, mem, data, run(t).count);
    MemoryAnswers(dp, mem, data, run(t), env(t));
  }

  lemma {:induction false} MemoryPathIsPath(dp: Datapath, mem: ByteMemory.Memory, data: nat -> Word, length: nat,
                                            env: nat -> MemIn, run: nat -> Track, t: nat)
    requires OnMemoryPath(dp, mem, data, length, env, run, t)
    ensures OnPath(dp, data, length, env, run, t)
  {
    if t > 0 {
      var u := t - 1;
      CountGrows(dp, env, run, u);
      MemoryPathIsPath(dp, mem, data, length, env, run, u);
      assert Serves(dp, mem, run(u), env(u));
      CycleAnswers(dp, mem, data, length, env, run, u);
    }
  }

  /** With a data memory that starts as mem and gives each load what the committed stores left, registers and
      commits are after every cycle those of the first count instructions executed one at a time, each load of
      which finds what the stores before it in program order left. */
  lemma PipelineWithMemory(dp: Datapath, mem: ByteMemory.Memory, data: nat -> Word, length: nat,
                           env: nat -> MemIn, run: nat -> Track, t: nat)
    requires OnMemoryPath(dp, mem, data, length, env, run, t)
    ensures View(run(t).s) == Seq(dp, data, run(t).count).regs
    ensures run(t).log == SeqLog(dp, data, run(t).count)
  {
    MemoryPathIsPath(dp, mem, data, length, env, run, t);
    PipelineRefinesSequential(dp, data, length, env, run, t);
  }
}
