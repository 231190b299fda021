/** The context-switch unit on the register file: one physical register file as sixteen private ones. */
module ContextSwitch {
  import opened Words
  import opened Registers

  type Task = t: int | 0 <= t < 16
  type Index = i: int | 1 <= i < 32 witness 1

  datatype Phase = Idle | Save | Load | Done

  function NoBanks(): (b: seq<Regs>)
    ensures |b| == 16
  {
    seq(16, _ => Zeros())
  }

  type Banks = b: seq<Regs> | |b| == 16 witness NoBanks()

  function NoPcs(): (p: seq<Word>)
    ensures |p| == 16
  {
    seq(16, _ => 0)
  }

  type Pcs = p: seq<Word> | |p| == 16 witness NoPcs()

  /** The registers of the unit. */
  datatype Unit = Unit(phase: Phase, idx: Index, oldId: Task, newId: Task, banks: Banks, savedPc: Pcs, restorePc: Word)

  const RESET := Unit(Idle, 1, 0, 0, NoBanks(), NoPcs(), 0)

  datatype Request = Request(req: bool, oldId: Task, newId: Task, pc: Word)

  predicate Stalls(u: Unit) {
    u.phase.Save? || u.phase.Load?
  }

  /** One clock edge; rdata is what the register file shows at the current index. */
  function Next(u: Unit, q: Request, rdata: Word): Unit {
    match u.phase
    case Idle =>
      if q.req then
        u.(phase := Save, idx := 1, oldId := q.oldId, newId := q.newId, savedPc := u.savedPc[q.oldId := q.pc])
      else u
    case Save =>
      u.(banks := u.banks[u.oldId := u.banks[u.oldId][u.idx := rdata]],
         phase := if u.idx == 31 then Load else Save, idx := if u.idx == 31 then 1 else u.idx + 1)
    case Load =>
      if u.idx == 31 then u.(phase := Done, restorePc := u.savedPc[u.newId]) else u.(idx := u.idx + 1)
    case Done => u.(phase := Idle)
  }

  // ---------------------------------------------------------------------------------------------------
  // The unit and the register file together, against sixteen private register files
  // ---------------------------------------------------------------------------------------------------

  /** One cycle of the surroundings: a request to switch away from the running task, the PC, and the register
      write of the CPU. */
  datatype Input = Input(req: bool, newId: Task, pc: Word, write: bool, rd: RegIdx, value: Word)

  /** The hardware state, and beside it the task that owns the CPU, the private register files and the PC at
      the last suspension of every task, and the clocks since the last accepted request. */
  datatype Track = Track(unit: Unit, regs: Regs, owner: Task, own: Banks, pcs: Pcs, age: nat)

  function Follow(s: Track, i: Input): Track {
    var u := s.unit;
    var accepts := u.phase.Idle? && i.req;
    var loads := u.phase.Load?;
    Track(
      Next(u, Request(i.req, s.owner, i.newId, i.pc), Rd(s.regs, u.idx)),
      WriteReg(s.regs, i.write || loads, if loads then u.idx else i.rd, if loads then u.banks[u.newId][u.idx]
          else i.value),
      if accepts then i.newId else s.owner,
      s.own[s.owner := WriteReg(s.own[s.owner], i.write, i.rd, i.value)],
      if accepts then s.pcs[s.owner := i.pc] else s.pcs,
      if accepts then 1 else s.age + 1)
  }

  predicate Clocked(env: nat -> Input, run: nat -> Track, t: nat) {
    run(t + 1) == Follow(run(t), env(t))
  }

  /** A run from reset: any switches from the running task to any task, any register writes while the
      pipeline is not stalled. */
  ghost predicate Behaviour(env: nat -> Input, run: nat -> Track) {
    && run(0).unit == RESET && run(0).regs == Zeros() && run(0).own == NoBanks() && run(0).pcs == NoPcs()
    && (forall t: nat :: Stalls(run(t).unit) ==> !env(t).write)
    && (forall t: nat :: Clocked(env, run, t))
  }

  /** Registers x1 up to, not including, x_n agree. */
  predicate Agree(a: Regs, b: Regs, n: nat) {
    forall r | 1 <= r < n && r < 32 :: a[r] == b[r]
  }

  /** Which copies of the private register files are up to date, in each phase. */
  ghost predicate Inv(s: Track) {
    var u := s.unit;
    && s.regs[0] == 0 && u.savedPc == s.pcs
    && (forall k: Task :: s.own[k][0] == 0)
    && (forall k: Task | k != (if u.phase.Save? then u.oldId else s.owner) :: Agree(u.banks[k], s.own[k], 32))
    && match u.phase
       case Idle => s.regs == s.own[s.owner]
       case Save => s.owner == u.newId && s.regs == s.own[u.oldId] && Agree(u.banks[u.oldId], s.own[u.oldId], u.idx)
           && s.age == u.idx
       case Load => s.owner == u.newId && Agree(u.banks[s.owner], s.own[s.owner], 32)
           && Agree(s.regs, s.own[s.owner], u.idx) && s.age == 31 + u.idx
       case Done => s.regs == s.own[s.owner] && u.restorePc == s.pcs[s.owner] && s.age == 63
  }

  lemma StepKeeps(s: Track, i: Input)
    requires Inv(s) && (Stalls(s.unit) ==> !i.write)
    ensures Inv(Follow(s, i))
  {
  }

  lemma {:induction false} AlwaysInv(env: nat -> Input, run: nat -> Track, t: nat)
    requires Behaviour(env, run)
    ensures Inv(run(t))
  {
    if t > 0 {
      AlwaysInv(env, run, t - 1);
      assert Clocked(env, run, t - 1);
      StepKeeps(run(t - 1), env(t - 1));
    }
  }

  /** Whenever the pipeline is not stalled, the physical register file is the running task's private one, and
      the banks hold those of all other tasks. */
  lemma SixteenRegisterFiles(env: nat -> Input, run: nat -> Track, t: nat)
    requires Behaviour(env, run) && !Stalls(run(t).unit)
    ensures run(t).regs == run(t).own[run(t).owner]
    ensures forall k: Task | k != run(t).owner :: Agree(run(t).unit.banks[k], run(t).own[k], 32)
  {
    AlwaysInv(env, run, t);
  }

  predicate Accepts(env: nat -> Input, run: nat -> Track, t: nat) {
    run(t).unit.phase.Idle? && env(t).req
  }

  lemma {:induction false} SwitchAge(env: nat -> Input, run: nat -> Track, t: nat, j: nat, u: nat)
    requires Behaviour(env, run) && Accepts(env, run, t) && 1 <= j <= 63 && u == t + j
    ensures run(u).age == j && run(u).owner == env(t).newId
    ensures if j <= 31 then run(u).unit.phase.Save? else if j <= 62 then run(u).unit.phase.Load?
        else run(u).unit.phase.Done?
    ensures j > 1 ==> run(u).own == run(t + 1).own && run(u).pcs == run(t + 1).pcs
    decreases j
  {
    AlwaysInv(env, run, u);
    assert Clocked(env, run, u - 1);
    if j > 1 {
      SwitchAge(env, run, t, j - 1, u - 1);
      AlwaysInv(env, run, u - 1);
    }
  }

  /** A switch stalls the pipeline in exactly the 62 cycles after its request, and is done in the next. */
  lemma SwitchStalls62(env: nat -> Input, run: nat -> Track, t: nat)
    requires Behaviour(env, run) && Accepts(env, run, t)
    ensures forall u | t < u <= t + 62 :: Stalls(run(u).unit)
    ensures !Stalls(run(t).unit) && run(t + 63).unit.phase.Done? && run(t + 64).unit.phase.Idle?
  {
    forall u | t < u <= t + 62 ensures Stalls(run(u).unit) {
      SwitchAge(env, run, t, u - t, u);
    }
    SwitchAge(env, run, t, 63, t + 63);
    assert Clocked(env, run, t + 63);
  }

  /** Nothing happens to the private registers of a task that does not run. */
  lemma {:induction false} SuspendedUntouched(env: nat -> Input, run: nat -> Track, k: Task, a: nat, b: nat)
    requires Behaviour(env, run) && a <= b && forall c | a <= c < b :: run(c).owner != k
    ensures run(b).own[k] == run(a).own[k] && run(b).pcs[k] == run(a).pcs[k]
    decreases b
  {
    if a < b {
      SuspendedUntouched(env, run, k, a, b - 1);
      assert Clocked(env, run, b - 1);
    }
  }

  /** The same of the unit itself: the bank and the saved PC of a task that does not run stay as they are. */
  lemma BankUntouched(env: nat -> Input, run: nat -> Track, k: Task, a: nat, b: nat)
    requires Behaviour(env, run) && a <= b && forall c | a <= c <= b :: run(c).owner != k
    requires !Stalls(run(a).unit) && !Stalls(run(b).unit)
    ensures Agree(run(b).unit.banks[k], run(a).unit.banks[k], 32)
    ensures run(b).unit.savedPc[k] == run(a).unit.savedPc[k]
  {
    SuspendedUntouched(env, run, k, a, b);
    SixteenRegisterFiles(env, run, a);
    SixteenRegisterFiles(env, run, b);
    AlwaysInv(env, run, a);
    AlwaysInv(env, run, b);
  }

  /** Isolation over whole runs: a task suspended by the request in cycle a and next resumed by the request in
      cycle b gets back, 63 cycles later, exactly the registers and the PC it had when it was suspended,
      whatever ran in between; a switch from a task to itself is the case b == a. */
  lemma ResumedAsSuspended(env: nat -> Input, run: nat -> Track, k: Task, a: nat, b: nat)
    requires Behaviour(env, run) && a <= b
    requires Accepts(env, run, a) && run(a).owner == k
    requires forall c | a < c <= b :: run(c).owner != k
    requires Accepts(env, run, b) && env(b).newId == k
    ensures var back, i := run(b + 63), env(a);
            && back.unit.phase.Done? && back.owner == k
            && back.regs == WriteReg(run(a).regs, i.write, i.rd, i.value)
            && back.unit.restorePc == i.pc
  {
    AlwaysInv(env, run, a);
    assert Clocked(env, run, a) && Clocked(env, run, b);
    SwitchAge(env, run, b, 63, b + 63);
    AlwaysInv(env, run, b + 63);
    if a < b {
      SuspendedUntouched(env, run, k, a + 1, b);
    }
  }

  /** A task that has not run yet gets registers of zero, and starts at address 0. */
  lemma StartsFromZero(env: nat -> Input, run: nat -> Track, k: Task, b: nat, r: RegIdx)
    requires Behaviour(env, run) && Accepts(env, run, b) && env(b).newId == k
    requires forall c | 0 <= c <= b :: run(c).owner != k
    ensures run(b + 63).unit.phase.Done? && run(b + 63).unit.restorePc == 0
    ensures run(b + 63).regs[r] == 0
  {
    AlwaysInv(env, run, b);
    assert Clocked(env, run, b);
    SuspendedUntouched(env, run, k, 0, b);
    SwitchAge(env, run, b, 63, b + 63);
    AlwaysInv(env, run, b + 63);
  }

  /** The unit itself: banks and saved PCs are arrays updated in place. */
  class ContextSwitchUnit {
    const regBanks: array2<Word>
    const savedPc: array<Word>
    var phase: Phase
    var regIdx: Index
    var oldId: Task
    var newId: Task
    var restorePc: Word

    ghost predicate Valid() {
      regBanks.Length0 == 16 && regBanks.Length1 == 32 && savedPc.Length == 16
    }

    ghost function Bank(t: Task): Regs
      reads regBanks
      requires Valid()
    {
      seq(32, r requires 0 <= r < 32 reads regBanks => regBanks[t, r])
    }

    ghost function AllBanks(): Banks
      reads regBanks
      requires Valid()
    {
      seq(16, t requires 0 <= t < 16 reads regBanks => Bank(t))
    }

    ghost function Abstract(): Unit
      reads this, regBanks, savedPc
      requires Valid()
    {
      Unit(phase, regIdx, oldId, newId, AllBanks(), savedPc[..], restorePc)
    }

    /** The banks after a write to one element of the array. */
    lemma BankWritten(before: Banks, t: Task, r: RegIdx, value: Word)
      requires Valid()
      requires forall k: Task, i: RegIdx :: regBanks[k, i] == if k == t && i == r then value else before[k][i]
      ensures AllBanks() == before[t := before[t][r := value]]
    {
      forall k: Task ensures Bank(k) == before[t := before[t][r := value]][k] {}
    }

    constructor ()
      ensures Valid() && fresh(regBanks) && fresh(savedPc) && Abstract() == RESET
    {
      regBanks := new Word[16, 32]((t, r) => 0);
      savedPc := new Word[16](_ => 0);
      phase, regIdx, oldId, newId, restorePc := Idle, 1, 0, 0, 0;
      new;
      forall t: Task ensures Bank(t) == Zeros() {}
    }

    method Clock(q: Request, rdata: Word)
      requires Valid()
      modifies this, regBanks, savedPc
      ensures Valid() && Abstract() == Next(old(Abstract()), q, rdata)
    {
      ghost var was := Abstract();
      match phase {
        case Idle =>
          if q.req {
            phase, regIdx, oldId, newId := Save, 1, q.oldId, q.newId;
            savedPc[q.oldId] := q.pc;
          }
        case Save =>
          regBanks[oldId, regIdx] := rdata;
          if regIdx == 31 { phase, regIdx := Load, 1; } else { regIdx := regIdx + 1; }
          BankWritten(was.banks, was.oldId, was.idx, rdata);
        case Load =>
          if regIdx == 31 { phase, restorePc := Done, savedPc[newId]; } else { regIdx := regIdx + 1; }
        case Done =>
          phase := Idle;
      }
    }
  }
}
