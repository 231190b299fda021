/** The interrupt controller: edge capture, arbitration, claim and completion for sixteen sources. */
module Plic {
  import opened Words
  import opened ApbSlave

  type Source = s: int | 0 <= s < 16
  type SourceId = d: int | 0 <= d <= 16
  type Prio = p: int | 0 <= p < 8
  type Flags = f: seq<bool> | |f| == 16 witness Bits(0, 16)

  function NoPrios(): (p: seq<Prio>)
    ensures |p| == 16
  {
    seq(16, _ => 0)
  }

  type Prios = p: seq<Prio> | |p| == 16 witness NoPrios()

  datatype State = State(prio: Prios, pending: Flags, enable: Flags, claimed: Flags, threshold: Prio, prev: Flags)

  const RESET := State(NoPrios(), Bits(0, 16), Bits(0, 16), Bits(0, 16), 0, Bits(0, 16))

  const PRIORITY_END := 0x40
  const ENABLE := 0x100
  const THRESHOLD := 0x200
  const CLAIM := 0x204

  // ---------------------------------------------------------------------------------------------------
  // Arbitration
  // ---------------------------------------------------------------------------------------------------

  predicate Eligible(p: State, s: Source) {
    p.pending[s] && p.enable[s] && !p.claimed[s]
  }

  /** The interrupt a target is to be offered: the lowest-numbered one among the eligible sources of maximal
      priority; none if every eligible source has priority zero. */
  ghost predicate IsBest(p: State, id: SourceId) {
    if id == 0 then forall s: Source | Eligible(p, s) :: p.prio[s] == 0
    else
      && Eligible(p, id - 1) && p.prio[id - 1] > 0
      && forall s: Source | Eligible(p, s) :: p.prio[s] <= p.prio[id - 1] && (s < id - 1 ==> p.prio[s] < p.prio[id - 1])
  }

  /** The scan over the first n sources. */
  function Scan(p: State, n: nat): (id: SourceId)
    requires n <= 16
    ensures id <= n
    ensures if id == 0 then forall s: Source | s < n && Eligible(p, s) :: p.prio[s] == 0
            else
              && Eligible(p, id - 1) && p.prio[id - 1] > 0
              && forall s: Source | s < n && Eligible(p, s) ::
                   p.prio[s] <= p.prio[id - 1] && (s < id - 1 ==> p.prio[s] < p.prio[id - 1])
  {
    if n == 0 then 0
    else
      var best := Scan(p, n - 1);
      if Eligible(p, n - 1) && p.prio[n - 1] > (if best == 0 then 0 else p.prio[best - 1]) then n else best
  }

  function Best(p: State): (id: SourceId)
    ensures IsBest(p, id)
  {
    Scan(p, 16)
  }

  lemma BestIsUnique(p: State, id: SourceId)
    requires IsBest(p, id)
    ensures id == Best(p)
  {
    var best := Best(p);
    if best > 0 { assert Eligible(p, best - 1); }
    if id > 0 { assert Eligible(p, id - 1); }
  }

  predicate ExtIrq(p: State) {
    var id := Best(p);
    id != 0 && p.prio[id - 1] > p.threshold
  }

  /** The interrupt line is up exactly when some eligible source exceeds the threshold. */
  lemma IrqMeansAboveThreshold(p: State)
    ensures ExtIrq(p) <==>
            exists s: Source :: p.pending[s] && p.enable[s] && !p.claimed[s] && p.prio[s] > p.threshold
  {
  }

  // ---------------------------------------------------------------------------------------------------
  // One clock edge
  // ---------------------------------------------------------------------------------------------------

  /** The source claimed in this cycle, plus one; claiming does not look at the threshold. */
  function ClaimId(p: State, a: Apb): SourceId {
    if Reads(a, CLAIM) then Best(p) else 0
  }

  /** The source completed in this cycle, plus one; invalid numbers complete nothing. */
  function CompleteId(a: Apb): SourceId {
    if Writes(a, CLAIM) && a.pwdata % 32 <= 16 then a.pwdata % 32 else 0
  }

  predicate Rises(p: State, irq: Flags, s: Source) {
    irq[s] && !p.prev[s]
  }

  function Next(p: State, irq: Flags, a: Apb): State {
    State(
      if Writing(a) && a.paddr < PRIORITY_END then p.prio[a.paddr / 4 := a.pwdata % 8] else p.prio,
      seq(16, s requires 0 <= s < 16 => Rises(p, irq, s) || (p.pending[s] && ClaimId(p, a) != s + 1)),
      if Writes(a, ENABLE) then Bits(a.pwdata, 16) else p.enable,
      seq(16, s requires 0 <= s < 16 => (p.claimed[s] || ClaimId(p, a) == s + 1) && CompleteId(a) != s + 1),
      if Writes(a, THRESHOLD) then a.pwdata % 8 else p.threshold,
      irq)
  }

  // ---------------------------------------------------------------------------------------------------
  // Registers, by their addresses
  // ---------------------------------------------------------------------------------------------------

  /** The completion of a source: its number, in the low five bits, written to the claim register. */
  predicate Completed(a: Apb, s: Source) {
    Writes(a, 0x204) && a.pwdata % 32 == s + 1
  }

  /** The configuration registers: a priority of three bits per source from address 0 on, an enable bit per source at
      0x100, a threshold of three bits at 0x200. Nothing else changes them. */
  lemma Configuration(p: State, irq: Flags, a: Apb, s: Source)
    ensures Next(p, irq, a).prio[s]
            == if Writing(a) && 4 * s <= a.paddr < 4 * s + 4 then a.pwdata % 8 else p.prio[s]
    ensures Next(p, irq, a).enable[s] == if Writes(a, 0x100) then BitSet(a.pwdata, s) else p.enable[s]
    ensures Next(p, irq, a).threshold == if Writes(a, 0x200) then a.pwdata % 8 else p.threshold
  {
    BitsAt(a.pwdata, 16, s);
  }

  /** A source is claimed by a read of the claim register that finds it best, until it is completed. */
  lemma Service(p: State, irq: Flags, a: Apb, s: Source)
    ensures Next(p, irq, a).claimed[s] <==> (p.claimed[s] || (Reads(a, 0x204) && IsBest(p, s + 1))) && !Completed(a, s)
    ensures ClaimId(p, a) == s + 1 <==> Reads(a, 0x204) && IsBest(p, s + 1)
  {
    if IsBest(p, s + 1) { BestIsUnique(p, s + 1); }
  }

  lemma {:induction false} NoBits(n: nat, i: nat)
    requires i < n
    ensures !Bits(0, n)[i]
  {
    if i > 0 { NoBits(n - 1, i - 1); }
  }

  lemma ResetBits(s: Source)
    ensures !Bits(0, 16)[s]
  {
    NoBits(16, s);
  }

  /** At reset nothing is pending, enabled or claimed, and all priorities and the threshold are zero. */
  lemma AfterReset(s: Source)
    ensures !RESET.pending[s] && !RESET.enable[s] && !RESET.claimed[s] && !RESET.prev[s]
    ensures RESET.prio[s] == 0 == RESET.threshold
  {
    ResetBits(s);
  }

  // ---------------------------------------------------------------------------------------------------
  // Conservation over every run
  // ---------------------------------------------------------------------------------------------------

  /** Per source: rising edges, claims, completions of a claimed interrupt, and edges that found the source
      pending and unclaimed in that cycle. */
  datatype Tally = Tally(edges: nat, claims: nat, completes: nat, merged: nat)

  datatype Track = Track(p: State, tallies: seq<Tally>)

  /** The source line rises from the cycle before, low in front of the first. */
  predicate Edge(irq: nat -> Flags, t: nat, s: Source) {
    irq(t)[s] && (t == 0 || !irq(t - 1)[s])
  }

  /** Software takes the source in this cycle. */
  predicate Claimed(p: State, a: Apb, s: Source) {
    Reads(a, 0x204) && Best(p) == s + 1
  }

  function Count(p: State, edge: bool, a: Apb, s: Source, c: Tally): Tally {
    Tally(
      c.edges + Bit(edge),
      c.claims + Bit(Claimed(p, a, s)),
      c.completes + Bit(p.claimed[s] && Completed(a, s)),
      c.merged + Bit(edge && p.pending[s] && !Claimed(p, a, s)))
  }

  function Follow(r: Track, irq: nat -> Flags, a: Apb, t: nat): Track
    requires |r.tallies| == 16
  {
    Track(Next(r.p, irq(t), a),
          seq(16, s requires 0 <= s < 16 => Count(r.p, Edge(irq, t, s), a, s, r.tallies[s])))
  }

  predicate Clocked(irq: nat -> Flags, apb: nat -> Apb, run: nat -> Track, t: nat) {
    |run(t).tallies| == 16 && run(t + 1) == Follow(run(t), irq, apb(t), t)
  }

  /** A run from reset under arbitrary sources and register accesses. */
  ghost predicate Behaviour(irq: nat -> Flags, apb: nat -> Apb, run: nat -> Track) {
    && run(0) == Track(RESET, seq(16, _ => Tally(0, 0, 0, 0)))
    && forall t: nat :: Clocked(irq, apb, run, t)
  }

  ghost predicate Balanced(p: State, s: Source, c: Tally) {
    && c.claims + Bit(p.pending[s]) + c.merged == c.edges
    && c.claims == c.completes + Bit(p.claimed[s])
  }

  /** The controller remembers the line as it was in the cycle before. */
  predicate Remembers(irq: nat -> Flags, p: State, t: nat, s: Source) {
    p.prev[s] == (t > 0 && irq(t - 1)[s])
  }

  lemma BalanceKept(irq: nat -> Flags, p: State, a: Apb, s: Source, c: Tally, t: nat)
    requires Balanced(p, s, c) && Remembers(irq, p, t, s)
    ensures Balanced(Next(p, irq(t), a), s, Count(p, Edge(irq, t, s), a, s, c))
    ensures Remembers(irq, Next(p, irq(t), a), t + 1, s)
  {
    Service(p, irq(t), a, s);
    if Claimed(p, a, s) { assert Eligible(p, s); }
  }

  /** Conservation: in every run and for each source, every rising edge has been claimed, is pending, or was
      merged into one that was pending; and the source is claimed but not completed exactly when its flag says
      so, so it is never claimed twice without a completion. */
  lemma {:induction false} Conservation(irq: nat -> Flags, apb: nat -> Apb, run: nat -> Track, t: nat, s: Source)
    requires Behaviour(irq, apb, run)
    ensures |run(t).tallies| == 16 && Balanced(run(t).p, s, run(t).tallies[s]) && Remembers(irq, run(t).p, t, s)
  {
    assert Clocked(irq, apb, run, t);
    if t == 0 {
      ResetBits(s);
    } else {
      Conservation(irq, apb, run, t - 1, s);
      assert Clocked(irq, apb, run, t - 1);
      BalanceKept(irq, run(t - 1).p, apb(t - 1), s, run(t - 1).tallies[s], t - 1);
    }
  }

  /** A pending source stays pending until it is claimed, and a claim is only ever of a pending, enabled source
      that is not being served. */
  lemma PendingUntilClaimed(irq: nat -> Flags, apb: nat -> Apb, run: nat -> Track, t: nat, s: Source)
    requires Behaviour(irq, apb, run)
    ensures run(t).p.pending[s] && !Claimed(run(t).p, apb(t), s) ==> run(t + 1).p.pending[s]
    ensures Edge(irq, t, s) ==> run(t + 1).p.pending[s]
    ensures Claimed(run(t).p, apb(t), s) ==>
              run(t).p.pending[s] && run(t).p.enable[s] && !run(t).p.claimed[s] && run(t).p.prio[s] > 0
  {
    assert Clocked(irq, apb, run, t);
    Conservation(irq, apb, run, t, s);
    if Claimed(run(t).p, apb(t), s) { assert IsBest(run(t).p, s + 1); }
  }

  /** A claimed source is released by its completion, in that cycle, and by nothing else. */
  lemma ReleasedByCompletion(irq: nat -> Flags, apb: nat -> Apb, run: nat -> Track, t: nat, s: Source)
    requires Behaviour(irq, apb, run)
    ensures Completed(apb(t), s) ==> !run(t + 1).p.claimed[s]
    ensures run(t).p.claimed[s] && !Completed(apb(t), s) ==> run(t + 1).p.claimed[s]
    ensures run(t + 1).p.claimed[s] && !run(t).p.claimed[s] ==> Claimed(run(t).p, apb(t), s)
  {
    assert Clocked(irq, apb, run, t);
    Service(run(t).p, irq(t), apb(t), s);
  }

  /** Software leaves the enable bit and the priority of the source alone and does not claim it. */
  predicate LeavesAlone(p: State, a: Apb, s: Source) {
    !Writes(a, 0x100) && !(Writing(a) && a.paddr < 0x40) && !Claimed(p, a, s)
  }

  lemma {:induction false} StaysPending(irq: nat -> Flags, apb: nat -> Apb, run: nat -> Track, s: Source, a: nat,
                                        b: nat)
    requires Behaviour(irq, apb, run) && a <= b && run(a).p.pending[s] && !run(a).p.claimed[s]
    requires forall u | a <= u < b :: LeavesAlone(run(u).p, apb(u), s)
    ensures run(b).p.pending[s] && !run(b).p.claimed[s]
    ensures run(b).p.enable[s] == run(a).p.enable[s] && run(b).p.prio[s] == run(a).p.prio[s]
    decreases b
  {
    if a < b {
      var u := b - 1;
      StaysPending(irq, apb, run, s, a, u);
      PendingUntilClaimed(irq, apb, run, u, s);
      ReleasedByCompletion(irq, apb, run, u, s);
      assert Clocked(irq, apb, run, u);
      Configuration(run(u).p, irq(u), apb(u), s);
    }
  }

  lemma {:induction false} NotServed(irq: nat -> Flags, apb: nat -> Apb, run: nat -> Track, s: Source, a: nat, b: nat)
    requires Behaviour(irq, apb, run) && a <= b && !run(a).p.claimed[s]
    requires forall u | a <= u < b :: LeavesAlone(run(u).p, apb(u), s)
    ensures !run(b).p.claimed[s]
    decreases b
  {
    if a < b {
      NotServed(irq, apb, run, s, a, b - 1);
      ReleasedByCompletion(irq, apb, run, b - 1, s);
    }
  }

  /** After its completion in cycle c and an edge in cycle e, not before, an enabled source with a priority can be
      claimed again as long as it has not been: if no other eligible source has its priority or a higher one, a read of
      the claim register takes it. */
  lemma ClaimableAgain(irq: nat -> Flags, apb: nat -> Apb, run: nat -> Track, s: Source, c: nat, e: nat, t: nat)
    requires Behaviour(irq, apb, run) && e < t && Completed(apb(c), s) && c < e && Edge(irq, e, s)
    requires run(e + 1).p.enable[s] && run(e + 1).p.prio[s] > 0
    requires forall u | c < u < t :: LeavesAlone(run(u).p, apb(u), s)
    requires forall o: Source | o != s && run(t).p.pending[o] && run(t).p.enable[o] && !run(t).p.claimed[o] ::
               run(t).p.prio[o] < run(t).p.prio[s]
    requires Reads(apb(t), 0x204)
    ensures Claimed(run(t).p, apb(t), s) && run(t + 1).p.claimed[s]
  {
    ReleasedByCompletion(irq, apb, run, c, s);
    NotServed(irq, apb, run, s, c + 1, e + 1);
    PendingUntilClaimed(irq, apb, run, e, s);
    StaysPending(irq, apb, run, s, e + 1, t);
    assert IsBest(run(t).p, s + 1);
    BestIsUnique(run(t).p, s + 1);
    assert Clocked(irq, apb, run, t);
    Service(run(t).p, irq(t), apb(t), s);
  }

  /** The controller itself, updated in place. */
  class PlicUnit {
    const sourcePriority: array<Prio>
    const pending: array<bool>
    const claimed: array<bool>
    var enable: Flags
    var threshold: Prio
    var irqPrev: Flags

    ghost predicate Valid() {
      sourcePriority.Length == 16 && pending.Length == 16 && claimed.Length == 16 && pending != claimed
    }

    function Abstract(): State
      reads this, sourcePriority, pending, claimed
      requires Valid()
    {
      State(sourcePriority[..], pending[..], enable, claimed[..], threshold, irqPrev)
    }

    constructor ()
      ensures Valid() && fresh(sourcePriority) && fresh(pending) && fresh(claimed) && Abstract() == RESET
    {
      sourcePriority := new Prio[16](_ => 0);
      pending := new bool[16](_ => false);
      claimed := new bool[16](_ => false);
      enable, threshold, irqPrev := Bits(0, 16), 0, Bits(0, 16);
      new;
      forall s: Source ensures !Bits(0, 16)[s] { ResetBits(s); }
    }

    /** The arbitration loop: the lowest-numbered eligible source of maximal non-zero priority. */
    method Arbitrate() returns (bestId: SourceId, bestPrio: Prio)
      requires Valid()
      ensures IsBest(Abstract(), bestId) && bestId == Best(Abstract())
      ensures bestPrio == if bestId == 0 then 0 else sourcePriority[bestId - 1]
    {
      bestId, bestPrio := 0, 0;
      for s := 0 to 16
        invariant bestId <= s && bestPrio == if bestId == 0 then 0 else sourcePriority[bestId - 1]
        invariant bestId == 0 ==> forall k: Source | k < s && Eligible(Abstract(), k) :: sourcePriority[k] == 0
        invariant bestId > 0 ==>
                    && Eligible(Abstract(), bestId - 1) && bestPrio > 0
                    && forall k: Source | k < s && Eligible(Abstract(), k) ::
                         sourcePriority[k] <= bestPrio && (k < bestId - 1 ==> sourcePriority[k] < bestPrio)
      {
        if pending[s] && enable[s] && !claimed[s] && sourcePriority[s] > bestPrio {
          bestPrio, bestId := sourcePriority[s], s + 1;
        }
      }
      BestIsUnique(Abstract(), bestId);
    }

    /** The interrupt line: up exactly when an eligible source exceeds the threshold. */
    method ExternalIrq() returns (line: bool)
      requires Valid()
      ensures line <==>
              exists s: Source :: pending[s] && enable[s] && !claimed[s] && sourcePriority[s] > threshold
    {
      var bestId, bestPrio := Arbitrate();
      ghost var p := Abstract();
      IrqMeansAboveThreshold(p);
      assert forall s: Source :: p.pending[s] == pending[s] && p.claimed[s] == claimed[s];
      line := bestId != 0 && bestPrio > threshold;
    }

    /** The pending bits on a clock edge: an edge sets, a claim clears, the edge wins. */
    method UpdatePending(irq: Flags, claimId: SourceId)
      requires Valid()
      modifies pending
      ensures forall s: Source ::
                pending[s] == ((irq[s] && !irqPrev[s]) || (old(pending[s]) && claimId != s + 1))
    {
      for i := 0 to 16
        invariant forall s: Source | s < i ::
                    pending[s] == ((irq[s] && !irqPrev[s]) || (old(pending[s]) && claimId != s + 1))
        invariant forall s: Source | s >= i :: pending[s] == old(pending[s])
      {
        if irq[i] && !irqPrev[i] {
          pending[i] := true;
        } else if claimId == i + 1 {
          pending[i] := false;
        }
      }
    }

    /** Register writes, completions among them. */
    method WriteRegisters(a: Apb)
      requires Valid()
      modifies `enable, `threshold, sourcePriority, claimed
      ensures sourcePriority[..]
              == if Writing(a) && a.paddr < PRIORITY_END then old(sourcePriority[..])[a.paddr / 4 := a.pwdata % 8]
                 else old(sourcePriority[..])
      ensures enable == if Writes(a, ENABLE) then Bits(a.pwdata, 16) else old(enable)
      ensures threshold == if Writes(a, THRESHOLD) then a.pwdata % 8 else old(threshold)
      ensures forall s: Source :: claimed[s] == (old(claimed[s]) && CompleteId(a) != s + 1)
    {
      if Writing(a) {
        if a.paddr < PRIORITY_END {
          sourcePriority[a.paddr / 4] := a.pwdata % 8;
        }
        if a.paddr == ENABLE {
          enable := Bits(a.pwdata, 16);
        }
        if a.paddr == THRESHOLD {
          threshold := a.pwdata % 8;
        }
        if a.paddr == CLAIM && a.pwdata % 32 != 0 && a.pwdata % 32 <= 16 {
          claimed[a.pwdata % 32 - 1] := false;
        }
      }
    }

    method Clock(irq: Flags, a: Apb) returns (claimId: SourceId)
      requires Valid()
      modifies this, sourcePriority, pending, claimed
      ensures claimId == ClaimId(old(Abstract()), a)
      ensures Abstract() == Next(old(Abstract()), irq, a)
    {
      ghost var was := Abstract();
      claimId := 0;
      if Reads(a, CLAIM) {
        var prio: Prio;
        claimId, prio := Arbitrate();
      }
      UpdatePending(irq, claimId);
      assert pending[..] == Next(was, irq, a).pending;
      if claimId != 0 {
        claimed[claimId - 1] := true;
      }
      WriteRegisters(a);
      irqPrev := irq;
      assert claimed[..] == Next(was, irq, a).claimed;
    }
  }
}
