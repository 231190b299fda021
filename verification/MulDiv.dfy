/** The multiplier and the 32-step restoring divider, against the M extension. */
module MulDiv {
  import opened Words

  datatype MextOp = Mul | Mulh | Mulhsu | Mulhu | Div | Divu | Rem | Remu

  predicate IsMul(op: MextOp) {
    op.Mul? || op.Mulh? || op.Mulhsu? || op.Mulhu?
  }

  predicate IsSigned(op: MextOp) {
    op.Div? || op.Rem?
  }

  // ---------------------------------------------------------------------------------------------------
  // What the M extension asks for
  // ---------------------------------------------------------------------------------------------------

  /** Low or high half of the exact product of the operands read as signed or unsigned. */
  function MulSpec(op: MextOp, a: Word, b: Word): Word
    requires IsMul(op)
  {
    match op
    case Mul => Wrap(a * b)
    case Mulh => Wrap(Signed(a) * Signed(b) / MODULUS)
    case Mulhsu => Wrap(Signed(a) * b / MODULUS)
    case _ => Wrap(a * b / MODULUS)
  }

  function Abs(x: int): nat {
    if x < 0 then -x else x
  }

  /** q and r are quotient and remainder of x by y, rounding toward zero. */
  predicate Divides(x: int, y: int, q: int, r: int) {
    x == q * y + r && Abs(r) < Abs(y) && (r != 0 ==> (r < 0) == (x < 0))
  }

  /** The operand of a division as its operation reads it. */
  function Reading(op: MextOp, x: Word): int {
    if IsSigned(op) then Signed(x) else x
  }

  predicate GivesQuotient(op: MextOp) {
    op.Div? || op.Divu?
  }

  /** Table 7.1 of the unprivileged ISA: quotient and remainder with their special cases. */
  ghost predicate DivResult(op: MextOp, a: Word, b: Word, result: Word) {
    var x, y := Reading(op, a), Reading(op, b);
    if y == 0 then result == if GivesQuotient(op) then Wrap(-1) else a
    else if IsSigned(op) && x == -0x8000_0000 && y == -1 then result == if GivesQuotient(op) then a else 0
    else exists q, r :: Divides(x, y, q, r) && result == Wrap(if GivesQuotient(op) then q else r)
  }

  // ---------------------------------------------------------------------------------------------------
  // The multiplier
  // ---------------------------------------------------------------------------------------------------

  /** A field of a 64-bit product register. */
  function Half(product: int, high: bool): Word {
    var bits := product % 0x1_0000_0000_0000_0000;
    if high then bits / 0x1_0000_0000 else bits % 0x1_0000_0000
  }

  /** The single-cycle multiplier: 64-bit products, sliced. */
  function Multiply(op: MextOp, a: Word, b: Word): Word
    requires IsMul(op)
  {
    match op
    case Mul => Half(Signed(a) * Signed(b), false)
    case Mulh => Half(Signed(a) * Signed(b), true)
    case Mulhsu => Half(Signed(a) * b, true)
    case _ => Half(a * b, true)
  }

  lemma Mod64(p: int, rest: int, bits: int)
    requires p == rest * 0x1_0000_0000_0000_0000 + bits && 0 <= bits < 0x1_0000_0000_0000_0000
    ensures p % 0x1_0000_0000_0000_0000 == bits
  {
  }

  lemma HalfIsExact(p: int)
    ensures Half(p, true) == Wrap(p / MODULUS) && Half(p, false) == Wrap(p)
  {
    var low, high := p % 0x1_0000_0000, p / 0x1_0000_0000;
    var field, rest := high % 0x1_0000_0000, high / 0x1_0000_0000;
    var bits := field * 0x1_0000_0000 + low;
    assert p == rest * 0x1_0000_0000_0000_0000 + bits;
    Mod64(p, rest, bits);
  }

  lemma WrapMultiple(x: int, k: int)
    ensures Wrap(x + k * 0x1_0000_0000) == Wrap(x)
  {
  }

  lemma LowHalfIgnoresSign(a: int, b: int, s: int, t: int)
    ensures Wrap((a - s * MODULUS) * (b - t * MODULUS)) == Wrap(a * b)
  {
    var k := s * t * MODULUS - s * b - a * t;
    assert (a - s * MODULUS) * (b - t * MODULUS) == a * b + k * MODULUS;
    WrapMultiple(a * b, k);
  }

  /** Truncating the product to 64 bits loses nothing: every multiplication returns the exact half. */
  lemma MultiplyIsExact(op: MextOp, a: Word, b: Word)
    requires IsMul(op)
    ensures Multiply(op, a, b) == MulSpec(op, a, b)
  {
    HalfIsExact(Signed(a) * Signed(b));
    HalfIsExact(Signed(a) * b);
    HalfIsExact(a * b);
    if op.Mul? {
      var s, t := if a < 0x8000_0000 then 0 else 1, if b < 0x8000_0000 then 0 else 1;
      LowHalfIgnoresSign(a, b, s, t);
    }
  }

  // ---------------------------------------------------------------------------------------------------
  // The divider
  // ---------------------------------------------------------------------------------------------------

  datatype Phase = Idle | Calc | Done | Hold

  /** The remainder register has 33 bits. */
  type Word33 = x: int | 0 <= x < 0x2_0000_0000
  type Count = c: int | 0 <= c < 32

  datatype Divider = Divider(phase: Phase, count: Count, quotient: Word, remainder: Word33, divisor: Word,
                             op: MextOp, a: Word, b: Word)

  datatype Request = Request(start: bool, op: MextOp, a: Word, b: Word)

  datatype Output = Output(result: Word, done: bool, busy: bool)

  const RESET := Divider(Idle, 0, 0, 0, 0, Mul, 0, 0)

  function Negate(x: Word): Word {
    if x == 0 then 0 else 0x1_0000_0000 - x
  }

  predicate Negative(x: Word) {
    x >= 0x8000_0000
  }

  function Magnitude(op: MextOp, x: Word): Word {
    if IsSigned(op) && Negative(x) then Negate(x) else x
  }

  predicate Overflows(op: MextOp, a: Word, b: Word) {
    IsSigned(op) && a == 0x8000_0000 && b == 0xFFFF_FFFF
  }

  /** Requests the divider answers in the same cycle. */
  predicate Immediate(op: MextOp, a: Word, b: Word) {
    b == 0 || Overflows(op, a, b)
  }

  /** One clock edge. */
  function Step(s: Divider, q: Request): Divider {
    match s.phase
    case Idle =>
      if q.start && !IsMul(q.op) && !Immediate(q.op, q.a, q.b) then
        Divider(Calc, 0, Magnitude(q.op, q.a), 0, Magnitude(q.op, q.b), q.op, q.a, q.b)
      else s
    case Calc =>
      var shifted := 2 * (s.remainder % 0x1_0000_0000) + s.quotient / 0x8000_0000;
      var fits := shifted >= s.divisor;
      s.(remainder := if fits then shifted - s.divisor else shifted,
         quotient := 2 * (s.quotient % 0x8000_0000) + (if fits then 1 else 0),
         count := (s.count + 1) % 32,
         phase := if s.count == 31 then Done else Calc)
    case Done => s.(phase := Hold)
    case Hold => s.(phase := Idle)
  }

  function SignedQuotient(s: Divider): Word {
    if IsSigned(s.op) && Negative(s.a) != Negative(s.b) then Negate(s.quotient) else s.quotient
  }

  function SignedRemainder(s: Divider): Word {
    var r := s.remainder % 0x1_0000_0000;
    if IsSigned(s.op) && Negative(s.a) then Negate(r) else r
  }

  /** The combinational outputs. */
  function Out(s: Divider, q: Request): Output {
    if q.start && IsMul(q.op) then Output(Multiply(q.op, q.a, q.b), true, false)
    else if q.start && q.b == 0 then
      Output(if q.op.Div? || q.op.Divu? then 0xFFFF_FFFF else q.a, true, false)
    else if q.start && Overflows(q.op, q.a, q.b) then
      Output(if q.op.Div? then 0x8000_0000 else 0, true, false)
    else if s.phase.Done? || s.phase.Hold? then
      Output(if s.op.Div? || s.op.Divu? then SignedQuotient(s)
             else if s.op.Rem? || s.op.Remu? then SignedRemainder(s) else 0, true, false)
    else Output(0, false, s.phase.Calc?)
  }

  /** A multiplication is answered in the cycle in which it is asked for, and leaves the unit as it is. */
  lemma MultiplyAtOnce(s: Divider, q: Request)
    requires q.start && IsMul(q.op) && s.phase.Idle?
    ensures Out(s, q) == Output(MulSpec(q.op, q.a, q.b), true, false) && Step(s, q) == s
  {
    MultiplyIsExact(q.op, q.a, q.b);
  }

  /** Cycle n of a run of the unit leads to cycle n + 1. */
  predicate Clocked(run: nat -> Divider, reqs: nat -> Request, n: nat) {
    run(n + 1) == Step(run(n), reqs(n))
  }

  // ---------------------------------------------------------------------------------------------------
  // Long division on bits, most significant first
  // ---------------------------------------------------------------------------------------------------

  /** The number with the given bits, most significant first. */
  function Value(bits: seq<bool>): nat {
    if bits == [] then 0 else 2 * Value(bits[..|bits| - 1]) + Bit(bits[|bits| - 1])
  }

  /** The low n bits of x, most significant first. */
  function BitsDown(x: nat, n: nat): (bits: seq<bool>)
    ensures |bits| == n
  {
    if n == 0 then [] else BitsDown(x / 2, n - 1) + [x % 2 == 1]
  }

  lemma Append(bits: seq<bool>, b: bool)
    ensures Value(bits + [b]) == 2 * Value(bits) + Bit(b)
  {
    assert (bits + [b])[..|bits|] == bits;
  }

  lemma {:induction false} BitsRoundTrip(x: nat, n: nat)
    requires x < Pow2(n)
    ensures Value(BitsDown(x, n)) == x
  {
    if n > 0 {
      BitsRoundTrip(x / 2, n - 1);
      Append(BitsDown(x / 2, n - 1), x % 2 == 1);
    }
  }

  lemma {:induction false} LeadingBit(b: bool, rest: seq<bool>)
    ensures Value(rest) < Pow2(|rest|)
    ensures Value([b] + rest) == (if b then Pow2(|rest|) else 0) + Value(rest)
  {
    if rest == [] {
      assert [b] + rest == [] + [b];
      Append([], b);
    } else {
      var last := |rest| - 1;
      LeadingBit(b, rest[..last]);
      assert [b] + rest == ([b] + rest[..last]) + [rest[last]];
      Append([b] + rest[..last], rest[last]);
    }
  }

  /** After n = |quot| steps the quotient register holds the dividend bits not yet used above the quotient bits
      found so far, and the remainder register what the used bits leave modulo the divisor. */
  ghost predicate LongDivision(s: Divider, dividend: seq<bool>, quot: seq<bool>) {
    && |quot| <= |dividend| == 32
    && s.quotient == Value(dividend[|quot|..] + quot)
    && 0 <= s.remainder < s.divisor
    && Value(dividend[..|quot|]) == Value(quot) * s.divisor + s.remainder
  }

  /** The leading bit of a 32-bit register and the rest. */
  lemma LeadingOf32(bit: bool, rest: seq<bool>)
    requires |rest| == 31
    ensures var v := Value([bit] + rest); v / 0x8000_0000 == Bit(bit) && v % 0x8000_0000 == Value(rest)
  {
    LeadingBit(bit, rest);
    Pow2Values();
  }

  /** Shifting the quotient register left by one, with a new quotient bit at the right. */
  lemma ShiftQuotient(dividend: seq<bool>, quot: seq<bool>, q: Word, bit: bool)
    requires |quot| < |dividend| == 32 && q == Value(dividend[|quot|..] + quot)
    ensures q / 0x8000_0000 == Bit(dividend[|quot|])
    ensures 2 * (q % 0x8000_0000) + Bit(bit) == Value(dividend[|quot| + 1..] + (quot + [bit]))
  {
    var rest := dividend[|quot| + 1..] + quot;
    assert dividend[|quot|..] + quot == [dividend[|quot|]] + rest;
    LeadingOf32(dividend[|quot|], rest);
    assert dividend[|quot| + 1..] + (quot + [bit]) == rest + [bit];
    Append(rest, bit);
  }

  /** One more dividend bit, and one more quotient bit. */
  lemma ExtendDivision(x: nat, q: nat, d: nat, r: nat, next: nat, fits: bool)
    requires x == q * d + r
    ensures 2 * x + next == (2 * q + Bit(fits)) * d + (2 * r + next - if fits then d else 0)
  {
    if fits { assert (2 * q + 1) * d == 2 * (q * d) + d; } else { assert (2 * q) * d == 2 * (q * d); }
  }

  /** The registers after a busy clock edge, given the next dividend bit. */
  lemma BusyEdge(s: Divider, q: Request, next: nat)
    requires s.phase.Calc? && s.remainder < s.divisor && s.quotient / 0x8000_0000 == next
    ensures var fits := 2 * s.remainder + next >= s.divisor;
            && Step(s, q).remainder == 2 * s.remainder + next - (if fits then s.divisor else 0)
            && Step(s, q).quotient == 2 * (s.quotient % 0x8000_0000) + Bit(fits)
            && Step(s, q).divisor == s.divisor
  {
  }

  /** One clock edge in the busy phase is one step of long division; bit 32 of the remainder is never lost. */
  lemma DivisionStep(s: Divider, q: Request, dividend: seq<bool>, quot: seq<bool>) returns (quot': seq<bool>)
    requires s.phase.Calc? && LongDivision(s, dividend, quot) && |quot| < 32
    ensures LongDivision(Step(s, q), dividend, quot') && |quot'| == |quot| + 1
  {
    var next := dividend[|quot|];
    var fits := 2 * s.remainder + Bit(next) >= s.divisor;
    quot' := quot + [fits];
    ShiftQuotient(dividend, quot, s.quotient, fits);
    BusyEdge(s, q, Bit(next));
    Append(quot, fits);
    Append(dividend[..|quot|], next);
    assert dividend[..|quot'|] == dividend[..|quot|] + [next];
    ExtendDivision(Value(dividend[..|quot|]), Value(quot), s.divisor, s.remainder, Bit(next), fits);
  }

  /** A unit that is n steps into the division that s has latched. */
  ghost predicate Busy(s: Divider, t: Divider, n: nat, quot: seq<bool>) {
    && t.op == s.op && t.a == s.a && t.b == s.b && t.divisor == s.divisor && |quot| == n
    && (if n < 32 then t.phase.Calc? && t.count == n else t.phase.Done?)
    && LongDivision(t, BitsDown(s.quotient, 32), quot)
  }

  lemma BusyStart(s: Divider)
    requires s.phase.Calc? && s.count == 0 && s.remainder == 0 && s.divisor > 0
    ensures Busy(s, s, 0, [])
  {
    Pow2Values();
    BitsRoundTrip(s.quotient, 32);
    assert BitsDown(s.quotient, 32)[0..] + [] == BitsDown(s.quotient, 32);
    assert BitsDown(s.quotient, 32)[..0] == [];
  }

  /** The unit n cycles after it latched the request. */
  lemma {:induction false} Dividing(run: nat -> Divider, reqs: nat -> Request, n: nat) returns (quot: seq<bool>)
    requires forall i: nat :: Clocked(run, reqs, i)
    requires run(1).phase.Calc? && run(1).count == 0 && run(1).remainder == 0 && run(1).divisor > 0
    requires n <= 32
    ensures Busy(run(1), run(n + 1), n, quot)
  {
    if n == 0 {
      quot := [];
      BusyStart(run(1));
    } else {
      quot := Dividing(run, reqs, n - 1);
      assert Clocked(run, reqs, n);
      quot := DivisionStep(run(n), reqs(n), BitsDown(run(1).quotient, 32), quot);
    }
  }

  function Signum(negative: bool, x: int): int {
    if negative then -x else x
  }

  lemma WrapIs(x: int, k: int, r: Word)
    requires x == k * 0x1_0000_0000 + r
    ensures Wrap(x) == r
  {
  }

  lemma WrapSign(x: Word, negative: bool)
    ensures (if negative then Negate(x) else x) == Wrap(Signum(negative, x))
  {
    if negative && x != 0 { WrapIs(Signum(true, x), -1, 0x1_0000_0000 - x); }
  }

  lemma ProductSign(y: int, ay: nat, q: int, flip: bool)
    requires ay == Abs(y)
    ensures Signum(flip, q) * y == Signum((y < 0) != flip, q * ay)
  {
  }

  /** Division of magnitudes with the signs put back. */
  lemma SignedDivision(x: int, y: int, ax: nat, ay: nat, q: nat, r: nat)
    requires ax == Abs(x) && ay == Abs(y) && ax == q * ay + r && r < ay
    ensures Divides(x, y, Signum((x < 0) != (y < 0), q), Signum(x < 0, r))
  {
    var s := Signum((x < 0) != (y < 0), q);
    ProductSign(y, ay, q, (x < 0) != (y < 0));
    assert s * y == Signum(x < 0, q * ay);
  }

  lemma MagnitudeIsAbs(op: MextOp, x: Word)
    ensures Magnitude(op, x) == Abs(Reading(op, x))
  {
  }

  /** The sign correction of the unit is the one a signed division needs. */
  lemma SignsPutBack(op: MextOp, a: Word, b: Word, q: Word, r: Word, result: Word)
    requires !IsMul(op) && !Immediate(op, a, b)
    requires var x, y := Reading(op, a), Reading(op, b);
             Divides(x, y, Signum((x < 0) != (y < 0), q), Signum(x < 0, r))
    requires result == if GivesQuotient(op) then if IsSigned(op) && Negative(a) != Negative(b) then Negate(q) else q
                       else if IsSigned(op) && Negative(a) then Negate(r) else r
    ensures DivResult(op, a, b, result)
  {
    WrapSign(q, IsSigned(op) && Negative(a) != Negative(b));
    WrapSign(r, IsSigned(op) && Negative(a));
  }

  /** The outputs after the last step are a correct result. */
  lemma ResultIsCorrect(s: Divider, t: Divider, result: Word)
    requires !IsMul(s.op) && !Immediate(s.op, s.a, s.b)
    requires s.quotient == Magnitude(s.op, s.a) && s.divisor == Magnitude(s.op, s.b)
    requires t.op == s.op && t.a == s.a && t.b == s.b
    requires s.quotient == t.quotient * s.divisor + t.remainder && t.remainder < s.divisor
    requires result == if GivesQuotient(s.op) then SignedQuotient(t) else SignedRemainder(t)
    ensures DivResult(s.op, s.a, s.b, result)
  {
    MagnitudeIsAbs(s.op, s.a);
    MagnitudeIsAbs(s.op, s.b);
    SignedDivision(Reading(s.op, s.a), Reading(s.op, s.b), s.quotient, s.divisor, t.quotient, t.remainder);
    SignsPutBack(s.op, s.a, s.b, t.quotient, t.remainder, result);
  }

  lemma FinalRegisters(s: Divider, t: Divider, quot: seq<bool>)
    requires Busy(s, t, 32, quot)
    ensures s.quotient == t.quotient * s.divisor + t.remainder && t.remainder < s.divisor
  {
    var dividend := BitsDown(s.quotient, 32);
    Pow2Values();
    BitsRoundTrip(s.quotient, 32);
    assert dividend[..32] == dividend;
    assert dividend[32..] + quot == quot;
  }

  lemma AbsProduct(k: int, y: int)
    requires k > 0
    ensures Abs(k * y) >= Abs(y)
  {
  }

  lemma DividesOnce(x: int, y: int, q: int, r: int, q': int, r': int)
    requires Divides(x, y, q, r) && Divides(x, y, q', r')
    ensures q == q' && r == r'
  {
    assert (q - q') * y == r' - r && (q' - q) * y == r - r';
    if q > q' { AbsProduct(q - q', y); }
    if q < q' { AbsProduct(q' - q, y); }
  }

  /** Table 7.1 determines the result. */
  lemma DivResultIsUnique(op: MextOp, a: Word, b: Word, u: Word, v: Word)
    requires DivResult(op, a, b, u) && DivResult(op, a, b, v)
    ensures u == v
  {
    var x, y := Reading(op, a), Reading(op, b);
    if y != 0 && !(IsSigned(op) && x == -0x8000_0000 && y == -1) {
      var q, r :| Divides(x, y, q, r) && u == Wrap(if GivesQuotient(op) then q else r);
      var q', r' :| Divides(x, y, q', r') && v == Wrap(if GivesQuotient(op) then q' else r');
      DividesOnce(x, y, q, r, q', r');
    }
  }

  /** Requests answered in the same cycle. */
  lemma ImmediateIsCorrect(s: Divider, q: Request)
    requires s.phase.Idle? && q.start && !IsMul(q.op) && Immediate(q.op, q.a, q.b)
    ensures Step(s, q) == s && Out(s, q).done && !Out(s, q).busy && DivResult(q.op, q.a, q.b, Out(s, q).result)
  {
  }

  lemma StartsBusy(s: Divider, q: Request)
    requires s.phase.Idle? && q.start && !IsMul(q.op) && !Immediate(q.op, q.a, q.b)
    ensures var t := Step(s, q);
            && t.phase.Calc? && t.count == 0 && t.remainder == 0 && t.divisor > 0
            && t.op == q.op && t.a == q.a && t.b == q.b
            && t.quotient == Magnitude(q.op, q.a) && t.divisor == Magnitude(q.op, q.b)
    ensures !Out(s, q).done && !Out(s, q).busy
  {
  }

  /** Every start in the idle state, with no further start, gives the result of the M extension: at once for
      a zero divisor and for signed overflow, otherwise after exactly 32 busy cycles, for two cycles. */
  lemma DividerIsCorrect(run: nat -> Divider, reqs: nat -> Request)
    requires forall n: nat :: Clocked(run, reqs, n)
    requires run(0).phase.Idle? && reqs(0).start && !IsMul(reqs(0).op)
    requires forall n: nat | n > 0 :: !reqs(n).start
    ensures var q := reqs(0);
            if Immediate(q.op, q.a, q.b) then
              var o := Out(run(0), q);
              o.done && !o.busy && DivResult(q.op, q.a, q.b, o.result) && run(1) == run(0)
            else
              var o := Out(run(33), reqs(33));
              && !Out(run(0), q).done && !Out(run(0), q).busy
              && (forall n: nat | 1 <= n <= 32 :: Out(run(n), reqs(n)) == Output(0, false, true))
              && o.done && !o.busy && DivResult(q.op, q.a, q.b, o.result) && Out(run(34), reqs(34)) == o
              && run(35).phase.Idle?
  {
    var q := reqs(0);
    assert Clocked(run, reqs, 0);
    if Immediate(q.op, q.a, q.b) {
      ImmediateIsCorrect(run(0), q);
    } else {
      StartsBusy(run(0), q);
      forall n: nat | 1 <= n <= 32 ensures Out(run(n), reqs(n)) == Output(0, false, true) {
        var quot := Dividing(run, reqs, n - 1);
      }
      var quot := Dividing(run, reqs, 32);
      FinalRegisters(run(1), run(33), quot);
      ResultIsCorrect(run(1), run(33), Out(run(33), reqs(33)).result);
      assert Clocked(run, reqs, 33) && Clocked(run, reqs, 34);
      assert run(34) == run(33).(phase := Hold);
    }
  }

  /** The unit itself: registers updated in place on each clock edge. */
  class DividerUnit {
    var phase: Phase
    var count: Count
    var quotient: Word
    var remainder: Word33
    var divisor: Word
    var op: MextOp
    var a: Word
    var b: Word

    function Regs(): Divider
      reads this
    {
      Divider(phase, count, quotient, remainder, divisor, op, a, b)
    }

    constructor ()
      ensures Regs() == RESET
    {
      phase, count, quotient, remainder, divisor, op, a, b := Idle, 0, 0, 0, 0, Mul, 0, 0;
    }

    /** The outputs in this cycle, then the clock edge. */
    method Clock(q: Request) returns (o: Output)
      modifies this
      ensures o == Out(old(Regs()), q)
      ensures Regs() == Step(old(Regs()), q)
    {
      o := Out(Regs(), q);
      match phase {
        case Idle =>
          if q.start && !IsMul(q.op) && !Immediate(q.op, q.a, q.b) {
            phase, count := Calc, 0;
            divisor, op, a, b := Magnitude(q.op, q.b), q.op, q.a, q.b;
            remainder, quotient := 0, Magnitude(q.op, q.a);
          }
        case Calc =>
          var shifted := 2 * (remainder % 0x1_0000_0000) + quotient / 0x8000_0000;
          if shifted >= divisor {
            remainder := shifted - divisor;
            quotient := 2 * (quotient % 0x8000_0000) + 1;
          } else {
            remainder := shifted;
            quotient := 2 * (quotient % 0x8000_0000);
          }
          if count == 31 {
            phase := Done;
          }
          count := (count + 1) % 32;
        case Done =>
          phase := Hold;
        case Hold =>
          phase := Idle;
      }
    }
  }
}
