/** The shell's uptime: the 64-bit timer read over a 32-bit bus, long division without 64-bit operations, and
    the breakdown into days, hours, minutes and seconds. */
module Uptime {
  import opened Words
  import M = MulDiv
  import opened ApbSlave
  import opened Clint

  // ---------------------------------------------------------------------------------------------------
  // Long division
  // ---------------------------------------------------------------------------------------------------

  /** One step: the next dividend bit is shifted into the 32-bit remainder, whose top bit is lost. */
  function Shifted(rem: Word, bit: bool): Word {
    (2 * rem + Bit(bit)) % 0x1_0000_0000
  }

  /** The remainder and the quotient bits after all dividend bits, most significant first. */
  function Long(bits: seq<bool>, d: Word): (r: (Word, seq<bool>))
    ensures |r.1| == |bits|
  {
    if bits == [] then (0, [])
    else
      var (rem, q) := Long(bits[..|bits| - 1], d);
      var next := Shifted(rem, bits[|bits| - 1]);
      if next >= d then (next - d, q + [true]) else (next, q + [false])
  }

  function Dividend(hi: Word, lo: Word): (bits: seq<bool>)
    ensures |bits| == 64
  {
    M.BitsDown(hi, 32) + M.BitsDown(lo, 32)
  }

  lemma ValueBound(bits: seq<bool>)
    ensures M.Value(bits) < Pow2(|bits|)
  {
    M.LeadingBit(false, bits);
  }

  /** The low half of the quotient bits, and the remainder. */
  function Div64by32(hi: Word, lo: Word, d: Word): (r: (Word, Word)) {
    var (rem, q) := Long(Dividend(hi, lo), d);
    ValueBound(q[32..]);
    Pow2Values();
    (M.Value(q[32..]), rem)
  }

  lemma {:induction false} ValueOfConcat(a: seq<bool>, b: seq<bool>)
    ensures M.Value(a + b) == M.Value(a) * Pow2(|b|) + M.Value(b)
  {
    if b == [] {
      assert a + b == a;
    } else {
      var last := |b| - 1;
      assert a + b == (a + b[..last]) + [b[last]];
      M.Append(a + b[..last], b[last]);
      ValueOfConcat(a, b[..last]);
      Doubled(M.Value(a), Pow2(last));
    }
  }

  lemma DividendValue(hi: Word, lo: Word)
    ensures M.Value(Dividend(hi, lo)) == hi * 0x1_0000_0000 + lo
  {
    Pow2Values();
    M.BitsRoundTrip(hi, 32);
    M.BitsRoundTrip(lo, 32);
    ValueOfConcat(M.BitsDown(hi, 32), M.BitsDown(lo, 32));
  }

  /** A dividend is the product of quotient and divisor, and the remainder. */
  predicate Divides(bits: seq<bool>, d: Word, rem: Word, q: seq<bool>) {
    rem < d && M.Value(bits) == M.Value(q) * d + rem
  }

  /** Below 2^31 nothing is shifted out. */
  lemma ShiftedFits(rem: Word, bit: bool)
    requires rem < 0x8000_0000
    ensures Shifted(rem, bit) == 2 * rem + Bit(bit)
  {
  }

  /** One bit of the division. */
  lemma LongStep(before: seq<bool>, bit: bool, d: Word, rem: Word, q: seq<bool>)
    requires 0 < d <= 0x8000_0000 && Divides(before, d, rem, q)
    ensures var next := Shifted(rem, bit);
            Divides(before + [bit], d, if next >= d then next - d else next, q + [next >= d])
  {
    var next := Shifted(rem, bit);
    ShiftedFits(rem, bit);
    M.Append(before, bit);
    M.Append(q, next >= d);
    M.ExtendDivision(M.Value(before), M.Value(q), d, rem, Bit(bit), next >= d);
  }

  /** Up to 2^31 the shifted remainder fits into 32 bits, and the division is exact. */
  lemma {:induction false} LongIsExact(bits: seq<bool>, d: Word)
    requires 0 < d <= 0x8000_0000
    ensures Divides(bits, d, Long(bits, d).0, Long(bits, d).1)
  {
    if bits != [] {
      var before, bit := bits[..|bits| - 1], bits[|bits| - 1];
      LongIsExact(before, d);
      var (rem, q) := Long(before, d);
      LongStep(before, bit, d, rem, q);
      assert bits == before + [bit];
    }
  }

  /** The quotient modulo 2^32 and the remainder of a 64-bit number. */
  predicate Exact(hi: Word, lo: Word, d: Word)
    requires d > 0
  {
    var n := hi * 0x1_0000_0000 + lo;
    Div64by32(hi, lo, d) == (n / d % 0x1_0000_0000, n % d)
  }

  lemma LowHalf(x: nat, high: nat, low: nat)
    requires x == high * 0x1_0000_0000 + low && low < 0x1_0000_0000
    ensures x % 0x1_0000_0000 == low
  {
  }

  /** The two halves of a 64-bit quotient. */
  lemma QuotientLow(q: seq<bool>)
    requires |q| == 64
    ensures M.Value(q) % 0x1_0000_0000 == M.Value(q[32..])
  {
    assert q == q[..32] + q[32..];
    ValueOfConcat(q[..32], q[32..]);
    ValueBound(q[32..]);
    Pow2Values();
    LowHalf(M.Value(q), M.Value(q[..32]), M.Value(q[32..]));
  }

  lemma ExactBelow(hi: Word, lo: Word, d: Word)
    requires 0 < d <= 0x8000_0000
    ensures Exact(hi, lo, d)
  {
    var (rem, q) := Long(Dividend(hi, lo), d);
    LongIsExact(Dividend(hi, lo), d);
    DividendValue(hi, lo);
    RemainderIs(hi * 0x1_0000_0000 + lo, M.Value(q), d, rem);
    QuotientLow(q);
  }

  /** Dividing a number smaller than a large divisor leaves it as the remainder. */
  lemma {:induction false} SmallDividend(bits: seq<bool>, d: Word)
    requires M.Value(bits) < d
    ensures Long(bits, d).0 == M.Value(bits)
  {
    if bits != [] {
      var before := bits[..|bits| - 1];
      SmallDividend(before, d);
    }
  }

  lemma {:induction false} LongOfConcat(a: seq<bool>, b: seq<bool>, d: Word)
    ensures Long(a + b, d).1[..|a|] == Long(a, d).1
  {
    if b == [] {
      assert a + b == a;
    } else {
      var last := |b| - 1;
      assert (a + b)[..|a + b| - 1] == a + b[..last];
      LongOfConcat(a, b[..last], d);
    }
  }

  /** Above 2^31 the top bit of the remainder is lost for the dividend (d - 1) * 2^32: the first quotient bit
      of the low word comes out as zero. */
  lemma LostBit(d: Word, high: seq<bool>)
    requires d > 0x8000_0000 && M.Value(high) == d - 1
    ensures !Long(high + [false], d).1[|high|]
  {
    SmallDividend(high, d);
    assert (high + [false])[..|high|] == high;
    assert Shifted(d - 1, false) < d;
  }

  lemma TopBitClear(q: seq<bool>)
    requires |q| == 32 && !q[0]
    ensures M.Value(q) < 0x8000_0000
  {
    assert q == [false] + q[1..];
    M.LeadingBit(false, q[1..]);
    Pow2Values();
  }

  lemma {:induction false} FirstZero(n: nat)
    requires n > 0
    ensures !M.BitsDown(0, n)[0]
  {
    if n > 1 { FirstZero(n - 1); }
  }

  lemma WrongAbove(d: Word)
    requires d > 0x8000_0000
    ensures !Exact(d - 1, 0, d)
  {
    var high, low := M.BitsDown(d - 1, 32), M.BitsDown(0, 32);
    var q := Long(high + low, d).1;
    Pow2Values();
    M.BitsRoundTrip(d - 1, 32);
    LostBit(d, high);
    FirstZero(32);
    assert high + low == (high + [false]) + low[1..];
    LongOfConcat(high + [false], low[1..], d);
    assert !q[32] by { assert q[..33][32] == q[32]; }
    TopBitClear(q[32..]);
    RemainderIs((d - 1) * 0x1_0000_0000, 0xFFFF_FFFE, d, 2 * d - 0x1_0000_0000);
  }

  /** The divisors for which the division is right for every 64-bit dividend. */
  lemma Div64by32IsExactUpTo31Bits(d: Word)
    requires d > 0
    ensures (forall hi: Word, lo: Word :: Exact(hi, lo, d)) <==> d <= 0x8000_0000
  {
    if d <= 0x8000_0000 {
      forall hi: Word, lo: Word ensures Exact(hi, lo, d) { ExactBelow(hi, lo, d); }
    } else {
      WrongAbove(d);
    }
  }

  lemma {:induction false} BitAt(x: nat, n: nat, i: nat)
    requires i < n
    ensures M.BitsDown(x, n)[n - 1 - i] == (x / Pow2(i) % 2 == 1)
  {
    if i > 0 {
      BitAt(x / 2, n - 1, i - 1);
      QuotientByTwo(x, Pow2(i - 1));
    }
  }

  lemma Distribute(v: int, v': int, p: int, bit: bool)
    requires v' == 2 * v + Bit(bit)
    ensures v' * p == v * (2 * p) + (if bit then p else 0)
  {
    Doubled(v, p);
    if bit { assert (2 * v + 1) * p == 2 * (v * p) + p; } else { assert (2 * v) * p == 2 * (v * p); }
  }

  lemma {:induction false} ShiftBound(v: nat, n: nat, i: nat)
    requires v < Pow2(n)
    ensures v * Pow2(i) < Pow2(n + i)
  {
    if i > 0 {
      ShiftBound(v, n, i - 1);
      Doubled(v, Pow2(i - 1));
    }
  }

  /** Setting bit i of a quotient whose bits up to i are still zero. */
  lemma SetBit(q: seq<bool>, b: bool, i: nat, was: nat)
    requires |q| + i + 1 == 32 && was == M.Value(q) * Pow2(i + 1)
    ensures was + (if b then Pow2(i) else 0) == M.Value(q + [b]) * Pow2(i) < 0x1_0000_0000
  {
    M.Append(q, b);
    Distribute(M.Value(q), M.Value(q + [b]), Pow2(i), b);
    ValueBound(q + [b]);
    ShiftBound(M.Value(q + [b]), 32 - i, i);
    Pow2Values();
  }

  /** The loop state after k dividend bits: the remainder, and the quotient bits from base on, in place. */
  ghost predicate Loop(bits: seq<bool>, k: nat, base: nat, d: Word, rem: Word, q: Word) {
    && base <= k <= base + 32 <= |bits|
    && rem == Long(bits[..k], d).0 && q == M.Value(Long(bits[..k], d).1[base..]) * Pow2(base + 32 - k)
  }

  lemma LoopStep(bits: seq<bool>, k: nat, base: nat, d: Word, rem: Word, q: Word, next: Word, one: nat, i: nat)
    requires Loop(bits, k, base, d, rem, q) && k < base + 32 && i == base + 31 - k && one == Pow2(i)
    requires next == Shifted(rem, bits[k])
    ensures if next >= d then q + one < 0x1_0000_0000 && Loop(bits, k + 1, base, d, next - d, q + one)
            else Loop(bits, k + 1, base, d, next, q)
  {
    var quot, b := Long(bits[..k], d).1, next >= d;
    assert bits[..k + 1][..k] == bits[..k] && bits[..k + 1][k] == bits[k];
    assert (quot + [b])[base..] == quot[base..] + [b];
    SetBit(quot[base..], b, i, q);
  }

  /** Bit i of a word, and the mask for it. */
  method BitOf(w: Word, i: nat) returns (bit: nat, one: nat)
    requires i < 32
    ensures bit == Bit(M.BitsDown(w, 32)[31 - i]) && one == Pow2(i)
  {
    one := Pow2(i);
    bit := w / one % 2;
    BitAt(w, 32, i);
  }

  lemma LoopStart(bits: seq<bool>, base: nat, d: Word)
    requires base + 32 <= |bits|
    ensures Loop(bits, base, base, d, Long(bits[..base], d).0, 0)
  {
  }

  /** One of the shell's two loops: the bits of a word, bit 31 first, on top of the remainder so far. */
  method DivideWord(w: Word, divisor: Word, rem0: Word, ghost bits: seq<bool>, ghost base: nat)
    returns (rem: Word, q: Word)
    requires |bits| >= base + 32 && bits[base..base + 32] == M.BitsDown(w, 32) && rem0 == Long(bits[..base], divisor).0
    ensures Loop(bits, base + 32, base, divisor, rem, q)
  {
    rem, q := rem0, 0;
    LoopStart(bits, base, divisor);
    ghost var k := base;
    for i := 32 downto 0
      invariant k == base + 32 - i && Loop(bits, k, base, divisor, rem, q)
    {
      var bit, one := BitOf(w, i);
      assert bits[k] == bits[base..base + 32][31 - i];
      var next := Shifted(rem, bit == 1);
      LoopStep(bits, k, base, divisor, rem, q, next, one, i);
      rem := next;
      if rem >= divisor {
        rem := rem - divisor;
        q := q + one;
      }
      k := k + 1;
    }
  }

  /** The shell's division: the high word, then the low word; only the low half of the quotient is kept. */
  method DivideLoops(hi: Word, lo: Word, divisor: Word) returns (quotient: Word, remainder: Word)
    ensures (quotient, remainder) == Div64by32(hi, lo, divisor)
  {
    ghost var bits := Dividend(hi, lo);
    assert bits[0..32] == M.BitsDown(hi, 32) && bits[32..64] == M.BitsDown(lo, 32);
    var rem, qHi := DivideWord(hi, divisor, 0, bits, 0);
    remainder, quotient := DivideWord(lo, divisor, rem, bits, 32);
    assert bits[..64] == bits;
  }

  // ---------------------------------------------------------------------------------------------------
  // Reading the timer
  // ---------------------------------------------------------------------------------------------------

  /** The cycles of consecutive bus reads. */
  ghost predicate Increasing(at: nat -> nat) {
    forall i: nat, j: nat | i < j :: at(i) < at(j)
  }

  /** If the high word is the same before and after, the pair is the timer as it stood at the low read. */
  lemma ConsistentRead(apb: nat -> Apb, run: nat -> State, n: nat, a: nat, b: nat, c: nat)
    requires Counts(apb, run, n) && a <= b <= c <= n
    requires High(run(a).mtime) == High(run(c).mtime)
    ensures Make(High(run(a).mtime), Low(run(b).mtime)) == run(b).mtime
  {
    TimerAdvances(apb, run, n, a);
    TimerAdvances(apb, run, n, b);
    TimerAdvances(apb, run, n, c);
  }

  /** Round r of the reads finds the same high word before and after the low one. */
  predicate Consistent(run: nat -> State, at: nat -> nat, r: nat) {
    High(run(at(3 * r)).mtime) == High(run(at(3 * r + 2)).mtime)
  }

  lemma RoundReads(apb: nat -> Apb, run: nat -> State, n: nat, at: nat -> nat, r: nat, rounds: nat)
    requires Increasing(at) && Counts(apb, run, n) && at(3 * rounds + 2) <= n && r <= rounds && Consistent(run, at, r)
    ensures Make(High(run(at(3 * r)).mtime), Low(run(at(3 * r + 1)).mtime)) == run(at(3 * r + 1)).mtime
  {
    var a, b, c, last := 3 * r, 3 * r + 1, 3 * r + 2, 3 * rounds + 2;
    assert at(a) < at(b) < at(c) <= at(last);
    ConsistentRead(apb, run, n, at(a), at(b), at(c));
  }

  /** What round r of the reads returns. */
  predicate RoundIs(run: nat -> State, at: nat -> nat, r: nat, hi: Word, lo: Word, hi2: Word) {
    && hi == High(run(at(3 * r)).mtime) && lo == Low(run(at(3 * r + 1)).mtime)
    && hi2 == High(run(at(3 * r + 2)).mtime)
  }

  /** No round before r is consistent. */
  ghost predicate NoneBefore(run: nat -> State, at: nat -> nat, r: nat) {
    forall j: nat | j < r :: !Consistent(run, at, j)
  }

  method ReadRound(run: nat -> State, at: nat -> nat, r: nat) returns (hi: Word, lo: Word, hi2: Word)
    ensures RoundIs(run, at, r, hi, lo, hi2)
  {
    hi, lo, hi2 := High(run(at(3 * r)).mtime), Low(run(at(3 * r + 1)).mtime), High(run(at(3 * r + 2)).mtime);
  }

  lemma RoundFails(run: nat -> State, at: nat -> nat, r: nat, rounds: nat, hi: Word, lo: Word, hi2: Word)
    requires RoundIs(run, at, r, hi, lo, hi2) && hi != hi2 && NoneBefore(run, at, r)
    requires r <= rounds && Consistent(run, at, rounds)
    ensures NoneBefore(run, at, r + 1) && r < rounds
  {
  }

  /** The shell's loop: high, low, high, again if the high word moved. It ends with the first consistent round, and
      the result is the timer at that round's low read. */
  method ReadTimer(ghost apb: nat -> Apb, run: nat -> State, ghost n: nat, at: nat -> nat, ghost rounds: nat)
    returns (hi: Word, lo: Word, r: nat)
    requires Increasing(at) && Counts(apb, run, n) && at(3 * rounds + 2) <= n && Consistent(run, at, rounds)
    ensures Make(hi, lo) == run(at(3 * r + 1)).mtime
    ensures r <= rounds && Consistent(run, at, r) && NoneBefore(run, at, r)
  {
    r := 0;
    var hi2;
    hi, lo, hi2 := ReadRound(run, at, r);
    while hi != hi2
      invariant r <= rounds && NoneBefore(run, at, r) && RoundIs(run, at, r, hi, lo, hi2)
      decreases rounds - r
    {
      RoundFails(run, at, r, rounds, hi, lo, hi2);
      r := r + 1;
      hi, lo, hi2 := ReadRound(run, at, r);
    }
    RoundReads(apb, run, n, at, r, rounds);
  }

  /** A high word that has changed does not change again within 2^32 cycles. */
  lemma OneCarry(apb: nat -> Apb, run: nat -> State, n: nat, a: nat, b: nat, c: nat, d: nat)
    requires Counts(apb, run, n) && a <= b <= c <= d <= n && d - a < 0x1_0000_0000
    requires High(run(a).mtime) != High(run(b).mtime)
    ensures High(run(c).mtime) == High(run(d).mtime)
  {
    TimerAdvances(apb, run, n, a);
    TimerAdvances(apb, run, n, b);
    TimerAdvances(apb, run, n, c);
    TimerAdvances(apb, run, n, d);
  }

  /** Two consecutive rounds within 2^32 cycles are enough. */
  lemma TwoRoundsSuffice(apb: nat -> Apb, run: nat -> State, n: nat, at: nat -> nat, r: nat)
    requires Increasing(at) && Counts(apb, run, n)
    requires at(3 * r + 5) <= n && at(3 * r + 5) - at(3 * r) < 0x1_0000_0000
    ensures Consistent(run, at, r) || Consistent(run, at, r + 1)
  {
    var a, b, c, d := 3 * r, 3 * r + 2, 3 * (r + 1), 3 * (r + 1) + 2;
    assert at(a) < at(b) < at(c) < at(d) && d == 3 * r + 5;
    if !Consistent(run, at, r) { OneCarry(apb, run, n, at(a), at(b), at(c), at(d)); }
  }

  // ---------------------------------------------------------------------------------------------------
  // The whole command
  // ---------------------------------------------------------------------------------------------------

  const SYS_CLK_HZ: Word := 25_000_000

  datatype Clock = Clock(days: nat, hours: nat, mins: nat, secs: nat)

  /** The parts are in range and make up the number of seconds. */
  predicate Shows(c: Clock, seconds: nat) {
    c.hours < 24 && c.mins < 60 && c.secs < 60 && 86400 * c.days + 3600 * c.hours + 60 * c.mins + c.secs == seconds
  }

  /** These parts are the ones of the number of seconds, and no others. */
  ghost predicate OnlyShows(c: Clock, seconds: nat) {
    forall d :: Shows(d, seconds) <==> d == c
  }

  lemma ShowsOnlyOne(c: Clock, d: Clock, seconds: nat)
    requires Shows(c, seconds) && Shows(d, seconds)
    ensures c == d
  {
    Apart(c.days, d.days, 86400, 3600 * c.hours + 60 * c.mins + c.secs, 3600 * d.hours + 60 * d.mins + d.secs);
    Apart(c.hours, d.hours, 3600, 60 * c.mins + c.secs, 60 * d.mins + d.secs);
    Apart(c.mins, d.mins, 60, c.secs, d.secs);
  }

  method Breakdown(total: Word) returns (c: Clock)
    ensures OnlyShows(c, total)
  {
    var days, drem := total / 86400, total % 86400;
    var hours := drem / 3600;
    drem := drem % 3600;
    c := Clock(days, hours, drem / 60, drem % 60);
    forall d | Shows(d, total) ensures d == c { ShowsOnlyOne(d, c, total); }
  }

  lemma Seconds(hi: Word, lo: Word, ticks: nat, total: Word)
    requires Make(hi, lo) == ticks && total == Div64by32(hi, lo, SYS_CLK_HZ).0
    ensures total == ticks / 25_000_000 % 0x1_0000_0000
  {
    ExactBelow(hi, lo, SYS_CLK_HZ);
  }

  /** The uptime command: the parts are those of the whole seconds of the timer, as it stood at the low read of the
      first consistent round, modulo 2^32 seconds; no other parts are. */
  method Command(ghost apb: nat -> Apb, run: nat -> State, ghost n: nat, at: nat -> nat, ghost rounds: nat)
    returns (c: Clock, r: nat)
    requires Increasing(at) && Counts(apb, run, n) && at(3 * rounds + 2) <= n && Consistent(run, at, rounds)
    ensures r <= rounds && Consistent(run, at, r) && NoneBefore(run, at, r)
    ensures OnlyShows(c, run(at(3 * r + 1)).mtime / 25_000_000 % 0x1_0000_0000)
  {
    var hi, lo;
    hi, lo, r := ReadTimer(apb, run, n, at, rounds);
    var total, ticks := DivideLoops(hi, lo, SYS_CLK_HZ);
    Seconds(hi, lo, run(at(3 * r + 1)).mtime, total);
    c := Breakdown(total);
  }
}
