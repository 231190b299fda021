/** What the ALU's logical operations and shifts do, bit by bit. */
module AluBits {
  import opened Words
  import opened Pipeline
  import opened Decode

  /** Bit i of a word. */
  predicate BitOf(w: Word, i: nat)
    requires i < 32
  {
    Bits(w, 32)[i]
  }

  lemma BitwiseBit(f: (bool, bool) -> bool, a: Word, b: Word, i: nat)
    requires i < 32
    ensures BitOf(Bitwise(f, a, b), i) == f(BitOf(a, i), BitOf(b, i))
  {
    var bits := seq(32, j requires 0 <= j < 32 => f(Bits(a, 32)[j], Bits(b, 32)[j]));
    BitsOfNumber(bits);
    assert Bitwise(f, a, b) == Number(bits);
  }

  /** AND, OR and XOR work on each bit alone. */
  lemma LogicalOperations(a: Word, b: Word, i: nat)
    requires i < 32
    ensures BitOf(Alu(And, a, b), i) <==> BitOf(a, i) && BitOf(b, i)
    ensures BitOf(Alu(Or, a, b), i) <==> BitOf(a, i) || BitOf(b, i)
    ensures BitOf(Alu(Xor, a, b), i) <==> BitOf(a, i) != BitOf(b, i)
  {
    BitwiseBit((x, y) => x && y, a, b, i);
    BitwiseBit((x, y) => x || y, a, b, i);
    BitwiseBit((x, y) => x != y, a, b, i);
  }

  lemma {:induction false} BitsOfRemainder(x: nat, n: nat)
    ensures Bits(x % Pow2(n), n) == Bits(x, n)
  {
    if n > 0 {
      HalvedRemainder(x, Pow2(n - 1));
      BitsOfRemainder(x / 2, n - 1);
    }
  }

  lemma WrapBits(x: nat)
    ensures Bits(Wrap(x), 32) == Bits(x, 32)
  {
    Pow2Values();
    BitsOfRemainder(x, 32);
  }

  /** A shift to the left, one place at a time. */
  function Shl(x: nat, k: nat): nat {
    if k == 0 then x else 2 * Shl(x, k - 1)
  }

  /** A shift to the right, one place at a time, rounding down. */
  function Shr(x: int, k: nat): (r: int)
    ensures x >= 0 ==> r >= 0
    decreases k
  {
    if k == 0 then x else Shr(x / 2, k - 1)
  }

  lemma {:induction false} ShlIs(x: nat, k: nat)
    ensures Shl(x, k) == x * Pow2(k)
  {
    if k > 0 {
      ShlIs(x, k - 1);
      Doubled(x, Pow2(k - 1));
    }
  }

  lemma {:induction false} ShrIs(x: int, k: nat)
    ensures Shr(x, k) == x / Pow2(k)
    decreases k
  {
    if k > 0 {
      ShrIs(x / 2, k - 1);
      QuotientByTwo(x, Pow2(k - 1));
    }
  }

  /** How many bits are looked at does not change them. */
  lemma {:induction false} ShorterBits(x: nat, m: nat, n: nat, i: nat)
    requires i < m <= n
    ensures Bits(x, m)[i] == Bits(x, n)[i]
  {
    if i > 0 { ShorterBits(x / 2, m - 1, n - 1, i - 1); }
  }

  lemma {:induction false} ShlBits(x: nat, k: nat, n: nat, i: nat)
    requires i < n
    ensures Bits(Shl(x, k), n)[i] == (i >= k && Bits(x, n)[i - k])
  {
    if k > 0 && i > 0 {
      ShlBits(x, k - 1, n - 1, i - 1);
      if i >= k { ShorterBits(x, n - 1, n, i - k); }
    }
  }

  lemma {:induction false} ShrBits(x: nat, k: nat, n: nat, i: nat)
    requires i < n
    ensures Bits(Shr(x, k), n)[i] == Bits(x, n + k)[i + k]
  {
    if k > 0 { ShrBits(x / 2, k - 1, n, i); }
  }

  /** Beyond its n bits a number has only zeros. */
  lemma {:induction false} HighBit(x: nat, n: nat, m: nat, i: nat)
    requires x < Pow2(n) && i < m
    ensures Bits(x, m)[i] == (i < n && Bits(x, n)[i])
  {
    if i > 0 {
      if n > 0 {
        HighBit(x / 2, n - 1, m - 1, i - 1);
      } else {
        HighBit(0, 0, m - 1, i - 1);
      }
    }
  }

  lemma ShiftValues(a: Word, b: Word, k: nat)
    requires k == b % 32
    ensures Alu(Sll, a, b) == Wrap(Shl(a, k)) && Alu(Srl, a, b) == Wrap(Shr(a, k))
  {
    ShlIs(a, k);
    ShrIs(a, k);
  }

  lemma SllBit(a: Word, k: nat, w: Word, i: nat)
    requires i < 32 && w == Wrap(Shl(a, k))
    ensures BitOf(w, i) <==> i >= k && BitOf(a, i - k)
  {
    WrapBits(Shl(a, k));
    ShlBits(a, k, 32, i);
  }

  lemma ShrBit(a: nat, k: nat, n: nat, i: nat)
    requires a < Pow2(n) && i < n
    ensures Bits(Shr(a, k), n)[i] == (i + k < n && Bits(a, n)[i + k])
  {
    ShrBits(a, k, n, i);
    HighBit(a, n, n + k, i + k);
  }

  lemma SrlBit(a: Word, k: nat, x: nat, w: Word, i: nat)
    requires i < 32 && x == Shr(a, k) && w == Wrap(x)
    ensures BitOf(w, i) <==> i + k < 32 && BitOf(a, i + k)
  {
    WrapBits(x);
    Pow2Values();
    ShrBit(a, k, 32, i);
  }

  /** SLL and SRL move the bits by the low five bits of the second operand and fill with zeros. */
  lemma LogicalShifts(a: Word, b: Word, k: nat, i: nat)
    requires i < 32 && k == b % 32
    ensures BitOf(Alu(Sll, a, b), i) <==> i >= k && BitOf(a, i - k)
    ensures BitOf(Alu(Srl, a, b), i) <==> i + k < 32 && BitOf(a, i + k)
  {
    ShiftValues(a, b, k);
    SllBit(a, k, Alu(Sll, a, b), i);
    SrlBit(a, k, Shr(a, k), Alu(Srl, a, b), i);
  }

  /** A number with k ones on top of its n bits. */
  function Ones(x: nat, n: nat, k: nat): nat
  {
    if n > 0 then x % 2 + 2 * Ones(x / 2, n - 1, k) else if k > 0 then 1 + 2 * Ones(0, 0, k - 1) else 0
  }

  /** Bit i + 1 of a number is bit i of its half. */
  lemma NextBit(x: nat, half: nat, n: nat, i: nat)
    requires i < n && (x == 2 * half || x == 2 * half + 1)
    ensures Bits(x, n + 1)[i + 1] == Bits(half, n)[i]
  {
  }

  lemma LowestBit(x: nat, n: nat)
    requires n > 0
    ensures Bits(x, n)[0] == (x % 2 == 1)
  {
  }

  lemma OnesUnfold(x: nat, n: nat, k: nat)
    ensures n > 0 ==> Ones(x, n, k) == x % 2 + 2 * Ones(x / 2, n - 1, k)
    ensures n == 0 && k > 0 ==> Ones(x, n, k) == 1 + 2 * Ones(0, 0, k - 1)
  {
  }

  lemma {:induction false} AllOnes(k: nat, ones: nat, i: nat)
    requires ones == Ones(0, 0, k) && i < k
    ensures Bits(ones, k)[i]
  {
    OnesUnfold(0, 0, k);
    if i == 0 {
      LowestBit(ones, k);
    } else {
      AllOnes(k - 1, Ones(0, 0, k - 1), i - 1);
      NextBit(ones, Ones(0, 0, k - 1), k - 1, i - 1);
    }
  }

  lemma {:induction false} OnesBit(x: nat, n: nat, k: nat, m: nat, ones: nat, i: nat)
    requires m == n + k && i < m && ones == Ones(x, n, k)
    ensures Bits(ones, m)[i] == (i >= n || Bits(x, n)[i])
    decreases n
  {
    OnesUnfold(x, n, k);
    if n == 0 {
      OnesUnfold(0, 0, k);
      AllOnes(k, ones, i);
    } else if i == 0 {
      LowestBit(ones, m);
      LowestBit(x, n);
    } else {
      var half := Ones(x / 2, n - 1, k);
      OnesBit(x / 2, n - 1, k, m - 1, half, i - 1);
      NextBit(ones, half, m - 1, i - 1);
      if i < n { NextBit(x, x / 2, n - 1, i - 1); }
    }
  }

  lemma {:induction false} OnesAlone(k: nat)
    ensures Ones(0, 0, k) == Pow2(k) - 1
  {
    if k > 0 { OnesAlone(k - 1); }
  }

  lemma DoubledLeft(q: int, p: int)
    ensures 2 * q * p == 2 * (q * p)
  {
  }

  lemma {:induction false} OnesIs(x: nat, n: nat, k: nat, p: nat)
    requires x < Pow2(n) && p == Pow2(k)
    ensures Ones(x, n, k) == x + Pow2(n) * p - Pow2(n)
  {
    if n > 0 {
      OnesIs(x / 2, n - 1, k, p);
      DoubledLeft(Pow2(n - 1), p);
    } else {
      OnesAlone(k);
    }
  }

  lemma TimesNegative(t: int, p: nat)
    requires t < 0
    ensures t * p <= 0 - p
  {
  }

  lemma NotNegative(t: int, p: nat, r: nat)
    requires r < p && t * p + r >= 0
    ensures t >= 0
  {
    if t < 0 { TimesNegative(t, p); }
  }

  /** Rounding down the negative number is shifting the number with ones on top. */
  lemma FloorOfNegative(a: int, p: nat, y: nat)
    requires p > 0 && a < 0x1_0000_0000 && y == a + 0x1_0000_0000 * p - 0x1_0000_0000
    ensures y / p == (a - 0x1_0000_0000) / p + 0x1_0000_0000
  {
    var q, r := (a - 0x1_0000_0000) / p, (a - 0x1_0000_0000) % p;
    var t := q + 0x1_0000_0000;
    assert a - 0x1_0000_0000 == q * p + r;
    assert y == t * p + r by { assert t * p == q * p + 0x1_0000_0000 * p; }
    NotNegative(t, p, r);
    RemainderIs(y, t, p, r);
  }

  lemma ShiftedOnes(a: nat, k: nat, y: nat, i: nat)
    requires i < 32 && y == Ones(a, 32, k)
    ensures Bits(Shr(y, k), 32)[i] == (i + k >= 32 || Bits(a, 32)[i + k])
  {
    ShrBits(y, k, 32, i);
    OnesBit(a, 32, k, 32 + k, y, i + k);
  }

  lemma SraBit(a: Word, k: nat, x: nat, y: nat, w: Word, i: nat)
    requires i < 32 && y == Ones(a, 32, k) && x == Shr(y, k) && w == Wrap(x)
    ensures BitOf(w, i) <==> i + k >= 32 || BitOf(a, i + k)
  {
    WrapBits(x);
    ShiftedOnes(a, k, y, i);
  }

  lemma Modular(x: int, y: int)
    requires y == x + 0x1_0000_0000
    ensures Wrap(x) == Wrap(y)
  {
  }

  lemma SraValue(a: Word, k: nat, p: nat, y: nat)
    requires a >= 0x8000_0000 && p == Pow2(k) && y == Ones(a, 32, k)
    ensures Wrap(Signed(a) / p) == Wrap(Shr(y, k))
  {
    Pow2Values();
    OnesIs(a, 32, k, p);
    FloorOfNegative(a, p, y);
    ShrIs(y, k);
    Modular(Signed(a) / p, y / p);
  }

  /** SRA moves the bits to the right and fills with the sign. */
  lemma ArithmeticShift(a: Word, b: Word, k: nat, i: nat)
    requires i < 32 && k == b % 32
    ensures BitOf(Alu(Sra, a, b), i) <==> if i + k < 32 then BitOf(a, i + k) else a >= 0x8000_0000
  {
    if a < 0x8000_0000 {
      ShrIs(a, k);
      SrlBit(a, k, Shr(a, k), Alu(Sra, a, b), i);
    } else {
      SraValue(a, k, Pow2(k), Ones(a, 32, k));
      SraBit(a, k, Shr(Ones(a, 32, k), k), Ones(a, 32, k), Alu(Sra, a, b), i);
    }
  }
}
