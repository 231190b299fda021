/** 32-bit words and the wrap-around arithmetic the hardware does on them. */
module Words {
  const MODULUS: int := 0x1_0000_0000

  /** The contents of a 32-bit register. */
  type Word = x: int | 0 <= x < 0x1_0000_0000

  /** The function field of an instruction word, which also encodes access widths. */
  type Funct3 = f: int | 0 <= f < 8

  /** Addition modulo 2^32. */
  function Plus(a: Word, b: Word): Word {
    (a + b) % 0x1_0000_0000
  }

  /** The address of the next sequential instruction. */
  function Plus4(a: Word): Word {
    Plus(a, 4)
  }

  /** The two's complement reading of a word. */
  function Signed(a: Word): int {
    if a < 0x8000_0000 then a else a - 0x1_0000_0000
  }

  /** The word that represents an integer modulo 2^32. */
  function Wrap(x: int): Word {
    x % 0x1_0000_0000
  }

  /** What they stand for: the successor modulo 2^32, the only integer in range that the word represents, and 2^32. */
  lemma Arithmetic(a: Word)
    ensures Plus4(a) == (a + 4) % 4294967296 && MODULUS == 4294967296
    ensures -0x8000_0000 <= Signed(a) < 0x8000_0000 && Wrap(Signed(a)) == a
  {
  }

  function Pow2(n: nat): (p: nat)
    ensures p > 0
  {
    if n == 0 then 1 else 2 * Pow2(n - 1)
  }

  lemma Pow2Values()
    ensures Pow2(31) == 0x8000_0000 && Pow2(32) == 0x1_0000_0000
  {
    assert Pow2(8) == 256;
    assert Pow2(16) == 0x1_0000;
    assert Pow2(24) == 0x100_0000;
  }

  function Bit(b: bool): nat {
    if b then 1 else 0
  }

  /** The low n bits of a number, least significant first. */
  function Bits(x: nat, n: nat): (bits: seq<bool>)
    ensures |bits| == n
  {
    if n == 0 then [] else [x % 2 == 1] + Bits(x / 2, n - 1)
  }

  /** The number with the given bits, least significant first. */
  function Number(bits: seq<bool>): nat {
    if bits == [] then 0 else Bit(bits[0]) + 2 * Number(bits[1..])
  }

  /** Eight bits, least significant first. */
  type Byte = b: seq<bool> | |b| == 8 witness Bits(0, 8)

  lemma AtLeast(k: nat, d: nat)
    requires k > 0
    ensures k * d >= d
  {
  }

  /** Quotient and remainder are determined by the value they make up. */
  lemma Apart(q: int, q': int, d: nat, r: nat, r': nat)
    requires r < d && r' < d && q * d + r == q' * d + r'
    ensures q == q' && r == r'
  {
    assert (q' - q) * d == r - r';
    if q' > q { AtLeast(q' - q, d); }
    if q' < q { assert (q - q') * d == r' - r; AtLeast(q - q', d); }
  }

  lemma RemainderIs(x: int, q: int, d: nat, r: nat)
    requires x == q * d + r && r < d
    ensures x % d == r && x / d == q
  {
    Apart(q, x / d, d, r, x % d);
  }

  lemma HalvedRemainder(x: nat, p: nat)
    requires p > 0
    ensures x % (2 * p) == x % 2 + 2 * (x / 2 % p)
  {
    var q, r := x / 2 / p, x / 2 % p;
    assert x == 2 * (q * p + r) + x % 2;
    RemainderIs(x, q, 2 * p, 2 * r + x % 2);
  }

  lemma {:induction false} NumberOfBits(x: nat, n: nat)
    ensures Number(Bits(x, n)) == x % Pow2(n)
  {
    if n > 0 {
      NumberOfBits(x / 2, n - 1);
      HalvedRemainder(x, Pow2(n - 1));
    }
  }

  lemma {:induction false} NumberBound(bits: seq<bool>)
    ensures Number(bits) < Pow2(|bits|)
  {
    if bits != [] { NumberBound(bits[1..]); }
  }

  lemma Doubled(x: int, p: int)
    ensures x * (2 * p) == 2 * (x * p)
  {
  }

  lemma QuotientByTwo(x: int, p: nat)
    requires p > 0
    ensures x / (2 * p) == x / 2 / p
  {
    var q, r := x / 2 / p, x / 2 % p;
    assert x / 2 == q * p + r;
    Doubled(q, p);
    RemainderIs(x, q, 2 * p, 2 * r + x % 2);
  }

  /** A bit of a word, by its weight. */
  predicate BitSet(w: nat, k: nat) {
    w / Pow2(k) % 2 == 1
  }

  lemma {:induction false} BitsAt(x: nat, n: nat, k: nat)
    requires k < n
    ensures Bits(x, n)[k] == BitSet(x, k)
  {
    if k > 0 {
      BitsAt(x / 2, n - 1, k - 1);
      QuotientByTwo(x, Pow2(k - 1));
    }
  }

  lemma {:induction false} BitsOfNumber(bits: seq<bool>)
    ensures Bits(Number(bits), |bits|) == bits
  {
    if bits != [] { BitsOfNumber(bits[1..]); }
  }
}
