/** For which operands of a division the sum of the operands is, by accident, the result. */
module SumAsResult {
  import opened Words
  import opened MulDiv

  /** The operands, not a zero divisor nor the signed overflow, whose sum modulo 2^32 is what Table 7.1 asks for. */
  predicate SumIsResult(op: MextOp, a: Word, b: Word) {
    var x, y := Reading(op, a), Reading(op, b);
    var carried := x + y - 0x1_0000_0000;
    match op
    case Divu => carried >= 0 && carried * y <= x < carried * y + y
    case Remu => carried >= 0 && y > 0 && 0x1_0000_0000 % y == 0
    case Div =>
      (y >= 2 && x == -y - 1) || (x == -4 && y == 2) || (x == -0x8000_0000 && y == -0x7FFF_FFFF)
    case Rem =>
      ((x < 0) != (y < 0) && Abs(y) <= Abs(x) < 2 * Abs(y)) || (x == -0x8000_0000 && y == -0x8000_0000)
    case _ => false
  }

  lemma SumOfReadings(op: MextOp, a: Word, b: Word)
    ensures Plus(a, b) == Wrap(Reading(op, a) + Reading(op, b))
  {
  }

  /** A result with its quotient and remainder. */
  predicate With(op: MextOp, x: int, y: int, q: int, r: int, result: Word) {
    Divides(x, y, q, r) && result == Wrap(if GivesQuotient(op) then q else r)
  }

  lemma Witness(op: MextOp, a: Word, b: Word, result: Word) returns (q: int, r: int)
    requires !IsMul(op) && !Immediate(op, a, b) && DivResult(op, a, b, result)
    ensures With(op, Reading(op, a), Reading(op, b), q, r, result)
  {
    var x, y := Reading(op, a), Reading(op, b);
    q, r :| Divides(x, y, q, r) && result == Wrap(if GivesQuotient(op) then q else r);
  }

  lemma Witnessed(op: MextOp, a: Word, b: Word, result: Word, q: int, r: int)
    requires !IsMul(op) && !Immediate(op, a, b) && With(op, Reading(op, a), Reading(op, b), q, r, result)
    ensures DivResult(op, a, b, result)
  {
  }

  lemma AtLeastTimes(q: int, k: int, y: int)
    requires q >= k && y >= 0
    ensures q * y >= k * y
  {
  }

  lemma Opposite(q: int, y: int)
    ensures -q * y == -(q * y) && q * -y == -(q * y) && -q * -y == q * y
  {
  }

  lemma AbsOfProduct(q: int, y: int)
    ensures Abs(q * y) == Abs(q) * Abs(y)
  {
    Opposite(q, y);
    if q >= 0 && y >= 0 { AtLeastTimes(q, 0, y); }
    if q < 0 && y >= 0 { AtLeastTimes(-q, 0, y); }
    if q >= 0 && y < 0 { AtLeastTimes(q, 0, -y); }
    if q < 0 && y < 0 { AtLeastTimes(-q, 0, -y); }
  }

  /** A product is zero or at least as large as its factors. */
  lemma ProductSize(q: int, y: int)
    ensures q * y == 0 || Abs(q * y) >= Abs(y)
    ensures y != 0 ==> Abs(q) <= Abs(q * y)
  {
    AbsOfProduct(q, y);
    if q != 0 { AtLeastTimes(Abs(q), 1, Abs(y)); }
    if y != 0 { AtLeastTimes(Abs(y), 1, Abs(q)); }
  }

  /** Truncation moves toward zero. */
  lemma TowardZero(x: int, y: int, q: int, r: int)
    requires Divides(x, y, q, r)
    ensures Abs(q * y) <= Abs(x) && Abs(q) <= Abs(x)
  {
    ProductSize(q, y);
  }

  // ---------------------------------------------------------------------------------------------------
  // Unsigned
  // ---------------------------------------------------------------------------------------------------

  lemma UnsignedQuotient(x: Word, y: Word, q: int, r: int)
    requires y > 0 && Divides(x, y, q, r)
    ensures q >= 0 && 0 <= r < y && q <= x
  {
    TowardZero(x, y, q, r);
    if q < 0 { AtLeastTimes(-q, 1, y); Opposite(q, y); }
  }

  lemma SumIsQuotient(x: Word, y: Word, q: int, r: int)
    requires y > 0 && Divides(x, y, q, r)
    ensures Plus(x, y) == Wrap(q) <==> q == x + y - 0x1_0000_0000
  {
    UnsignedQuotient(x, y, q, r);
  }

  lemma NextMultiple(q: int, y: int)
    ensures (q + 1) * y == q * y + y
  {
  }

  lemma SumIsRemainder(x: Word, y: Word, q: int, r: int)
    requires y > 0 && Divides(x, y, q, r) && Plus(x, y) == Wrap(r)
    ensures x + y >= 0x1_0000_0000 && 0x1_0000_0000 % y == 0
  {
    UnsignedQuotient(x, y, q, r);
    NextMultiple(q, y);
    RemainderIs(0x1_0000_0000, q + 1, y, 0);
  }

  lemma DivuExactly(a: Word, b: Word)
    requires b > 0
    ensures DivResult(Divu, a, b, Plus(a, b)) <==> SumIsResult(Divu, a, b)
  {
    if DivResult(Divu, a, b, Plus(a, b)) {
      var q, r := Witness(Divu, a, b, Plus(a, b));
      SumIsQuotient(a, b, q, r);
      UnsignedQuotient(a, b, q, r);
    }
    if SumIsResult(Divu, a, b) {
      var q := a + b - 0x1_0000_0000;
      Witnessed(Divu, a, b, Plus(a, b), q, a - q * b);
    }
  }

  lemma RemuExactly(a: Word, b: Word)
    requires b > 0
    ensures DivResult(Remu, a, b, Plus(a, b)) <==> SumIsResult(Remu, a, b)
  {
    if DivResult(Remu, a, b, Plus(a, b)) {
      var q, r := Witness(Remu, a, b, Plus(a, b));
      SumIsRemainder(a, b, q, r);
    }
    if SumIsResult(Remu, a, b) {
      var q := 0x1_0000_0000 / b - 1;
      NextMultiple(q, b);
      Witnessed(Remu, a, b, Plus(a, b), q, a + b - 0x1_0000_0000);
    }
  }

  // ---------------------------------------------------------------------------------------------------
  // Signed
  // ---------------------------------------------------------------------------------------------------

  type Int32 = x: int | -0x8000_0000 <= x < 0x8000_0000

  /** Two numbers that agree modulo 2^32 are a multiple of it apart. */
  lemma SameWord(u: int, v: int)
    requires Wrap(u) == Wrap(v) && Abs(u - v) < 0x2_0000_0000
    ensures u - v == 0 || u - v == 0x1_0000_0000 || u - v == -0x1_0000_0000
  {
  }

  lemma RemRight(x: Int32, y: Int32, q: int, r: int)
    requires y != 0 && Divides(x, y, q, r) && Wrap(x + y) == Wrap(r)
    ensures ((x < 0) != (y < 0) && Abs(y) <= Abs(x) < 2 * Abs(y)) || (x == -0x8000_0000 && y == -0x8000_0000)
  {
    TowardZero(x, y, q, r);
    SameWord(x + y, r);
  }

  lemma RemExactly(a: Word, b: Word)
    requires !Immediate(Rem, a, b)
    ensures DivResult(Rem, a, b, Plus(a, b)) <==> SumIsResult(Rem, a, b)
  {
    var x, y := Signed(a), Signed(b);
    SumOfReadings(Rem, a, b);
    if DivResult(Rem, a, b, Plus(a, b)) {
      var q, r := Witness(Rem, a, b, Plus(a, b));
      RemRight(x, y, q, r);
    }
    if SumIsResult(Rem, a, b) {
      if x == y { Witnessed(Rem, a, b, Plus(a, b), 1, 0); } else { Witnessed(Rem, a, b, Plus(a, b), -1, x + y); }
    }
  }

  /** Without a wrap-around. */
  lemma SmallSum(x: Int32, y: Int32, q: int, r: int)
    requires y != 0 && Divides(x, y, q, r) && x + y == q
    ensures (y >= 2 && x == -y - 1) || (x == -4 && y == 2)
  {
    var z := q * (y - 1);
    assert z == -y - r;
    if y > 1 {
      if q >= 0 { AtLeastTimes(q, 0, y - 1); }
      Opposite(q, y - 1);
      if -q >= 3 { AtLeastTimes(-q, 3, y - 1); }
    } else if y < 0 {
      Opposite(q, y - 1);
      Opposite(-q, y - 1);
      if q >= 0 { AtLeastTimes(q, 0, 1 - y); }
      if -q >= 2 { AtLeastTimes(-q, 2, 1 - y); }
    }
  }

  /** With one. */
  lemma WrappedSum(x: Int32, y: Int32, q: int, r: int)
    requires y != 0 && Divides(x, y, q, r) && x + y + 0x1_0000_0000 == q
    ensures x == -0x8000_0000 && y == -0x7FFF_FFFF
  {
    TowardZero(x, y, q, r);
    var k := -y;
    Opposite(q, y);
    assert 0 == x + q * k - r;
    if q >= 2 {
      AtLeastTimes(q, 2, k);
      AtLeastTimes(q, 0x4000_0000, k);
    }
  }

  lemma NotAbove(x: Int32, y: Int32, q: int, r: int)
    requires y != 0 && Divides(x, y, q, r)
    ensures x + y - q != 0x1_0000_0000
  {
    TowardZero(x, y, q, r);
    if x > 0 && y > 0 && q < 0 { AtLeastTimes(-q, 1, y); Opposite(q, y); }
  }

  lemma DivRight(x: Int32, y: Int32, q: int, r: int)
    requires y != 0 && Divides(x, y, q, r) && Wrap(x + y) == Wrap(q)
    ensures (y >= 2 && x == -y - 1) || (x == -4 && y == 2) || (x == -0x8000_0000 && y == -0x7FFF_FFFF)
  {
    TowardZero(x, y, q, r);
    SameWord(x + y, q);
    if x + y == q {
      SmallSum(x, y, q, r);
    } else if x + y - q == -0x1_0000_0000 {
      WrappedSum(x, y, q, r);
    } else {
      NotAbove(x, y, q, r);
    }
  }

  lemma DivExactly(a: Word, b: Word)
    requires !Immediate(Div, a, b)
    ensures DivResult(Div, a, b, Plus(a, b)) <==> SumIsResult(Div, a, b)
  {
    var x, y := Signed(a), Signed(b);
    SumOfReadings(Div, a, b);
    if DivResult(Div, a, b, Plus(a, b)) {
      var q, r := Witness(Div, a, b, Plus(a, b));
      DivRight(x, y, q, r);
    }
    if SumIsResult(Div, a, b) {
      if y >= 2 && x == -y - 1 { Witnessed(Div, a, b, Plus(a, b), -1, -1); }
      else if y == 2 { Witnessed(Div, a, b, Plus(a, b), -2, 0); }
      else { Witnessed(Div, a, b, Plus(a, b), 1, -1); }
    }
  }

  /** The sum of the operands is the result of a division exactly for these operands. */
  lemma SumIsResultExactly(op: MextOp, a: Word, b: Word)
    requires !IsMul(op) && !Immediate(op, a, b)
    ensures DivResult(op, a, b, Plus(a, b)) <==> SumIsResult(op, a, b)
  {
    match op
    case Div => DivExactly(a, b);
    case Divu => DivuExactly(a, b);
    case Rem => RemExactly(a, b);
    case _ => RemuExactly(a, b);
  }
}
