/** The shell's number printers and parsers. */
module Numbers {
  import opened Words

  datatype Option<T> = None | Some(value: T)

  /** The C string at the start of a stretch of memory: everything before the first NUL. */
  function CString(s: seq<char>): (text: string)
    requires '\0' in s
    ensures |text| < |s| && text == s[..|text|] && s[|text|] == '\0' && '\0' !in text
  {
    if s[0] == '\0' then [] else [s[0]] + CString(s[1..])
  }

  // ---------------------------------------------------------------------------------------------------
  // Hexadecimal
  // ---------------------------------------------------------------------------------------------------

  type Nibble = n: int | 0 <= n < 16

  function HexDigit(n: Nibble): char {
    if n < 10 then (48 + n) as char else (55 + n) as char
  }

  /** The value of a hexadecimal digit of either case. */
  function HexNibble(c: char): Option<Nibble> {
    if '0' <= c <= '9' then Some(c as int - 48)
    else if 'a' <= c <= 'f' then Some(c as int - 87)
    else if 'A' <= c <= 'F' then Some(c as int - 55)
    else None
  }

  /** The digits, by their values, in either case; every other character is none. */
  lemma HexNibbleIs(c: char, n: Nibble)
    ensures HexNibble(c) == Some(n) <==> c == "0123456789abcdef"[n] || c == "0123456789ABCDEF"[n]
    ensures HexNibble(c) == None <==> c !in "0123456789abcdef" && c !in "0123456789ABCDEF"
  {
    if HexNibble(c).Some? {
      var d := HexNibble(c).value;
      assert c == "0123456789abcdef"[d] || c == "0123456789ABCDEF"[d];
    }
  }

  /** The low n hexadecimal digits of a value. */
  function Hex(val: nat, n: nat): (text: string)
    ensures |text| == n
  {
    if n == 0 then [] else Hex(val / 16, n - 1) + [HexDigit(val % 16)]
  }

  predicate HexText(s: string) {
    forall c | c in s :: HexNibble(c).Some?
  }

  function HexValue(s: string): nat
    requires HexText(s)
  {
    if s == [] then 0 else 16 * HexValue(s[..|s| - 1]) + HexNibble(s[|s| - 1]).value
  }

  /** Shifting a digit into a word, whose top digit is lost. */
  function ShiftIn(val: Word, nib: Nibble): Word {
    assert val * 16 % 0x1_0000_0000 == val % 0x1000_0000 * 16;
    val * 16 % 0x1_0000_0000 + nib
  }

  /** The parser's running value after the digits s. */
  function HexRun(s: string): Option<Word> {
    if s == [] then Some(0)
    else
      var before := HexRun(s[..|s| - 1]);
      var nib := HexNibble(s[|s| - 1]);
      if before.None? || nib.None? || |s| > 8 then None else Some(ShiftIn(before.value, nib.value))
  }

  predicate Prefixed(s: string) {
    |s| >= 2 && s[0] == '0' && (s[1] == 'x' || s[1] == 'X')
  }

  function HexParse(s: string): Option<Word> {
    var digits := if Prefixed(s) then s[2..] else s;
    if digits == [] then None else HexRun(digits)
  }

  function Pow16(n: nat): (p: nat)
    ensures p > 0
  {
    if n == 0 then 1 else 16 * Pow16(n - 1)
  }

  lemma {:induction false} Pow16Bound(n: nat)
    requires n <= 7
    ensures Pow16(n) <= 0x1000_0000
    decreases 7 - n
  {
    if n < 7 {
      Pow16Bound(n + 1);
    } else {
      assert Pow16(4) == 0x1_0000;
    }
  }

  lemma {:induction false} HexValueBound(s: string)
    requires HexText(s)
    ensures HexValue(s) < Pow16(|s|)
  {
    if s != [] { HexValueBound(s[..|s| - 1]); }
  }

  lemma HexTextSnoc(s: string)
    requires s != []
    ensures HexText(s) <==> HexText(s[..|s| - 1]) && HexNibble(s[|s| - 1]).Some?
  {
    assert s == s[..|s| - 1] + [s[|s| - 1]];
  }

  lemma ShortHexFits(s: string, nib: Nibble)
    requires HexText(s) && |s| <= 7
    ensures HexValue(s) < 0x1000_0000 && ShiftIn(HexValue(s), nib) == 16 * HexValue(s) + nib
  {
    HexValueBound(s);
    Pow16Bound(|s|);
  }

  /** The parser computes the value of up to eight hexadecimal digits and rejects everything else. */
  lemma {:induction false} HexRunIsValue(s: string)
    ensures HexRun(s) == if HexText(s) && |s| <= 8 then Some(HexValue(s)) else None
  {
    if s != [] {
      var before := s[..|s| - 1];
      HexTextSnoc(s);
      HexRunIsValue(before);
      var nib := HexNibble(s[|s| - 1]);
      if HexText(before) && |s| <= 8 && nib.Some? { ShortHexFits(before, nib.value); }
    }
  }

  lemma DigitRoundTrip(n: Nibble)
    ensures HexNibble(HexDigit(n)) == Some(n)
  {
  }

  lemma {:induction false} HexOfValue(val: nat, n: nat)
    requires val < Pow16(n)
    ensures HexText(Hex(val, n)) && HexValue(Hex(val, n)) == val
  {
    if n > 0 {
      HexOfValue(val / 16, n - 1);
      HexTextSnoc(Hex(val, n));
      DigitRoundTrip(val % 16);
    }
  }

  lemma Pow16Eight()
    ensures Pow16(8) == 0x1_0000_0000
  {
    assert Pow16(4) == 0x1_0000;
  }

  /** Eight digits are read as their value, with either prefix or none. */
  lemma EightDigits(text: string)
    requires HexText(text) && |text| == 8
    ensures HexParse(text) == HexParse("0x" + text) == HexParse("0X" + text) == Some(HexValue(text))
  {
    HexRunIsValue(text);
    assert !Prefixed(text) by { assert text[1] in text; }
    assert ("0x" + text)[2..] == text && ("0X" + text)[2..] == text;
  }

  /** Every 32-bit value survives printing and parsing, with and without the prefix. */
  lemma HexRoundTrip(val: Word)
    ensures HexParse(Hex(val, 8)) == Some(val)
    ensures HexParse("0x" + Hex(val, 8)) == Some(val) == HexParse("0X" + Hex(val, 8))
  {
    Pow16Eight();
    HexOfValue(val, 8);
    EightDigits(Hex(val, 8));
  }

  /** Exactly the texts of one to eight hexadecimal digits, with or without prefix, are accepted. */
  lemma HexParseIsExact(s: string)
    ensures var digits := if Prefixed(s) then s[2..] else s;
            HexParse(s) == if HexText(digits) && 1 <= |digits| <= 8 then Some(HexValue(digits)) else None
  {
    HexRunIsValue(if Prefixed(s) then s[2..] else s);
  }

  lemma QuotientBy16(val: nat, p: nat)
    requires p > 0
    ensures val / 16 / p == val / (16 * p)
  {
    var q, r := val / 16 / p, val / 16 % p;
    assert val == (16 * p) * q + (16 * r + val % 16) by {
      assert val == 16 * (p * q + r) + val % 16;
      assert 16 * (p * q) == (16 * p) * q;
    }
    assert val / (16 * p) == q by { RemainderIs(val, q, 16 * p, 16 * r + val % 16); }
  }

  /** Every digit of the numeral, by its place. */
  lemma {:induction false} HexDigitAt(val: nat, n: nat, k: nat)
    requires k < n
    ensures Hex(val, n)[n - 1 - k] == "0123456789ABCDEF"[val / Pow16(k) % 16]
  {
    if k > 0 {
      HexDigitAt(val / 16, n - 1, k - 1);
      QuotientBy16(val, Pow16(k - 1));
    }
  }

  /** A value in lower case, as a user may type it. */
  function LowerHex(val: nat, n: nat): (text: string)
    ensures |text| == n
  {
    if n == 0 then [] else LowerHex(val / 16, n - 1) + ["0123456789abcdef"[val % 16]]
  }

  lemma {:induction false} LowerHexValue(val: nat, n: nat)
    requires val < Pow16(n)
    ensures HexText(LowerHex(val, n)) && HexValue(LowerHex(val, n)) == val
  {
    if n > 0 {
      LowerHexValue(val / 16, n - 1);
      HexTextSnoc(LowerHex(val, n));
      HexNibbleIs("0123456789abcdef"[val % 16], val % 16);
    }
  }

  /** Lower case is read as well. */
  lemma LowerCaseParses(val: Word)
    ensures HexParse(LowerHex(val, 8)) == Some(val)
    ensures HexParse("0x" + LowerHex(val, 8)) == Some(val) == HexParse("0X" + LowerHex(val, 8))
  {
    Pow16Eight();
    LowerHexValue(val, 8);
    EightDigits(LowerHex(val, 8));
  }

  /** A text of digits behind a prefix or none. */
  predicate Denotes(s: string, digits: string) {
    s == digits || s == "0x" + digits || s == "0X" + digits
  }

  /** Exactly these texts are accepted. */
  lemma HexAccepted(s: string)
    ensures HexParse(s).Some? <==>
            exists digits: string :: Denotes(s, digits) && 1 <= |digits| <= 8 &&
              forall c | c in digits :: c in "0123456789abcdef" || c in "0123456789ABCDEF"
  {
    HexParseIsExact(s);
    if HexParse(s).Some? {
      var digits := if Prefixed(s) then s[2..] else s;
      assert Denotes(s, digits);
      forall c | c in digits ensures c in "0123456789abcdef" || c in "0123456789ABCDEF" { HexNibbleIs(c, 0); }
    }
    forall digits: string | Denotes(s, digits) && 1 <= |digits| <= 8 &&
        forall c | c in digits :: c in "0123456789abcdef" || c in "0123456789ABCDEF"
      ensures HexParse(s).Some?
    {
      forall c | c in digits ensures HexNibble(c).Some? { HexNibbleIs(c, 0); }
      if s != digits {
        assert s[2..] == digits;
      } else if |s| >= 2 {
        assert s[1] in digits;
      }
    }
  }

  /** uint32_to_hex: the static buffer is filled from the right. */
  method Uint32ToHex(hexBuf: array<char>, val: Word)
    requires hexBuf.Length == 9
    modifies hexBuf
    ensures hexBuf[..] == Hex(val, 8) + ['\0']
    ensures forall k: nat | k < 8 :: hexBuf[7 - k] == "0123456789ABCDEF"[val / Pow16(k) % 16]
  {
    var v := val;
    for i := 8 downto 0
      invariant Hex(val, 8) == Hex(v, i) + hexBuf[i..8]
    {
      ghost var tail := hexBuf[i + 1..8];
      hexBuf[i] := HexDigit(v % 16);
      assert hexBuf[i..8] == [HexDigit(v % 16)] + tail;
      v := v / 16;
    }
    hexBuf[8] := '\0';
    assert hexBuf[..8] == Hex(val, 8);
    forall k: nat | k < 8 ensures hexBuf[7 - k] == "0123456789ABCDEF"[val / Pow16(k) % 16] {
      HexDigitAt(val, 8, k);
      assert hexBuf[..8][7 - k] == hexBuf[7 - k];
    }
  }

  /** One more character. */
  lemma HexRunNext(body: string, n: nat, val: Word, c: char)
    requires n < |body| && c == body[n] && HexRun(body[..n]) == Some(val)
    ensures var nib := HexNibble(c);
            HexRun(body[..n + 1])
            == if nib.None? || n >= 8 then None else Some(ShiftIn(val, nib.value))
  {
    assert body[..n + 1][..n] == body[..n];
  }

  lemma FirstCharacters(s: seq<char>, p0: nat, body: string, n: nat)
    requires p0 + |body| < |s| && s[p0..p0 + |body|] == body && '\0' !in body && s[p0 + |body|] == '\0'
    requires n <= |body|
    ensures if n < |body| then s[p0 + n] == body[n] != '\0' else s[p0 + n] == '\0'
  {
    if n < |body| { assert body[n] in body; }
  }

  /** Once the parser has given up it does not recover. */
  lemma {:induction false} HexRunNone(s: string, n: nat)
    requires n <= |s|
    ensures HexRun(s[..n]).None? ==> HexRun(s).None?
    decreases |s|
  {
    if n < |s| {
      HexRunNone(s[..|s| - 1], n);
      assert s[..|s| - 1][..n] == s[..n];
    } else {
      assert s[..n] == s;
    }
  }

  /** The digit loop of hex_to_uint32, from the pointer p0 on. */
  method ScanHex(s: seq<char>, p0: nat, ghost body: string) returns (r: Option<Word>)
    requires p0 + |body| < |s| && s[p0..p0 + |body|] == body && '\0' !in body && s[p0 + |body|] == '\0'
    ensures r == if body == [] then None else HexRun(body)
  {
    var p, digits, val: Word := p0, 0, 0;
    while s[p] != '\0'
      invariant p == p0 + digits && digits <= |body| && digits <= 8 && HexRun(body[..digits]) == Some(val)
      decreases |body| - digits
    {
      FirstCharacters(s, p0, body, digits);
      HexRunNext(body, digits, val, s[p]);
      HexRunNone(body, digits + 1);
      var nib := HexNibble(s[p]);
      if nib.None? { return None; }
      val := ShiftIn(val, nib.value);
      digits := digits + 1;
      if digits > 8 { return None; }
      p := p + 1;
    }
    FirstCharacters(s, p0, body, digits);
    assert body[..digits] == body;
    r := if digits == 0 then None else Some(val);
  }

  /** hex_to_uint32, on a NUL-terminated string. */
  method HexToUint32(s: seq<char>) returns (r: Option<Word>)
    requires '\0' in s
    ensures r == HexParse(CString(s))
  {
    ghost var text := CString(s);
    if s[0] == '0' && (s[1] == 'x' || s[1] == 'X') {
      r := ScanHex(s, 2, text[2..]);
    } else {
      r := ScanHex(s, 0, text);
    }
  }

  // ---------------------------------------------------------------------------------------------------
  // Decimal
  // ---------------------------------------------------------------------------------------------------

  predicate IsDigit(c: char) {
    '0' <= c <= '9'
  }

  function Digit(c: char): (d: nat)
    requires IsDigit(c)
    ensures d < 10
  {
    c as int - 48
  }

  function DigitChar(d: nat): (c: char)
    requires d < 10
    ensures IsDigit(c) && Digit(c) == d
  {
    (48 + d) as char
  }

  /** The decimal digits, by their values. */
  lemma DigitIs(c: char, d: nat)
    requires d < 10
    ensures IsDigit(c) && Digit(c) == d <==> c == "0123456789"[d]
    ensures IsDigit(c) <==> c in "0123456789"
  {
    if IsDigit(c) { assert c == "0123456789"[Digit(c)]; }
  }

  /** A value in decimal, without leading zeros. */
  function Dec(val: nat): (text: string)
    ensures text != []
  {
    (if val < 10 then [] else Dec(val / 10)) + [DigitChar(val % 10)]
  }

  predicate DecText(s: string) {
    forall c | c in s :: IsDigit(c)
  }

  function DecValue(s: string): nat
    requires DecText(s)
  {
    if s == [] then 0 else 10 * DecValue(s[..|s| - 1]) + Digit(s[|s| - 1])
  }

  /** The parser's running value after the characters s; a running value that shrinks counts as overflow. */
  function DecRun(s: string): Option<Word> {
    if s == [] then Some(0)
    else
      var before := DecRun(s[..|s| - 1]);
      var c := s[|s| - 1];
      if before.None? || !IsDigit(c) then None
      else
        var next := (before.value * 10 + Digit(c)) % 0x1_0000_0000;
        if next < before.value then None else Some(next)
  }

  function DecParse(s: string): Option<Word> {
    if s == [] then None else DecRun(s)
  }

  lemma DecTextSnoc(s: string)
    requires s != []
    ensures DecText(s) <==> DecText(s[..|s| - 1]) && IsDigit(s[|s| - 1])
  {
    assert s == s[..|s| - 1] + [s[|s| - 1]];
  }

  /** At some digit the running value modulo 2^32 shrinks. */
  predicate Shrinks(s: string)
    requires DecText(s)
  {
    s != [] &&
    (Shrinks(s[..|s| - 1]) || DecValue(s) % 0x1_0000_0000 < DecValue(s[..|s| - 1]) % 0x1_0000_0000)
  }

  lemma WrapTens(v: nat, d: nat)
    ensures (v % 0x1_0000_0000 * 10 + d) % 0x1_0000_0000 == (10 * v + d) % 0x1_0000_0000
  {
    var q := v / 0x1_0000_0000;
    assert 10 * v + d == (10 * q) * 0x1_0000_0000 + (v % 0x1_0000_0000 * 10 + d);
  }

  /** What the parser does with a text of digits. */
  lemma {:induction false} DecRunIs(s: string)
    requires DecText(s)
    ensures DecRun(s) == if Shrinks(s) then None else Some(DecValue(s) % 0x1_0000_0000)
  {
    if s != [] {
      var before, d := s[..|s| - 1], Digit(s[|s| - 1]);
      DecTextSnoc(s);
      DecRunIs(before);
      var v := DecValue(before);
      assert DecValue(s) == 10 * v + d;
      WrapTens(v, d);
    }
  }

  lemma {:induction false} DecRejects(s: string)
    requires !DecText(s)
    ensures DecRun(s) == None
  {
    DecTextSnoc(s);
    if DecText(s[..|s| - 1]) {
    } else {
      DecRejects(s[..|s| - 1]);
    }
  }

  /** Values below 2^32 never shrink on the way. */
  lemma {:induction false} NeverShrinks(s: string)
    requires DecText(s) && DecValue(s) < 0x1_0000_0000
    ensures !Shrinks(s)
  {
    if s != [] {
      DecTextSnoc(s);
      NeverShrinks(s[..|s| - 1]);
    }
  }

  /** What the parser should return: the value, or a failure if it does not fit. */
  function DecSpec(s: string): Option<Word>
    requires DecText(s)
  {
    if s != [] && DecValue(s) < 0x1_0000_0000 then Some(DecValue(s)) else None
  }

  /** The overflow check is incomplete. The parser is right about a text of digits exactly if its value fits
      into 32 bits or the running value modulo 2^32 shrinks somewhere; an overflow that does not make the
      running value shrink goes unnoticed. */
  lemma DecParseIsRight(s: string)
    requires DecText(s) && s != []
    ensures DecParse(s) == DecSpec(s) <==> DecValue(s) < 0x1_0000_0000 || Shrinks(s)
  {
    DecRunIs(s);
    if DecValue(s) < 0x1_0000_0000 { NeverShrinks(s); }
  }

  /** A text of digits with its value and the parser's running value. */
  predicate Reads(s: string, value: nat, v: Word) {
    DecText(s) && DecValue(s) == value && DecRun(s) == Some(v)
  }

  lemma DigitRead(before: string, c: char, value: nat, v: Word, next: Word, after: string)
    requires Reads(before, value, v) && IsDigit(c) && after == before + [c]
    requires next == (v * 10 + Digit(c)) % 0x1_0000_0000 && next >= v
    ensures Reads(after, 10 * value + Digit(c), next)
  {
    assert after[..|before|] == before;
    DecTextSnoc(after);
  }

  lemma FirstFive()
    ensures Reads("47721", 47721, 47721)
  {
    DigitRead("", '4', 0, 0, 4, "4");
    DigitRead("4", '7', 4, 4, 47, "47");
    DigitRead("47", '7', 47, 47, 477, "477");
    DigitRead("477", '2', 477, 477, 4772, "4772");
    DigitRead("4772", '1', 4772, 4772, 47721, "47721");
  }

  lemma LastFive()
    requires Reads("47721", 47721, 47721)
    ensures Reads("4772185890", 4772185890, 477218594)
  {
    DigitRead("47721", '8', 47721, 47721, 477218, "477218");
    DigitRead("477218", '5', 477218, 477218, 4772185, "4772185");
    DigitRead("4772185", '8', 4772185, 4772185, 47721858, "47721858");
    DigitRead("47721858", '9', 47721858, 47721858, 477218589, "477218589");
    DigitRead("477218589", '0', 477218589, 477218589, 477218594, "4772185890");
  }

  lemma ReadsParses(s: string, value: nat, v: Word)
    requires Reads(s, value, v) && s != []
    ensures DecParse(s) == Some(v) && DecSpec(s) == if value < 0x1_0000_0000 then Some(value) else None
  {
  }

  /** A text the parser should reject and does not: 4772185890 is read as 477218594. */
  lemma OverflowUnnoticed()
    ensures DecParse("4772185890") == Some(477218594)
    ensures DecText("4772185890") && DecSpec("4772185890") == None
  {
    FirstFive();
    LastFive();
    ReadsParses("4772185890", 4772185890, 477218594);
  }

  lemma {:induction false} DecOfValue(val: nat)
    ensures DecText(Dec(val)) && DecValue(Dec(val)) == val
  {
    if val >= 10 { DecOfValue(val / 10); }
    DecTextSnoc(Dec(val));
  }

  /** No numeral but that of zero starts with a zero. */
  lemma {:induction false} NoLeadingZero(val: nat)
    ensures Dec(val)[0] == '0' <==> val == 0
  {
    if val >= 10 { NoLeadingZero(val / 10); }
  }

  /** Leading zeros or not, a text of digits with a 32-bit value parses to its value. */
  lemma DecParses(text: string, val: Word)
    requires DecText(text) && text != [] && DecValue(text) == val
    ensures DecParse(text) == Some(val)
  {
    DecRunIs(text);
    NeverShrinks(text);
  }

  /** Every 32-bit value survives printing and parsing. */
  lemma DecRoundTrip(val: Word)
    ensures DecParse(Dec(val)) == Some(val)
  {
    DecOfValue(val);
    DecParses(Dec(val), val);
  }

  function Pow10(n: nat): nat {
    if n == 0 then 1 else 10 * Pow10(n - 1)
  }

  lemma {:induction false} DecLength(val: nat, n: nat)
    requires n > 0 && val < Pow10(n)
    ensures |Dec(val)| <= n
  {
    if val >= 10 { DecLength(val / 10, n - 1); }
  }

  lemma TenDigits(val: Word)
    ensures |Dec(val)| <= 10
  {
    assert Pow10(5) == 100_000;
    assert Pow10(10) == 10_000_000_000;
    DecLength(val, 10);
  }

  /** The digits in front of a tail, none for zero. */
  function Front(v: nat, tail: string): string {
    (if v > 0 then Dec(v) else []) + tail
  }

  lemma FrontShrinks(v: nat, tail: string)
    requires v > 0
    ensures Front(v, tail) == Front(v / 10, [DigitChar(v % 10)] + tail)
  {
    if v < 10 {
      assert Dec(v) == [DigitChar(v % 10)];
    } else {
      assert Dec(v) + tail == Dec(v / 10) + ([DigitChar(v % 10)] + tail);
    }
  }

  lemma FrontLength(v: nat, tail: string)
    requires v > 0
    ensures |Front(v, tail)| > |tail|
  {
  }

  /** uint32_to_dec: the static buffer is filled from the right; the text starts at index i. */
  method Uint32ToDec(decBuf: array<char>, val: Word) returns (i: nat)
    requires decBuf.Length == 11
    modifies decBuf
    ensures i <= 10 && decBuf[i..] == Dec(val) + ['\0']
  {
    TenDigits(val);
    i := 10;
    decBuf[i] := '\0';
    if val == 0 {
      i := i - 1;
      decBuf[i] := '0';
      assert decBuf[9..] == ['0', '\0'];
    } else {
      var v := val;
      while v > 0
        invariant i <= 10 && decBuf[10] == '\0'
        invariant Dec(val) == Front(v, decBuf[i..10])
      {
        ghost var tail := decBuf[i..10];
        FrontShrinks(v, tail);
        FrontLength(v, tail);
        i := i - 1;
        decBuf[i] := DigitChar(v % 10);
        assert decBuf[i..10] == [DigitChar(v % 10)] + tail;
        v := v / 10;
      }
      assert decBuf[i..] == decBuf[i..10] + ['\0'];
    }
  }

  /** Once the parser has given up it does not recover. */
  lemma {:induction false} DecRunNone(s: string, n: nat)
    requires n <= |s|
    ensures DecRun(s[..n]).None? ==> DecRun(s).None?
    decreases |s|
  {
    if n < |s| {
      DecRunNone(s[..|s| - 1], n);
      assert s[..|s| - 1][..n] == s[..n];
    } else {
      assert s[..n] == s;
    }
  }

  /** One more character. */
  lemma DecRunNext(text: string, p: nat, val: Word, c: char)
    requires p < |text| && c == text[p] && DecRun(text[..p]) == Some(val)
    ensures DecRun(text[..p + 1]) ==
            if !IsDigit(c) then None
            else
              var next := (val * 10 + Digit(c)) % 0x1_0000_0000;
              if next < val then None else Some(next)
  {
    assert text[..p + 1][..p] == text[..p];
  }

  /** dec_to_uint32, on a NUL-terminated string. */
  method DecToUint32(s: seq<char>) returns (r: Option<Word>)
    requires '\0' in s
    ensures r == DecParse(CString(s))
  {
    ghost var text := CString(s);
    assert s[0..|text|] == text;
    var p, val: Word := 0, 0;
    while s[p] != '\0'
      invariant p <= |text| && DecRun(text[..p]) == Some(val)
      decreases |text| - p
    {
      FirstCharacters(s, 0, text, p);
      DecRunNext(text, p, val, s[p]);
      DecRunNone(text, p + 1);
      if !IsDigit(s[p]) { return None; }
      var prev := val;
      val := (val * 10 + Digit(s[p])) % 0x1_0000_0000;
      if val < prev { return None; }
      p := p + 1;
    }
    FirstCharacters(s, 0, text, p);
    assert text[..p] == text;
    r := if p == 0 then None else Some(val);
  }
}
