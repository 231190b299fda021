/** Byte lanes of the memory stage over the word-wide data memory, against a little-endian byte map. */
module ByteMemory {
  import opened Words

  const DEPTH: nat := 4096
  const SIZE: nat := 16384

  type Octet = b: int | 0 <= b < 256

  const LB: Funct3 := 0
  const LH: Funct3 := 1
  const LW: Funct3 := 2
  const LBU: Funct3 := 4
  const LHU: Funct3 := 5

  /** A shift right by whole bytes. */
  function ShiftRight(w: Word, lanes: nat): Word
    requires lanes < 4
  {
    if lanes == 0 then w else if lanes == 1 then w / 0x100 else if lanes == 2 then w / 0x100 / 0x100
    else w / 0x100 / 0x100 / 0x100
  }

  /** Byte lane k of a word. */
  function Lane(w: Word, k: nat): Octet
    requires k < 4
  {
    ShiftRight(w, k) % 256
  }

  function Join(b0: Octet, b1: Octet, b2: Octet, b3: Octet): (w: Word)
    ensures Lane(w, 0) == b0 && Lane(w, 1) == b1 && Lane(w, 2) == b2 && Lane(w, 3) == b3
  {
    var w3: Word := b3;
    var w2: Word := b2 + 0x100 * w3;
    var w1: Word := b1 + 0x100 * w2;
    var w: Word := b0 + 0x100 * w1;
    assert w / 0x100 == w1 && w1 / 0x100 == w2 && w2 / 0x100 == w3;
    w
  }

  // ---------------------------------------------------------------------------------------------------
  // The memory stage
  // ---------------------------------------------------------------------------------------------------

  /** Byte enables, one per lane. */
  type Enables = e: seq<bool> | |e| == 4 witness [false, false, false, false]

  const NO_BYTES: Enables := [false, false, false, false]

  /** A shift left by whole lanes, in 32 bits. */
  function ShiftLeft(w: Word, lanes: nat): Word
    requires lanes < 4
  {
    if lanes == 0 then w else if lanes == 1 then w * 0x100 % 0x1_0000_0000
    else if lanes == 2 then w * 0x1_0000 % 0x1_0000_0000 else w * 0x100_0000 % 0x1_0000_0000
  }

  function StoreData(f: Funct3, addr: Word, value: Word): Word {
    var offset := addr % 4;
    if f == LB then ShiftLeft(value % 0x100, offset)
    else if f == LH then if offset >= 2 then value % 0x1_0000 * 0x1_0000 else value % 0x1_0000
    else if f == LW then value
    else 0
  }

  /** The word on the bus, all four lanes of it: byte or halfword stand in their lanes, the rest is zero. */
  lemma StoreDataIs(f: Funct3, addr: Word, value: Word)
    ensures StoreData(f, addr, value)
            == match f
               case 0 =>
                 value % 0x100 * (match addr % 4 case 0 => 1 case 1 => 0x100 case 2 => 0x1_0000 case _ => 0x100_0000)
               case 1 => value % 0x1_0000 * (if addr % 4 < 2 then 1 else 0x1_0000)
               case 2 => value
               case _ => 0
  {
  }

  function StoreEnables(f: Funct3, addr: Word): Enables {
    var offset := addr % 4;
    if f == LB then [offset == 0, offset == 1, offset == 2, offset == 3]
    else if f == LH then if offset >= 2 then [false, false, true, true] else [true, true, false, false]
    else if f == LW then [true, true, true, true]
    else NO_BYTES
  }

  function SignByte(b: Octet): Word {
    if b >= 0x80 then b + 0xFFFF_FF00 else b
  }

  function SignHalf(h: Word): Word
    requires h < 0x1_0000
  {
    if h >= 0x8000 then h + 0xFFFF_0000 else h
  }

  function LoadData(f: Funct3, addr: Word, rdata: Word): Word {
    var offset := addr % 4;
    var half := if offset >= 2 then rdata / 0x1_0000 else rdata % 0x1_0000;
    var byte := ShiftRight(rdata, offset) % 0x100;
    if f == LB then SignByte(byte) else if f == LH then SignHalf(half) else if f == LW then rdata
    else if f == LBU then byte else if f == LHU then half else rdata
  }

  // ---------------------------------------------------------------------------------------------------
  // The data memory
  // ---------------------------------------------------------------------------------------------------

  type Memory = m: seq<Word> | |m| == DEPTH witness seq(DEPTH, _ => 0)

  function Index(addr: Word): (i: nat)
    ensures i < DEPTH
  {
    addr / 4 % 4096
  }

  function Merge(before: Word, wdata: Word, be: Enables): Word {
    Join(if be[0] then Lane(wdata, 0) else Lane(before, 0), if be[1] then Lane(wdata, 1) else Lane(before, 1),
         if be[2] then Lane(wdata, 2) else Lane(before, 2), if be[3] then Lane(wdata, 3) else Lane(before, 3))
  }

  /** The array after a clock edge. */
  function Written(m: Memory, addr: Word, wdata: Word, we: bool, be: Enables): Memory {
    if we then m[Index(addr) := Merge(m[Index(addr)], wdata, be)] else m
  }

  /** The array and the register at the read port. */
  datatype Ram = Ram(mem: Memory, rdata: Word)

  /** One clock edge: a read puts the old word into the register. */
  function Next(r: Ram, addr: Word, wdata: Word, we: bool, be: Enables, re: bool): Ram {
    Ram(Written(r.mem, addr, wdata, we, be), if re then r.mem[Index(addr)] else r.rdata)
  }

  /** The memory block itself. */
  class BlockRam {
    const mem: array<Word>
    var rdata: Word

    ghost predicate Valid() {
      mem.Length == DEPTH
    }

    ghost function Contents(): Ram
      reads this, mem
      requires Valid()
    {
      Ram(mem[..], rdata)
    }

    constructor (init: Memory)
      ensures Valid() && fresh(mem) && Contents().mem == init
    {
      mem := new Word[DEPTH](i requires 0 <= i < DEPTH => init[i]);
      rdata := 0;
    }

    method Clock(addr: Word, wdata: Word, we: bool, be: Enables, re: bool)
      requires Valid()
      modifies this, mem
      ensures Contents() == Next(old(Contents()), addr, wdata, we, be, re)
    {
      var at := Index(addr);
      if re {
        rdata := mem[at];
      }
      if we {
        var b0, b1, b2, b3 := Lane(mem[at], 0), Lane(mem[at], 1), Lane(mem[at], 2), Lane(mem[at], 3);
        if be[0] { b0 := Lane(wdata, 0); }
        if be[1] { b1 := Lane(wdata, 1); }
        if be[2] { b2 := Lane(wdata, 2); }
        if be[3] { b3 := Lane(wdata, 3); }
        mem[at] := Join(b0, b1, b2, b3);
      }
    }
  }

  // ---------------------------------------------------------------------------------------------------
  // Loads and stores, and what they should do
  // ---------------------------------------------------------------------------------------------------

  datatype Op = Store(f: Funct3, addr: Word, value: Word) | Load(f: Funct3, addr: Word)

  /** The width in bytes. */
  function Width(f: Funct3): nat {
    if f == LB || f == LBU then 1 else if f == LH || f == LHU then 2 else 4
  }

  /** SB, SH, SW, LB, LH, LW, LBU and LHU at naturally aligned addresses. */
  predicate Aligned(op: Op) {
    && (op.Store? ==> op.f <= LW) && (op.Load? ==> op.f <= LW || op.f == LBU || op.f == LHU)
    && op.addr % Width(op.f) == 0
  }

  /** One clock edge of the memory block while the memory stage presents an access. */
  function Edge(r: Ram, op: Op): Ram {
    match op
    case Store(f, addr, value) => Next(r, addr, StoreData(f, addr, value), true, StoreEnables(f, addr), false)
    case Load(_, addr) => Next(r, addr, 0, false, NO_BYTES, true)
  }

  /** What the memory stage makes of the read register while it presents the access. */
  function Reply(r: Ram, op: Op): Word {
    match op
    case Store(_, _, _) => 0
    case Load(f, addr) => LoadData(f, addr, r.rdata)
  }

  type ByteMap = b: seq<Octet> | |b| == SIZE witness seq(SIZE, _ => 0)

  /** The byte map a word array stands for. */
  function Bytes(m: Memory): ByteMap {
    seq(SIZE, a requires 0 <= a < SIZE => Lane(m[a / 4], a % 4))
  }

  function LittleEndian(bytes: seq<Octet>): nat {
    if bytes == [] then 0 else bytes[0] + 0x100 * LittleEndian(bytes[1..])
  }

  /** The little-endian bytes of a value, least significant first. */
  function Split(value: nat, width: nat): (bytes: seq<Octet>)
    ensures |bytes| == width
  {
    if width == 0 then [] else [value % 256] + Split(value / 256, width - 1)
  }

  /** The signed reading of one or two bytes. */
  function SignExtend(value: nat, width: nat): int {
    if width == 1 && value >= 0x80 then value - 0x100
    else if width == 2 && value >= 0x8000 then value - 0x1_0000 else value
  }

  /** The word a load of the given kind makes of the bytes it finds. */
  function Extended(f: Funct3, bytes: seq<Octet>): Word {
    Wrap(if f == LB || f == LH then SignExtend(LittleEndian(bytes), |bytes|) else LittleEndian(bytes))
  }

  lemma Fits(op: Op)
    requires Aligned(op)
    ensures op.addr % SIZE + Width(op.f) <= SIZE
    ensures op.addr % SIZE == 4 * Index(op.addr) + op.addr % 4
    ensures op.addr % 4 + Width(op.f) <= 4
  {
  }

  /** The same access on a byte map; addresses beyond the memory wrap around. */
  function Expected(b: ByteMap, op: Op): (ByteMap, Word)
    requires Aligned(op)
  {
    var a, n := op.addr % SIZE, Width(op.f);
    Fits(op);
    match op
    case Store(f, _, value) => (b[..a] + Split(value, n) + b[a + n..], 0)
    case Load(f, _) => (b, Extended(f, b[a..a + n]))
  }

  // ---------------------------------------------------------------------------------------------------
  // The accesses by their funct3 codes
  // ---------------------------------------------------------------------------------------------------

  function ByteAt(b: seq<Octet>, a: nat): int
    requires a < |b|
  {
    b[a]
  }

  function HalfAt(b: seq<Octet>, a: nat): int
    requires a + 1 < |b|
  {
    ByteAt(b, a) + 0x100 * ByteAt(b, a + 1)
  }

  lemma OneByte(b: seq<Octet>)
    requires |b| == 1
    ensures LittleEndian(b) == ByteAt(b, 0)
  {
  }

  lemma TwoBytes(b: seq<Octet>)
    requires |b| == 2
    ensures LittleEndian(b) == HalfAt(b, 0)
  {
    OneByte(b[1..]);
  }

  lemma FourBytes(b: seq<Octet>)
    requires |b| == 4
    ensures LittleEndian(b) == HalfAt(b, 0) + 0x1_0000 * HalfAt(b, 2)
  {
    TwoBytes(b[2..]);
    assert b[1..][1..] == b[2..];
    assert LittleEndian(b[1..]) == ByteAt(b, 1) + 0x100 * LittleEndian(b[2..]);
  }

  /** LB and LBU are loads 0 and 4, of one byte, with its sign and without; */
  lemma LoadByte(b: ByteMap, addr: Word)
    requires addr < SIZE
    ensures var x := ByteAt(b, addr);
            && Expected(b, Load(0, addr)).1 == (if x < 0x80 then x else 0xFFFF_FF00 + x)
            && Expected(b, Load(4, addr)).1 == x
  {
    OneByte(b[addr..addr + 1]);
  }

  /** LH and LHU are loads 1 and 5, of two bytes, the lower one first; */
  lemma LoadHalf(b: ByteMap, addr: Word)
    requires addr < SIZE && addr % 2 == 0
    ensures var x := HalfAt(b, addr);
            && Expected(b, Load(1, addr)).1 == (if x < 0x8000 then x else 0xFFFF_0000 + x)
            && Expected(b, Load(5, addr)).1 == x
  {
    TwoBytes(b[addr..addr + 2]);
  }

  /** LW is load 2, of four. */
  lemma LoadFour(b: ByteMap, addr: Word)
    requires addr < SIZE && addr % 4 == 0
    ensures Expected(b, Load(2, addr)).1 == HalfAt(b, addr) + 0x1_0000 * HalfAt(b, addr + 2)
  {
    FourBytes(b[addr..addr + 4]);
  }

  lemma {:induction false} SplitAt(value: nat, width: nat, k: nat)
    requires k < width <= 4
    ensures Split(value, width)[k]
            == (if k == 0 then value else if k == 1 then value / 0x100 else if k == 2 then value / 0x1_0000
                else value / 0x100_0000) % 0x100
  {
    if k > 0 { SplitAt(value / 0x100, width - 1, k - 1); }
  }

  /** SB, SH and SW are stores 0, 1 and 2, of one, two and four bytes, the lowest first. */
  lemma StoresByCode(b: ByteMap, f: Funct3, addr: Word, v: Word, a: nat)
    requires f <= 2 && a < SIZE && addr < SIZE && addr % (if f == 0 then 1 else if f == 1 then 2 else 4) == 0
    ensures var n := if f == 0 then 1 else if f == 1 then 2 else 4;
            ByteAt(Expected(b, Store(f, addr, v)).0, a)
            == if addr <= a < addr + n
               then (if a == addr then v else if a == addr + 1 then v / 0x100 else if a == addr + 2 then v / 0x1_0000
                     else v / 0x100_0000) % 0x100
               else ByteAt(b, a)
  {
    var n := if f == 0 then 1 else if f == 1 then 2 else 4;
    if addr <= a < addr + n { SplitAt(v, n, a - addr); }
  }

  // ---------------------------------------------------------------------------------------------------
  // Lanes and bytes
  // ---------------------------------------------------------------------------------------------------

  lemma HalfDigits(x: nat)
    ensures x % 0x1_0000 % 0x100 == x % 0x100
    ensures x % 0x1_0000 / 0x100 == x / 0x100 % 0x100
    ensures x / 0x1_0000 == x / 0x100 / 0x100
  {
  }

  lemma ByteLane(b: Octet, lanes: nat)
    requires lanes < 4
    ensures Lane(ShiftLeft(b, lanes), lanes) == b
  {
    assert b * 0x100 / 0x100 == b && b * 0x1_0000 / 0x100 == b * 0x100 && b * 0x100_0000 / 0x100 == b * 0x1_0000;
  }

  lemma UpperHalf(h: Word)
    requires h < 0x1_0000
    ensures Lane(h * 0x1_0000, 2) == h % 0x100 && Lane(h * 0x1_0000, 3) == h / 0x100
  {
    var w := h * 0x1_0000;
    assert w / 0x100 == h * 0x100;
    assert w / 0x100 / 0x100 == h;
  }

  lemma SplitDigits(v: nat)
    ensures Split(v, 1) == [v % 256]
    ensures Split(v, 2) == [v % 256, v / 256 % 256]
    ensures Split(v, 4) == [v % 256, v / 256 % 256, v / 256 / 256 % 256, v / 256 / 256 / 256 % 256]
  {
    assert Split(v, 1) == [v % 256] + Split(v / 256, 0);
    assert Split(v, 2) == [v % 256] + Split(v / 256, 1);
    assert Split(v, 4) == [v % 256] + Split(v / 256, 3);
    assert Split(v / 256, 3) == [v / 256 % 256] + Split(v / 256 / 256, 2);
    assert Split(v / 256 / 256, 2) == [v / 256 / 256 % 256] + Split(v / 256 / 256 / 256, 1);
  }

  lemma StoredHalf(h: Word, addr: Word, k: nat)
    requires h < 0x1_0000 && addr % 2 == 0 && addr % 4 <= k < addr % 4 + 2 && k < 4
    ensures Lane(if addr % 4 >= 2 then h * 0x1_0000 else h, k) == if k == addr % 4 then h % 0x100 else h / 0x100
  {
    UpperHalf(h);
  }

  lemma StoredWord(v: Word, k: nat)
    requires k < 4
    ensures Lane(v, k) == Split(v, 4)[k]
  {
    SplitDigits(v);
  }

  /** The value a store puts on the lanes it enables. */
  lemma StoredLane(op: Op, k: nat)
    requires Aligned(op) && op.Store? && op.addr % 4 <= k < op.addr % 4 + Width(op.f) && k < 4
    ensures Lane(StoreData(op.f, op.addr, op.value), k) == Split(op.value, Width(op.f))[k - op.addr % 4]
  {
    var v := op.value;
    if op.f == LB {
      SplitDigits(v);
      ByteLane(v % 0x100, k);
    } else if op.f == LH {
      SplitDigits(v);
      HalfDigits(v);
      StoredHalf(v % 0x1_0000, op.addr, k);
    } else {
      StoredWord(v, k);
    }
  }

  lemma EnabledLanes(op: Op, k: nat)
    requires Aligned(op) && op.Store? && k < 4
    ensures StoreEnables(op.f, op.addr)[k] <==> op.addr % 4 <= k < op.addr % 4 + Width(op.f)
  {
  }

  lemma MergeLane(before: Word, wdata: Word, be: Enables, k: nat)
    requires k < 4
    ensures Lane(Merge(before, wdata, be), k) == Lane(if be[k] then wdata else before, k)
  {
  }

  /** What a store does to the lanes of its word. */
  lemma StoreLane(op: Op, before: Word, k: nat)
    requires Aligned(op) && op.Store? && k < 4
    ensures var offset, n := op.addr % 4, Width(op.f);
            Lane(Merge(before, StoreData(op.f, op.addr, op.value), StoreEnables(op.f, op.addr)), k)
            == if offset <= k < offset + n then Split(op.value, n)[k - offset] else Lane(before, k)
  {
    EnabledLanes(op, k);
    MergeLane(before, StoreData(op.f, op.addr, op.value), StoreEnables(op.f, op.addr), k);
    if op.addr % 4 <= k < op.addr % 4 + Width(op.f) { StoredLane(op, k); }
  }

  lemma BytesAt(m: Memory, a: nat, i: nat, k: nat)
    requires i < DEPTH && k < 4 && a == 4 * i + k
    ensures Bytes(m)[a] == Lane(m[i], k)
  {
  }

  /** The array after a store. */
  function Stored(m: Memory, op: Op): Memory
    requires op.Store?
  {
    Written(m, op.addr, StoreData(op.f, op.addr, op.value), true, StoreEnables(op.f, op.addr))
  }

  /** A store in the word array is the store in the byte map it stands for. */
  lemma StoreRefines(m: Memory, op: Op)
    requires Aligned(op) && op.Store?
    ensures Bytes(Stored(m, op)) == Expected(Bytes(m), op).0
  {
    var i := Index(op.addr);
    var after := Stored(m, op);
    forall a | 0 <= a < SIZE ensures Bytes(after)[a] == Expected(Bytes(m), op).0[a] {
      Fits(op);
      if a / 4 == i { StoreLane(op, m[i], a % 4); }
    }
  }

  function Digits(b0: int, b1: int, b2: int, b3: int): int {
    b0 + 0x100 * (b1 + 0x100 * (b2 + 0x100 * b3))
  }

  lemma LoadedByte(f: Funct3, addr: Word, w: Word, raw: int)
    requires Aligned(Load(f, addr)) && Width(f) == 1 && raw == Lane(w, addr % 4)
    ensures LoadData(f, addr, w) == Wrap(if f == LB then SignExtend(raw, 1) else raw)
  {
  }

  lemma HalfLanes(w: Word)
    ensures w % 0x1_0000 == Digits(Lane(w, 0), Lane(w, 1), 0, 0)
    ensures w / 0x1_0000 == Digits(Lane(w, 2), Lane(w, 3), 0, 0)
  {
    HalfDigits(w);
    var u := w / 0x1_0000;
    assert Lane(w, 2) == u % 0x100 && Lane(w, 3) == u / 0x100 % 0x100;
  }

  lemma ExtendedHalf(f: Funct3, h: Word)
    requires h < 0x1_0000 && (f == LH || f == LHU)
    ensures Wrap(if f == LH then SignExtend(h, 2) else h) == if f == LH then SignHalf(h) else h
  {
  }

  lemma LoadedHalf(f: Funct3, addr: Word, w: Word, raw: int)
    requires Aligned(Load(f, addr)) && Width(f) == 2
    requires raw == if addr % 4 == 0 then w % 0x1_0000 else w / 0x1_0000
    ensures raw >= 0 && LoadData(f, addr, w) == Wrap(if f == LH then SignExtend(raw, 2) else raw)
  {
    ExtendedHalf(f, raw);
  }

  lemma LoadedWord(w: Word)
    ensures w == Digits(Lane(w, 0), Lane(w, 1), Lane(w, 2), Lane(w, 3))
  {
  }

  lemma OneDigit(b: seq<Octet>)
    requires |b| == 1
    ensures LittleEndian(b) == b[0]
  {
    assert LittleEndian(b) == b[0] + 0x100 * LittleEndian(b[1..]);
  }

  lemma TwoDigits(b: seq<Octet>)
    requires |b| == 2
    ensures LittleEndian(b) == Digits(b[0], b[1], 0, 0)
  {
    OneDigit(b[1..]);
    assert LittleEndian(b) == b[0] + 0x100 * LittleEndian(b[1..]);
  }

  lemma FourDigits(b: seq<Octet>)
    requires |b| == 4
    ensures LittleEndian(b) == Digits(b[0], b[1], b[2], b[3])
  {
    var c := b[1..];
    TwoDigits(c[1..]);
    assert LittleEndian(c) == c[0] + 0x100 * LittleEndian(c[1..]);
    assert LittleEndian(b) == b[0] + 0x100 * LittleEndian(c);
  }

  /** The byte lanes of a word that an access looks at. */
  function Lanes(w: Word, op: Op): (bytes: seq<Octet>)
    requires Aligned(op)
    ensures |bytes| == Width(op.f)
  {
    Fits(op);
    seq<Octet>(Width(op.f), j requires 0 <= j < Width(op.f) => Lane(w, op.addr % 4 + j))
  }

  /** The word around an address. */
  function WordAt(b: ByteMap, addr: Word): Word {
    var a := 4 * Index(addr);
    Join(b[a], b[a + 1], b[a + 2], b[a + 3])
  }

  lemma SameLanes(v: Word, w: Word)
    requires forall k | 0 <= k < 4 :: Lane(v, k) == Lane(w, k)
    ensures v == w
  {
    LoadedWord(v);
    LoadedWord(w);
  }

  lemma WordAtIs(m: Memory, addr: Word)
    ensures WordAt(Bytes(m), addr) == m[Index(addr)]
  {
    var i := Index(addr);
    forall k | 0 <= k < 4 ensures Lane(WordAt(Bytes(m), addr), k) == Lane(m[i], k) { BytesAt(m, 4 * i + k, i, k); }
    SameLanes(WordAt(Bytes(m), addr), m[i]);
  }

  lemma LaneOfWord(b: ByteMap, op: Op, j: nat)
    requires Aligned(op) && j < Width(op.f)
    ensures op.addr % SIZE + j < SIZE && op.addr % 4 + j < 4
    ensures Lane(WordAt(b, op.addr), op.addr % 4 + j) == b[op.addr % SIZE + j]
  {
    Fits(op);
  }

  lemma SliceIs(bytes: seq<Octet>, b: ByteMap, a: nat, n: nat)
    requires a + n <= SIZE && |bytes| == n && forall j | 0 <= j < n :: bytes[j] == b[a + j]
    ensures bytes == b[a..a + n]
  {
  }

  /** The addressed lanes of that word are the addressed bytes. */
  lemma LanesOfWord(b: ByteMap, op: Op, a: nat, n: nat)
    requires Aligned(op) && a == op.addr % SIZE && n == Width(op.f)
    ensures a + n <= SIZE && Lanes(WordAt(b, op.addr), op) == b[a..a + n]
  {
    Fits(op);
    var bytes := Lanes(WordAt(b, op.addr), op);
    forall j | 0 <= j < n ensures bytes[j] == b[a + j] { LaneOfWord(b, op, j); }
    SliceIs(bytes, b, a, n);
  }

  /** The memory stage extends the addressed lanes of the word as the load should. */
  lemma LoadExtends(f: Funct3, addr: Word, w: Word)
    requires Aligned(Load(f, addr))
    ensures LoadData(f, addr, w) == Extended(f, Lanes(w, Load(f, addr)))
  {
    var bytes := Lanes(w, Load(f, addr));
    if Width(f) == 1 {
      OneDigit(bytes);
      LoadedByte(f, addr, w, LittleEndian(bytes));
    } else if Width(f) == 2 {
      TwoDigits(bytes);
      HalfLanes(w);
      LoadedHalf(f, addr, w, LittleEndian(bytes));
    } else {
      FourDigits(bytes);
      LoadedWord(w);
    }
  }

  lemma LoadsBytes(b: ByteMap, op: Op, w: Word, a: nat, n: nat)
    requires Aligned(op) && op.Load? && a == op.addr % SIZE && n == Width(op.f) && w == WordAt(b, op.addr)
    ensures a + n <= SIZE && LoadData(op.f, op.addr, w) == Extended(op.f, b[a..a + n])
  {
    LanesOfWord(b, op, a, n);
    LoadExtends(op.f, op.addr, w);
  }

  /** A load reads from the word array what it would from the byte map. */
  lemma LoadRefines(m: Memory, op: Op)
    requires Aligned(op) && op.Load?
    ensures LoadData(op.f, op.addr, m[Index(op.addr)]) == Expected(Bytes(m), op).1
  {
    WordAtIs(m, op.addr);
    LoadsBytes(Bytes(m), op, m[Index(op.addr)], op.addr % SIZE, Width(op.f));
  }

  // ---------------------------------------------------------------------------------------------------
  // Every sequence of accesses
  // ---------------------------------------------------------------------------------------------------

  /** The memory block after a sequence of clock edges, and the memory stage's load data after each of them. */
  function Run(r: Ram, ops: seq<Op>): (Ram, seq<Word>)
    decreases |ops|
  {
    if ops == [] then (r, [])
    else
      var next := Edge(r, ops[0]);
      var (last, replies) := Run(next, ops[1..]);
      (last, [Reply(next, ops[0])] + replies)
  }

  function ExpectedAll(b: ByteMap, ops: seq<Op>): (ByteMap, seq<Word>)
    requires forall op | op in ops :: Aligned(op)
    decreases |ops|
  {
    if ops == [] then (b, [])
    else
      var (b', r) := Expected(b, ops[0]);
      var (b'', rs) := ExpectedAll(b', ops[1..]);
      (b'', [r] + rs)
  }

  lemma EdgeRefines(r: Ram, op: Op)
    requires Aligned(op)
    ensures Bytes(Edge(r, op).mem) == Expected(Bytes(r.mem), op).0
    ensures Reply(Edge(r, op), op) == Expected(Bytes(r.mem), op).1
  {
    if op.Store? { StoreRefines(r.mem, op); } else { LoadRefines(r.mem, op); }
  }

  /** Byte memory: whatever aligned loads and stores the memory stage presents on consecutive clock edges, holding
      each for as long as it likes, the loads return after their edge what a little-endian byte map would return,
      and the array ends up standing for the same byte map. */
  lemma {:induction false} MemoryIsByteMap(r: Ram, ops: seq<Op>)
    requires forall op | op in ops :: Aligned(op)
    ensures Bytes(Run(r, ops).0.mem) == ExpectedAll(Bytes(r.mem), ops).0
    ensures Run(r, ops).1 == ExpectedAll(Bytes(r.mem), ops).1
    decreases |ops|
  {
    if ops != [] {
      EdgeRefines(r, ops[0]);
      MemoryIsByteMap(Edge(r, ops[0]), ops[1..]);
    }
  }

  /** A byte that no store addresses never changes. */
  lemma {:induction false} UntouchedByte(r: Ram, ops: seq<Op>, a: nat)
    requires forall op | op in ops :: Aligned(op)
    requires a < SIZE && forall op | op in ops && op.Store? :: !(op.addr % SIZE <= a < op.addr % SIZE + Width(op.f))
    ensures Bytes(Run(r, ops).0.mem)[a] == Bytes(r.mem)[a]
    decreases |ops|
  {
    if ops != [] {
      var op := ops[0];
      EdgeRefines(r, op);
      UntouchedByte(Edge(r, op), ops[1..], a);
    }
  }
}
