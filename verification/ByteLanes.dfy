/** Word memory with byte enables, shifted store data and shift-and-extend loads
    behaves as a flat little-endian byte memory (section 2.6 of the RISC-V
    Unprivileged ISA 20191213) for accesses that do not cross a word boundary. */
module ByteLanes {
  import opened Isa
  import opened Rv32
  import opened Conformance
  import opened WordInts

  /** Byte number lane of a word. */
  function ByteOf(w: Word, lane: nat): Word
    requires lane < 4
  {
    if lane == 0 then w & 0xFF else if lane == 1 then (w >> 8) & 0xFF
    else if lane == 2 then (w >> 16) & 0xFF else w >> 24
  }

  /** Its bytes in order. */
  function LaneBytes(mem: Mem): (b: seq<Word>)
    ensures |b| == 4 * |mem|
  {
    seq(4 * |mem|, j requires 0 <= j < 4 * |mem| => ByteOf(mem[j / 4], j % 4))
  }

  function LaneOf(addr: Word): (n: nat)
    ensures n < 4
  {
    if Lane(addr) == 0 then 0 else if Lane(addr) == 1 then 1 else if Lane(addr) == 2 then 2 else 3
  }

  /** The byte address within the RAM. */
  function ByteIndex(addr: Word): (j: nat)
    ensures j < 4 * RAM_WORDS
  {
    4 * WordIndex(addr) + LaneOf(addr)
  }

  predicate IsStore(op: Op) { op.Sb? || op.Sh? || op.Sw? }

  /** The bytes of the access lie in one word: every naturally aligned access, and a
      halfword in the middle of a word. */
  predicate Fits(op: Op, addr: Word) {
    && (op.Sh? || op.Lh? || op.Lhu? ==> addr & 3 != 3)
    && (op.Sw? || op.Lw? ==> addr & 3 == 0)
  }

  // ---- Lanes as bytes ------------------------------------------------------------------

  function Width(op: Op): nat
    requires IsLoad(op) || IsStore(op)
  {
    match op
    case Lb | Lbu | Sb => 1
    case Lh | Lhu | Sh => 2
    case _ => 4
  }

  function LaneStore(op: Op, b: seq<Word>, j: nat, v: Word): (r: seq<Word>)
    requires IsStore(op) && j + Width(op) <= |b|
    ensures |r| == |b|
  {
    seq(|b|, i requires 0 <= i < |b| => if j <= i < j + Width(op) then ByteOf(v, i - j) else b[i])
  }

  /** Little-endian halfword and word. */
  function Half(b0: Word, b1: Word): Word { b0 | (b1 << 8) }
  function Whole(b0: Word, b1: Word, b2: Word, b3: Word): Word { b0 | (b1 << 8) | (b2 << 16) | (b3 << 24) }

  function LaneLoad(op: Op, b: seq<Word>, j: nat): Word
    requires IsLoad(op) && j + Width(op) <= |b|
  {
    match op
    case Lb => SignExtend(b[j], 0x80, 0xFFFF_FF00)
    case Lbu => b[j]
    case Lh => SignExtend(Half(b[j], b[j + 1]), 0x8000, 0xFFFF_0000)
    case Lhu => Half(b[j], b[j + 1])
    case _ => Whole(b[j], b[j + 1], b[j + 2], b[j + 3])
  }

  // ---- One access -------------------------------------------------------------------------

  function WordStore(op: Op, mem: Mem, addr: Word, v: Word): Mem {
    WriteWord(mem, addr, StoreData(v, addr), StoreMask(op, addr))
  }

  function WordLoad(op: Op, mem: Mem, addr: Word): Word { LoadValue(op, addr, ReadWord(mem, addr)) }

  lemma LaneFits(op: Op, addr: Word)
    requires (IsLoad(op) || IsStore(op)) && Fits(op, addr)
    ensures LaneOf(addr) + Width(op) <= 4
  {
  }

  lemma MergedByteSb(o: Word, addr: Word, v: Word, i: nat)
    requires i < 4
    ensures ByteOf(Merge(o, StoreData(v, addr), StoreMask(Sb, addr)), i)
      == if i == LaneOf(addr) then ByteOf(v, 0) else ByteOf(o, i)
  {
    if Lane(addr) == 0 {} else if Lane(addr) == 1 {} else if Lane(addr) == 2 {} else {}
  }

  lemma MergedByteSh(o: Word, addr: Word, v: Word, i: nat)
    requires i < 4 && addr & 3 != 3
    ensures ByteOf(Merge(o, StoreData(v, addr), StoreMask(Sh, addr)), i)
      == if LaneOf(addr) <= i < LaneOf(addr) + 2 then ByteOf(v, i - LaneOf(addr)) else ByteOf(o, i)
  {
    hide Merge, StoreData, StoreMask, ByteOf, Lane;
    HalfLane(addr);
    if Lane(addr) == 0 {
      LowHalf(o, addr, v, i);
    } else if Lane(addr) == 1 {
      MiddleHalf(o, addr, v, i);
    } else {
      HighHalf(o, addr, v, i);
    }
  }

  lemma LowLanes(addr: Word, v: Word)
    requires Lane(addr) == 0
    ensures LaneOf(addr) == 0 && StoreData(v, addr) == v && StoreMask(Sh, addr) == 3
  {
  }

  lemma MiddleLanes(addr: Word, v: Word)
    requires Lane(addr) == 1
    ensures LaneOf(addr) == 1 && StoreData(v, addr) == v << 8 && StoreMask(Sh, addr) == 6
  {
  }

  lemma HighLanes(addr: Word, v: Word)
    requires Lane(addr) == 2
    ensures LaneOf(addr) == 2 && StoreData(v, addr) == v << 16 && StoreMask(Sh, addr) == 12
  {
  }

  lemma OnLow()
    ensures LaneBits(3) == 0xFFFF
  {
  }

  lemma OnMiddle()
    ensures LaneBits(6) == 0xFF_FF00
  {
  }

  lemma OnHigh()
    ensures LaneBits(12) == 0xFFFF_0000
  {
  }

  lemma LowHalf(o: Word, addr: Word, v: Word, i: nat)
    requires i < 4 && Lane(addr) == 0
    ensures LaneOf(addr) == 0
    ensures ByteOf(Merge(o, StoreData(v, addr), StoreMask(Sh, addr)), i) == if i < 2 then ByteOf(v, i) else ByteOf(o, i)
  {
    hide LaneBits, StoreData, StoreMask, LaneOf, Lane;
    LowLanes(addr, v);
    OnLow();
  }

  lemma MiddleHalf(o: Word, addr: Word, v: Word, i: nat)
    requires i < 4 && Lane(addr) == 1
    ensures LaneOf(addr) == 1
    ensures ByteOf(Merge(o, StoreData(v, addr), StoreMask(Sh, addr)), i)
      == if i == 1 || i == 2 then ByteOf(v, i - 1) else ByteOf(o, i)
  {
    hide LaneBits, StoreData, StoreMask, LaneOf, Lane;
    MiddleLanes(addr, v);
    OnMiddle();
  }

  lemma HighHalf(o: Word, addr: Word, v: Word, i: nat)
    requires i < 4 && Lane(addr) == 2
    ensures LaneOf(addr) == 2
    ensures ByteOf(Merge(o, StoreData(v, addr), StoreMask(Sh, addr)), i)
      == if i < 2 then ByteOf(o, i) else ByteOf(v, i - 2)
  {
    hide LaneBits, StoreData, StoreMask, LaneOf, Lane;
    HighLanes(addr, v);
    OnHigh();
  }

  lemma HalfLane(addr: Word)
    requires addr & 3 != 3
    ensures Lane(addr) == 0 || Lane(addr) == 1 || Lane(addr) == 2
  {
  }

  lemma MergedByteSw(o: Word, addr: Word, v: Word, i: nat)
    requires i < 4 && addr & 3 == 0
    ensures LaneOf(addr) == 0
    ensures ByteOf(Merge(o, StoreData(v, addr), StoreMask(Sw, addr)), i) == ByteOf(v, i)
  {
    assert Lane(addr) == 0;
  }

  /** Each byte of the merged word is the stored byte of its lane or the old one. */
  lemma MergedByte(op: Op, o: Word, addr: Word, v: Word, i: nat)
    requires IsStore(op) && Fits(op, addr) && i < 4
    ensures ByteOf(Merge(o, StoreData(v, addr), StoreMask(op, addr)), i)
      == if LaneOf(addr) <= i < LaneOf(addr) + Width(op) then ByteOf(v, i - LaneOf(addr)) else ByteOf(o, i)
  {
    hide Merge, StoreData, StoreMask, ByteOf, LaneOf;
    if op.Sb? { MergedByteSb(o, addr, v, i); }
    else if op.Sh? { MergedByteSh(o, addr, v, i); }
    else { MergedByteSw(o, addr, v, i); }
  }

  lemma StoreIsLanes(op: Op, mem: Mem, addr: Word, v: Word)
    requires IsStore(op) && Fits(op, addr) && |mem| == RAM_WORDS
    ensures ByteIndex(addr) + Width(op) <= 4 * RAM_WORDS
    ensures LaneBytes(WordStore(op, mem, addr, v)) == LaneStore(op, LaneBytes(mem), ByteIndex(addr), v)
  {
    hide Merge, StoreData, StoreMask, WordIndex, ByteOf, LaneOf;
    LaneFits(op, addr);
    var w, l := WordIndex(addr), LaneOf(addr);
    var lhs, rhs := LaneBytes(WordStore(op, mem, addr, v)), LaneStore(op, LaneBytes(mem), ByteIndex(addr), v);
    forall j | 0 <= j < 4 * |mem|
      ensures lhs[j] == rhs[j]
    {
      if j / 4 == w {
        MergedByte(op, mem[w], addr, v, j % 4);
      }
    }
  }

  lemma BytesOfWord(raw: Word)
    ensures raw == Whole(ByteOf(raw, 0), ByteOf(raw, 1), ByteOf(raw, 2), ByteOf(raw, 3))
  {
  }

  lemma ShiftedByte(addr: Word, raw: Word)
    ensures Shifted(raw, addr) & 0xFF == ByteOf(raw, LaneOf(addr))
  {
    if Lane(addr) == 0 {} else if Lane(addr) == 1 {} else if Lane(addr) == 2 {} else {}
  }

  lemma ShiftedHalf(addr: Word, raw: Word)
    requires addr & 3 != 3
    ensures LaneOf(addr) + 2 <= 4
    ensures Shifted(raw, addr) & 0xFFFF == Half(ByteOf(raw, LaneOf(addr)), ByteOf(raw, LaneOf(addr) + 1))
  {
    HalfLane(addr);
    if Lane(addr) == 0 {} else if Lane(addr) == 1 {} else {}
  }

  function WordBytes(raw: Word): seq<Word> { [ByteOf(raw, 0), ByteOf(raw, 1), ByteOf(raw, 2), ByteOf(raw, 3)] }

  lemma LoadOfByte(op: Op, addr: Word, raw: Word)
    requires op.Lb? || op.Lbu?
    ensures LoadValue(op, addr, raw) == LaneLoad(op, WordBytes(raw), LaneOf(addr))
  {
    hide LaneOf, SignExtend, Shifted, Half, Whole, ByteOf;
    ShiftedByte(addr, raw);
  }

  lemma LoadOfHalf(op: Op, addr: Word, raw: Word)
    requires (op.Lh? || op.Lhu?) && addr & 3 != 3
    ensures LaneOf(addr) + 2 <= 4
    ensures LoadValue(op, addr, raw) == LaneLoad(op, WordBytes(raw), LaneOf(addr))
  {
    hide LaneOf, SignExtend, Shifted, Half, Whole, ByteOf;
    ShiftedHalf(addr, raw);
  }

  lemma LoadOfWord(op: Op, addr: Word, raw: Word)
    requires IsLoad(op) && Fits(op, addr)
    ensures LaneOf(addr) + Width(op) <= 4
    ensures LoadValue(op, addr, raw) == LaneLoad(op, WordBytes(raw), LaneOf(addr))
  {
    LaneFits(op, addr);
    if op.Lb? || op.Lbu? {
      LoadOfByte(op, addr, raw);
    } else if op.Lh? || op.Lhu? {
      LoadOfHalf(op, addr, raw);
    } else {
      hide LaneOf, ByteOf, Whole;
      AlignedLane(addr);
      BytesOfWord(raw);
    }
    hide LoadValue, LaneLoad;
  }

  lemma WordOfBytes(mem: Mem, w: nat)
    requires w < |mem|
    ensures LaneBytes(mem)[4 * w..4 * w + 4] == WordBytes(mem[w])
  {
    hide ByteOf;
  }

  lemma LoadIsLanes(op: Op, mem: Mem, addr: Word)
    requires IsLoad(op) && Fits(op, addr) && |mem| == RAM_WORDS
    ensures ByteIndex(addr) + Width(op) <= 4 * RAM_WORDS
    ensures WordLoad(op, mem, addr) == LaneLoad(op, LaneBytes(mem), ByteIndex(addr))
  {
    hide LaneBytes, WordIndex, LaneOf, SignExtend, Half, Whole, WordBytes, LoadValue, LaneLoad, Fits;
    var w := WordIndex(addr);
    LoadOfWord(op, addr, mem[w]);
    WordOfBytes(mem, w);
    LaneLoadLocal(op, LaneBytes(mem), 4 * w, LaneOf(addr));
  }

  lemma LaneLoadLocal(op: Op, b: seq<Word>, base: nat, lane: nat)
    requires IsLoad(op) && lane + Width(op) <= 4 && base + 4 <= |b|
    ensures LaneLoad(op, b, base + lane) == LaneLoad(op, b[base..base + 4], lane)
  {
    hide SignExtend, Half, Whole;
  }

  lemma AlignedLane(addr: Word)
    requires addr & 3 == 0
    ensures LaneOf(addr) == 0
  {
  }

  // ---- Bytes as numbers -------------------------------------------------------------------------

  /** Byte i of a number, from the least significant. */
  function Byte(n: int, i: nat): (b: int)
    requires i < 4
    ensures 0 <= b < 256
  {
    (if i == 0 then n else if i == 1 then n / 0x100 else if i == 2 then n / 0x1_0000 else n / 0x100_0000) % 256
  }

  lemma BytesOfSum(b0: int, b1: int, b2: int, b3: int)
    requires 0 <= b0 < 256 && 0 <= b1 < 256 && 0 <= b2 < 256 && 0 <= b3 < 256
    ensures var n := 0x1_0000 * (0x100 * b3 + b2) + (0x100 * b1 + b0);
      Byte(n, 0) == b0 && Byte(n, 1) == b1 && Byte(n, 2) == b2 && Byte(n, 3) == b3
  {
  }

  function LaneByte(w: Word, i: nat): bv8
    requires i < 4
  {
    if i == 0 then Lo16(Lo32(w)) else if i == 1 then Hi16(Lo32(w)) else if i == 2 then Lo16(Hi32(w)) else Hi16(Hi32(w))
  }

  function Widened(x: bv8): Word { x as Word }

  lemma WidenedInt(x: bv8)
    ensures Int32(Widened(x)) == Int8(x)
  {
  }

  lemma ByteIsLane(w: Word, i: nat)
    requires i < 4
    ensures ByteOf(w, i) == Widened(LaneByte(w, i))
  {
    if i == 0 {} else if i == 1 {} else if i == 2 {} else {}
  }

  lemma WordOfLanes(w: Word)
    ensures Int32(w) == 0x1_0000 * (0x100 * Int8(LaneByte(w, 3)) + Int8(LaneByte(w, 2)))
      + (0x100 * Int8(LaneByte(w, 1)) + Int8(LaneByte(w, 0)))
  {
    hide Int32, Int16, Int8, Hi32, Lo32, Hi16, Lo16;
    Halves32(w);
    Halves16(Hi32(w));
    Halves16(Lo32(w));
  }

  lemma ByteOfValue(w: Word, i: nat)
    requires i < 4
    ensures Int32(ByteOf(w, i)) == Byte(Int32(w), i)
  {
    hide ByteOf, Int32, Int8, LaneByte, Widened, Byte;
    ByteIsLane(w, i);
    WidenedInt(LaneByte(w, i));
    WordOfLanes(w);
    Bounds8(LaneByte(w, 0));
    Bounds8(LaneByte(w, 1));
    Bounds8(LaneByte(w, 2));
    Bounds8(LaneByte(w, 3));
    BytesOfSum(Int8(LaneByte(w, 0)), Int8(LaneByte(w, 1)), Int8(LaneByte(w, 2)), Int8(LaneByte(w, 3)));
  }

  // ---- The flat memory --------------------------------------------------------------------------

  /** The byte memory that a word memory stands for: byte j % 4 of word j / 4. */
  function Bytes(mem: Mem): (b: seq<int>)
    ensures |b| == 4 * |mem|
  {
    seq(4 * |mem|, j requires 0 <= j < 4 * |mem| => Byte(mem[j / 4] as int, j % 4))
  }

  /** The low bytes of v from j on. */
  function FlatStore(op: Op, b: seq<int>, j: nat, v: int): (r: seq<int>)
    requires IsStore(op) && j + Width(op) <= |b|
    ensures |r| == |b|
  {
    seq(|b|, i requires 0 <= i < |b| => if j <= i < j + Width(op) then Byte(v, i - j) else b[i])
  }

  /** A number below n read as two's complement. */
  function Negative(x: int, n: int): int { if x >= n / 2 then x - n else x }

  /** The value a load gets from the bytes at j, little-endian. */
  function FlatLoad(op: Op, b: seq<int>, j: nat): int
    requires IsLoad(op) && j + Width(op) <= |b|
  {
    match op
    case Lb => Negative(b[j], 0x100)
    case Lbu => b[j]
    case Lh => Negative(b[j] + 0x100 * b[j + 1], 0x1_0000)
    case Lhu => b[j] + 0x100 * b[j + 1]
    case _ => b[j] + 0x100 * b[j + 1] + 0x1_0000 * b[j + 2] + 0x100_0000 * b[j + 3]
  }

  /** An address within the RAM of 16 KB, which repeats beyond it. */
  function RamAddress(addr: Word): nat { Int32(addr) % 0x4000 }

  function AddrHigh(a: Word): bv18 { (a >> 14) as bv18 }
  function AddrWord(a: Word): bv12 { ((a >> 2) & 0xFFF) as bv12 }
  function AddrLane(a: Word): bv2 { (a & 3) as bv2 }
  function JoinAddress(h: bv18, m: bv12, l: bv2): Word { ((h as Word) << 14) | ((m as Word) << 2) | (l as Word) }
  function High(h: bv18): int { h as int }
  function Middle(m: bv12): int { m as int }
  function Low(l: bv2): int { l as int }

  lemma JoinAddressInt(h: bv18, m: bv12, l: bv2)
    ensures Int32(JoinAddress(h, m, l)) == 0x4000 * High(h) + 4 * Middle(m) + Low(l)
  {
  }

  lemma AddressParts(a: Word)
    ensures a == JoinAddress(AddrHigh(a), AddrWord(a), AddrLane(a))
  {
  }

  lemma AddressNumbers(a: Word)
    ensures WordIndex(a) == Middle(AddrWord(a)) < 0x1000 && LaneOf(a) == Low(AddrLane(a)) < 4 && 0 <= High(AddrHigh(a))
  {
  }

  /** The RAM's word and lane are those of the byte address. */
  lemma ByteIndexIs(addr: Word)
    ensures ByteIndex(addr) == RamAddress(addr)
  {
    hide WordIndex, LaneOf, High, Middle, Low, JoinAddress, AddrHigh, AddrWord, AddrLane;
    AddressParts(addr);
    AddressNumbers(addr);
    JoinAddressInt(AddrHigh(addr), AddrWord(addr), AddrLane(addr));
  }

  // ---- Loads and stores on the flat memory ---------------------------------------------------------

  function JoinExtended(x: bv8): Word { 0xFFFF_FF00 | (x as Word) }

  lemma JoinExtendedInt(x: bv8)
    ensures Int32(JoinExtended(x)) == 0xFFFF_FF00 + Int8(x)
  {
  }

  lemma SignOfByte(x: bv8)
    ensures SignExtend(Widened(x), 0x80, 0xFFFF_FF00) == if x < 0x80 then Widened(x) else JoinExtended(x)
    ensures x < 0x80 <==> Int8(x) < 0x80
  {
  }

  lemma ByteExtended(x: bv8)
    ensures Int32(SignExtend(Widened(x), 0x80, 0xFFFF_FF00)) == Negative(Int8(x), 0x100) % TWO32
  {
    hide SignExtend, Widened, JoinExtended, Int32, Int8;
    SignOfByte(x);
    WidenedInt(x);
    JoinExtendedInt(x);
    Bounds8(x);
  }

  function Widened16(x: bv16): Word { x as Word }
  function JoinExtended16(x: bv16): Word { 0xFFFF_0000 | (x as Word) }

  lemma Widened16Int(x: bv16)
    ensures Int32(Widened16(x)) == Int16(x) && Int32(JoinExtended16(x)) == 0xFFFF_0000 + Int16(x)
  {
  }

  lemma HalfIs(x: bv8, y: bv8)
    ensures Half(Widened(x), Widened(y)) == Widened16(Join16(y, x))
  {
  }

  lemma SignOfHalf(x: bv16)
    ensures SignExtend(Widened16(x), 0x8000, 0xFFFF_0000) == if Hi16(x) < 0x80 then Widened16(x) else JoinExtended16(x)
  {
  }

  lemma HighOf(x: bv8, y: bv8)
    ensures Hi16(Join16(y, x)) == y && (y < 0x80 <==> Int8(y) < 0x80)
  {
  }

  lemma HalfValue(x: bv8, y: bv8)
    ensures Int32(Half(Widened(x), Widened(y))) == Int8(x) + 0x100 * Int8(y)
  {
    hide Half, Widened, Widened16, Int32, Int16, Int8, Join16;
    HalfIs(x, y);
    Widened16Int(Join16(y, x));
    Join16Int(y, x);
  }

  lemma HalfExtended(x: bv8, y: bv8)
    ensures Int32(SignExtend(Half(Widened(x), Widened(y)), 0x8000, 0xFFFF_0000))
      == Negative(Int8(x) + 0x100 * Int8(y), 0x1_0000) % TWO32
  {
    hide SignExtend, Half, Widened, Widened16, JoinExtended16, Int32, Int16, Int8, Join16, Hi16;
    HalfIs(x, y);
    SignOfHalf(Join16(y, x));
    HighOf(x, y);
    Widened16Int(Join16(y, x));
    Join16Int(y, x);
    Bounds8(x);
    Bounds8(y);
  }

  lemma WholeIs(a: bv8, b: bv8, c: bv8, d: bv8)
    ensures Whole(Widened(a), Widened(b), Widened(c), Widened(d)) == Join32(Join16(d, c), Join16(b, a))
  {
  }

  lemma WholeValue(a: bv8, b: bv8, c: bv8, d: bv8)
    ensures Int32(Whole(Widened(a), Widened(b), Widened(c), Widened(d)))
      == Int8(a) + 0x100 * Int8(b) + 0x1_0000 * Int8(c) + 0x100_0000 * Int8(d)
  {
    hide Whole, Widened, Int32, Int16, Int8, Join16, Join32;
    WholeIs(a, b, c, d);
    Join32Int(Join16(d, c), Join16(b, a));
    Join16Int(d, c);
    Join16Int(b, a);
  }

  /** The memory as bytes. */
  function Cells(mem: Mem): (b: seq<bv8>)
    ensures |b| == 4 * |mem|
  {
    seq(4 * |mem|, j requires 0 <= j < 4 * |mem| => LaneByte(mem[j / 4], j % 4))
  }

  lemma CellsAre(mem: Mem, j: nat)
    requires j < 4 * |mem|
    ensures LaneBytes(mem)[j] == Widened(Cells(mem)[j]) && Bytes(mem)[j] == Int8(Cells(mem)[j])
  {
    var w := mem[j / 4];
    assert Bytes(mem)[j] == Byte(Int32(w), j % 4);
    hide LaneByte, Widened, ByteOf, Int8, Int32, Byte;
    ByteIsLane(w, j % 4);
    ByteOfValue(w, j % 4);
    WidenedInt(LaneByte(w, j % 4));
  }

  lemma ByteLoaded(op: Op, mem: Mem, j: nat)
    requires IsLoad(op) && Width(op) == 1 && j + 1 <= 4 * |mem|
    ensures Int32(LaneLoad(op, LaneBytes(mem), j)) == FlatLoad(op, Bytes(mem), j) % TWO32
  {
    hide LaneBytes, Bytes, Cells, Widened, Int8, Int32, SignExtend, Negative;
    var c := Cells(mem);
    CellsAre(mem, j);
    Bounds8(c[j]);
    ByteExtended(c[j]);
    WidenedInt(c[j]);
  }

  lemma HalfLoaded(op: Op, mem: Mem, j: nat)
    requires IsLoad(op) && Width(op) == 2 && j + 2 <= 4 * |mem|
    ensures Int32(LaneLoad(op, LaneBytes(mem), j)) == FlatLoad(op, Bytes(mem), j) % TWO32
  {
    hide LaneBytes, Bytes, Cells, Widened, Int8, Int32, SignExtend, Half, Negative;
    var c := Cells(mem);
    CellsAre(mem, j);
    CellsAre(mem, j + 1);
    Bounds8(c[j]);
    Bounds8(c[j + 1]);
    HalfValue(c[j], c[j + 1]);
    HalfExtended(c[j], c[j + 1]);
  }

  lemma WordLoaded(mem: Mem, j: nat)
    requires j + 4 <= 4 * |mem|
    ensures Int32(LaneLoad(Lw, LaneBytes(mem), j)) == FlatLoad(Lw, Bytes(mem), j) % TWO32
  {
    hide LaneBytes, Bytes, Cells, Widened, Int8, Int32, Whole;
    var c := Cells(mem);
    CellsAre(mem, j);
    CellsAre(mem, j + 1);
    CellsAre(mem, j + 2);
    CellsAre(mem, j + 3);
    Bounds8(c[j]);
    Bounds8(c[j + 1]);
    Bounds8(c[j + 2]);
    Bounds8(c[j + 3]);
    WholeValue(c[j], c[j + 1], c[j + 2], c[j + 3]);
  }

  lemma NumberLoaded(op: Op, mem: Mem, j: nat)
    requires IsLoad(op) && j + Width(op) <= 4 * |mem|
    ensures Int32(LaneLoad(op, LaneBytes(mem), j)) == FlatLoad(op, Bytes(mem), j) % TWO32
  {
    hide LaneBytes, Bytes, Int32, LaneLoad, FlatLoad;
    if Width(op) == 1 {
      ByteLoaded(op, mem, j);
    } else if Width(op) == 2 {
      HalfLoaded(op, mem, j);
    } else {
      WordLoaded(mem, j);
    }
  }

  /** A load returns its bytes' value, signed or not as its mnemonic says. */
  lemma LoadIsFlat(op: Op, mem: Mem, addr: Word)
    requires IsLoad(op) && Fits(op, addr) && |mem| == RAM_WORDS
    ensures RamAddress(addr) + Width(op) <= 4 * RAM_WORDS
    ensures WordLoad(op, mem, addr) == WordOf(FlatLoad(op, Bytes(mem), RamAddress(addr)))
  {
    hide LaneBytes, Bytes, Int32, LaneLoad, FlatLoad, ByteIndex, RamAddress, WordLoad, WordOf, Fits;
    LoadIsLanes(op, mem, addr);
    ByteIndexIs(addr);
    NumberLoaded(op, mem, ByteIndex(addr));
    WordOfIs(WordLoad(op, mem, addr), FlatLoad(op, Bytes(mem), ByteIndex(addr)));
  }

  /** A store changes exactly its bytes, to the low bytes of the value. */
  lemma StoreIsFlat(op: Op, mem: Mem, addr: Word, v: Word)
    requires IsStore(op) && Fits(op, addr) && |mem| == RAM_WORDS
    ensures RamAddress(addr) + Width(op) <= 4 * RAM_WORDS
    ensures Bytes(WordStore(op, mem, addr, v)) == FlatStore(op, Bytes(mem), RamAddress(addr), Int32(v))
  {
    hide LaneBytes, Bytes, Cells, Widened, Int8, Int32, ByteIndex, RamAddress, WordStore, Fits, ByteOf, Byte;
    StoreIsLanes(op, mem, addr, v);
    ByteIndexIs(addr);
    var after := WordStore(op, mem, addr, v);
    SameSize(op, mem, addr, v);
    var lhs, rhs := Bytes(after), FlatStore(op, Bytes(mem), RamAddress(addr), Int32(v));
    forall j | 0 <= j < 4 * |mem| ensures lhs[j] == rhs[j] {
      StoredCell(op, mem, after, ByteIndex(addr), v, j);
    }
  }

  lemma SameSize(op: Op, mem: Mem, addr: Word, v: Word)
    ensures |WordStore(op, mem, addr, v)| == |mem|
  {
    hide WordIndex, Merge, StoreData, StoreMask;
  }

  lemma CellIs(mem: Mem, j: nat)
    requires j < 4 * |mem|
    ensures Int32(LaneBytes(mem)[j]) == Bytes(mem)[j]
  {
    hide LaneBytes, Bytes, Cells, Widened, Int8, Int32;
    CellsAre(mem, j);
    WidenedInt(Cells(mem)[j]);
  }

  lemma StoredCell(op: Op, mem: Mem, after: Mem, at: nat, v: Word, j: nat)
    requires IsStore(op) && at + Width(op) <= 4 * |mem| && |after| == |mem| && j < 4 * |mem|
    requires LaneBytes(after) == LaneStore(op, LaneBytes(mem), at, v)
    ensures Bytes(after)[j] == FlatStore(op, Bytes(mem), at, Int32(v))[j]
  {
    hide LaneBytes, Bytes, Int32, ByteOf, Byte;
    CellIs(mem, j);
    CellIs(after, j);
    if at <= j < at + Width(op) { ByteOfValue(v, j - at); }
  }

  // ---- Any sequence of accesses ---------------------------------------------------------------

  datatype Access = Load(op: Op, addr: Word) | Store(op: Op, addr: Word, v: Word)

  predicate Legal(a: Access) {
    Fits(a.op, a.addr) && (if a.Load? then IsLoad(a.op) else IsStore(a.op))
  }

  /** The word memory after a sequence of accesses, and what its loads return. */
  function WordRun(mem: Mem, accs: seq<Access>): (Mem, seq<Word>) {
    if accs == [] then (mem, [])
    else
      var (m, out) := WordRun(mem, accs[..|accs| - 1]);
      var a := accs[|accs| - 1];
      if a.Load? then (m, out + [WordLoad(a.op, m, a.addr)]) else (WordStore(a.op, m, a.addr, a.v), out)
  }

  predicate InRange(b: seq<int>, a: Access) {
    (IsLoad(a.op) || IsStore(a.op)) && RamAddress(a.addr) + Width(a.op) <= |b|
  }

  function FlatRun(b: seq<int>, accs: seq<Access>): (r: (seq<int>, seq<Word>))
    requires forall j :: 0 <= j < |accs| ==> Legal(accs[j]) && InRange(b, accs[j])
    ensures |r.0| == |b|
  {
    if accs == [] then (b, [])
    else
      var (m, out) := FlatRun(b, accs[..|accs| - 1]);
      var a := accs[|accs| - 1];
      assert Legal(a) && InRange(b, a);
      if a.Load? then (m, out + [WordOf(FlatLoad(a.op, m, RamAddress(a.addr)))])
      else (FlatStore(a.op, m, RamAddress(a.addr), Int32(a.v)), out)
  }

  lemma LegalInRange(a: Access)
    requires Legal(a)
    ensures RamAddress(a.addr) + Width(a.op) <= 4 * RAM_WORDS
  {
    LaneFits(a.op, a.addr);
    ByteIndexIs(a.addr);
    hide LaneOf, WordIndex, RamAddress;
  }

  /** Over any sequence of accesses within words the loads return what the
      byte memory returns, and the memory stays the same memory. */
  lemma {:induction false} LanesRefineBytes(mem: Mem, accs: seq<Access>)
    requires |mem| == RAM_WORDS && forall j :: 0 <= j < |accs| ==> Legal(accs[j])
    ensures forall j :: 0 <= j < |accs| ==> InRange(Bytes(mem), accs[j])
    ensures |WordRun(mem, accs).0| == RAM_WORDS
    ensures FlatRun(Bytes(mem), accs) == (Bytes(WordRun(mem, accs).0), WordRun(mem, accs).1)
  {
    hide Bytes, RamAddress, FlatLoad, FlatStore, WordLoad, WordStore, Fits, Width, WordOf;
    forall j | 0 <= j < |accs| ensures InRange(Bytes(mem), accs[j]) { LegalInRange(accs[j]); }
    if accs != [] {
      LanesRefineBytes(mem, accs[..|accs| - 1]);
      var a := accs[|accs| - 1];
      var m := WordRun(mem, accs[..|accs| - 1]).0;
      if a.Load? { LoadIsFlat(a.op, m, a.addr); } else { StoreIsFlat(a.op, m, a.addr, a.v); }
    }
  }
}
