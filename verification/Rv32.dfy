/** The datapath of the RTL: the decoder's two casez blocks, the immediates, the
    ALU, the branch unit and the byte lanes, on 32-bit vectors. */
module Rv32 {
  import opened Isa

  // ---- Decode --------------------------------------------------------------------------

  predicate Neg(w: Word) { w & 0x8000_0000 != 0 }

  function Field5(w: Word): (r: Reg) { ((w & 0x1F) as bv5) as nat }

  function Field12(w: Word): (a: CsrAddr) { ((w & 0xFFF) as bv12) as nat }

  /** instr[6:2], which selects the format. */
  function Major(w: Word): Word { (w >> 2) & 0x1F }

  predicate IsU(w: Word) { Major(w) == 0x05 || Major(w) == 0x0D }
  predicate IsI(w: Word) {
    Major(w) == 0x00 || Major(w) == 0x01 || Major(w) == 0x04 || Major(w) == 0x06 || Major(w) == 0x19
  }
  predicate IsR(w: Word) { Major(w) == 0x0B || Major(w) == 0x0C || Major(w) == 0x0E || Major(w) == 0x14 }
  predicate IsS(w: Word) { Major(w) == 0x08 || Major(w) == 0x09 }
  predicate IsB(w: Word) { Major(w) == 0x18 }
  predicate IsJ(w: Word) { Major(w) == 0x1B }
  predicate IsSystem(w: Word) { Major(w) == 0x1C }

  /** The fields of an immediate put together. */
  function Join(x: Word, y: Word, z: Word, sign: Word): Word { x | y | z | sign }

  /** Copies of the sign bit above the fields. */
  function Fill(w: Word, mask: Word): Word { if Neg(w) then mask else 0 }

  function ImmI(w: Word): Word { Join(w >> 20, 0, 0, Fill(w, 0xFFFF_F000)) }
  function ImmS(w: Word): Word { Join((w >> 20) & 0xFE0, (w >> 7) & 0x1F, 0, Fill(w, 0xFFFF_F000)) }
  function ImmU(w: Word): Word { w & 0xFFFF_F000 }
  function ImmB(w: Word): Word {
    Join((w << 4) & 0x800, (w >> 20) & 0x7E0, (w >> 7) & 0x1E, Fill(w, 0xFFFF_F000))
  }
  function ImmJ(w: Word): Word { Join(w & 0xFF000, (w >> 9) & 0x800, (w >> 20) & 0x7FE, Fill(w, 0xFFF0_0000)) }

  function Imm(w: Word): Word {
    if IsI(w) then ImmI(w)
    else if IsS(w) then ImmS(w)
    else if IsU(w) then ImmU(w)
    else if IsB(w) then ImmB(w)
    else if IsJ(w) then ImmJ(w)
    else 0
  }

  /** opcode, funct3, instr[30] and instr[25]: the bits the casez looks at. */
  function DecodeOp(opcode: int, f3: int, b30: bool, b25: bool, csr: int): Op {
    if opcode == 0x37 then Lui
    else if opcode == 0x17 then Auipc
    else if opcode == 0x6F then Jal
    else if opcode == 0x67 then Jalr
    else if opcode == 0x63 then
      if f3 == 0 then Beq else if f3 == 1 then Bne else if f3 == 4 then Blt
      else if f3 == 5 then Bge else if f3 == 6 then Bltu else if f3 == 7 then Bgeu else Undecoded
    else if opcode == 0x13 then
      if f3 == 0 then Addi else if f3 == 2 then Slti else if f3 == 3 then Sltiu
      else if f3 == 4 then Xori else if f3 == 6 then Ori else if f3 == 7 then Andi
      else if f3 == 1 then (if b30 then Undecoded else Slli)
      else (if b30 then Srai else Srli)
    else if opcode == 0x33 then
      if !b25 then
        if f3 == 0 then (if b30 then Sub else Add)
        else if f3 == 5 then (if b30 then Sra else Srl)
        else if b30 then Undecoded
        else if f3 == 1 then Sll else if f3 == 2 then Slt else if f3 == 3 then Sltu
        else if f3 == 4 then Xor else if f3 == 6 then Or else And
      else if b30 then Undecoded
      else if f3 == 0 then Mul else if f3 == 1 then Mulh else if f3 == 2 then Mulhsu
      else if f3 == 3 then Mulhu else Undecoded
    else if opcode == 0x03 then
      if f3 == 0 then Lb else if f3 == 1 then Lh else if f3 == 2 then Lw
      else if f3 == 4 then Lbu else if f3 == 5 then Lhu else Undecoded
    else if opcode == 0x23 then
      if f3 == 0 then Sb else if f3 == 1 then Sh else if f3 == 2 then Sw else Undecoded
    else if opcode == 0x73 then
      if f3 == 1 then Csrrw else if f3 == 2 then Csrrs else if f3 == 3 then Csrrc
      else if f3 == 5 then Csrrwi else if f3 == 6 then Csrrsi else if f3 == 7 then Csrrci
      else if f3 == 0 then
        if csr == 0 then Ecall else if csr == 1 then Ebreak else if csr == 0x302 then Mret else Undecoded
      else Undecoded
    else Undecoded
  }

  function OpOf(w: Word): Op {
    DecodeOp((w & 0x7F) as int, ((w >> 12) & 7) as int, w & 0x4000_0000 != 0, w & 0x0200_0000 != 0, (w >> 20) as int)
  }

  function Decode(w: Word): Instr {
    var op := OpOf(w);
    Instr(op, IsS(w),
          IsR(w) || IsI(w) || IsU(w) || IsJ(w) || IsCsr(op),
          IsR(w) || IsS(w) || IsB(w) || IsI(w) || (IsSystem(w) && !IsCsrImm(op)),
          IsR(w) || IsS(w) || IsB(w),
          Field5(w >> 7), Field5(w >> 15), Field5(w >> 20),
          Imm(w), (w >> 15) & 0x1F, Field12(w >> 20))
  }

  // ---- ALU ------------------------------------------------------------------------------

  function Shl(a: Word, n: Word): Word { if n < 32 then a << n else 0 }
  function Shr(a: Word, n: Word): Word { if n < 32 then a >> n else 0 }

  /** High word of the 64-bit sign extension. */
  function SignWord(a: Word): Word { if Neg(a) then 0xFFFF_FFFF else 0 }

  /** Low word of the 64-bit value {hi, lo} shifted right logically by n. */
  function Shr64Low(hi: Word, lo: Word, n: Word): Word
    requires n < 32
  {
    if n == 0 then lo else (lo >> n) | (hi << (32 - n))
  }

  /** The sign-extended source shifted right logically, then truncated. */
  function Sra64(a: Word, n: Word): Word { Shr64Low(SignWord(a), a, n & 0x1F) }

  function Flag(b: bool): Word { if b then 1 else 0 }

  /** Signed comparison from the unsigned one and the two sign bits. */
  function SetLess(a: Word, b: Word): Word { if Neg(a) == Neg(b) then Flag(a < b) else Flag(Neg(a)) }

  const TWO32: int := 0x1_0000_0000
  const TWO64: int := 0x1_0000_0000_0000_0000

  /** A 64-bit operand as the multiplier sees it: sign- or zero-extended. */
  function Extend(a: Word, signed: bool): int {
    if signed && Neg(a) then TWO64 - TWO32 + a as int else a as int
  }

  function Product(a: Word, aSigned: bool, b: Word, bSigned: bool): (r: int)
    ensures 0 <= r < TWO64
  {
    (Extend(a, aSigned) * Extend(b, bSigned)) % TWO64
  }

  function LowWord(x: int): Word { (x % TWO32) as Word }
  function HighWord(x: int): Word { (x / TWO32 % TWO32) as Word }

  function Alu(op: Op, isStore: bool, a: Word, b: Word, imm: Word, pc: Word): Word {
    match op
    case Andi => a & imm
    case Ori => a | imm
    case Xori => a ^ imm
    case Addi => Sum(a, imm)
    case Slli => Shl(a, imm & 0x3F)
    case Srli => Shr(a, imm & 0x3F)
    case And => a & b
    case Or => a | b
    case Xor => a ^ b
    case Add => Sum(a, b)
    case Sub => a - b
    case Sll => Shl(a, b & 0x1F)
    case Srl => Shr(a, b & 0x1F)
    case Sltu => Flag(a < b)
    case Sltiu => Flag(a < imm)
    case Lui => imm & 0xFFFF_F000
    case Auipc => Sum(pc, imm)
    case Jal => Sum(pc, 4)
    case Jalr => Sum(pc, 4)
    case Slt => SetLess(a, b)
    case Slti => SetLess(a, imm)
    case Sra => Sra64(a, b)
    case Srai => Sra64(a, imm)
    case Mul => LowWord(Product(a, true, b, true))
    case Mulh => HighWord(Product(a, true, b, true))
    case Mulhsu => HighWord(Product(a, true, b, false))
    case Mulhu => HighWord(Product(a, false, b, false))
    case _ => if IsLoad(op) || isStore then Sum(a, imm) else 0
  }

  predicate Taken(op: Op, a: Word, b: Word) {
    match op
    case Beq => a == b
    case Bne => a != b
    case Blt => (a < b) != (Neg(a) != Neg(b))
    case Bge => (a >= b) != (Neg(a) != Neg(b))
    case Bltu => a < b
    case Bgeu => a >= b
    case _ => false
  }

  function CsrNew(kind: CsrKind, old_: Word, operand: Word): Word {
    match kind
    case RW => operand
    case RS => old_ | operand
    case RC => old_ & !operand
  }

  // ---- Byte lanes and memory ---------------------------------------------------------------

  function Lane(addr: Word): Word { addr & 3 }

  function StoreData(v: Word, addr: Word): Word { v << (8 * Lane(addr)) }

  function StoreMask(op: Op, addr: Word): bv4 {
    var off := Lane(addr);
    match op
    case Sb => (1 as bv4) << off
    case Sh => (3 as bv4) << off
    case Sw => 15
    case _ => 0
  }

  /** ld_shifted: the addressed byte moved down to bits 7..0. */
  function Shifted(raw: Word, addr: Word): Word { raw >> (8 * Lane(addr)) }

  /** Sign extension of the byte or halfword in the low bits. */
  function SignExtend(x: Word, signBit: Word, fill: Word): Word { if x & signBit != 0 then x | fill else x }

  function LoadValue(op: Op, addr: Word, raw: Word): Word {
    match op
    case Lb => SignExtend(Shifted(raw, addr) & 0xFF, 0x80, 0xFFFF_FF00)
    case Lh => SignExtend(Shifted(raw, addr) & 0xFFFF, 0x8000, 0xFFFF_0000)
    case Lbu => Shifted(raw, addr) & 0xFF
    case Lhu => Shifted(raw, addr) & 0xFFFF
    case _ => raw
  }

  /** addr[13:2], the RAM's word address. */
  function WordIndex(addr: Word): (i: nat)
    ensures i < RAM_WORDS
  {
    (((addr >> 2) & 0xFFF) as bv12) as nat
  }

  /** The bits of one byte lane, if it is enabled. */
  function Enabled(on: bool, lane: Word): Word { if on then lane else 0 }

  predicate On(be: bv4, bit: bv4) { be & bit != 0 }

  /** The bits of the enabled byte lanes. */
  function LaneBits(be: bv4): Word {
    Both(Both(Enabled(On(be, 1), 0xFF), Enabled(On(be, 2), 0xFF00)),
         Both(Enabled(On(be, 4), 0xFF_0000), Enabled(On(be, 8), 0xFF00_0000)))
  }

  function Both(a: Word, b: Word): Word { a | b }

  /** The masked bits of w replaced by those of v. */
  function SetBits(w: Word, v: Word, mask: Word): Word { (w & !mask) | (v & mask) }

  /** Each set bit of the byte enable overwrites its byte lane. */
  function Merge(old_: Word, v: Word, be: bv4): Word { SetBits(old_, v, LaneBits(be)) }

  function ReadWord(mem: Mem, addr: Word): Word {
    if WordIndex(addr) < |mem| then mem[WordIndex(addr)] else 0
  }

  function WriteWord(mem: Mem, addr: Word, v: Word, be: bv4): (r: Mem)
    ensures |r| == |mem|
  {
    if WordIndex(addr) < |mem| then mem[WordIndex(addr) := Merge(mem[WordIndex(addr)], v, be)] else mem
  }

  function Sum(a: Word, b: Word): Word { a + b }

  function Core(): Datapath {
    Datapath((a, b) => Sum(a, b), (k, o, v) => CsrNew(k, o, v), w => Decode(w),
             (op, s, a, b, i, pc) => Alu(op, s, a, b, i, pc), (op, a, b) => Taken(op, a, b),
             (v, a) => StoreData(v, a), (op, a) => StoreMask(op, a), (op, a, r) => LoadValue(op, a, r),
             (m, a) => ReadWord(m, a), (m, a, v, be) => WriteWord(m, a, v, be))
  }
}
