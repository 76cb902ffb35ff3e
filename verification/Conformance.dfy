/** The RTL datapath is lawful, and it implements the RISC-V Unprivileged ISA
    20191213: immediates (section 2.3), integer operations (section 2.4),
    branches (section 2.5) and multiplication (section 7.1). */
module Conformance {
  import opened Isa
  import opened Rv32
  import opened Soc

  // ---- The datapath is lawful -----------------------------------------------------------

  predicate ReadsBoth(op: Op) {
    || IsBranch(op) || op.Sb? || op.Sh? || op.Sw?
    || op.Add? || op.Sub? || op.Sll? || op.Slt? || op.Sltu? || op.Xor? || op.Srl? || op.Sra? || op.Or? || op.And?
    || op.Mul? || op.Mulh? || op.Mulhsu? || op.Mulhu?
  }

  predicate ReadsFirst(op: Op) {
    || IsLoad(op) || op.Jalr? || op.Csrrw? || op.Csrrs? || op.Csrrc?
    || op.Addi? || op.Slti? || op.Sltiu? || op.Xori? || op.Ori? || op.Andi? || op.Slli? || op.Srli? || op.Srai?
  }

  /** The opcode a casez arm asks for fixes the instruction format. */
  lemma MajorOf(w: Word)
    ensures var o := (w & 0x7F) as int;
      && (o == 0x63 ==> IsB(w)) && (o == 0x33 ==> IsR(w)) && (o == 0x23 ==> IsS(w)) && (o == 0x73 ==> IsSystem(w))
      && (o == 0x13 || o == 0x03 || o == 0x67 ==> IsI(w))
      && (o == 0x37 || o == 0x17 ==> IsU(w)) && (o == 0x6F ==> IsJ(w))
  {
    var o := (w & 0x7F) as int;
    if o == 0x63 { assert w & 0x7F == 0x63; }
    if o == 0x33 { assert w & 0x7F == 0x33; }
    if o == 0x23 { assert w & 0x7F == 0x23; }
    if o == 0x73 { assert w & 0x7F == 0x73; }
    if o == 0x13 { assert w & 0x7F == 0x13; }
    if o == 0x03 { assert w & 0x7F == 0x03; }
    if o == 0x67 { assert w & 0x7F == 0x67; }
    if o == 0x37 { assert w & 0x7F == 0x37; }
    if o == 0x17 { assert w & 0x7F == 0x17; }
    if o == 0x6F { assert w & 0x7F == 0x6F; }
  }

  lemma OpClass(opcode: int, f3: int, b30: bool, b25: bool, csr: int)
    ensures var op := DecodeOp(opcode, f3, b30, b25, csr);
      && (ReadsBoth(op) ==> opcode == 0x63 || opcode == 0x33 || opcode == 0x23)
      && (ReadsFirst(op) ==> opcode == 0x13 || opcode == 0x03 || opcode == 0x67 || (opcode == 0x73 && !IsCsrImm(op)))
      && (IsCsr(op) ==> opcode == 0x73)
      && (opcode == 0x23 || (opcode != 0x63 && opcode != 0x33 && opcode != 0x13 && opcode != 0x03 && opcode != 0x73
            && opcode != 0x37 && opcode != 0x17 && opcode != 0x6F && opcode != 0x67) ==>
            op.Undecoded? || op.Sb? || op.Sh? || op.Sw?)
  {
  }

  lemma DecodedOperands(w: Word)
    ensures var d := Decode(w);
      && (ReadsBoth(d.op) ==> d.rs1Valid && d.rs2Valid)
      && (ReadsFirst(d.op) ==> d.rs1Valid)
      && (d.isStore ==> d.rs1Valid && d.rs2Valid && (d.op.Undecoded? || d.op.Sb? || d.op.Sh? || d.op.Sw?))
      && (IsCsr(d.op) ==> !d.rs2Valid)
  {
    hide DecodeOp, Imm, Field5, Field12, ReadsBoth, ReadsFirst, IsCsr, IsCsrImm;
    OpClass((w & 0x7F) as int, ((w >> 12) & 7) as int, w & 0x4000_0000 != 0, w & 0x0200_0000 != 0, (w >> 20) as int);
    MajorOf(w);
  }

  lemma AluIgnores(op: Op, s: bool, a: Word, a': Word, b: Word, b': Word, imm: Word, pc: Word)
    requires ReadsBoth(op) || ReadsFirst(op) || s ==> a == a'
    requires ReadsBoth(op) || s ==> b == b'
    ensures Alu(op, s, a, b, imm, pc) == Alu(op, s, a', b', imm, pc)
  {
    hide Shl, Shr, Sra64, SetLess, Flag, Product, LowWord, HighWord;
    if !(ReadsBoth(op) || s) {
      if ReadsFirst(op) { AluFirst(op, a, b, b', imm, pc); } else { AluNeither(op, a, a', b, b', imm, pc); }
    }
    hide Alu;
  }

  predicate IsImmediate(op: Op) {
    op.Addi? || op.Slti? || op.Sltiu? || op.Xori? || op.Ori? || op.Andi? || op.Slli? || op.Srli? || op.Srai?
  }

  lemma AluImmediate(op: Op, a: Word, b: Word, b': Word, imm: Word, pc: Word)
    requires IsImmediate(op)
    ensures Alu(op, false, a, b, imm, pc) == Alu(op, false, a, b', imm, pc)
  {
    hide Shl, Shr, Sra64, SetLess, Flag, Product, LowWord, HighWord;
  }

  lemma AluFirst(op: Op, a: Word, b: Word, b': Word, imm: Word, pc: Word)
    requires ReadsFirst(op)
    ensures Alu(op, false, a, b, imm, pc) == Alu(op, false, a, b', imm, pc)
  {
    hide Alu;
    if IsImmediate(op) {
      AluImmediate(op, a, b, b', imm, pc);
    } else {
      AluAddress(op, a, b, b', imm, pc);
    }
  }

  lemma AluAddress(op: Op, a: Word, b: Word, b': Word, imm: Word, pc: Word)
    requires IsLoad(op) || op.Jalr? || op.Csrrw? || op.Csrrs? || op.Csrrc?
    ensures Alu(op, false, a, b, imm, pc) == Alu(op, false, a, b', imm, pc)
  {
    hide Shl, Shr, Sra64, SetLess, Flag, Product, LowWord, HighWord;
  }

  lemma AluNeither(op: Op, a: Word, a': Word, b: Word, b': Word, imm: Word, pc: Word)
    requires !ReadsFirst(op) && !ReadsBoth(op)
    ensures Alu(op, false, a, b, imm, pc) == Alu(op, false, a', b', imm, pc)
  {
    hide Shl, Shr, Sra64, SetLess, Flag, Product, LowWord, HighWord;
  }

  lemma CoreDecodeLaw()
    ensures DecodeLaw(Core())
  {
    hide Imm, Field5, Field12, ReadsBoth, ReadsFirst;
    forall w ensures Core().decode(w).isStore ==>
      (var op := Core().decode(w).op; op.Undecoded? || op.Sb? || op.Sh? || op.Sw?)
    {
      DecodedOperands(w);
    }
    assert Core().decode(0) == Decode(0);
  }

  lemma CoreOperandLaw()
    ensures OperandLaw(Core())
  {
    hide Decode, Alu;
    var dp := Core();
    forall w, a, a', b, b', pc |
      (dp.decode(w).rs1Valid ==> a == a') && (dp.decode(w).rs2Valid ==> b == b')
      ensures dp.alu(dp.decode(w).op, dp.decode(w).isStore, a, b, dp.decode(w).imm, pc)
        == dp.alu(dp.decode(w).op, dp.decode(w).isStore, a', b', dp.decode(w).imm, pc)
    {
      DecodedOperands(w);
      AluIgnores(Decode(w).op, Decode(w).isStore, a, a', b, b', Decode(w).imm, pc);
    }
    forall w
      ensures IsBranch(dp.decode(w).op) ==> dp.decode(w).rs1Valid && dp.decode(w).rs2Valid
      ensures dp.decode(w).op.Jalr? ==> dp.decode(w).rs1Valid
      ensures dp.decode(w).isStore ==> dp.decode(w).rs2Valid
      ensures IsCsr(dp.decode(w).op) ==>
        !dp.decode(w).rs2Valid && (IsCsrImm(dp.decode(w).op) || dp.decode(w).rs1Valid)
    {
      DecodedOperands(w);
    }
    forall op, a, b ensures dp.branch(op, a, b) ==> IsBranch(op) { TakenIsBranch(op, a, b); }
  }

  lemma TakenIsBranch(op: Op, a: Word, b: Word)
    ensures Taken(op, a, b) ==> IsBranch(op)
  {
  }

  lemma MergeTwice(o: Word, v: Word, be: bv4)
    ensures Merge(Merge(o, v, be), v, be) == Merge(o, v, be)
  {
  }

  lemma CoreMemoryLaw()
    ensures MemoryLaw(Core())
  {
    hide Merge, WordIndex;
    var dp := Core();
    forall m: Mem, a: Word, v: Word, be: bv4
      ensures dp.writeWord(dp.writeWord(m, a, v, be), a, v, be) == dp.writeWord(m, a, v, be)
    {
      if WordIndex(a) < |m| {
        MergeTwice(m[WordIndex(a)], v, be);
        assert WriteWord(WriteWord(m, a, v, be), a, v, be) == WriteWord(m, a, v, be);
      }
    }
  }

  /** Everything proved for lawful datapaths holds of the RTL's. */
  lemma CoreLawful()
    ensures Lawful(Core())
  {
    CoreDecodeLaw();
    CoreOperandLaw();
    CoreMemoryLaw();
  }

  lemma PlusFour(a: Word)
    ensures a + 4 != a
  {
  }

  /** The board's RAM: addr[13:2] in the first 64 KB. */
  function Bram(): Ram { Ram(a => WordIndex(a), a => a < 0x1_0000) }

  lemma CoreRamLaw()
    ensures RamLaw(Core(), Bram())
  {
    hide WordIndex, Merge;
    forall a ensures Core().plus(a, 4) != a { PlusFour(a); }
  }

  // ---- Operations: decoding inverts the encoding ----------------------------------------------

  function OpcodeOf(op: Op): int {
    match op
    case Undecoded => 0
    case Lui => 0x37
    case Auipc => 0x17
    case Jal => 0x6F
    case Jalr => 0x67
    case _ =>
      if IsBranch(op) then 0x63
      else if IsLoad(op) then 0x03
      else if op.Sb? || op.Sh? || op.Sw? then 0x23
      else if IsCsr(op) || IsTrap(op) || op.Mret? then 0x73
      else if ReadsBoth(op) then 0x33
      else 0x13
  }

  function Funct3Of(op: Op): int {
    match op
    case Bne | Slli | Sll | Lh | Sh | Csrrw | Mulh => 1
    case Slti | Slt | Lw | Sw | Csrrs | Mulhsu => 2
    case Sltiu | Sltu | Csrrc | Mulhu => 3
    case Blt | Xori | Xor | Lbu => 4
    case Bge | Srli | Srai | Srl | Sra | Lhu | Csrrwi => 5
    case Bltu | Ori | Or | Csrrsi => 6
    case Bgeu | Andi | And | Csrrci => 7
    case _ => 0
  }

  predicate IsMul(op: Op) { op.Mul? || op.Mulh? || op.Mulhsu? || op.Mulhu? }

  /** The bits above funct3 that tell operations of one opcode apart. */
  predicate Funct7Fits(op: Op, b30: bool, b25: bool, top: int) {
    && (OpcodeOf(op) == 0x33 ==> b30 == (op.Sub? || op.Sra?) && b25 == IsMul(op))
    && (op.Slli? || op.Srli? ==> !b30) && (op.Srai? ==> b30)
    && (op.Ecall? ==> top == 0) && (op.Ebreak? ==> top == 1) && (op.Mret? ==> top == 0x302)
  }

  predicate IsJumpOrUpper(op: Op) { op.Lui? || op.Auipc? || op.Jal? || op.Jalr? }

  lemma MulOps(op: Op, top: int)
    requires IsMul(op)
    ensures DecodeOp(0x33, Funct3Of(op), false, true, top) == op
  {
  }

  lemma RegisterOps(op: Op, top: int)
    requires op.Add? || op.Sub? || op.Sll? || op.Slt? || op.Sltu? || op.Xor? || op.Srl? || op.Sra? || op.Or? || op.And?
    ensures DecodeOp(0x33, Funct3Of(op), op.Sub? || op.Sra?, false, top) == op
  {
  }

  lemma ImmediateOps(op: Op, b30: bool, b25: bool, top: int)
    requires OpcodeOf(op) == 0x13 && Funct7Fits(op, b30, b25, top)
    ensures DecodeOp(0x13, Funct3Of(op), b30, b25, top) == op
  {
  }

  lemma CsrOps(op: Op, b30: bool, b25: bool, top: int)
    requires IsCsr(op)
    ensures DecodeOp(0x73, Funct3Of(op), b30, b25, top) == op
  {
  }

  lemma PrivOps(op: Op, b30: bool, b25: bool, top: int)
    requires (IsTrap(op) || op.Mret?) && Funct7Fits(op, b30, b25, top)
    ensures DecodeOp(0x73, Funct3Of(op), b30, b25, top) == op
  {
  }

  lemma BranchOps(op: Op, b30: bool, b25: bool, top: int)
    requires IsBranch(op)
    ensures DecodeOp(0x63, Funct3Of(op), b30, b25, top) == op
  {
  }

  lemma MemoryOps(op: Op, b30: bool, b25: bool, top: int)
    requires IsLoad(op) || op.Sb? || op.Sh? || op.Sw?
    ensures DecodeOp(if IsLoad(op) then 0x03 else 0x23, Funct3Of(op), b30, b25, top) == op
  {
  }

  lemma DecodeOpInverts(op: Op, f3: int, b30: bool, b25: bool, top: int)
    requires !op.Undecoded? && Funct7Fits(op, b30, b25, top)
    requires IsJumpOrUpper(op) || f3 == Funct3Of(op)
    ensures DecodeOp(OpcodeOf(op), f3, b30, b25, top) == op
  {
    if !IsJumpOrUpper(op) {
      hide DecodeOp, Funct3Of;
      if IsBranch(op) { BranchOps(op, b30, b25, top); }
      else if IsLoad(op) || op.Sb? || op.Sh? || op.Sw? { MemoryOps(op, b30, b25, top); }
      else if IsCsr(op) { CsrOps(op, b30, b25, top); }
      else if IsTrap(op) || op.Mret? { PrivOps(op, b30, b25, top); }
      else if IsMul(op) { MulOps(op, top); }
      else if ReadsBoth(op) { RegisterOps(op, top); }
      else { ImmediateOps(op, b30, b25, top); }
    }
  }

  /** A word that carries the encoding of an operation decodes to it. */
  lemma DecodeInvertsEncode(op: Op, w: Word)
    requires !op.Undecoded? && (w & 0x7F) as int == OpcodeOf(op)
    requires IsJumpOrUpper(op) || ((w >> 12) & 7) as int == Funct3Of(op)
    requires Funct7Fits(op, w & 0x4000_0000 != 0, w & 0x0200_0000 != 0, (w >> 20) as int)
    ensures Decode(w).op == op
  {
    hide DecodeOp, OpcodeOf, Funct3Of, Funct7Fits;
    DecodeOpInverts(op, ((w >> 12) & 7) as int, w & 0x4000_0000 != 0, w & 0x0200_0000 != 0, (w >> 20) as int);
  }

  /** What the bits that the decoder looks at say of an operation. */
  predicate Carries(op: Op, opcode: int, f3: int, b30: bool, b25: bool, top: int) {
    opcode == OpcodeOf(op) && (IsJumpOrUpper(op) || f3 == Funct3Of(op)) && Funct7Fits(op, b30, b25, top)
  }

  lemma MultiplyCarries(f3: int, b30: bool, top: int)
    requires 0 <= f3 < 8
    ensures var op := DecodeOp(0x33, f3, b30, true, top); op.Undecoded? || Carries(op, 0x33, f3, b30, true, top)
  {
  }

  lemma RegisterCarries(f3: int, b30: bool, b25: bool, top: int)
    requires 0 <= f3 < 8
    ensures var op := DecodeOp(0x33, f3, b30, b25, top); op.Undecoded? || Carries(op, 0x33, f3, b30, b25, top)
  {
    if b25 { MultiplyCarries(f3, b30, top); } else { BaseCarries(f3, b30, top); }
    hide DecodeOp, Carries;
  }

  lemma BaseCarries(f3: int, b30: bool, top: int)
    requires 0 <= f3 < 8
    ensures var op := DecodeOp(0x33, f3, b30, false, top); op.Undecoded? || Carries(op, 0x33, f3, b30, false, top)
  {
  }

  lemma ImmediateCarries(f3: int, b30: bool, b25: bool, top: int)
    requires 0 <= f3 < 8
    ensures var op := DecodeOp(0x13, f3, b30, b25, top); op.Undecoded? || Carries(op, 0x13, f3, b30, b25, top)
  {
  }

  lemma SystemCarries(f3: int, b30: bool, b25: bool, top: int)
    requires 0 <= f3 < 8
    ensures var op := DecodeOp(0x73, f3, b30, b25, top); op.Undecoded? || Carries(op, 0x73, f3, b30, b25, top)
  {
  }

  lemma OthersCarry(opcode: int, f3: int, b30: bool, b25: bool, top: int)
    requires 0 <= f3 < 8 && opcode != 0x13 && opcode != 0x33 && opcode != 0x73
    ensures var op := DecodeOp(opcode, f3, b30, b25, top); op.Undecoded? || Carries(op, opcode, f3, b30, b25, top)
  {
  }

  lemma DecodeOpCarries(opcode: int, f3: int, b30: bool, b25: bool, top: int)
    requires 0 <= f3 < 8
    ensures var op := DecodeOp(opcode, f3, b30, b25, top); op.Undecoded? || Carries(op, opcode, f3, b30, b25, top)
  {
    hide DecodeOp, Carries;
    RegisterCarries(f3, b30, b25, top);
    ImmediateCarries(f3, b30, b25, top);
    SystemCarries(f3, b30, b25, top);
    if opcode != 0x13 && opcode != 0x33 && opcode != 0x73 { OthersCarry(opcode, f3, b30, b25, top); }
  }

  predicate WordCarries(op: Op, w: Word) {
    Carries(op, (w & 0x7F) as int, ((w >> 12) & 7) as int, w & 0x4000_0000 != 0, w & 0x0200_0000 != 0, (w >> 20) as int)
  }

  lemma CarriedDecodes(op: Op, w: Word)
    requires !op.Undecoded? && WordCarries(op, w)
    ensures Decode(w).op == op
  {
    hide Decode, OpcodeOf, Funct3Of, Funct7Fits;
    DecodeInvertsEncode(op, w);
  }

  lemma DecodedCarries(w: Word)
    ensures OpOf(w).Undecoded? || WordCarries(OpOf(w), w)
  {
    hide DecodeOp, Carries;
    DecodeOpCarries((w & 0x7F) as int, ((w >> 12) & 7) as int, w & 0x4000_0000 != 0, w & 0x0200_0000 != 0,
                    (w >> 20) as int);
  }

  /** Every word decodes to the operation whose opcode and function bits it has, and to
      none if there is no such operation. */
  lemma DecodesExactly(op: Op, w: Word)
    requires !op.Undecoded?
    ensures Decode(w).op == op <==> WordCarries(op, w)
  {
    hide OpOf, WordCarries, Imm, Field5, Field12;
    DecodedCarries(w);
    if WordCarries(op, w) { CarriedDecodes(op, w); }
  }

  // ---- Immediates: decoding inverts the encoding ---------------------------------------------

  /** v is the sign extension of its low bits: all bits selected by mask agree. */
  predicate SignExtended(v: Word, mask: Word) { v & mask == 0 || v & mask == mask }

  /** Field widths: seven-bit opcode, five-bit registers, three-bit funct3. */
  predicate Fields(opcode: Word, rd: Word, f3: Word, rs1: Word, rs2: Word) {
    opcode < 0x80 && rd < 0x20 && f3 < 8 && rs1 < 0x20 && rs2 < 0x20
  }

  function EncI(opcode: Word, rd: Word, f3: Word, rs1: Word, imm: Word): Word {
    (imm << 20) | (rs1 << 15) | (f3 << 12) | (rd << 7) | opcode
  }
  function EncS(opcode: Word, f3: Word, rs1: Word, rs2: Word, imm: Word): Word {
    (((imm >> 5) & 0x7F) << 25) | (rs2 << 20) | (rs1 << 15) | (f3 << 12) | ((imm & 0x1F) << 7) | opcode
  }
  function EncB(opcode: Word, f3: Word, rs1: Word, rs2: Word, imm: Word): Word {
    (((imm >> 12) & 1) << 31) | (((imm >> 5) & 0x3F) << 25) | (rs2 << 20) | (rs1 << 15)
    | (f3 << 12) | (((imm >> 1) & 0xF) << 8) | (((imm >> 11) & 1) << 7) | opcode
  }
  function EncU(opcode: Word, rd: Word, imm: Word): Word { (imm & 0xFFFF_F000) | (rd << 7) | opcode }
  function EncJ(opcode: Word, rd: Word, imm: Word): Word {
    (((imm >> 20) & 1) << 31) | (((imm >> 1) & 0x3FF) << 21) | (((imm >> 11) & 1) << 20)
    | (((imm >> 12) & 0xFF) << 12) | (rd << 7) | opcode
  }

  lemma ImmediateI(opcode: Word, rd: Word, f3: Word, rs1: Word, imm: Word)
    requires Fields(opcode, rd, f3, rs1, 0) && SignExtended(imm, 0xFFFF_F800)
    ensures ImmI(EncI(opcode, rd, f3, rs1, imm)) == imm
  {
    hide EncI, Neg, Fields, SignExtended, Join;
    FieldsOfI(opcode, rd, f3, rs1, imm);
    JoinI(imm);
  }

  lemma FieldsOfI(opcode: Word, rd: Word, f3: Word, rs1: Word, imm: Word)
    requires Fields(opcode, rd, f3, rs1, 0)
    ensures var w := EncI(opcode, rd, f3, rs1, imm);
      w >> 20 == imm & 0xFFF && (Neg(w) <==> imm & 0x800 != 0)
  {
  }

  lemma JoinI(imm: Word)
    requires SignExtended(imm, 0xFFFF_F800)
    ensures imm == Join(imm & 0xFFF, 0, 0, if imm & 0x800 != 0 then 0xFFFF_F000 else 0)
  {
  }

  lemma ImmediateS(opcode: Word, f3: Word, rs1: Word, rs2: Word, imm: Word)
    requires Fields(opcode, 0, f3, rs1, rs2) && SignExtended(imm, 0xFFFF_F800)
    ensures ImmS(EncS(opcode, f3, rs1, rs2, imm)) == imm
  {
    hide EncS, Neg, Fields, SignExtended, Join;
    FieldsOfS(opcode, f3, rs1, rs2, imm);
    JoinS(imm);
  }

  lemma FieldsOfS(opcode: Word, f3: Word, rs1: Word, rs2: Word, imm: Word)
    requires Fields(opcode, 0, f3, rs1, rs2)
    ensures var w := EncS(opcode, f3, rs1, rs2, imm);
      (w >> 20) & 0xFE0 == imm & 0xFE0 && (w >> 7) & 0x1F == imm & 0x1F && (Neg(w) <==> imm & 0x800 != 0)
  {
  }

  lemma JoinS(imm: Word)
    requires SignExtended(imm, 0xFFFF_F800)
    ensures imm == Join(imm & 0xFE0, imm & 0x1F, 0, if imm & 0x800 != 0 then 0xFFFF_F000 else 0)
  {
  }

  lemma ImmediateB(opcode: Word, f3: Word, rs1: Word, rs2: Word, imm: Word)
    requires Fields(opcode, 0, f3, rs1, rs2) && SignExtended(imm, 0xFFFF_F000) && imm & 1 == 0
    ensures ImmB(EncB(opcode, f3, rs1, rs2, imm)) == imm
  {
    hide EncB, Neg, Fields, SignExtended, Join;
    FieldsOfB(opcode, f3, rs1, rs2, imm);
    JoinB(imm);
  }

  lemma FieldsOfB(opcode: Word, f3: Word, rs1: Word, rs2: Word, imm: Word)
    requires Fields(opcode, 0, f3, rs1, rs2)
    ensures var w := EncB(opcode, f3, rs1, rs2, imm);
      && (w << 4) & 0x800 == imm & 0x800 && (w >> 20) & 0x7E0 == imm & 0x7E0
      && (w >> 7) & 0x1E == imm & 0x1E && (Neg(w) <==> imm & 0x1000 != 0)
  {
  }

  lemma JoinB(imm: Word)
    requires SignExtended(imm, 0xFFFF_F000) && imm & 1 == 0
    ensures imm == Join(imm & 0x800, imm & 0x7E0, imm & 0x1E, if imm & 0x1000 != 0 then 0xFFFF_F000 else 0)
  {
  }

  lemma ImmediateU(opcode: Word, rd: Word, imm: Word)
    requires Fields(opcode, rd, 0, 0, 0) && imm & 0xFFF == 0
    ensures ImmU(EncU(opcode, rd, imm)) == imm
  {
  }

  lemma ImmediateJ(opcode: Word, rd: Word, imm: Word)
    requires Fields(opcode, rd, 0, 0, 0) && SignExtended(imm, 0xFFF0_0000) && imm & 1 == 0
    ensures ImmJ(EncJ(opcode, rd, imm)) == imm
  {
    hide EncJ, Neg, Fields, SignExtended, Join;
    FieldsOfJ(opcode, rd, imm);
    JoinJ(imm);
  }

  lemma FieldsOfJ(opcode: Word, rd: Word, imm: Word)
    requires Fields(opcode, rd, 0, 0, 0)
    ensures var w := EncJ(opcode, rd, imm);
      && w & 0xFF000 == imm & 0xFF000 && (w >> 9) & 0x800 == imm & 0x800 && (w >> 20) & 0x7FE == imm & 0x7FE
      && (Neg(w) <==> imm & 0x0010_0000 != 0)
  {
  }

  lemma JoinJ(imm: Word)
    requires SignExtended(imm, 0xFFF0_0000) && imm & 1 == 0
    ensures imm == Join(imm & 0xFF000, imm & 0x800, imm & 0x7FE, if imm & 0x0010_0000 != 0 then 0xFFF0_0000 else 0)
  {
  }

  // ---- Signed comparison, arithmetic shift, multiplication ---------------------------------

  /** Two's-complement order, as the unsigned order of the values offset by 2^31. */
  predicate SignedLess(a: Word, b: Word) { (a ^ 0x8000_0000) < (b ^ 0x8000_0000) }

  lemma ComparisonsAreSigned(a: Word, b: Word)
    ensures SetLess(a, b) == if SignedLess(a, b) then 1 else 0
    ensures Taken(Blt, a, b) == SignedLess(a, b)
    ensures Taken(Bge, a, b) == !SignedLess(a, b)
  {
  }

  function BitAt(w: Word, i: Word): Word requires i < 32 { (w >> i) & 1 }

  const ONES: Word := 0xFFFF_FFFF

  lemma ShrBit(a: Word, n: Word, i: Word)
    requires n < 32 && i < 32
    ensures BitAt(a >> n, i) == if i + n < 32 then BitAt(a, i + n) else 0
  {
  }

  lemma ShlBitHigh(a: Word, k: Word, i: Word)
    requires k <= i < 32
    ensures BitAt(a << k, i) == BitAt(a, i - k)
  {
  }

  lemma ShlBitLow(a: Word, k: Word, i: Word)
    requires i < k < 32
    ensures BitAt(a << k, i) == 0
  {
  }

  lemma OrBit(a: Word, b: Word, i: Word)
    requires i < 32
    ensures BitAt(a | b, i) == BitAt(a, i) | BitAt(b, i)
  {
  }

  lemma OnesBit(i: Word)
    requires i < 32
    ensures BitAt(ONES, i) == 1
  {
  }

  lemma SignBit(a: Word)
    ensures BitAt(a, 31) == if Neg(a) then 1 else 0
  {
  }

  /** Bits n places above the top are all the sign. */
  lemma FillBit(a: Word, n: Word, i: Word)
    requires 0 < n < 32 && i < 32
    ensures BitAt(SignWord(a) << (32 - n), i) == if i + n < 32 then 0 else BitAt(a, 31)
  {
    SignBit(a);
    if i + n < 32 {
      ShlBitLow(SignWord(a), 32 - n, i);
    } else {
      ShlBitHigh(SignWord(a), 32 - n, i);
      OnesBit(i - (32 - n));
    }
  }

  /** SRA and SRAI shift arithmetically: bit i of the result is bit i + n of the
      source, or its sign bit where that is beyond the top. */
  lemma SraIsArithmetic(a: Word, n: Word, i: Word)
    requires n < 32 && i < 32
    ensures BitAt(Sra64(a, n), i) == if i + n < 32 then BitAt(a, i + n) else BitAt(a, 31)
  {
    assert n & 0x1F == n;
    if n > 0 {
      hide BitAt, SignWord;
      OrBit(a >> n, SignWord(a) << (32 - n), i);
      ShrBit(a, n, i);
      FillBit(a, n, i);
    }
  }

  function Signed(a: Word): int { if Neg(a) then a as int - TWO32 else a as int }

  lemma AddMultiple(x: int, k: int)
    ensures (x + k * TWO64) % TWO64 == x % TWO64
  {
  }

  lemma ProductModulo(x: int, i: int, y: int, j: int)
    ensures ((x + i * TWO64) * (y + j * TWO64)) % TWO64 == (x * y) % TWO64
  {
    var k := x * j + i * y + i * j * TWO64;
    calc {
      (x + i * TWO64) * (y + j * TWO64);
      x * y + x * (j * TWO64) + (i * TWO64) * y + (i * TWO64) * (j * TWO64);
      x * y + k * TWO64;
    }
    AddMultiple(x * y, k);
  }

  lemma WordsModulo(x: int)
    ensures (x % TWO64) % TWO32 == x % TWO32
    ensures (x % TWO64) / TWO32 % TWO32 == x / TWO32 % TWO32
  {
  }

  lemma Words(x: int)
    ensures LowWord(x % TWO64) == LowWord(x)
    ensures HighWord(x % TWO64) == HighWord(x)
  {
    WordsModulo(x);
  }

  /** A register read as a signed or an unsigned number. */
  function Value(a: Word, signed: bool): int { if signed then Signed(a) else a as int }

  lemma ExtendIsValue(a: Word, signed: bool) returns (i: int)
    ensures Extend(a, signed) == Value(a, signed) + i * TWO64
  {
    i := if signed && Neg(a) then 1 else 0;
  }

  lemma ProductIsExact(a: Word, sa: bool, b: Word, sb: bool)
    ensures Product(a, sa, b, sb) == (Value(a, sa) * Value(b, sb)) % TWO64
  {
    hide Value, Extend;
    var i := ExtendIsValue(a, sa);
    var j := ExtendIsValue(b, sb);
    ProductModulo(Value(a, sa), i, Value(b, sb), j);
  }

  lemma ProductWords(a: Word, sa: bool, b: Word, sb: bool)
    ensures LowWord(Product(a, sa, b, sb)) == LowWord(Value(a, sa) * Value(b, sb))
    ensures HighWord(Product(a, sa, b, sb)) == HighWord(Value(a, sa) * Value(b, sb))
  {
    hide Product, LowWord, HighWord, Value;
    ProductIsExact(a, sa, b, sb);
    Words(Value(a, sa) * Value(b, sb));
  }

  /** MUL keeps the low word of the signed product. */
  lemma MultiplyLow(a: Word, b: Word, imm: Word, pc: Word)
    ensures Alu(Mul, false, a, b, imm, pc) == LowWord(Value(a, true) * Value(b, true))
  {
    ProductWords(a, true, b, true);
    hide Product, LowWord, HighWord, Value;
  }

  /** MULH, MULHSU and MULHU keep the high word of the signed, mixed and unsigned
      product. */
  lemma MultiplyHigh(op: Op, a: Word, b: Word, imm: Word, pc: Word)
    requires op.Mulh? || op.Mulhsu? || op.Mulhu?
    ensures Alu(op, false, a, b, imm, pc) == HighWord(Value(a, !op.Mulhu?) * Value(b, op.Mulh?))
  {
    hide Product, LowWord, HighWord, Value;
    ProductWords(a, !op.Mulhu?, b, op.Mulh?);
  }
}
