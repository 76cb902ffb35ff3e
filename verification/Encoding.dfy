/** Whole instructions: decoding a word encoded as sections 2.2 to 2.6 and 7.1 and chapter
    9 of the RISC-V Unprivileged ISA 20191213 lay it out gives back its operation, registers and
    immediate, with exactly the right operands marked as used. */
module Encoding {
  import opened Isa
  import opened Rv32
  import opened Conformance

  function EncR(opcode: Word, rd: Word, f3: Word, rs1: Word, rs2: Word, f7: Word): Word {
    (f7 << 25) | (rs2 << 20) | (rs1 << 15) | (f3 << 12) | (rd << 7) | opcode
  }

  /** opcode and funct3 are the operation's. */
  predicate Selects(op: Op, opcode: Word, f3: Word) {
    !op.Undecoded? && opcode as int == OpcodeOf(op) && (IsJumpOrUpper(op) || f3 as int == Funct3Of(op))
  }

  lemma BitsOfR(opcode: Word, rd: Word, f3: Word, rs1: Word, rs2: Word, f7: Word)
    requires Fields(opcode, rd, f3, rs1, rs2) && f7 < 0x80
    ensures var w := EncR(opcode, rd, f3, rs1, rs2, f7);
      && w & 0x7F == opcode && (w >> 12) & 7 == f3
      && (w >> 7) & 0x1F == rd && (w >> 15) & 0x1F == rs1 && (w >> 20) & 0x1F == rs2
      && (w & 0x4000_0000 != 0 <==> f7 & 0x20 != 0) && (w & 0x0200_0000 != 0 <==> f7 & 1 != 0)
  {
  }

  lemma BitsOfI(opcode: Word, rd: Word, f3: Word, rs1: Word, imm: Word)
    requires Fields(opcode, rd, f3, rs1, 0)
    ensures var w := EncI(opcode, rd, f3, rs1, imm);
      && w & 0x7F == opcode && (w >> 12) & 7 == f3
      && (w >> 7) & 0x1F == rd && (w >> 15) & 0x1F == rs1 && w >> 20 == imm & 0xFFF
      && (w & 0x4000_0000 != 0 <==> imm & 0x400 != 0)
  {
  }

  lemma BitsOfS(opcode: Word, f3: Word, rs1: Word, rs2: Word, imm: Word)
    requires Fields(opcode, 0, f3, rs1, rs2)
    ensures var w := EncS(opcode, f3, rs1, rs2, imm);
      && w & 0x7F == opcode && (w >> 12) & 7 == f3 && (w >> 15) & 0x1F == rs1 && (w >> 20) & 0x1F == rs2
  {
  }

  lemma BitsOfB(opcode: Word, f3: Word, rs1: Word, rs2: Word, imm: Word)
    requires Fields(opcode, 0, f3, rs1, rs2)
    ensures var w := EncB(opcode, f3, rs1, rs2, imm);
      && w & 0x7F == opcode && (w >> 12) & 7 == f3 && (w >> 15) & 0x1F == rs1 && (w >> 20) & 0x1F == rs2
  {
  }

  lemma BitsOfU(opcode: Word, rd: Word, imm: Word)
    requires Fields(opcode, rd, 0, 0, 0)
    ensures EncU(opcode, rd, imm) & 0x7F == opcode && (EncU(opcode, rd, imm) >> 7) & 0x1F == rd
  {
  }

  lemma BitsOfJ(opcode: Word, rd: Word, imm: Word)
    requires Fields(opcode, rd, 0, 0, 0)
    ensures EncJ(opcode, rd, imm) & 0x7F == opcode && (EncJ(opcode, rd, imm) >> 7) & 0x1F == rd
  {
  }

  /** A register number field. */
  lemma FieldOf(w: Word, x: Word)
    requires w & 0x1F == x
    ensures Field5(w) == Field5(x)
  {
    assert x & 0x1F == x;
  }

  // ---- Formats ------------------------------------------------------------------------------

  datatype Format = FormR | FormI | FormS | FormB | FormU | FormJ | FormSystem

  function FormatOf(op: Op): Format {
    if op.Jalr? then FormI else if op.Jal? then FormJ else if op.Lui? || op.Auipc? then FormU
    else if IsBranch(op) then FormB else if IsLoad(op) then FormI else if op.Sb? || op.Sh? || op.Sw? then FormS
    else if IsCsr(op) || IsTrap(op) || op.Mret? then FormSystem else if ReadsBoth(op) then FormR else FormI
  }

  predicate HasFormat(w: Word, f: Format) {
    match f
    case FormR => IsR(w)
    case FormI => IsI(w)
    case FormS => IsS(w)
    case FormB => IsB(w)
    case FormU => IsU(w)
    case FormJ => IsJ(w)
    case FormSystem => IsSystem(w)
  }

  lemma FormatOpcode(op: Op)
    requires !op.Undecoded?
    ensures var f, o := FormatOf(op), OpcodeOf(op);
      && (f.FormR? ==> o == 0x33) && (f.FormI? ==> o == 0x13 || o == 0x03 || o == 0x67) && (f.FormS? ==> o == 0x23)
      && (f.FormB? ==> o == 0x63) && (f.FormU? ==> o == 0x37 || o == 0x17) && (f.FormJ? ==> o == 0x6F)
      && (f.FormSystem? ==> o == 0x73)
  {
    hide ReadsBoth;
  }

  lemma OpcodeFormat(op: Op, w: Word)
    requires !op.Undecoded? && (w & 0x7F) as int == OpcodeOf(op)
    ensures HasFormat(w, FormatOf(op))
  {
    hide IsR, IsI, IsS, IsB, IsU, IsJ, IsSystem, OpcodeOf, FormatOf;
    FormatOpcode(op);
    MajorOf(w);
  }

  lemma OneFormat(w: Word, f: Format)
    requires HasFormat(w, f)
    ensures IsR(w) == f.FormR? && IsI(w) == f.FormI? && IsS(w) == f.FormS? && IsB(w) == f.FormB?
    ensures IsU(w) == f.FormU? && IsJ(w) == f.FormJ? && IsSystem(w) == f.FormSystem?
  {
  }

  /** Everything the format of the word decides. */
  lemma Shape(w: Word, f: Format)
    requires HasFormat(w, f)
    ensures var d := Decode(w);
      && d.rd == Field5(w >> 7) && d.rs1 == Field5(w >> 15) && d.rs2 == Field5(w >> 20)
      && d.csrAddr == Field12(w >> 20) && d.zimm == (w >> 15) & 0x1F
      && d.isStore == f.FormS?
      && d.rdValid == (f.FormR? || f.FormI? || f.FormU? || f.FormJ? || IsCsr(d.op))
      && d.rs1Valid == (f.FormR? || f.FormS? || f.FormB? || f.FormI? || (f.FormSystem? && !IsCsrImm(d.op)))
      && d.rs2Valid == (f.FormR? || f.FormS? || f.FormB?)
      && (f.FormI? ==> d.imm == ImmI(w)) && (f.FormS? ==> d.imm == ImmS(w)) && (f.FormB? ==> d.imm == ImmB(w))
      && (f.FormU? ==> d.imm == ImmU(w)) && (f.FormJ? ==> d.imm == ImmJ(w))
  {
    hide IsR, IsI, IsS, IsB, IsU, IsJ, IsSystem, HasFormat, Field5, Field12, ImmI, ImmS, ImmU, ImmB, ImmJ, OpOf;
    OneFormat(w, f);
  }

  /** A word with the operation's opcode and function bits. */
  lemma Selected(op: Op, w: Word)
    requires Selects(op, w & 0x7F, (w >> 12) & 7)
    requires Funct7Fits(op, w & 0x4000_0000 != 0, w & 0x0200_0000 != 0, (w >> 20) as int)
    ensures Decode(w).op == op && HasFormat(w, FormatOf(op))
  {
    hide Decode, OpcodeOf, Funct3Of, Funct7Fits, HasFormat, FormatOf;
    DecodeInvertsEncode(op, w);
    OpcodeFormat(op, w);
  }

  /** Only register-register operations, immediate shifts and privileged
      instructions look beyond funct3. */
  lemma StoreFormat(op: Op, b30: bool, b25: bool, top: int)
    requires FormatOf(op) == FormS
    ensures Funct7Fits(op, b30, b25, top) && !IsCsr(op)
  {
    assert op.Sb? || op.Sh? || op.Sw?;
  }

  lemma BranchFormat(op: Op, b30: bool, b25: bool, top: int)
    requires FormatOf(op) == FormB
    ensures Funct7Fits(op, b30, b25, top) && !IsCsr(op)
  {
    assert IsBranch(op);
  }

  lemma UpperFormat(op: Op, b30: bool, b25: bool, top: int)
    requires op.Lui? || op.Auipc? || op.Jal?
    ensures Funct7Fits(op, b30, b25, top) && !IsCsr(op) && FormatOf(op) == if op.Jal? then FormJ else FormU
  {
  }

  lemma CsrFormat(op: Op, b30: bool, b25: bool, top: int)
    requires IsCsr(op)
    ensures Funct7Fits(op, b30, b25, top) && FormatOf(op) == FormSystem
  {
  }

  lemma ImmediateFormat(op: Op, b30: bool, b25: bool, top: int)
    requires FormatOf(op) == FormI && (op.Slli? || op.Srli? ==> !b30) && (op.Srai? ==> b30)
    ensures Funct7Fits(op, b30, b25, top) && !IsCsr(op)
  {
  }

  lemma RegisterFormat(op: Op, b30: bool, b25: bool, top: int)
    requires FormatOf(op) == FormR && b30 == (op.Sub? || op.Sra?) && b25 == IsMul(op)
    ensures Funct7Fits(op, b30, b25, top) && !IsCsr(op)
  {
  }

  predicate LowClear(imm: Word) { imm & 0xFFF == 0 }

  lemma UpperImmediate(opcode: Word, rd: Word, imm: Word)
    requires Fields(opcode, rd, 0, 0, 0) && LowClear(imm)
    ensures ImmU(EncU(opcode, rd, imm)) == imm
  {
    ImmediateU(opcode, rd, imm);
  }

  predicate IsCsrAddr(csr: Word) { csr < 0x1000 }

  lemma BitsOfCsr(opcode: Word, rd: Word, f3: Word, rs1: Word, csr: Word)
    requires Fields(opcode, rd, f3, rs1, 0) && IsCsrAddr(csr)
    ensures EncI(opcode, rd, f3, rs1, csr) >> 20 == csr
  {
  }

  lemma UpperSelects(op: Op, opcode: Word, f3: Word)
    requires opcode as int == OpcodeOf(op) && (op.Lui? || op.Auipc? || op.Jal?)
    ensures Selects(op, opcode, f3)
  {
  }

  // ---- Opcodes and function bits as words ------------------------------------------------------

  function OpcodeWord(op: Op): Word {
    match OpcodeOf(op)
    case 0x33 => 0x33 case 0x13 => 0x13 case 0x03 => 0x03 case 0x23 => 0x23 case 0x63 => 0x63
    case 0x37 => 0x37 case 0x17 => 0x17 case 0x6F => 0x6F case 0x67 => 0x67 case _ => 0x73
  }

  function Funct3Word(op: Op): Word {
    match Funct3Of(op)
    case 0 => 0 case 1 => 1 case 2 => 2 case 3 => 3 case 4 => 4 case 5 => 5 case 6 => 6 case _ => 7
  }

  lemma Constants()
    ensures (0x33 as Word) as int == 0x33 && (0x03 as Word) as int == 0x03 && (0x13 as Word) as int == 0x13
    ensures (0x23 as Word) as int == 0x23 && (0x63 as Word) as int == 0x63 && (0x37 as Word) as int == 0x37
    ensures (0x17 as Word) as int == 0x17 && (0x6F as Word) as int == 0x6F && (0x67 as Word) as int == 0x67
    ensures (0x73 as Word) as int == 0x73
    ensures (0 as Word) as int == 0 && (1 as Word) as int == 1 && (2 as Word) as int == 2 && (3 as Word) as int == 3
    ensures (4 as Word) as int == 4 && (5 as Word) as int == 5 && (6 as Word) as int == 6 && (7 as Word) as int == 7
  {
  }

  predicate HasOpcode(o: Word, op: Op) { o as int == OpcodeOf(op) }

  lemma OpcodeFits(op: Op)
    requires !op.Undecoded?
    ensures HasOpcode(OpcodeWord(op), op) && OpcodeWord(op) < 0x80
  {
    hide OpcodeOf, FormatOf;
    FormatOpcode(op);
    Constants();
  }

  lemma Funct3Fits(op: Op)
    ensures Funct3Word(op) as int == Funct3Of(op) && Funct3Word(op) < 8
  {
    Constants();
  }

  lemma OperationSelected(op: Op)
    requires !op.Undecoded?
    ensures Selects(op, OpcodeWord(op), Funct3Word(op)) && OpcodeWord(op) < 0x80 && Funct3Word(op) < 8
  {
    hide OpcodeWord, Funct3Word, OpcodeOf, Funct3Of;
    OpcodeFits(op);
    Funct3Fits(op);
  }

  // ---- Round trips ----------------------------------------------------------------------------

  lemma RegisterRoundTrip(op: Op, opcode: Word, rd: Word, f3: Word, rs1: Word, rs2: Word, f7: Word)
    requires Fields(opcode, rd, f3, rs1, rs2) && f7 < 0x80 && Selects(op, opcode, f3) && FormatOf(op) == FormR
    requires (f7 & 0x20 != 0 <==> op.Sub? || op.Sra?) && (f7 & 1 != 0 <==> IsMul(op))
    ensures var d := Decode(EncR(opcode, rd, f3, rs1, rs2, f7));
      && d.op == op && d.rd == Field5(rd) && d.rs1 == Field5(rs1) && d.rs2 == Field5(rs2)
      && d.rdValid && d.rs1Valid && d.rs2Valid && !d.isStore
  {
    hide Decode, EncR, Field5, Field12, HasFormat, OpcodeOf, Selects, Fields, FormatOf, IsCsr, IsTrap, IsCsrImm, Neg,
      Join, IsMul;
    var w := EncR(opcode, rd, f3, rs1, rs2, f7);
    BitsOfR(opcode, rd, f3, rs1, rs2, f7);
    RegisterFormat(op, w & 0x4000_0000 != 0, w & 0x0200_0000 != 0, (w >> 20) as int);
    Selected(op, w);
    Shape(w, FormR);
    FieldOf(w >> 7, rd);
    FieldOf(w >> 15, rs1);
    FieldOf(w >> 20, rs2);
  }

  /** Register-immediate operations, shifts included, loads and JALR. */
  lemma ImmediateRoundTrip(op: Op, opcode: Word, rd: Word, f3: Word, rs1: Word, imm: Word)
    requires Fields(opcode, rd, f3, rs1, 0) && SignExtended(imm, 0xFFFF_F800) && Selects(op, opcode, f3)
    requires FormatOf(op) == FormI
    requires (op.Slli? || op.Srli? ==> imm & 0x400 == 0) && (op.Srai? ==> imm & 0x400 != 0)
    ensures var d := Decode(EncI(opcode, rd, f3, rs1, imm));
      && d.op == op && d.rd == Field5(rd) && d.rs1 == Field5(rs1) && d.imm == imm
      && d.rdValid && d.rs1Valid && !d.rs2Valid && !d.isStore
  {
    hide Decode, EncI, Field5, Field12, HasFormat, OpcodeOf, Selects, Fields, SignExtended, ImmI, Funct7Fits, ImmS,
      ImmB, ImmU, ImmJ, FormatOf, IsCsr, IsTrap, IsCsrImm, Neg, Join, IsMul;
    var w := EncI(opcode, rd, f3, rs1, imm);
    BitsOfI(opcode, rd, f3, rs1, imm);
    ImmediateFormat(op, w & 0x4000_0000 != 0, w & 0x0200_0000 != 0, (w >> 20) as int);
    Selected(op, w);
    Shape(w, FormI);
    FieldOf(w >> 7, rd);
    FieldOf(w >> 15, rs1);
    ImmediateI(opcode, rd, f3, rs1, imm);
  }

  lemma StoreRoundTrip(op: Op, opcode: Word, f3: Word, rs1: Word, rs2: Word, imm: Word)
    requires Fields(opcode, 0, f3, rs1, rs2) && SignExtended(imm, 0xFFFF_F800) && Selects(op, opcode, f3)
    requires FormatOf(op) == FormS
    ensures var d := Decode(EncS(opcode, f3, rs1, rs2, imm));
      && d.op == op && d.isStore && d.rs1 == Field5(rs1) && d.rs2 == Field5(rs2) && d.imm == imm
      && !d.rdValid && d.rs1Valid && d.rs2Valid
  {
    hide Decode, EncS, Field5, Field12, HasFormat, OpcodeOf, Selects, Fields, SignExtended, ImmI, Funct7Fits, ImmS,
      ImmB, ImmU, ImmJ, FormatOf, IsCsr, IsTrap, IsCsrImm, Neg, Join, IsMul;
    var w := EncS(opcode, f3, rs1, rs2, imm);
    BitsOfS(opcode, f3, rs1, rs2, imm);
    StoreFormat(op, w & 0x4000_0000 != 0, w & 0x0200_0000 != 0, (w >> 20) as int);
    Selected(op, w);
    Shape(w, FormS);
    FieldOf(w >> 15, rs1);
    FieldOf(w >> 20, rs2);
    ImmediateS(opcode, f3, rs1, rs2, imm);
  }

  lemma BranchRoundTrip(op: Op, opcode: Word, f3: Word, rs1: Word, rs2: Word, imm: Word)
    requires Fields(opcode, 0, f3, rs1, rs2) && SignExtended(imm, 0xFFFF_F000) && imm & 1 == 0
    requires Selects(op, opcode, f3) && FormatOf(op) == FormB
    ensures var d := Decode(EncB(opcode, f3, rs1, rs2, imm));
      && d.op == op && d.rs1 == Field5(rs1) && d.rs2 == Field5(rs2) && d.imm == imm
      && !d.rdValid && d.rs1Valid && d.rs2Valid && !d.isStore
  {
    hide Decode, EncB, Field5, Field12, HasFormat, OpcodeOf, Selects, Fields, SignExtended, ImmI, Funct7Fits, ImmS,
      ImmB, ImmU, ImmJ, FormatOf, IsCsr, IsTrap, IsCsrImm, Neg, Join, IsMul;
    var w := EncB(opcode, f3, rs1, rs2, imm);
    BitsOfB(opcode, f3, rs1, rs2, imm);
    BranchFormat(op, w & 0x4000_0000 != 0, w & 0x0200_0000 != 0, (w >> 20) as int);
    Selected(op, w);
    Shape(w, FormB);
    FieldOf(w >> 15, rs1);
    FieldOf(w >> 20, rs2);
    ImmediateB(opcode, f3, rs1, rs2, imm);
  }

  lemma UpperSelected(op: Op, opcode: Word, rd: Word, imm: Word)
    requires Fields(opcode, rd, 0, 0, 0) && opcode as int == OpcodeOf(op) && (op.Lui? || op.Auipc?)
    ensures var w := EncU(opcode, rd, imm); Decode(w).op == op && HasFormat(w, FormU) && !IsCsr(op)
  {
    hide Decode, EncU, HasFormat, OpcodeOf, Fields, Funct7Fits, FormatOf, IsCsr, Selects;
    var w := EncU(opcode, rd, imm);
    BitsOfU(opcode, rd, imm);
    UpperFormat(op, w & 0x4000_0000 != 0, w & 0x0200_0000 != 0, (w >> 20) as int);
    UpperSelects(op, w & 0x7F, (w >> 12) & 7);
    Selected(op, w);
  }

  /** LUI and AUIPC. */
  lemma UpperRoundTrip(op: Op, opcode: Word, rd: Word, imm: Word)
    requires Fields(opcode, rd, 0, 0, 0) && LowClear(imm) && opcode as int == OpcodeOf(op) && (op.Lui? || op.Auipc?)
    ensures var d := Decode(EncU(opcode, rd, imm));
      && d.op == op && d.rd == Field5(rd) && d.imm == imm
      && d.rdValid && !d.rs1Valid && !d.rs2Valid && !d.isStore
  {
    hide LowClear, Decode, EncU, Field5, Field12, HasFormat, OpcodeOf, Fields, ImmI, ImmS, ImmB, ImmU, ImmJ, IsCsr,
      IsCsrImm;
    var w := EncU(opcode, rd, imm);
    UpperSelected(op, opcode, rd, imm);
    Shape(w, FormU);
    BitsOfU(opcode, rd, imm);
    FieldOf(w >> 7, rd);
    UpperImmediate(opcode, rd, imm);
  }

  lemma JumpRoundTrip(opcode: Word, rd: Word, imm: Word)
    requires Fields(opcode, rd, 0, 0, 0) && SignExtended(imm, 0xFFF0_0000) && imm & 1 == 0
    requires opcode as int == OpcodeOf(Jal)
    ensures var d := Decode(EncJ(opcode, rd, imm));
      && d.op == Jal && d.rd == Field5(rd) && d.imm == imm
      && d.rdValid && !d.rs1Valid && !d.rs2Valid && !d.isStore
  {
    hide Selects, Decode, EncJ, Field5, Field12, HasFormat, OpcodeOf, Fields, SignExtended, ImmI, Funct7Fits, ImmS,
      ImmB, ImmU, ImmJ, FormatOf, IsCsr, IsTrap, IsCsrImm, Neg, Join, IsMul;
    var w := EncJ(opcode, rd, imm);
    BitsOfJ(opcode, rd, imm);
    UpperFormat(Jal, w & 0x4000_0000 != 0, w & 0x0200_0000 != 0, (w >> 20) as int);
    UpperSelects(Jal, w & 0x7F, (w >> 12) & 7);
    Selected(Jal, w);
    Shape(w, FormJ);
    FieldOf(w >> 7, rd);
    ImmediateJ(opcode, rd, imm);
  }

  lemma CsrSelected(op: Op, opcode: Word, rd: Word, f3: Word, rs1: Word, csr: Word)
    requires Fields(opcode, rd, f3, rs1, 0) && Selects(op, opcode, f3) && IsCsr(op)
    ensures var w := EncI(opcode, rd, f3, rs1, csr); Decode(w).op == op && HasFormat(w, FormSystem)
  {
    hide Decode, EncI, HasFormat, OpcodeOf, Fields, Funct7Fits, FormatOf, IsCsr, Selects;
    var w := EncI(opcode, rd, f3, rs1, csr);
    BitsOfI(opcode, rd, f3, rs1, csr);
    CsrFormat(op, w & 0x4000_0000 != 0, w & 0x0200_0000 != 0, (w >> 20) as int);
    Selected(op, w);
  }

  /** The six CSR instructions; the register field is the operand or the register
      that holds it. */
  lemma CsrRoundTrip(op: Op, opcode: Word, rd: Word, f3: Word, rs1: Word, csr: Word)
    requires Fields(opcode, rd, f3, rs1, 0) && IsCsrAddr(csr) && Selects(op, opcode, f3) && IsCsr(op)
    ensures var d := Decode(EncI(opcode, rd, f3, rs1, csr));
      && d.op == op && d.rd == Field5(rd) && d.rs1 == Field5(rs1) && d.zimm == rs1 && d.csrAddr == Field12(csr)
      && d.rdValid && (d.rs1Valid <==> !IsCsrImm(op)) && !d.rs2Valid && !d.isStore
  {
    hide IsCsrAddr, Decode, EncI, Field5, Field12, HasFormat, Selects, Fields, ImmI, ImmS, ImmB, ImmU, ImmJ, IsCsr,
      IsCsrImm;
    var w := EncI(opcode, rd, f3, rs1, csr);
    CsrSelected(op, opcode, rd, f3, rs1, csr);
    Shape(w, FormSystem);
    BitsOfCsr(opcode, rd, f3, rs1, csr);
    BitsOfI(opcode, rd, f3, rs1, csr);
    FieldOf(w >> 7, rd);
    FieldOf(w >> 15, rs1);
  }
}
