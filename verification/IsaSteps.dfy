/** The reference core, instruction by instruction: one golden step over the RTL's
    datapath on the word of an instruction is what the instruction means. */
module IsaSteps {
  import opened Isa
  import opened Rv32
  import opened Conformance
  import opened Encoding
  import opened Golden
  import opened WordInts
  import opened IsaMeaning
  import B = ByteLanes

  /** Bit 30 of an immediate shift tells the arithmetic one apart. */
  function ShiftImm(op: Op, imm: Word): Word { if op.Srai? then imm | 0x400 else imm }

  function Funct7Word(op: Op): Word { if op.Sub? || op.Sra? then 0x20 else if IsMul(op) then 1 else 0 }

  /** The instruction's word. */
  function Encode(i: Asm): Word {
    match i
    case Register(op, rd, rs1, rs2) => EncR(OpcodeWord(op), rd, Funct3Word(op), rs1, rs2, Funct7Word(op))
    case Immediate(op, rd, rs1, imm) => EncI(OpcodeWord(op), rd, Funct3Word(op), rs1, ShiftImm(op, imm))
    case Load(op, rd, rs1, imm) => EncI(OpcodeWord(op), rd, Funct3Word(op), rs1, imm)
    case Store(op, rs1, rs2, imm) => EncS(OpcodeWord(op), Funct3Word(op), rs1, rs2, imm)
    case Branch(op, rs1, rs2, imm) => EncB(OpcodeWord(op), Funct3Word(op), rs1, rs2, imm)
    case Upper(op, rd, imm) => EncU(OpcodeWord(op), rd, imm)
    case Jump(rd, imm) => EncJ(OpcodeWord(Jal), rd, imm)
    case JumpReg(rd, rs1, imm) => EncI(OpcodeWord(Jalr), rd, Funct3Word(Jalr), rs1, imm)
    case Csr(op, rd, src, csr) => EncI(OpcodeWord(op), rd, Funct3Word(op), src, csr)
    case EnvCall => 0x0000_0073
    case EnvBreak => 0x0010_0073
    case TrapReturn => 0x3020_0073
  }

  // ---- The datapath's classes and fields ------------------------------------------------------------

  /** The next instruction is the one that follows. */
  predicate Flows(op: Op) { !IsBranch(op) && !op.Jal? && !op.Jalr? && !IsTrap(op) && !op.Mret? }

  lemma Classes(op: Op)
    ensures Loads(op) == IsLoad(op) && Stores(op) == B.IsStore(op) && Branches(op) == IsBranch(op)
    ensures OnCsr(op) == IsCsr(op) && TakesField(op) == IsCsrImm(op)
  {
  }

  lemma RegisterClass(op: Op)
    requires OnRegisters(op)
    ensures FormatOf(op) == FormR && Flows(op) && !IsCsr(op) && !IsLoad(op) && !op.Undecoded?
  {
  }

  lemma ImmediateClass(op: Op)
    requires OnImmediate(op)
    ensures FormatOf(op) == FormI && Flows(op) && !IsCsr(op) && !IsLoad(op) && !op.Undecoded?
  {
  }

  lemma OtherClasses(op: Op)
    ensures Loads(op) ==> FormatOf(op) == FormI && Flows(op)
    ensures Stores(op) ==> FormatOf(op) == FormS && Flows(op)
    ensures Branches(op) ==> FormatOf(op) == FormB
    ensures op.Lui? || op.Auipc? ==> Flows(op) && !IsCsr(op)
  {
  }

  lemma RegisterNumber(r: Word)
    requires r < 0x20
    ensures Field5(r) == Int32(r) < 32
  {
    var x := r as bv5;
    assert r == x as Word;
  }

  lemma CsrNumberIs(csr: Word)
    requires csr < 0x1000
    ensures Field12(csr) == CsrNumber(csr)
  {
    var x := csr as bv12;
    assert csr == x as Word;
  }

  lemma HighBit(w: Word)
    ensures Neg(w) <==> Int32(w) >= 0x8000_0000
  {
    Below32Is(w, 0x8000_0000);
  }

  lemma NumberIs(w: Word, signed: bool)
    ensures Number(w, signed) == Value(w, signed)
  {
    hide Neg;
    HighBit(w);
  }

  /** An integer range as two ranges of words. */
  lemma WithinIs(imm: Word, half: int, low: Word, high: Word)
    requires 0 < half < 0x8000_0000 && Int32(low) == half && Int32(high) == 0x1_0000_0000 - half
    ensures Within(imm, half) <==> imm < low || !(imm < high)
  {
    Below32Is(imm, low);
    Below32Is(imm, high);
    IntBounds(imm);
    hide Int32;
  }

  lemma Short(imm: Word)
    requires Within(imm, 0x800)
    ensures SignExtended(imm, 0xFFFF_F800)
  {
    WithinIs(imm, 0x800, 0x800, 0xFFFF_F800);
    hide Within;
  }

  lemma Medium(imm: Word)
    requires Within(imm, 0x1000)
    ensures SignExtended(imm, 0xFFFF_F000)
  {
    WithinIs(imm, 0x1000, 0x1000, 0xFFFF_F000);
    hide Within;
  }

  lemma Long(imm: Word)
    requires Within(imm, 0x10_0000)
    ensures SignExtended(imm, 0xFFF0_0000)
  {
    WithinIs(imm, 0x10_0000, 0x10_0000, 0xFFF0_0000);
    hide Within;
  }

  function Upper31(w: Word): bv31 { (w >> 1) as bv31 }
  function LastBit(w: Word): bv1 { (w & 1) as bv1 }
  function JoinLast(h: bv31, l: bv1): Word { ((h as Word) << 1) | (l as Word) }
  function Rest(h: bv31): int { h as int }

  lemma JoinLastInt(h: bv31, l: bv1)
    ensures Int32(JoinLast(h, l)) == 2 * Rest(h) + Carry(l)
  {
  }

  lemma LastParts(w: Word)
    ensures w == JoinLast(Upper31(w), LastBit(w)) && (w & 1 == 0 <==> LastBit(w) == 0)
  {
  }

  lemma BitValue(l: bv1)
    ensures if l == 0 then Carry(l) == 0 else Carry(l) == 1
  {
  }

  lemma EvenIs(imm: Word)
    ensures IsEven(imm) <==> imm & 1 == 0
  {
    hide Upper31, LastBit, JoinLast, Rest, Carry, Int32;
    LastParts(imm);
    JoinLastInt(Upper31(imm), LastBit(imm));
    BitValue(LastBit(imm));
  }

  lemma Orders(x: Word, y: Word)
    ensures SignedLess(x, y) <==> Number(x, true) < Number(y, true)
    ensures x < y <==> Number(x, false) < Number(y, false)
  {
    hide SignedLess, Number, Value;
    SignedOrder(x, y);
    UnsignedOrder(x, y);
    NumberIs(x, true);
    NumberIs(y, true);
    NumberIs(x, false);
    NumberIs(y, false);
  }

  lemma ProductWord(n: int)
    ensures LowWord(n) == WordOf(n) && HighWord(n) == WordOf(n / 0x1_0000_0000)
  {
  }

  // ---- The ALU ----------------------------------------------------------------------------------------

  lemma ShiftBits(y: Word)
    requires y < 0x20
    ensures y & 0x3F == y && Amount(y) == y && Amount(y | 0x400) == y
  {
  }

  lemma SraShifts(x: Word, y: Word)
    ensures RightShift(x, Amount(y), BitAt(x, 31), Sra64(x, y))
  {
    hide BitAt, Sra64, Amount;
    var n := Amount(y);
    SraOf(x, y);
    forall i: Word | i < 32 ensures BitAt(Sra64(x, n), i) == if i + n < 32 then BitAt(x, i + n) else BitAt(x, 31) {
      SraIsArithmetic(x, n, i);
    }
  }

  lemma SraOf(x: Word, y: Word)
    ensures Sra64(x, y) == Sra64(x, Amount(y))
  {
    assert (y & 0x1F) & 0x1F == y & 0x1F;
  }

  lemma SrlShifts(x: Word, n: Word)
    requires n < 32
    ensures RightShift(x, n, 0, Shr(x, n))
  {
    hide BitAt;
    assert Shr(x, n) == x >> n;
    var r := x >> n;
    forall i: Word | i < 32 ensures BitAt(r, i) == if i + n < 32 then BitAt(x, i + n) else 0 {
      ShrBit(x, n, i);
    }
  }

  lemma SllShifts(x: Word, n: Word)
    requires n < 32
    ensures LeftShift(x, n, Shl(x, n))
  {
    hide BitAt;
    assert Shl(x, n) == x << n;
    var r := x << n;
    forall i: Word | i < 32 ensures BitAt(r, i) == if n <= i then BitAt(x, i - n) else 0 {
      if n <= i { ShlBitHigh(x, n, i); } else { ShlBitLow(x, n, i); }
    }
  }

  lemma AddComputes(x: Word, y: Word, imm: Word, pc: Word)
    ensures Computes(Add, x, y, Alu(Add, false, x, y, imm, pc))
  {
    hide Sum, Plus;
    SumIsPlus(x, y);
  }

  lemma AddiComputes(x: Word, y: Word, imm: Word, pc: Word)
    ensures Computes(Add, x, imm, Alu(Addi, false, x, y, imm, pc))
  {
    hide Sum, Plus;
    SumIsPlus(x, imm);
  }

  lemma SubComputes(x: Word, y: Word, imm: Word, pc: Word)
    ensures Computes(Sub, x, y, Alu(Sub, false, x, y, imm, pc))
  {
    hide Minus;
    DifferenceIsMinus(x, y);
  }

  lemma AndComputes(x: Word, y: Word, imm: Word, pc: Word)
    ensures Computes(And, x, y, Alu(And, false, x, y, imm, pc))
  {
  }

  lemma AndiComputes(x: Word, y: Word, imm: Word, pc: Word)
    ensures Computes(And, x, imm, Alu(Andi, false, x, y, imm, pc))
  {
  }

  lemma OrComputes(x: Word, y: Word, imm: Word, pc: Word)
    ensures Computes(Or, x, y, Alu(Or, false, x, y, imm, pc))
  {
  }

  lemma OriComputes(x: Word, y: Word, imm: Word, pc: Word)
    ensures Computes(Or, x, imm, Alu(Ori, false, x, y, imm, pc))
  {
  }

  lemma XorComputes(x: Word, y: Word, imm: Word, pc: Word)
    ensures Computes(Xor, x, y, Alu(Xor, false, x, y, imm, pc))
  {
  }

  lemma XoriComputes(x: Word, y: Word, imm: Word, pc: Word)
    ensures Computes(Xor, x, imm, Alu(Xori, false, x, y, imm, pc))
  {
  }

  lemma SltComputes(x: Word, y: Word, imm: Word, pc: Word)
    ensures Computes(Slt, x, y, Alu(Slt, false, x, y, imm, pc))
  {
    hide SetLess, SignedLess, Number;
    ComparisonsAreSigned(x, y);
    Orders(x, y);
  }

  lemma SltiComputes(x: Word, y: Word, imm: Word, pc: Word)
    ensures Computes(Slt, x, imm, Alu(Slti, false, x, y, imm, pc))
  {
    hide SetLess, SignedLess, Number;
    ComparisonsAreSigned(x, imm);
    Orders(x, imm);
  }

  lemma SltuComputes(x: Word, y: Word, imm: Word, pc: Word)
    ensures Computes(Sltu, x, y, Alu(Sltu, false, x, y, imm, pc))
  {
    hide SignedLess, Number;
    Orders(x, y);
  }

  lemma SltiuComputes(x: Word, y: Word, imm: Word, pc: Word)
    ensures Computes(Sltu, x, imm, Alu(Sltiu, false, x, y, imm, pc))
  {
    hide SignedLess, Number;
    Orders(x, imm);
  }

  lemma ShiftRegister(op: Op, x: Word, y: Word, imm: Word, pc: Word)
    requires op.Sll? || op.Srl? || op.Sra?
    ensures Computes(op, x, y, Alu(op, false, x, y, imm, pc))
  {
    hide Sra64, Shl, Shr, RightShift, LeftShift;
    SraShifts(x, y);
    SrlShifts(x, Amount(y));
    SllShifts(x, Amount(y));
  }

  lemma ProductComputes(op: Op, x: Word, y: Word, imm: Word, pc: Word)
    requires IsMul(op)
    ensures Computes(op, x, y, Alu(op, false, x, y, imm, pc))
  {
    hide Alu, LowWord, HighWord, WordOf, Value, Number;
    NumberIs(x, !op.Mulhu?);
    NumberIs(y, op.Mul? || op.Mulh?);
    ProductWord(Number(x, !op.Mulhu?) * Number(y, op.Mul? || op.Mulh?));
    if op.Mul? { MultiplyLow(x, y, imm, pc); } else { MultiplyHigh(op, x, y, imm, pc); }
  }

  lemma RegisterComputes(op: Op, x: Word, y: Word, imm: Word, pc: Word)
    requires FormatOf(op) == FormR
    ensures Computes(op, x, y, Alu(op, false, x, y, imm, pc))
  {
    hide Computes, Alu;
    AddComputes(x, y, imm, pc);
    SubComputes(x, y, imm, pc);
    AndComputes(x, y, imm, pc);
    OrComputes(x, y, imm, pc);
    XorComputes(x, y, imm, pc);
    SltComputes(x, y, imm, pc);
    SltuComputes(x, y, imm, pc);
    if IsMul(op) {
      ProductComputes(op, x, y, imm, pc);
    } else if op.Sll? || op.Srl? || op.Sra? {
      ShiftRegister(op, x, y, imm, pc);
    }
  }

  lemma AluShifts(x: Word, y: Word, imm: Word, pc: Word)
    ensures Alu(Slli, false, x, y, imm, pc) == Shl(x, imm & 0x3F)
    ensures Alu(Srli, false, x, y, imm, pc) == Shr(x, imm & 0x3F)
  {
    hide Shl, Shr;
  }

  lemma LogicalImmediates(x: Word, y: Word, imm: Word, pc: Word)
    requires imm < 0x20
    ensures Computes(Sll, x, imm, Alu(Slli, false, x, y, imm, pc))
    ensures Computes(Srl, x, imm, Alu(Srli, false, x, y, imm, pc))
  {
    hide Alu, Shl, Shr, RightShift, LeftShift, Amount;
    ShiftBits(imm);
    SllShifts(x, imm);
    SrlShifts(x, imm);
    AluShifts(x, y, imm, pc);
  }

  lemma SraiComputes(x: Word, y: Word, imm: Word, pc: Word)
    requires imm < 0x20
    ensures Computes(Sra, x, imm, Alu(Srai, false, x, y, imm | 0x400, pc))
  {
    hide Sra64, RightShift, Amount;
    ShiftBits(imm);
    SraShifts(x, imm | 0x400);
  }

  lemma ImmediateComputes(op: Op, x: Word, y: Word, imm: Word, pc: Word)
    requires OnImmediate(op) && (IsShift(op) ==> imm < 0x20)
    ensures Computes(BaseOf(op), x, imm, Alu(op, false, x, y, ShiftImm(op, imm), pc))
  {
    hide Computes, Alu;
    AddiComputes(x, y, imm, pc);
    AndiComputes(x, y, imm, pc);
    OriComputes(x, y, imm, pc);
    XoriComputes(x, y, imm, pc);
    SltiComputes(x, y, imm, pc);
    SltiuComputes(x, y, imm, pc);
    if IsShift(op) {
      LogicalImmediates(x, y, imm, pc);
      SraiComputes(x, y, imm, pc);
    }
  }

  lemma BranchTakes(op: Op, x: Word, y: Word)
    requires IsBranch(op)
    ensures Taken(op, x, y) == Takes(op, x, y)
  {
    hide SignedLess, Neg, Number;
    ComparisonsAreSigned(x, y);
    Orders(x, y);
  }

  lemma SumsArePlus()
    ensures forall x, y :: Sum(x, y) == Plus(x, y)
  {
    hide Sum, Plus;
    forall x, y ensures Sum(x, y) == Plus(x, y) { SumIsPlus(x, y); }
  }

  // ---- One step of the reference core ------------------------------------------------------------------

  lemma CoreSteps(m: Machine, a: Arch, d: Instr)
    requires m.dp == Core() && Decode(m.prog(a.pc)) == d
    ensures m.InstrAt(a) == d
    ensures m.Result(a) == Alu(d.op, d.isStore, ReadReg(a.regs, d.rs1), ReadReg(a.regs, d.rs2), d.imm, a.pc)
    ensures m.NextPc(a) ==
      if Taken(d.op, ReadReg(a.regs, d.rs1), ReadReg(a.regs, d.rs2)) || d.op.Jal? then Sum(a.pc, d.imm)
      else if d.op.Jalr? then Sum(ReadReg(a.regs, d.rs1), d.imm)
      else if IsTrap(d.op) then CsrRead(a.csrs, MTVEC)
      else if d.op.Mret? then CsrRead(a.csrs, MEPC)
      else Sum(a.pc, 4)
  {
    hide Decode, Taken, Alu, Sum, CsrRead;
  }

  lemma NeverTaken(op: Op, x: Word, y: Word)
    requires !IsBranch(op)
    ensures !Taken(op, x, y)
  {
    hide Neg;
  }

  /** An instruction that only writes its result to rd. */
  lemma PlainStep(m: Machine, a: Arch, d: Instr)
    requires m.dp == Core() && Decode(m.prog(a.pc)) == d && d.rdValid && !d.isStore
    requires !IsTrap(d.op) && !IsCsr(d.op) && !IsLoad(d.op)
    ensures m.Step(a) == Arch(m.NextPc(a), Put(a.regs, d.rd,
      Alu(d.op, false, ReadReg(a.regs, d.rs1), ReadReg(a.regs, d.rs2), d.imm, a.pc)), a.csrs, a.mem)
  {
    hide Decode, Taken, Alu, Sum, CsrRead;
    CoreSteps(m, a, d);
  }

  lemma FlowStep(m: Machine, a: Arch, d: Instr)
    requires m.dp == Core() && Decode(m.prog(a.pc)) == d && Flows(d.op)
    ensures m.NextPc(a) == Sum(a.pc, 4)
  {
    hide Decode, Taken, Alu, Sum, CsrRead;
    CoreSteps(m, a, d);
    NeverTaken(d.op, ReadReg(a.regs, d.rs1), ReadReg(a.regs, d.rs2));
  }

  /** An instruction that writes nothing. */
  lemma BareStep(m: Machine, a: Arch, d: Instr)
    requires m.dp == Core() && Decode(m.prog(a.pc)) == d && !d.rdValid && !d.isStore
    requires !IsTrap(d.op) && !IsCsr(d.op)
    ensures m.Step(a) == a.(pc := m.NextPc(a))
  {
    hide Decode, Taken, Alu, Sum, CsrRead;
  }

  lemma Funct7Bits(op: Op)
    ensures var f7 := Funct7Word(op);
      f7 < 0x80 && (f7 & 0x20 != 0 <==> op.Sub? || op.Sra?) && (f7 & 1 != 0 <==> IsMul(op))
  {
  }

  lemma RegisterDecodes(op: Op, rd: Word, rs1: Word, rs2: Word)
    requires Legal(Register(op, rd, rs1, rs2))
    ensures var d := Decode(Encode(Register(op, rd, rs1, rs2)));
      && d.op == op && d.rd == Int32(rd) && d.rs1 == Int32(rs1) && d.rs2 == Int32(rs2) && d.rdValid && !d.isStore
  {
    hide Decode, EncR, Field5, Int32, Selects, FormatOf, IsMul, OpcodeWord, Funct3Word, Funct7Word;
    RegisterNumber(rd);
    RegisterNumber(rs1);
    RegisterNumber(rs2);
    RegisterClass(op);
    OperationSelected(op);
    Funct7Bits(op);
    RegisterRoundTrip(op, OpcodeWord(op), rd, Funct3Word(op), rs1, rs2, Funct7Word(op));
  }

  lemma RegisterStep(m: Machine, a: Arch, op: Op, rd: Word, rs1: Word, rs2: Word)
    requires m.dp == Core() && Legal(Register(op, rd, rs1, rs2)) && m.prog(a.pc) == Encode(Register(op, rd, rs1, rs2))
    ensures Executes(Register(op, rd, rs1, rs2), a, m.Step(a))
  {
    hide Decode, Alu, Sum, Plus, Computes, Field5, Int32, FormatOf, Encode, IsCsr, IsLoad, Core, Takes, Even, Updated,
      Entered, Loaded, StoredTo, CsrRead, CsrWrite, IsEven, Within;
    SumsArePlus();
    RegisterDecodes(op, rd, rs1, rs2);
    var d := Decode(m.prog(a.pc));
    RegisterClass(op);
    PlainStep(m, a, d);
    FlowStep(m, a, d);
    RegisterComputes(op, At(a, rs1), At(a, rs2), d.imm, a.pc);
  }

  // ---- Immediates --------------------------------------------------------------------------------------

  lemma SmallSigned(imm: Word)
    requires imm < 0x20
    ensures SignExtended(imm, 0xFFFF_F800) && imm & 0x400 == 0
    ensures SignExtended(imm | 0x400, 0xFFFF_F800) && (imm | 0x400) & 0x400 != 0
  {
  }

  lemma ImmediateDecodes(op: Op, rd: Word, rs1: Word, imm: Word)
    requires Legal(Immediate(op, rd, rs1, imm))
    ensures var d := Decode(Encode(Immediate(op, rd, rs1, imm)));
      && d.op == op && d.rd == Int32(rd) && d.rs1 == Int32(rs1) && d.imm == ShiftImm(op, imm)
      && d.rdValid && !d.isStore
  {
    hide Decode, EncI, Field5, Int32, Selects, FormatOf, SignExtended, Within, IsEven, OpcodeWord, Funct3Word;
    RegisterNumber(rd);
    RegisterNumber(rs1);
    ImmediateClass(op);
    OperationSelected(op);
    if IsShift(op) { SmallSigned(imm); } else { Short(imm); }
    ImmediateRoundTrip(op, OpcodeWord(op), rd, Funct3Word(op), rs1, ShiftImm(op, imm));
  }

  lemma ImmediateStep(m: Machine, a: Arch, op: Op, rd: Word, rs1: Word, imm: Word)
    requires m.dp == Core() && Legal(Immediate(op, rd, rs1, imm))
    requires m.prog(a.pc) == Encode(Immediate(op, rd, rs1, imm))
    ensures Executes(Immediate(op, rd, rs1, imm), a, m.Step(a))
  {
    hide Decode, Alu, Sum, Plus, Computes, Field5, Int32, FormatOf, Encode, IsCsr, Core, SignExtended, Within, IsEven,
      ShiftImm, Takes, Even, Updated, Entered, Loaded, StoredTo, CsrRead, CsrWrite;
    SumsArePlus();
    ImmediateDecodes(op, rd, rs1, imm);
    var d := Decode(m.prog(a.pc));
    ImmediateClass(op);
    PlainStep(m, a, d);
    FlowStep(m, a, d);
    ImmediateComputes(op, At(a, rs1), ReadReg(a.regs, d.rs2), imm, a.pc);
  }

  // ---- Loads and stores ----------------------------------------------------------------------------------

  lemma LoadDecodes(op: Op, rd: Word, rs1: Word, imm: Word)
    requires Legal(Load(op, rd, rs1, imm))
    ensures var d := Decode(Encode(Load(op, rd, rs1, imm)));
      && d.op == op && d.rd == Int32(rd) && d.rs1 == Int32(rs1) && d.imm == imm && d.rdValid && !d.isStore
  {
    hide Decode, EncI, Field5, Int32, Selects, SignExtended, Within, IsEven, OpcodeWord, Funct3Word;
    RegisterNumber(rd);
    RegisterNumber(rs1);
    Classes(op);
    OtherClasses(op);
    Short(imm);
    OperationSelected(op);
    ImmediateRoundTrip(op, OpcodeWord(op), rd, Funct3Word(op), rs1, imm);
  }

  lemma LoadAddress(op: Op, x: Word, y: Word, imm: Word, pc: Word)
    requires IsLoad(op)
    ensures Alu(op, false, x, y, imm, pc) == Sum(x, imm)
  {
    hide Sum, Flag, Sra64, SetLess, Product, LowWord, HighWord, Shl, Shr;
  }

  lemma StoreAddress(op: Op, x: Word, y: Word, imm: Word, pc: Word)
    requires B.IsStore(op)
    ensures Alu(op, true, x, y, imm, pc) == Sum(x, imm)
  {
    hide Sum, Flag, Sra64, SetLess, Product, LowWord, HighWord, Shl, Shr;
  }

  lemma LoadingStep(m: Machine, a: Arch, d: Instr)
    requires m.dp == Core() && Decode(m.prog(a.pc)) == d && d.rdValid && !d.isStore && IsLoad(d.op)
    ensures m.Step(a) == Arch(Sum(a.pc, 4),
      Put(a.regs, d.rd, B.WordLoad(d.op, a.mem, Sum(ReadReg(a.regs, d.rs1), d.imm))), a.csrs, a.mem)
  {
    hide Decode, Taken, Alu, Sum, CsrRead, LoadValue, Rv32.ReadWord;
    CoreSteps(m, a, d);
    FlowStep(m, a, d);
    LoadAddress(d.op, ReadReg(a.regs, d.rs1), ReadReg(a.regs, d.rs2), d.imm, a.pc);
  }

  lemma LoadedIs(op: Op, mem: Mem, addr: Word)
    requires Loads(op) && B.Fits(op, addr) && |mem| == RAM_WORDS
    ensures B.WordLoad(op, mem, addr) == Loaded(op, mem, addr)
  {
    hide B.WordLoad, B.FlatLoad, B.Bytes, B.RamAddress, WordOf, B.Fits;
    B.LoadIsFlat(op, mem, addr);
  }

  lemma LoadStep(m: Machine, a: Arch, op: Op, rd: Word, rs1: Word, imm: Word)
    requires m.dp == Core() && Legal(Load(op, rd, rs1, imm)) && InReach(Load(op, rd, rs1, imm), a)
    requires m.prog(a.pc) == Encode(Load(op, rd, rs1, imm))
    ensures Executes(Load(op, rd, rs1, imm), a, m.Step(a))
  {
    hide Decode, Sum, Plus, Int32, Encode, Core, Within, B.Fits, B.WordLoad, Loaded, Computes, Takes, Even, Updated,
      Entered, StoredTo, CsrRead, CsrWrite, IsEven;
    Classes(op);
    SumsArePlus();
    LoadDecodes(op, rd, rs1, imm);
    LoadingStep(m, a, Decode(m.prog(a.pc)));
    LoadedIs(op, a.mem, Sum(At(a, rs1), imm));
  }

  lemma StoreDecodes(op: Op, rs1: Word, rs2: Word, imm: Word)
    requires Legal(Store(op, rs1, rs2, imm))
    ensures var d := Decode(Encode(Store(op, rs1, rs2, imm)));
      && d.op == op && d.rs1 == Int32(rs1) && d.rs2 == Int32(rs2) && d.imm == imm && !d.rdValid && d.isStore
  {
    hide Decode, EncS, Field5, Int32, Selects, SignExtended, Within, IsEven, OpcodeWord, Funct3Word;
    RegisterNumber(rs1);
    RegisterNumber(rs2);
    OtherClasses(op);
    Short(imm);
    OperationSelected(op);
    StoreRoundTrip(op, OpcodeWord(op), Funct3Word(op), rs1, rs2, imm);
  }

  lemma StoringStep(m: Machine, a: Arch, d: Instr)
    requires m.dp == Core() && Decode(m.prog(a.pc)) == d && !d.rdValid && d.isStore && B.IsStore(d.op)
    ensures m.Step(a) == Arch(Sum(a.pc, 4), a.regs, a.csrs,
      B.WordStore(d.op, a.mem, Sum(ReadReg(a.regs, d.rs1), d.imm), ReadReg(a.regs, d.rs2)))
  {
    hide Decode, Taken, Alu, Sum, CsrRead, WriteWord, StoreData, StoreMask;
    CoreSteps(m, a, d);
    FlowStep(m, a, d);
    StoreAddress(d.op, ReadReg(a.regs, d.rs1), ReadReg(a.regs, d.rs2), d.imm, a.pc);
  }

  lemma StoredIs(op: Op, mem: Mem, addr: Word, v: Word)
    requires Stores(op) && B.Fits(op, addr) && |mem| == RAM_WORDS
    ensures StoredTo(op, mem, B.WordStore(op, mem, addr, v), addr, v)
  {
    hide B.WordStore, B.FlatStore, B.Bytes, B.RamAddress, B.Fits;
    B.StoreIsFlat(op, mem, addr, v);
    B.SameSize(op, mem, addr, v);
  }

  lemma StoreStep(m: Machine, a: Arch, op: Op, rs1: Word, rs2: Word, imm: Word)
    requires m.dp == Core() && Legal(Store(op, rs1, rs2, imm)) && InReach(Store(op, rs1, rs2, imm), a)
    requires m.prog(a.pc) == Encode(Store(op, rs1, rs2, imm))
    ensures Executes(Store(op, rs1, rs2, imm), a, m.Step(a))
  {
    hide Decode, Sum, Plus, Int32, Encode, Core, Within, B.Fits, B.WordStore, StoredTo, Computes, Takes, Even,
      Updated, Entered, Loaded, CsrRead, CsrWrite, IsEven;
    Classes(op);
    SumsArePlus();
    StoreDecodes(op, rs1, rs2, imm);
    StoringStep(m, a, Decode(m.prog(a.pc)));
    StoredIs(op, a.mem, Sum(At(a, rs1), imm), At(a, rs2));
  }

  // ---- Branches and jumps ----------------------------------------------------------------------------------

  lemma BranchDecodes(op: Op, rs1: Word, rs2: Word, imm: Word)
    requires Legal(Branch(op, rs1, rs2, imm))
    ensures var d := Decode(Encode(Branch(op, rs1, rs2, imm)));
      && d.op == op && d.rs1 == Int32(rs1) && d.rs2 == Int32(rs2) && d.imm == imm && !d.rdValid && !d.isStore
  {
    hide Decode, EncB, Field5, Int32, Selects, SignExtended, Within, IsEven, OpcodeWord, Funct3Word;
    RegisterNumber(rs1);
    RegisterNumber(rs2);
    OtherClasses(op);
    Medium(imm);
    EvenIs(imm);
    OperationSelected(op);
    BranchRoundTrip(op, OpcodeWord(op), Funct3Word(op), rs1, rs2, imm);
  }

  lemma BranchingStep(m: Machine, a: Arch, d: Instr)
    requires m.dp == Core() && Decode(m.prog(a.pc)) == d && !d.rdValid && !d.isStore && IsBranch(d.op)
    ensures var t := Taken(d.op, ReadReg(a.regs, d.rs1), ReadReg(a.regs, d.rs2));
      m.Step(a) == a.(pc := Sum(a.pc, if t then d.imm else 4))
  {
    hide Decode, Taken, Sum, Core, CsrRead;
    CoreSteps(m, a, d);
    BareStep(m, a, d);
  }

  lemma BranchStep(m: Machine, a: Arch, op: Op, rs1: Word, rs2: Word, imm: Word)
    requires m.dp == Core() && Legal(Branch(op, rs1, rs2, imm)) && m.prog(a.pc) == Encode(Branch(op, rs1, rs2, imm))
    ensures Executes(Branch(op, rs1, rs2, imm), a, m.Step(a))
  {
    hide Decode, Sum, Plus, Field5, Int32, Encode, Core, SignExtended, Within, IsEven, Taken, Takes, Computes, Even,
      Updated, Entered, Loaded, StoredTo, CsrRead, CsrWrite;
    Classes(op);
    SumsArePlus();
    BranchDecodes(op, rs1, rs2, imm);
    BranchingStep(m, a, Decode(m.prog(a.pc)));
    BranchTakes(op, At(a, rs1), At(a, rs2));
  }

  lemma UpperDecodes(op: Op, rd: Word, imm: Word)
    requires Legal(Upper(op, rd, imm))
    ensures var d := Decode(Encode(Upper(op, rd, imm)));
      d.op == op && d.rd == Int32(rd) && d.imm == imm && d.rdValid && !d.isStore
  {
    hide Decode, EncU, Field5, Int32, OpcodeOf, OpcodeWord, Funct3Word;
    RegisterNumber(rd);
    OpcodeFits(op);
    UpperRoundTrip(op, OpcodeWord(op), rd, imm);
  }

  lemma UpperValue(op: Op, x: Word, y: Word, imm: Word, pc: Word)
    requires (op.Lui? || op.Auipc?) && LowClear(imm)
    ensures Alu(op, false, x, y, imm, pc) == if op.Lui? then imm else Sum(pc, imm)
  {
    hide Sum, Flag, Sra64, SetLess, Product, LowWord, HighWord, Shl, Shr;
    UpperBits(imm);
  }

  lemma UpperBits(imm: Word)
    requires LowClear(imm)
    ensures imm & 0xFFFF_F000 == imm
  {
  }

  lemma UpperStep(m: Machine, a: Arch, op: Op, rd: Word, imm: Word)
    requires m.dp == Core() && Legal(Upper(op, rd, imm)) && m.prog(a.pc) == Encode(Upper(op, rd, imm))
    ensures Executes(Upper(op, rd, imm), a, m.Step(a))
  {
    hide Decode, Alu, Sum, Plus, Field5, Int32, FormatOf, Encode, Core, IsCsr, Computes, Takes, Even, Updated,
      Entered, Loaded, StoredTo, CsrRead, CsrWrite, IsEven, Within;
    SumsArePlus();
    UpperDecodes(op, rd, imm);
    var d := Decode(m.prog(a.pc));
    OtherClasses(op);
    PlainStep(m, a, d);
    FlowStep(m, a, d);
    UpperValue(op, ReadReg(a.regs, d.rs1), ReadReg(a.regs, d.rs2), imm, a.pc);
  }

  lemma LinkValue(op: Op, x: Word, y: Word, imm: Word, pc: Word)
    requires op.Jal? || op.Jalr?
    ensures Alu(op, false, x, y, imm, pc) == Sum(pc, 4) && !Taken(Jalr, x, y)
  {
    hide Sum, Flag, Sra64, SetLess, Product, LowWord, HighWord, Shl, Shr;
  }

  lemma JumpDecodes(rd: Word, imm: Word)
    requires Legal(Jump(rd, imm))
    ensures var d := Decode(Encode(Jump(rd, imm)));
      d.op == Jal && d.rd == Int32(rd) && d.imm == imm && d.rdValid && !d.isStore
  {
    hide Decode, EncJ, Field5, Int32, SignExtended, Within, IsEven, OpcodeOf, OpcodeWord, Funct3Word;
    RegisterNumber(rd);
    Long(imm);
    EvenIs(imm);
    OpcodeFits(Jal);
    JumpRoundTrip(OpcodeWord(Jal), rd, imm);
  }

  lemma JumpStep(m: Machine, a: Arch, rd: Word, imm: Word)
    requires m.dp == Core() && Legal(Jump(rd, imm)) && m.prog(a.pc) == Encode(Jump(rd, imm))
    ensures Executes(Jump(rd, imm), a, m.Step(a))
  {
    hide Decode, Alu, Sum, Plus, Field5, Int32, Encode, Core, SignExtended, Within, IsEven, Taken, Computes, Takes,
      Even, Updated, Entered, Loaded, StoredTo, CsrRead, CsrWrite;
    SumsArePlus();
    JumpDecodes(rd, imm);
    var d := Decode(m.prog(a.pc));
    CoreSteps(m, a, d);
    PlainStep(m, a, d);
    LinkValue(Jal, ReadReg(a.regs, d.rs1), ReadReg(a.regs, d.rs2), imm, a.pc);
  }

  lemma JumpRegDecodes(rd: Word, rs1: Word, imm: Word)
    requires Legal(JumpReg(rd, rs1, imm))
    ensures var d := Decode(Encode(JumpReg(rd, rs1, imm)));
      && d.op == Jalr && d.rd == Int32(rd) && d.rs1 == Int32(rs1) && d.imm == imm && d.rdValid && !d.isStore
  {
    hide Decode, EncI, Field5, Int32, Selects, SignExtended, Within, IsEven, OpcodeWord, Funct3Word;
    RegisterNumber(rd);
    RegisterNumber(rs1);
    Short(imm);
    OperationSelected(Jalr);
    ImmediateRoundTrip(Jalr, OpcodeWord(Jalr), rd, Funct3Word(Jalr), rs1, imm);
  }

  /** The cores leave bit 0 of JALR's target as it is; the standard clears it. */
  lemma JumpRegStep(m: Machine, a: Arch, rd: Word, rs1: Word, imm: Word)
    requires m.dp == Core() && Legal(JumpReg(rd, rs1, imm)) && m.prog(a.pc) == Encode(JumpReg(rd, rs1, imm))
    ensures m.Step(a) == Next(a, rd, Plus(a.pc, 4)).(pc := Plus(At(a, rs1), imm))
    ensures Executes(JumpReg(rd, rs1, imm), a, m.Step(a)) <==> Even(Plus(At(a, rs1), imm)) == Plus(At(a, rs1), imm)
  {
    hide Decode, Alu, Sum, Plus, Field5, Int32, Encode, Core, SignExtended, Within, IsEven, Taken, Even, Computes,
      Takes, Updated, Entered, Loaded, StoredTo, CsrRead, CsrWrite;
    SumsArePlus();
    JumpRegDecodes(rd, rs1, imm);
    var d := Decode(m.prog(a.pc));
    CoreSteps(m, a, d);
    PlainStep(m, a, d);
    LinkValue(Jalr, ReadReg(a.regs, d.rs1), ReadReg(a.regs, d.rs2), imm, a.pc);
  }

  // ---- System ------------------------------------------------------------------------------------------------

  lemma CsrDecodes(op: Op, rd: Word, src: Word, csr: Word)
    requires Legal(Csr(op, rd, src, csr))
    ensures var d := Decode(Encode(Csr(op, rd, src, csr)));
      && d.op == op && d.rd == Int32(rd) && d.rs1 == Int32(src) && d.zimm == src && d.csrAddr == CsrNumber(csr)
      && d.rdValid && !d.isStore
  {
    hide Decode, EncI, Field5, Field12, Int32, CsrNumber, Selects, OpcodeWord, Funct3Word;
    RegisterNumber(rd);
    RegisterNumber(src);
    CsrNumberIs(csr);
    Classes(op);
    OperationSelected(op);
    CsrRoundTrip(op, OpcodeWord(op), rd, Funct3Word(op), src, csr);
  }

  lemma CsrKinds(op: Op)
    requires IsCsr(op)
    ensures CsrKindOf(op).RW? <==> op.Csrrw? || op.Csrrwi?
    ensures CsrKindOf(op).RS? <==> op.Csrrs? || op.Csrrsi?
  {
  }

  lemma CsrSets(op: Op, old_: Word, operand: Word)
    requires op.Csrrs? || op.Csrrsi?
    ensures CsrNew(RS, old_, operand) == Updated(op, old_, operand)
  {
  }

  lemma CsrClears(op: Op, old_: Word, operand: Word)
    requires op.Csrrc? || op.Csrrci?
    ensures CsrNew(RC, old_, operand) == Updated(op, old_, operand)
  {
  }

  lemma CsrSwaps(op: Op, old_: Word, operand: Word)
    requires op.Csrrw? || op.Csrrwi?
    ensures CsrNew(RW, old_, operand) == Updated(op, old_, operand)
  {
  }

  lemma CsrUpdates(op: Op, old_: Word, operand: Word)
    requires IsCsr(op)
    ensures CsrNew(CsrKindOf(op), old_, operand) == Updated(op, old_, operand)
  {
    hide CsrKindOf, CsrNew, Updated;
    CsrKinds(op);
    if op.Csrrw? || op.Csrrwi? {
      CsrSwaps(op, old_, operand);
    } else if op.Csrrs? || op.Csrrsi? {
      CsrSets(op, old_, operand);
    } else {
      CsrClears(op, old_, operand);
    }
  }

  lemma UpdatingStep(m: Machine, a: Arch, d: Instr)
    requires m.dp == Core() && Decode(m.prog(a.pc)) == d && d.rdValid && !d.isStore && IsCsr(d.op)
    ensures var old_ := CsrRead(a.csrs, d.csrAddr);
      m.Step(a) == Arch(Sum(a.pc, 4), Put(a.regs, d.rd, old_), CsrWrite(a.csrs, d.csrAddr,
        Updated(d.op, old_, if IsCsrImm(d.op) then d.zimm else ReadReg(a.regs, d.rs1))), a.mem)
  {
    hide Decode, Alu, Sum, CsrRead, CsrWrite, CsrNew, CsrKindOf, Updated, Taken;
    FlowStep(m, a, d);
    CsrUpdates(d.op, CsrRead(a.csrs, d.csrAddr), if IsCsrImm(d.op) then d.zimm else ReadReg(a.regs, d.rs1));
  }

  lemma CsrStep(m: Machine, a: Arch, op: Op, rd: Word, src: Word, csr: Word)
    requires m.dp == Core() && Legal(Csr(op, rd, src, csr)) && m.prog(a.pc) == Encode(Csr(op, rd, src, csr))
    ensures Executes(Csr(op, rd, src, csr), a, m.Step(a))
  {
    hide Decode, Sum, Plus, Field5, Field12, Int32, CsrNumber, Encode, CsrRead, CsrWrite, Updated, Core, Computes,
      IsCsrImm, Takes, Even, Entered, Loaded, StoredTo, IsEven, Within;
    Classes(op);
    SumsArePlus();
    CsrDecodes(op, rd, src, csr);
    UpdatingStep(m, a, Decode(m.prog(a.pc)));
  }

  lemma SystemDecodes()
    ensures Decode(0x0000_0073).op == Ecall && Decode(0x0010_0073).op == Ebreak && Decode(0x3020_0073).op == Mret
  {
    hide Imm, Field5, Field12;
  }

  lemma SystemBare(w: Word)
    requires w == 0x0000_0073 || w == 0x0010_0073 || w == 0x3020_0073
    ensures !Decode(w).isStore && (!IsCsr(Decode(w).op) ==> !Decode(w).rdValid)
  {
    hide Imm, Field5, Field12, Int32, CsrNumber, OpOf;
  }

  lemma TrappingStep(m: Machine, a: Arch, d: Instr)
    requires m.dp == Core() && Decode(m.prog(a.pc)) == d && IsTrap(d.op) && !d.rdValid && !d.isStore
    ensures m.Step(a) == Entered(a, if d.op.Ecall? then 11 else 3)
  {
    hide Decode, Alu, Sum, CsrRead, CsrWrite, Taken;
    NeverTaken(d.op, ReadReg(a.regs, d.rs1), ReadReg(a.regs, d.rs2));
  }

  lemma TrapStep(m: Machine, a: Arch, i: Asm)
    requires m.dp == Core() && (i.EnvCall? || i.EnvBreak?) && m.prog(a.pc) == Encode(i)
    ensures Executes(i, a, m.Step(a))
  {
    hide Decode, Core, Entered, Plus, Computes, Takes, Even, Updated, Next, At, Within, IsEven, Loaded, StoredTo,
      CsrRead, CsrWrite;
    SystemDecodes();
    SystemBare(m.prog(a.pc));
    TrappingStep(m, a, Decode(m.prog(a.pc)));
  }

  lemma ReturningStep(m: Machine, a: Arch, d: Instr)
    requires m.dp == Core() && Decode(m.prog(a.pc)) == d && d.op.Mret? && !d.rdValid && !d.isStore
    ensures m.Step(a) == a.(pc := CsrRead(a.csrs, MEPC))
  {
    hide Decode, Alu, Sum, CsrRead, Taken;
    NeverTaken(d.op, ReadReg(a.regs, d.rs1), ReadReg(a.regs, d.rs2));
  }

  lemma ReturnStep(m: Machine, a: Arch, i: Asm)
    requires m.dp == Core() && i.TrapReturn? && m.prog(a.pc) == Encode(i)
    ensures Executes(i, a, m.Step(a))
  {
    hide Decode, Core, CsrRead, Plus, Computes, Takes, Even, Updated, Next, At, Within, IsEven, Loaded, StoredTo,
      Entered, CsrWrite;
    SystemDecodes();
    SystemBare(m.prog(a.pc));
    ReturningStep(m, a, Decode(m.prog(a.pc)));
  }

  // ---- Words that encode no instruction ------------------------------------------------------------------

  /** instr[6:2], whose formats name a destination register. */
  predicate NamesRd(w: Word) {
    (w >> 2) & 0x1F in {0x00, 0x01, 0x04, 0x05, 0x06, 0x0B, 0x0C, 0x0D, 0x0E, 0x14, 0x19, 0x1B}
  }

  function RdOf(w: Word): Word { (w >> 7) & 0x1F }

  lemma UnknownFields(w: Word)
    requires Decode(w).op.Undecoded?
    ensures Decode(w).rdValid == NamesRd(w) && (Decode(w).isStore ==> !NamesRd(w)) && Decode(w).rd == Int32(RdOf(w))
  {
    hide OpOf, Imm, Field5, Field12, Int32;
    RegisterNumber(RdOf(w));
    RdField(w >> 7);
  }

  lemma RdField(v: Word)
    ensures Field5(v) == Field5(v & 0x1F)
  {
    assert (v & 0x1F) & 0x1F == v & 0x1F;
  }

  lemma NoLanes(mem: Mem, addr: Word, v: Word)
    ensures WriteWord(mem, addr, v, 0) == mem
  {
    hide WordIndex, Merge;
    var ix := WordIndex(addr);
    if ix < |mem| { MergeNone(mem[ix], v); }
  }

  lemma MergeNone(w: Word, v: Word)
    ensures Merge(w, v, 0) == w
  {
  }

  lemma UnknownMemory(m: Machine, a: Arch)
    requires m.dp == Core() && Decode(m.prog(a.pc)).op.Undecoded?
    ensures m.NextMem(a) == a.mem
  {
    hide Decode, WriteWord, StoreData, Alu;
    if m.InstrAt(a).isStore { NoLanes(a.mem, m.Result(a), StoreData(m.Src2(a), m.Result(a))); }
  }

  lemma UnknownValue(x: Word, y: Word, imm: Word, pc: Word)
    ensures Alu(Undecoded, false, x, y, imm, pc) == 0
  {
  }

  /** A word that encodes no operation the core knows moves on to the next, and clears the
      register in its rd field if its opcode's format has one. */
  lemma UnknownStep(m: Machine, a: Arch)
    requires m.dp == Core() && Decode(m.prog(a.pc)).op.Undecoded?
    ensures var w := m.prog(a.pc);
      m.Step(a) == Arch(Plus(a.pc, 4), if NamesRd(w) then Put(a.regs, Int32(RdOf(w)), 0) else a.regs, a.csrs, a.mem)
  {
    hide Decode, Taken, Alu, Sum, CsrRead, NamesRd, Plus, Int32, RdOf, Machine.NextMem;
    var d := Decode(m.prog(a.pc));
    SumsArePlus();
    UnknownFields(m.prog(a.pc));
    CoreSteps(m, a, d);
    FlowStep(m, a, d);
    UnknownMemory(m, a);
    UnknownValue(ReadReg(a.regs, d.rs1), ReadReg(a.regs, d.rs2), d.imm, a.pc);
  }

  /** The amount in an immediate shift word that is not legal: SLLI and SRLI heed
      instr[25], SRAI does not. */
  lemma WideShifts(x: Word, y: Word, imm: Word, pc: Word)
    requires imm & 0x20 != 0
    ensures Alu(Slli, false, x, y, imm, pc) == 0 && Alu(Srli, false, x, y, imm, pc) == 0
    ensures Computes(Sra, x, imm, Alu(Srai, false, x, y, imm, pc))
  {
    hide Sra64, RightShift, Amount;
    AluShifts(x, y, imm, pc);
    Beyond(imm);
    SraShifts(x, imm);
  }

  lemma Beyond(imm: Word)
    requires imm & 0x20 != 0
    ensures imm & 0x3F >= 32
  {
  }

  /** The reference core on the word of any legal instruction. */
  lemma StepExecutes(m: Machine, a: Arch, i: Asm)
    requires m.dp == Core() && Legal(i) && InReach(i, a) && m.prog(a.pc) == Encode(i)
    ensures Executes(i, a, m.Step(a)) <==> (i.JumpReg? ==> Even(Plus(At(a, i.rs1), i.imm)) == Plus(At(a, i.rs1), i.imm))
  {
    hide Legal, InReach, Encode, Executes, Core, Even, Plus;
    match i
    case Register(op, rd, rs1, rs2) => RegisterStep(m, a, op, rd, rs1, rs2);
    case Immediate(op, rd, rs1, imm) => ImmediateStep(m, a, op, rd, rs1, imm);
    case Load(op, rd, rs1, imm) => LoadStep(m, a, op, rd, rs1, imm);
    case Store(op, rs1, rs2, imm) => StoreStep(m, a, op, rs1, rs2, imm);
    case Branch(op, rs1, rs2, imm) => BranchStep(m, a, op, rs1, rs2, imm);
    case Upper(op, rd, imm) => UpperStep(m, a, op, rd, imm);
    case Jump(rd, imm) => JumpStep(m, a, rd, imm);
    case JumpReg(rd, rs1, imm) => JumpRegStep(m, a, rd, rs1, imm);
    case Csr(op, rd, src, csr) => CsrStep(m, a, op, rd, src, csr);
    case TrapReturn => ReturnStep(m, a, i);
    case _ => TrapStep(m, a, i);
  }
}
