/** What instructions mean: chapters 2, 7 and 9 of the RISC-V Unprivileged ISA 20191213 on
    register numbers, on the integers that words stand for, and on a memory of bytes.
    ECALL, EBREAK and MRET move mepc, mcause and the pc only. */
module IsaMeaning {
  import opened Isa
  import opened Golden
  import opened Conformance
  import opened WordInts
  import B = ByteLanes

  /** An instruction with its fields as bit patterns. */
  datatype Asm =
    | Register(op: Op, rd: Word, rs1: Word, rs2: Word)
    | Immediate(op: Op, rd: Word, rs1: Word, imm: Word)
    | Load(op: Op, rd: Word, rs1: Word, imm: Word)
    | Store(op: Op, rs1: Word, rs2: Word, imm: Word)
    | Branch(op: Op, rs1: Word, rs2: Word, imm: Word)
    | Upper(op: Op, rd: Word, imm: Word)
    | Jump(rd: Word, imm: Word)
    | JumpReg(rd: Word, rs1: Word, imm: Word)
    | Csr(op: Op, rd: Word, src: Word, csr: Word)
    | EnvCall | EnvBreak | TrapReturn

  /** The instruction of the same meaning on two registers. */
  function BaseOf(op: Op): Op {
    match op
    case Addi => Add case Slti => Slt case Sltiu => Sltu case Xori => Xor case Ori => Or case Andi => And
    case Slli => Sll case Srli => Srl case Srai => Sra
    case _ => op
  }

  predicate OnRegisters(op: Op) {
    match op
    case Add | Sub | Sll | Slt | Sltu | Xor | Srl | Sra | Or | And | Mul | Mulh | Mulhsu | Mulhu => true
    case _ => false
  }

  predicate OnImmediate(op: Op) {
    match op
    case Addi | Slti | Sltiu | Xori | Ori | Andi | Slli | Srli | Srai => true
    case _ => false
  }

  predicate IsShift(op: Op) { op.Slli? || op.Srli? || op.Srai? }

  predicate Loads(op: Op) { op.Lb? || op.Lh? || op.Lw? || op.Lbu? || op.Lhu? }

  predicate Stores(op: Op) { op.Sb? || op.Sh? || op.Sw? }

  predicate Branches(op: Op) { op.Beq? || op.Bne? || op.Blt? || op.Bge? || op.Bltu? || op.Bgeu? }

  predicate OnCsr(op: Op) { op.Csrrw? || op.Csrrs? || op.Csrrc? || TakesField(op) }

  /** The register field is the operand itself. */
  predicate TakesField(op: Op) { op.Csrrwi? || op.Csrrsi? || op.Csrrci? }

  /** The integer a word stands for, as two's complement or unsigned. */
  function Number(w: Word, signed: bool): int {
    if signed && Int32(w) >= 0x8000_0000 then Int32(w) - 0x1_0000_0000 else Int32(w)
  }

  /** Below 2^(n - 1) in size, so that n bits hold it. */
  predicate Within(imm: Word, half: int) { -half <= Number(imm, true) < half }

  predicate IsEven(imm: Word) { Int32(imm) % 2 == 0 }

  /** Registers are five bits wide; immediates have the range of their format. */
  predicate Legal(i: Asm) {
    match i
    case Register(op, rd, rs1, rs2) => OnRegisters(op) && rd < 0x20 && rs1 < 0x20 && rs2 < 0x20
    case Immediate(op, rd, rs1, imm) =>
      && OnImmediate(op) && rd < 0x20 && rs1 < 0x20
      && if IsShift(op) then imm < 0x20 else Within(imm, 0x800)
    case Load(op, rd, rs1, imm) => Loads(op) && rd < 0x20 && rs1 < 0x20 && Within(imm, 0x800)
    case Store(op, rs1, rs2, imm) => Stores(op) && rs1 < 0x20 && rs2 < 0x20 && Within(imm, 0x800)
    case Branch(op, rs1, rs2, imm) => Branches(op) && rs1 < 0x20 && rs2 < 0x20 && Within(imm, 0x1000) && IsEven(imm)
    case Upper(op, rd, imm) => (op.Lui? || op.Auipc?) && rd < 0x20 && imm & 0xFFF == 0
    case Jump(rd, imm) => rd < 0x20 && Within(imm, 0x10_0000) && IsEven(imm)
    case JumpReg(rd, rs1, imm) => rd < 0x20 && rs1 < 0x20 && Within(imm, 0x800)
    case Csr(op, rd, src, csr) => OnCsr(op) && rd < 0x20 && src < 0x20 && csr < 0x1000
    case _ => true
  }

  // ---- Effects --------------------------------------------------------------------------------------

  /** Bit i of r is bit i + n of x, or fill where that is beyond the top. */
  ghost predicate RightShift(x: Word, n: Word, fill: Word, r: Word) {
    forall i: Word :: i < 32 ==> BitAt(r, i) == if i + n < 32 then BitAt(x, i + n) else fill
  }

  /** Bit i of r is bit i - n of x, or 0 where there is none. */
  ghost predicate LeftShift(x: Word, n: Word, r: Word)
    requires n < 32
  {
    forall i: Word :: i < 32 ==> BitAt(r, i) == if n <= i then BitAt(x, i - n) else 0
  }

  /** The low five bits, a shift amount. */
  function Amount(y: Word): (n: Word)
    ensures n < 32
  {
    y & 0x1F
  }

  /** r is what op makes of x and y: sums and differences modulo 2^32, shifts bit by bit,
      comparisons of the values, the low or high word of the product of the values. */
  ghost predicate Computes(op: Op, x: Word, y: Word, r: Word) {
    match op
    case Add => r == Plus(x, y)
    case Sub => r == Minus(x, y)
    case And => r == x & y
    case Or => r == x | y
    case Xor => r == x ^ y
    case Sll => LeftShift(x, Amount(y), r)
    case Srl => RightShift(x, Amount(y), 0, r)
    case Sra => RightShift(x, Amount(y), BitAt(x, 31), r)
    case Slt => r == if Number(x, true) < Number(y, true) then 1 else 0
    case Sltu => r == if Number(x, false) < Number(y, false) then 1 else 0
    case Mul => r == WordOf(Number(x, true) * Number(y, true))
    case Mulh => r == WordOf(Number(x, true) * Number(y, true) / 0x1_0000_0000)
    case Mulhsu => r == WordOf(Number(x, true) * Number(y, false) / 0x1_0000_0000)
    case Mulhu => r == WordOf(Number(x, false) * Number(y, false) / 0x1_0000_0000)
    case _ => false
  }

  predicate Takes(op: Op, x: Word, y: Word) {
    match op
    case Beq => x == y
    case Bne => x != y
    case Blt => Number(x, true) < Number(y, true)
    case Bge => Number(x, true) >= Number(y, true)
    case Bltu => Number(x, false) < Number(y, false)
    case Bgeu => Number(x, false) >= Number(y, false)
    case _ => false
  }

  /** x0 always reads as 0, and writing it has no effect. */
  function Get(regs: RegFile, r: nat): Word { if 0 < r < 32 then regs[r] else 0 }

  function Put(regs: RegFile, r: nat, v: Word): RegFile { if 0 < r < 32 then regs[r := v] else regs }

  /** Bit 0 cleared. */
  function Even(w: Word): Word { w & 0xFFFF_FFFE }

  /** To the next instruction, with v in rd. */
  function Next(a: Arch, rd: Word, v: Word): Arch { Arch(Plus(a.pc, 4), Put(a.regs, Int32(rd), v), a.csrs, a.mem) }

  function At(a: Arch, r: Word): Word { Get(a.regs, Int32(r)) }

  /** The address of an access, which must be natural and in a memory of full size. */
  predicate Reaches(op: Op, rs1: Word, imm: Word, a: Arch) {
    |a.mem| == RAM_WORDS && B.Fits(op, Plus(At(a, rs1), imm))
  }

  predicate InReach(i: Asm, a: Arch) {
    match i
    case Load(op, _, rs1, imm) => Reaches(op, rs1, imm, a)
    case Store(op, rs1, _, imm) => Reaches(op, rs1, imm, a)
    case _ => true
  }

  /** b is the state after i. */
  ghost predicate Executes(i: Asm, a: Arch, b: Arch)
    requires Legal(i) && InReach(i, a)
  {
    hide Plus, Computes, Within, IsEven;
    match i
    case Register(op, rd, rs1, rs2) => exists r :: Computes(op, At(a, rs1), At(a, rs2), r) && b == Next(a, rd, r)
    case Immediate(op, rd, rs1, imm) => exists r :: Computes(BaseOf(op), At(a, rs1), imm, r) && b == Next(a, rd, r)
    case Load(op, rd, rs1, imm) => b == Next(a, rd, Loaded(op, a.mem, Plus(At(a, rs1), imm)))
    case Store(op, rs1, rs2, imm) =>
      && b.pc == Plus(a.pc, 4) && b.regs == a.regs && b.csrs == a.csrs
      && StoredTo(op, a.mem, b.mem, Plus(At(a, rs1), imm), At(a, rs2))
    case Branch(op, rs1, rs2, imm) => b == a.(pc := Plus(a.pc, if Takes(op, At(a, rs1), At(a, rs2)) then imm else 4))
    case Upper(op, rd, imm) => b == Next(a, rd, if op.Lui? then imm else Plus(a.pc, imm))
    case Jump(rd, imm) => b == Next(a, rd, Plus(a.pc, 4)).(pc := Plus(a.pc, imm))
    case JumpReg(rd, rs1, imm) => b == Next(a, rd, Plus(a.pc, 4)).(pc := Even(Plus(At(a, rs1), imm)))
    case Csr(op, rd, src, csr) =>
      var old_ := CsrRead(a.csrs, CsrNumber(csr));
      var operand := if TakesField(op) then src else At(a, src);
      b == Next(a, rd, old_).(csrs := CsrWrite(a.csrs, CsrNumber(csr), Updated(op, old_, operand)))
    case EnvCall => b == Entered(a, 11)
    case EnvBreak => b == Entered(a, 3)
    case TrapReturn => b == a.(pc := CsrRead(a.csrs, 0x341))
  }

  function CsrNumber(csr: Word): CsrAddr { if 0 <= Int32(csr) < 0x1000 then Int32(csr) else 0 }

  /** Bytes of the flat memory, as the load's mnemonic extends them. */
  function Loaded(op: Op, mem: Mem, addr: Word): Word
    requires Loads(op) && B.Fits(op, addr) && |mem| == RAM_WORDS
  {
    B.LoadIsFlat(op, mem, addr);
    WordOf(B.FlatLoad(op, B.Bytes(mem), B.RamAddress(addr)))
  }

  /** The flat memory with the store's bytes in it. */
  ghost predicate StoredTo(op: Op, mem: Mem, after: Mem, addr: Word, v: Word)
    requires Stores(op) && B.Fits(op, addr) && |mem| == RAM_WORDS
  {
    B.StoreIsFlat(op, mem, addr, v);
    |after| == |mem| && B.Bytes(after) == B.FlatStore(op, B.Bytes(mem), B.RamAddress(addr), Int32(v))
  }

  /** What a CSR instruction leaves: the operand, its bits set, or its bits cleared. */
  function Updated(op: Op, old_: Word, operand: Word): Word {
    if op.Csrrw? || op.Csrrwi? then operand
    else if op.Csrrs? || op.Csrrsi? then old_ | operand
    else old_ & !operand
  }

  function Entered(a: Arch, cause: Word): Arch {
    a.(pc := CsrRead(a.csrs, 0x305), csrs := CsrWrite(CsrWrite(a.csrs, 0x341, a.pc), 0x342, cause))
  }
}
