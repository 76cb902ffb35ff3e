/** The instruction set as the two cores share it: decoded instructions, the
    CSR file, and the datapath (decoder, ALU, branch unit, byte lanes, memory)
    as a record of functions. Both cores are written over an arbitrary lawful
    datapath; module Rv32 supplies the one in the RTL. */
module Isa {

  type Word = bv32
  type CsrAddr = i: nat | i < 0x1000
  type Reg = i: nat | i < 32

  type RegFile = s: seq<Word> | |s| == 32 witness [0,0,0,0,0,0,0,0,0,0,0,0,0,0,0,0,0,0,0,0,0,0,0,0,0,0,0,0,0,0,0,0]
  /** Data memory, as whatever the datapath's readWord and writeWord make of it. */
  type Mem = seq<Word>

  const RAM_WORDS: nat := 4096

  /** A fetched instruction word for every address: instruction memory is read only. */
  type Program = Word -> Word

  const MSTATUS: CsrAddr := 0x300
  const MIE: CsrAddr := 0x304
  const MTVEC: CsrAddr := 0x305
  const MSCRATCH: CsrAddr := 0x340
  const MEPC: CsrAddr := 0x341
  const MCAUSE: CsrAddr := 0x342
  const MTVAL: CsrAddr := 0x343
  const MIP: CsrAddr := 0x344

  /** The one-hot control bits, at most one of which is set. `Undecoded` is the
      word that no `casez` arm matches. */
  datatype Op =
    | Undecoded
    | Lui | Auipc | Jal | Jalr
    | Beq | Bne | Blt | Bge | Bltu | Bgeu
    | Addi | Slti | Sltiu | Xori | Ori | Andi
    | Slli | Srli | Srai
    | Add | Sub | Sll | Slt | Sltu | Xor | Srl | Sra | Or | And
    | Mul | Mulh | Mulhsu | Mulhu
    | Lb | Lh | Lw | Lbu | Lhu
    | Sb | Sh | Sw
    | Csrrw | Csrrs | Csrrc | Csrrwi | Csrrsi | Csrrci
    | Ecall | Ebreak | Mret

  predicate IsLoad(op: Op) { op.Lb? || op.Lh? || op.Lw? || op.Lbu? || op.Lhu? }

  predicate IsBranch(op: Op) {
    op.Beq? || op.Bne? || op.Blt? || op.Bge? || op.Bltu? || op.Bgeu?
  }

  predicate IsCsrImm(op: Op) { op.Csrrwi? || op.Csrrsi? || op.Csrrci? }

  predicate IsCsr(op: Op) { op.Csrrw? || op.Csrrs? || op.Csrrc? || IsCsrImm(op) }

  predicate IsTrap(op: Op) { op.Ecall? || op.Ebreak? }

  datatype CsrKind = RW | RS | RC

  /** The two-bit operation type carried down the pipeline; anything that is
      neither a write nor a set encodes as clear. */
  function CsrKindOf(op: Op): CsrKind {
    if op.Csrrw? || op.Csrrwi? then RW
    else if op.Csrrs? || op.Csrrsi? then RS
    else RC
  }

  datatype Instr = Instr(
    op: Op, isStore: bool, rdValid: bool, rs1Valid: bool, rs2Valid: bool,
    rd: Reg, rs1: Reg, rs2: Reg, imm: Word, zimm: Word, csrAddr: CsrAddr)

  /** The instruction writes register rd (x0 is never written). */
  predicate Writes(d: Instr) { d.rdValid && d.rd != 0 }

  /** The eight CSRs that exist, by position in the CSR file. */
  function Slot(a: CsrAddr): nat {
    if a == MSTATUS then 0 else if a == MIE then 1 else if a == MTVEC then 2 else if a == MSCRATCH then 3
    else if a == MEPC then 4 else if a == MCAUSE then 5 else if a == MTVAL then 6 else if a == MIP then 7
    else 8
  }

  type Csrs = c: seq<Word> | |c| == 8 witness [0, 0, 0, 0, 0, 0, 0, 0]

  /** Every other address reads as 0. */
  function CsrRead(c: Csrs, a: CsrAddr): Word { if Slot(a) < 8 then c[Slot(a)] else 0 }

  /** Writes to unimplemented CSRs are ignored. */
  function CsrWrite(c: Csrs, a: CsrAddr, v: Word): (r: Csrs) {
    if Slot(a) < 8 then c[Slot(a) := v] else c
  }

  function ReadReg(regs: RegFile, r: Reg): Word { if r == 0 then 0 else regs[r] }

  /** The combinational blocks whose text is the same in both cores.
      alu takes (op, is_s_instr, src1, src2, imm, pc); csrNew takes (kind, old
      value, operand). */
  datatype Datapath = Datapath(
    plus: (Word, Word) -> Word,
    csrNew: (CsrKind, Word, Word) -> Word,
    decode: Word -> Instr,
    alu: (Op, bool, Word, Word, Word, Word) -> Word,
    branch: (Op, Word, Word) -> bool,
    storeData: (Word, Word) -> Word,
    storeMask: (Op, Word) -> bv4,
    loadValue: (Op, Word, Word) -> Word,
    readWord: (Mem, Word) -> Word,
    writeWord: (Mem, Word, Word, bv4) -> Mem)

  /** Decoder facts the pipeline relies on: a bubble's all-zero word does
      nothing, and a store-class word is no other kind of instruction. */
  ghost predicate DecodeLaw(dp: Datapath) {
    && dp.decode(0).op.Undecoded?
    && !dp.decode(0).isStore
    && forall w :: dp.decode(w).isStore ==>
         var op := dp.decode(w).op; op.Undecoded? || op.Sb? || op.Sh? || op.Sw?
  }

  /** An operand the decoder does not mark as read has no influence. */
  ghost predicate OperandLaw(dp: Datapath) {
    && (forall w, a, a', b, b', pc
          {:trigger dp.alu(dp.decode(w).op, dp.decode(w).isStore, a, b, dp.decode(w).imm, pc),
                    dp.alu(dp.decode(w).op, dp.decode(w).isStore, a', b', dp.decode(w).imm, pc)} ::
          (dp.decode(w).rs1Valid ==> a == a') && (dp.decode(w).rs2Valid ==> b == b') ==>
            dp.alu(dp.decode(w).op, dp.decode(w).isStore, a, b, dp.decode(w).imm, pc)
            == dp.alu(dp.decode(w).op, dp.decode(w).isStore, a', b', dp.decode(w).imm, pc))
    && (forall w :: IsBranch(dp.decode(w).op) ==> dp.decode(w).rs1Valid && dp.decode(w).rs2Valid)
    && (forall w :: dp.decode(w).op.Jalr? ==> dp.decode(w).rs1Valid)
    && (forall w :: dp.decode(w).isStore ==> dp.decode(w).rs2Valid)
    && (forall w :: IsCsr(dp.decode(w).op) ==>
          !dp.decode(w).rs2Valid && (IsCsrImm(dp.decode(w).op) || dp.decode(w).rs1Valid))
    && (forall op, a, b :: dp.branch(op, a, b) ==> IsBranch(op))
  }

  /** Repeating a store changes nothing: memory may see one several times. */
  ghost predicate MemoryLaw(dp: Datapath) {
    forall m, a, v, be :: dp.writeWord(dp.writeWord(m, a, v, be), a, v, be) == dp.writeWord(m, a, v, be)
  }

  ghost predicate Lawful(dp: Datapath) { DecodeLaw(dp) && OperandLaw(dp) && MemoryLaw(dp) }
}
