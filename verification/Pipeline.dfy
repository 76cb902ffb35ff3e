/** The five-stage pipelined core, as the next-state function of its registers. */
module Pipeline {
  import opened Isa

  datatype IfId = IfId(instr: Word, pc: Word, valid: bool)

  datatype IdEx = IdEx(
    op: Op, isStore: bool, rdValid: bool, rd: Reg, imm: Word,
    src1: Word, src2: Word, pc: Word, csrAddr: CsrAddr, valid: bool)

  datatype ExMem = ExMem(
    op: Op, isStore: bool, result: Word, src2: Word, rd: Reg,
    wrEn: bool, csrAddr: CsrAddr, valid: bool)

  datatype MemWb = MemWb(
    wrData: Word, rd: Reg, wrEn: bool, isCsr: bool, csrKind: CsrKind,
    csrAddr: CsrAddr, operand: Word, valid: bool)

  datatype Pipe = Pipe(
    pc: Word, ifid: IfId, idex: IdEx, exmem: ExMem, memwb: MemWb,
    csrs: Csrs, regs: RegFile)

  /** What the core sees in one clock: the halt pin, both memory responses and
      the interrupt line. */
  datatype Inputs = Inputs(
    halt: bool, imemVld: bool, imemData: Word, dmemVld: bool, ldData: Word, timerIrq: bool)

  const IFID_BUBBLE := IfId(0, 0, false)
  const IDEX_BUBBLE := IdEx(Undecoded, false, false, 0, 0, 0, 0, 0, 0, false)
  const MEMWB_BUBBLE := MemWb(0, 0, false, false, RW, 0, 0, false)

  predicate Bit3(w: Word) { w & 0x08 != 0 }
  predicate Bit7(w: Word) { w & 0x80 != 0 }

  // ---- EX: redirects and traps --------------------------------------------

  predicate IrqTaken(p: Pipe, i: Inputs) {
    i.timerIrq && Bit3(CsrRead(p.csrs, MSTATUS)) && Bit7(CsrRead(p.csrs, MIE))
    && !(IsTrap(p.idex.op) || p.idex.op.Mret?)
  }

  predicate ExTaken(dp: Datapath, p: Pipe) { dp.branch(p.idex.op, p.idex.src1, p.idex.src2) }

  predicate Redirects(dp: Datapath, p: Pipe) {
    ExTaken(dp, p) || p.idex.op.Jal? || p.idex.op.Jalr? || IsTrap(p.idex.op) || p.idex.op.Mret?
  }

  predicate Flush(dp: Datapath, p: Pipe, i: Inputs) { Redirects(dp, p) || IrqTaken(p, i) }

  function NextPc(dp: Datapath, p: Pipe, i: Inputs): Word {
    if IrqTaken(p, i) then CsrRead(p.csrs, MTVEC)
    else if ExTaken(dp, p) || p.idex.op.Jal? then dp.plus(p.idex.pc, p.idex.imm)
    else if p.idex.op.Jalr? then dp.plus(p.idex.src1, p.idex.imm)
    else if IsTrap(p.idex.op) then CsrRead(p.csrs, MTVEC)
    else if p.idex.op.Mret? then CsrRead(p.csrs, MEPC)
    else dp.plus(p.pc, 4)
  }

  function ExResult(dp: Datapath, p: Pipe): Word {
    dp.alu(p.idex.op, p.idex.isStore, p.idex.src1, p.idex.src2, p.idex.imm, p.idex.pc)
  }

  predicate ExWrites(p: Pipe) { p.idex.rd != 0 && p.idex.rdValid }

  // ---- ID: hazards ----------------------------------------------------------

  /** Some instruction in EX, MEM or WB will write register r. */
  predicate Pending(p: Pipe, r: Reg) {
    || (p.idex.valid && ExWrites(p) && p.idex.rd == r)
    || (p.exmem.valid && p.exmem.wrEn && p.exmem.rd == r)
    || (p.memwb.valid && p.memwb.wrEn && p.memwb.rd == r)
  }

  predicate ExWritesCsr(p: Pipe, a: CsrAddr) { p.idex.valid && IsCsr(p.idex.op) && p.idex.csrAddr == a }

  predicate MemWritesCsr(p: Pipe, a: CsrAddr) { p.exmem.valid && IsCsr(p.exmem.op) && p.exmem.csrAddr == a }

  predicate WbWritesCsr(p: Pipe, a: CsrAddr) { p.memwb.valid && p.memwb.isCsr && p.memwb.csrAddr == a }

  predicate PrivHazard(d: Instr, p: Pipe, i: Inputs) {
    var a := if d.op.Mret? then MEPC else MTVEC;
    && (IsTrap(d.op) || d.op.Mret? || IrqTaken(p, i))
    && (ExWritesCsr(p, a) || MemWritesCsr(p, a) || WbWritesCsr(p, a))
  }

  predicate IdStall(dp: Datapath, p: Pipe, i: Inputs) {
    var d := dp.decode(p.ifid.instr);
    && p.ifid.valid
    && !Flush(dp, p, i)
    && (|| PrivHazard(d, p, i)
        || (d.rs1Valid && d.rs1 != 0 && Pending(p, d.rs1))
        || (d.rs2Valid && d.rs2 != 0 && Pending(p, d.rs2)))
  }

  // ---- Memory handshake -----------------------------------------------------

  predicate DmemWe(p: Pipe) { p.exmem.isStore && p.exmem.valid }

  predicate DmemRe(p: Pipe) { IsLoad(p.exmem.op) && p.exmem.valid }

  predicate DmemReq(p: Pipe) { DmemWe(p) || DmemRe(p) }

  predicate MemWait(p: Pipe, i: Inputs) { DmemReq(p) && !i.dmemVld }

  predicate IfWait(i: Inputs) { !i.halt && !i.imemVld }

  predicate FrontStall(dp: Datapath, p: Pipe, i: Inputs) { IdStall(dp, p, i) || IfWait(i) }

  // ---- Next state, one function per always_ff block -------------------------

  function StepPc(dp: Datapath, p: Pipe, i: Inputs): Word {
    if i.halt || MemWait(p, i) then p.pc
    else if Flush(dp, p, i) then NextPc(dp, p, i)
    else if FrontStall(dp, p, i) then p.pc
    else NextPc(dp, p, i)
  }

  function StepIfId(dp: Datapath, p: Pipe, i: Inputs): IfId {
    if i.halt || MemWait(p, i) then p.ifid
    else if Flush(dp, p, i) then IFID_BUBBLE
    else if FrontStall(dp, p, i) then p.ifid
    else IfId(i.imemData, p.pc, true)
  }

  function Issue(dp: Datapath, p: Pipe): IdEx {
    var d := dp.decode(p.ifid.instr);
    var s1 := ReadReg(p.regs, d.rs1);
    var s2 := ReadReg(p.regs, d.rs2);
    var operand := if IsCsrImm(d.op) then d.zimm else s1;
    IdEx(d.op, d.isStore, d.rdValid, d.rd, d.imm, s1, if IsCsr(d.op) then operand else s2,
         p.ifid.pc, d.csrAddr, p.ifid.valid)
  }

  function StepIdEx(dp: Datapath, p: Pipe, i: Inputs): IdEx {
    if i.halt || MemWait(p, i) then p.idex
    else if Flush(dp, p, i) then IDEX_BUBBLE
    else if FrontStall(dp, p, i) then IDEX_BUBBLE
    else Issue(dp, p)
  }

  function StepExMem(dp: Datapath, p: Pipe, i: Inputs): ExMem {
    if i.halt || MemWait(p, i) then p.exmem
    else ExMem(p.idex.op, p.idex.isStore, ExResult(dp, p), p.idex.src2, p.idex.rd,
               ExWrites(p), p.idex.csrAddr, p.idex.valid)
  }

  function StepMemWb(dp: Datapath, p: Pipe, i: Inputs): MemWb {
    if i.halt then p.memwb
    else if MemWait(p, i) then MEMWB_BUBBLE
    else
      MemWb(if IsLoad(p.exmem.op) then dp.loadValue(p.exmem.op, p.exmem.result, i.ldData) else p.exmem.result,
            p.exmem.rd, p.exmem.wrEn, IsCsr(p.exmem.op), CsrKindOf(p.exmem.op),
            p.exmem.csrAddr, p.exmem.src2, p.exmem.valid)
  }

  /** mip bit 7 reads as the live timer line. */
  function CsrReadWb(p: Pipe, i: Inputs): Word {
    if p.memwb.csrAddr == MIP then
      (CsrRead(p.csrs, MIP) & 0xFFFF_FF7F) | (if i.timerIrq then 0x80 else 0)
    else CsrRead(p.csrs, p.memwb.csrAddr)
  }

  function CsrNewWb(dp: Datapath, p: Pipe, i: Inputs): Word {
    dp.csrNew(p.memwb.csrKind, CsrReadWb(p, i), p.memwb.operand)
  }

  /** MPIE <= MIE, MIE <= 0. */
  function TrapStatus(s: Word): Word {
    (s & 0xFFFF_FF77) | (if Bit3(s) then 0x80 else 0)
  }

  /** MIE <= MPIE, MPIE <= 1. */
  function MretStatus(s: Word): Word {
    (s & 0xFFFF_FF77) | 0x80 | (if Bit7(s) then 0x08 else 0)
  }

  function WbCsrs(dp: Datapath, p: Pipe, i: Inputs): Csrs {
    if p.memwb.isCsr && p.memwb.valid && !i.halt
    then CsrWrite(p.csrs, p.memwb.csrAddr, CsrNewWb(dp, p, i)) else p.csrs
  }

  /** mstatus after the write c of WB, with bits 3 and 7 overridden by v. */
  function StackedStatus(c: Csrs, v: Word): Word { (CsrRead(c, MSTATUS) & 0xFFFF_FF77) | (v & 0x88) }

  /** The WB-stage CSR write, then the EX-stage trap entry or return on top of
      it. mstatus bits 3 and 7 are taken from the value before the clock edge. */
  function StepCsrs(dp: Datapath, p: Pipe, i: Inputs): Csrs {
    var c := WbCsrs(dp, p, i);
    if !i.halt && !MemWait(p, i) && (IsTrap(p.idex.op) || IrqTaken(p, i)) then
      CsrWrite(CsrWrite(CsrWrite(c, MEPC, p.idex.pc),
        MCAUSE, if IrqTaken(p, i) then 0x8000_0007 else if p.idex.op.Ecall? then 11 else 3),
        MSTATUS, StackedStatus(c, TrapStatus(CsrRead(p.csrs, MSTATUS))))
    else if !i.halt && !MemWait(p, i) && p.idex.op.Mret? then
      CsrWrite(c, MSTATUS, StackedStatus(c, MretStatus(CsrRead(p.csrs, MSTATUS))))
    else c
  }

  predicate Commits(p: Pipe, i: Inputs) { p.memwb.valid && !i.halt }

  function StepRegs(p: Pipe, i: Inputs): RegFile {
    if p.memwb.wrEn && p.memwb.rd != 0 && Commits(p, i)
    then p.regs[p.memwb.rd := if p.memwb.isCsr then CsrReadWb(p, i) else p.memwb.wrData]
    else p.regs
  }

  /** One clock edge. */
  function Clock(dp: Datapath, p: Pipe, i: Inputs): Pipe {
    Pipe(StepPc(dp, p, i), StepIfId(dp, p, i), StepIdEx(dp, p, i), StepExMem(dp, p, i),
         StepMemWb(dp, p, i), StepCsrs(dp, p, i), StepRegs(p, i))
  }
}
