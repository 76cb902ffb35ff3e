/** One clock edge of the CSR block, register by register and bit by bit: the CSR file
    itself, the write of WB, trap entry, return and the timer interrupt on top of it. */
module CsrEdge {
  import opened Isa
  import opened Pipeline

  // ---- The CSR file -------------------------------------------------------------------------

  predicate Implemented(a: CsrAddr) { a in {0x300, 0x304, 0x305, 0x340, 0x341, 0x342, 0x343, 0x344} }

  /** Eight registers that do not share storage; every other address reads as 0 and
      ignores writes. */
  lemma CsrFileLaws(c: Csrs, a: CsrAddr, b: CsrAddr, v: Word)
    ensures CsrRead(CsrWrite(c, a, v), b) == if a == b && Implemented(a) then v else CsrRead(c, b)
    ensures !Implemented(b) ==> CsrRead(c, b) == 0
    ensures !Implemented(a) ==> CsrWrite(c, a, v) == c
  {
  }

  /** What WB leaves: of a valid CSR instruction its new value in its register. */
  lemma WbWrite(dp: Datapath, p: Pipe, i: Inputs, b: CsrAddr)
    requires !i.halt
    ensures CsrRead(WbCsrs(dp, p, i), b)
      == if p.memwb.valid && p.memwb.isCsr && p.memwb.csrAddr == b && Implemented(b) then
           dp.csrNew(p.memwb.csrKind, CsrReadWb(p, i), p.memwb.operand)
         else CsrRead(p.csrs, b)
  {
    hide CsrRead, CsrWrite, CsrReadWb;
    CsrFileLaws(p.csrs, p.memwb.csrAddr, b, CsrNewWb(dp, p, i));
  }

  /** Bit 7 of mip is the timer line, its other bits and every other register are
      storage. */
  lemma PendingBit(p: Pipe, i: Inputs)
    ensures p.memwb.csrAddr != 0x344 ==> CsrReadWb(p, i) == CsrRead(p.csrs, p.memwb.csrAddr)
    ensures p.memwb.csrAddr == 0x344 ==>
      (CsrReadWb(p, i) & 0x80 != 0 <==> i.timerIrq) && CsrReadWb(p, i) & !0x80 == CsrRead(p.csrs, 0x344) & !0x80
  {
    hide CsrRead;
    PendingBits(CsrRead(p.csrs, 0x344), i.timerIrq);
  }

  /** A CSR instruction leaving WB puts what it read into rd and leaves the other
      registers; x0 is never written. */
  lemma ReadToRegister(dp: Datapath, p: Pipe, i: Inputs)
    requires !i.halt && p.memwb.valid && p.memwb.isCsr
    ensures var n, rd := Clock(dp, p, i).regs, p.memwb.rd;
      && (forall r: Reg :: r != rd || rd == 0 || !p.memwb.wrEn ==> n[r] == p.regs[r])
      && (rd != 0 && p.memwb.wrEn && p.memwb.csrAddr != 0x344 ==> n[rd] == CsrRead(p.csrs, p.memwb.csrAddr))
      && (rd != 0 && p.memwb.wrEn && p.memwb.csrAddr == 0x344 ==>
            (n[rd] & 0x80 != 0 <==> i.timerIrq) && n[rd] & !0x80 == CsrRead(p.csrs, 0x344) & !0x80)
  {
    hide CsrRead, CsrReadWb, StepCsrs, StepPc, StepIfId, StepIdEx, StepExMem, StepMemWb;
    PendingBit(p, i);
  }

  lemma PendingBits(w: Word, irq: bool)
    ensures var r := (w & 0xFFFF_FF7F) | (if irq then 0x80 else 0);
      (r & 0x80 != 0 <==> irq) && r & !0x80 == w & !0x80
  {
  }

  // ---- mstatus ------------------------------------------------------------------------------

  /** after has bit 3 and bit 7 as given, and its other bits from rest. */
  predicate HasBits(after: Word, mie: bool, mpie: bool, rest: Word) {
    (after & 0x08 != 0 <==> mie) && (after & 0x80 != 0 <==> mpie) && after & !0x88 == rest & !0x88
  }

  lemma Stacked(w: Word, v: Word)
    ensures HasBits((w & 0xFFFF_FF77) | (v & 0x88), v & 0x08 != 0, v & 0x80 != 0, w)
  {
  }

  lemma TrapBits(s: Word)
    ensures TrapStatus(s) & 0x08 == 0 && (TrapStatus(s) & 0x80 != 0 <==> s & 0x08 != 0)
  {
  }

  lemma MretBits(s: Word)
    ensures MretStatus(s) & 0x80 != 0 && (MretStatus(s) & 0x08 != 0 <==> s & 0x80 != 0)
  {
  }

  lemma StackedBits(c: Csrs, v: Word)
    ensures HasBits(StackedStatus(c, v), v & 0x08 != 0, v & 0x80 != 0, CsrRead(c, 0x300))
  {
    hide CsrRead, HasBits;
    Stacked(CsrRead(c, 0x300), v);
  }

  // ---- The edge -----------------------------------------------------------------------------

  predicate Runs(p: Pipe, i: Inputs) { !i.halt && !MemWait(p, i) }

  /** An enabled timer interrupt, unless EX redirects by a trap or a return itself. */
  predicate Interrupted(p: Pipe, i: Inputs) {
    && i.timerIrq && CsrRead(p.csrs, 0x300) & 0x08 != 0 && CsrRead(p.csrs, 0x304) & 0x80 != 0
    && !p.idex.op.Ecall? && !p.idex.op.Ebreak? && !p.idex.op.Mret?
  }

  /** ECALL, EBREAK or an interrupt: mepc takes the pc in EX, mcause the cause, MPIE the
      old MIE, MIE is cleared, and everything else is as WB leaves it. */
  lemma EntryEdge(dp: Datapath, p: Pipe, i: Inputs)
    requires Runs(p, i) && (p.idex.op.Ecall? || p.idex.op.Ebreak? || Interrupted(p, i))
    ensures var w, n := WbCsrs(dp, p, i), Clock(dp, p, i).csrs;
      && HasBits(CsrRead(n, 0x300), false, CsrRead(p.csrs, 0x300) & 0x08 != 0, CsrRead(w, 0x300))
      && CsrRead(n, 0x341) == p.idex.pc
      && CsrRead(n, 0x342) == (if p.idex.op.Ecall? then 11 else if p.idex.op.Ebreak? then 3 else 0x8000_0007)
      && forall a: CsrAddr :: a !in {0x300, 0x341, 0x342} ==> CsrRead(n, a) == CsrRead(w, a)
  {
    hide CsrRead, CsrWrite, WbCsrs, StackedStatus, TrapStatus, MemWait, HasBits, StepPc, StepIfId, StepIdEx,
      StepExMem, StepMemWb, StepRegs;
    var w, v := WbCsrs(dp, p, i), TrapStatus(CsrRead(p.csrs, 0x300));
    StackedBits(w, v);
    TrapBits(CsrRead(p.csrs, 0x300));
    var cause: Word := if p.idex.op.Ecall? then 11 else if p.idex.op.Ebreak? then 3 else 0x8000_0007;
    ThreeWrites(w, p.idex.pc, cause, StackedStatus(w, v));
  }

  lemma ThreeWrites(w: Csrs, epc: Word, cause: Word, status: Word)
    ensures var n := CsrWrite(CsrWrite(CsrWrite(w, MEPC, epc), MCAUSE, cause), MSTATUS, status);
      && CsrRead(n, 0x300) == status && CsrRead(n, 0x341) == epc && CsrRead(n, 0x342) == cause
      && forall a: CsrAddr :: a !in {0x300, 0x341, 0x342} ==> CsrRead(n, a) == CsrRead(w, a)
  {
  }

  /** MRET: MIE takes MPIE, MPIE is set, and everything else is as WB leaves it. */
  lemma ReturnEdge(dp: Datapath, p: Pipe, i: Inputs)
    requires Runs(p, i) && p.idex.op.Mret?
    ensures var w, n := WbCsrs(dp, p, i), Clock(dp, p, i).csrs;
      && HasBits(CsrRead(n, 0x300), CsrRead(p.csrs, 0x300) & 0x80 != 0, true, CsrRead(w, 0x300))
      && forall a: CsrAddr :: a != 0x300 ==> CsrRead(n, a) == CsrRead(w, a)
  {
    hide CsrRead, CsrWrite, WbCsrs, StackedStatus, MretStatus, MemWait, HasBits, StepPc, StepIfId, StepIdEx,
      StepExMem, StepMemWb, StepRegs;
    var w, v := WbCsrs(dp, p, i), MretStatus(CsrRead(p.csrs, 0x300));
    StackedBits(w, v);
    MretBits(CsrRead(p.csrs, 0x300));
    OneWrite(w, StackedStatus(w, v));
  }

  lemma OneWrite(w: Csrs, status: Word)
    ensures var n := CsrWrite(w, MSTATUS, status);
      CsrRead(n, 0x300) == status && forall a: CsrAddr :: a != 0x300 ==> CsrRead(n, a) == CsrRead(w, a)
  {
  }

  /** In every other clock only WB writes, and nothing does while the core is halted. */
  lemma OtherEdge(dp: Datapath, p: Pipe, i: Inputs)
    requires !Runs(p, i) || !(p.idex.op.Ecall? || p.idex.op.Ebreak? || p.idex.op.Mret? || Interrupted(p, i))
    ensures Clock(dp, p, i).csrs == WbCsrs(dp, p, i) && (i.halt ==> WbCsrs(dp, p, i) == p.csrs)
  {
    hide CsrRead, CsrWrite, StackedStatus, TrapStatus, MretStatus, MemWait, CsrNewWb, StepPc, StepIfId, StepIdEx,
      StepExMem, StepMemWb, StepRegs;
  }

  /** An interrupt sends the core to mtvec and squashes ID and the instruction in IF, and
      EX's own result is kept. */
  lemma InterruptTarget(dp: Datapath, p: Pipe, i: Inputs)
    requires Runs(p, i) && Interrupted(p, i)
    ensures var n := Clock(dp, p, i);
      && n.pc == CsrRead(p.csrs, 0x305) && !n.ifid.valid && !n.idex.valid && n.idex.op.Undecoded?
      && n.exmem.valid == p.idex.valid && n.exmem.op == p.idex.op
  {
    hide CsrRead, MemWait, StepCsrs, StepRegs, StepMemWb;
  }
}
