/** The pipelined core refines the single-cycle core, for every program and
    every schedule of halt and memory latency. */
module Refinement {
  import opened Isa
  import opened Golden
  import opened Pipeline

  /** The core and its data memory. memWrite: the memory takes the store that
      is being presented on this edge; it may take it in any waiting cycle, and
      has taken it by the edge that answers. */
  datatype Sys = Sys(core: Pipe, mem: Mem)
  datatype Env = Env(pins: Inputs, memWrite: bool)

  function StoreTo(dp: Datapath, p: Pipe, mem: Mem): Mem {
    dp.writeWord(mem, p.exmem.result, dp.storeData(p.exmem.src2, p.exmem.result),
                 dp.storeMask(p.exmem.op, p.exmem.result))
  }

  function SysClock(dp: Datapath, s: Sys, e: Env): Sys {
    Sys(Clock(dp, s.core, e.pins),
        if DmemWe(s.core) && e.memWrite then StoreTo(dp, s.core, s.mem) else s.mem)
  }

  /** While the core is running, vld is only asserted when the data is right,
      and no interrupt is raised. Nothing is asked of a fetch from an address the
      program never reaches. */
  ghost predicate Contract(m: Machine, s: Sys, e: Env) {
    && !e.pins.timerIrq
    && (!e.pins.halt ==>
          && (e.pins.imemVld && m.code(s.core.pc) ==> e.pins.imemData == m.prog(s.core.pc))
          && (e.pins.dmemVld && DmemRe(s.core) ==> e.pins.ldData == m.dp.readWord(s.mem, s.core.exmem.result))
          && (e.pins.dmemVld && DmemWe(s.core) ==> e.memWrite))
  }

  predicate TrapCsr(a: CsrAddr) { a == MEPC || a == MCAUSE }

  /** ECALL/EBREAK in EX right behind a CSR instruction on mepc or mcause in MEM. */
  predicate Clobber(p: Pipe) {
    IsTrap(p.idex.op) && p.exmem.valid && IsCsr(p.exmem.op) && TrapCsr(p.exmem.csrAddr)
  }

  /** Traps and returns, which stack mstatus. */
  predicate Stacks(op: Op) { IsTrap(op) || op.Mret? }

  ghost predicate NeverTraps(m: Machine) { forall k: nat :: !Stacks(m.InstrAt(m.Run(k)).op) }

  /** The run only fetches from `code`. It has CSR instructions on mstatus only if it
      never traps or returns, and on mip only while bit 7 of the register is clear. */
  ghost predicate SupportedAt(m: Machine, a: Arch) {
    var d := m.InstrAt(a);
    && m.code(a.pc)
    && (NeverTraps(m) ==> !Stacks(d.op))
    && (IsCsr(d.op) && d.csrAddr == MSTATUS ==> NeverTraps(m))
    && (IsCsr(d.op) && d.csrAddr == MIP ==> !Bit7(CsrRead(a.csrs, MIP)))
  }

  ghost predicate Supported(m: Machine) { forall k: nat :: SupportedAt(m, m.Run(k)) }

  // ---- The invariant ----------------------------------------------------------

  /** The golden state before the instruction in WB, in MEM, in EX, and in ID. */
  datatype Line = Line(wb: Arch, mem: Arch, ex: Arch, id: Arch)

  /** Each valid stage is one golden instruction ahead of the stage after it. */
  ghost predicate Linked(m: Machine, l: Line, p: Pipe) {
    && l.mem == (if p.memwb.valid then m.Step(l.wb) else l.wb)
    && l.ex == (if p.exmem.valid then m.Step(l.mem) else l.mem)
    && l.id == (if p.idex.valid then m.Step(l.ex) else l.ex)
  }

  ghost predicate WbHolds(m: Machine, a: Arch, w: MemWb) {
    var d := m.InstrAt(a);
    && w.rd == d.rd && w.wrEn == Writes(d)
    && w.isCsr == IsCsr(d.op) && w.csrAddr == d.csrAddr && w.csrKind == CsrKindOf(d.op)
    && (w.isCsr ==> w.operand == m.CsrOperand(a))
    && (w.wrEn && !w.isCsr ==> w.wrData == m.WriteValue(a))
  }

  ghost predicate MemHolds(m: Machine, a: Arch, x: ExMem) {
    var d := m.InstrAt(a);
    && x.op == d.op && x.isStore == d.isStore && x.rd == d.rd && x.wrEn == Writes(d)
    && x.csrAddr == d.csrAddr
    && x.result == m.Result(a)
    && (x.isStore ==> x.src2 == m.Src2(a))
    && (IsCsr(x.op) ==> x.src2 == m.CsrOperand(a))
  }

  ghost predicate ExHolds(m: Machine, a: Arch, x: IdEx) {
    var d := m.InstrAt(a);
    && x.op == d.op && x.isStore == d.isStore && x.rd == d.rd && x.rdValid == d.rdValid
    && x.csrAddr == d.csrAddr && x.imm == d.imm && x.pc == a.pc
    && (d.rs1Valid ==> x.src1 == m.Src1(a))
    && (d.rs2Valid ==> x.src2 == m.Src2(a))
    && (IsCsr(d.op) ==> x.src2 == m.CsrOperand(a))
  }

  ghost predicate StagesHold(m: Machine, l: Line, p: Pipe) {
    && (p.memwb.valid ==> WbHolds(m, l.wb, p.memwb))
    && (p.exmem.valid ==> MemHolds(m, l.mem, p.exmem))
    && (p.idex.valid ==> ExHolds(m, l.ex, p.idex))
    && (!p.idex.valid ==> p.idex.op.Undecoded? && !p.idex.isStore)
  }

  /** Unless EX is about to redirect, IF and ID are on the right path. */
  ghost predicate FrontHolds(m: Machine, l: Line, p: Pipe) {
    && (!p.ifid.valid ==> p.ifid.instr == 0)
    && (!Redirects(m.dp, p) ==>
          if p.ifid.valid then
            p.ifid.pc == l.id.pc && p.ifid.instr == m.prog(p.ifid.pc) && p.pc == m.dp.plus(p.ifid.pc, 4)
          else p.pc == l.id.pc)
  }

  /** The golden state whose mepc and mcause the core already shows: after a
      trap in MEM, else after one in WB, else before WB. */
  function TrapView(m: Machine, l: Line, p: Pipe): Arch {
    if p.exmem.valid && IsTrap(p.exmem.op) then l.ex
    else if p.memwb.valid && IsTrap(m.InstrAt(l.wb).op) then l.mem
    else l.wb
  }

  /** mie, mtvec, mscratch, mtval and mip, the CSRs that only WB writes, and mstatus
      where nothing is stacked. */
  ghost predicate PlainCsrsEq(m: Machine, c: Csrs, g: Csrs) {
    && c[1] == g[1] && c[2] == g[2] && c[3] == g[3] && c[6] == g[6] && c[7] == g[7]
    && (NeverTraps(m) ==> c[0] == g[0])
  }

  /** mepc and mcause, which EX writes too. */
  predicate TrapCsrsEq(c: Csrs, g: Csrs) { c[4] == g[4] && c[5] == g[5] }

  ghost predicate CsrsHold(m: Machine, l: Line, p: Pipe) {
    PlainCsrsEq(m, p.csrs, l.wb.csrs) && TrapCsrsEq(p.csrs, TrapView(m, l, p).csrs)
  }

  /** No CSR write that a trap or MRET in EX depends on is still in flight, and
      none is left to overwrite a trap entry. */
  predicate PrivHolds(p: Pipe) {
    && (p.idex.valid && IsTrap(p.idex.op) ==> !MemWritesCsr(p, MTVEC) && !WbWritesCsr(p, MTVEC))
    && (p.idex.valid && p.idex.op.Mret? ==> !MemWritesCsr(p, MEPC) && !WbWritesCsr(p, MEPC))
    && (p.exmem.valid && IsTrap(p.exmem.op) ==> !WbWritesCsr(p, MEPC) && !WbWritesCsr(p, MCAUSE))
  }

  /** Memory is as before the instruction in MEM, or already holds its store. */
  ghost predicate MemoryHolds(m: Machine, l: Line, s: Sys) {
    s.mem == l.mem.mem || (DmemWe(s.core) && s.mem == StoreTo(m.dp, s.core, l.mem.mem))
  }

  ghost predicate Inv(m: Machine, l: Line, s: Sys) {
    && Linked(m, l, s.core)
    && s.core.regs == l.wb.regs
    && StagesHold(m, l, s.core)
    && FrontHolds(m, l, s.core)
    && CsrsHold(m, l, s.core)
    && PrivHolds(s.core)
    && MemoryHolds(m, l, s)
  }

  predicate Issues(dp: Datapath, p: Pipe, i: Inputs) {
    !i.halt && !MemWait(p, i) && !Flush(dp, p, i) && !FrontStall(dp, p, i) && p.ifid.valid
  }

  /** The line-up after the clock edge. */
  function NextLine(m: Machine, l: Line, p: Pipe, i: Inputs): Line {
    if i.halt then l
    else if MemWait(p, i) then Line(l.mem, l.mem, l.ex, l.id)
    else Line(l.mem, l.ex, l.id, if Issues(m.dp, p, i) then m.Step(l.id) else l.id)
  }

  // ---- What commits, and what moves from stage to stage ------------------------

  /** A CSR instruction in WB reads and writes the golden values. */
  lemma CsrReadFresh(m: Machine, a: Arch, p: Pipe, i: Inputs)
    requires WbHolds(m, a, p.memwb) && p.memwb.isCsr && SupportedAt(m, a) && !i.timerIrq
    requires PlainCsrsEq(m, p.csrs, a.csrs) && (TrapCsr(p.memwb.csrAddr) ==> TrapCsrsEq(p.csrs, a.csrs))
    ensures CsrReadWb(p, i) == CsrRead(a.csrs, m.InstrAt(a).csrAddr)
    ensures CsrNewWb(m.dp, p, i) == m.CsrNewValue(a)
  {
    hide NeverTraps, Bit7;
    if p.memwb.csrAddr == MIP { QuietPending(CsrRead(p.csrs, MIP)); }
  }

  lemma QuietPending(w: Word)
    requires !Bit7(w)
    ensures (w & 0xFFFF_FF7F) | 0 == w
  {
  }

  /** WB commits what the golden core writes to the register file. */
  lemma RegsCommit(m: Machine, a: Arch, p: Pipe, i: Inputs)
    requires p.memwb.valid && !i.halt && !i.timerIrq && p.regs == a.regs && WbHolds(m, a, p.memwb) && SupportedAt(m, a)
    requires PlainCsrsEq(m, p.csrs, a.csrs)
    requires p.memwb.isCsr && TrapCsr(p.memwb.csrAddr) ==> TrapCsrsEq(p.csrs, a.csrs)
    ensures StepRegs(p, i) == m.NextRegs(a)
  {
    if p.memwb.isCsr { CsrReadFresh(m, a, p, i); }
  }

  lemma SameWrite(m: Machine, c: Csrs, g: Csrs, x: CsrAddr, v: Word)
    requires PlainCsrsEq(m, c, g)
    ensures PlainCsrsEq(m, CsrWrite(c, x, v), CsrWrite(g, x, v))
    ensures TrapCsrsEq(c, g) ==> TrapCsrsEq(CsrWrite(c, x, v), CsrWrite(g, x, v))
  {
  }

  /** WB commits what the golden core writes to the CSR file; mepc and mcause
      are separate because EX writes them too. */
  lemma CsrsCommit(m: Machine, a: Arch, p: Pipe, i: Inputs)
    requires p.memwb.valid && !i.halt && !i.timerIrq && WbHolds(m, a, p.memwb) && SupportedAt(m, a)
    requires PlainCsrsEq(m, p.csrs, a.csrs)
    requires p.memwb.isCsr && TrapCsr(p.memwb.csrAddr) ==> TrapCsrsEq(p.csrs, a.csrs)
    ensures PlainCsrsEq(m, WbCsrs(m.dp, p, i), m.NextCsrs(a))
    ensures TrapCsrsEq(p.csrs, a.csrs) && !IsTrap(m.InstrAt(a).op) ==> TrapCsrsEq(WbCsrs(m.dp, p, i), m.NextCsrs(a))
  {
    if p.memwb.isCsr {
      CsrReadFresh(m, a, p, i);
      SameWrite(m, p.csrs, a.csrs, p.memwb.csrAddr, m.CsrNewValue(a));
    }
    hide CsrWrite, CsrRead, CsrReadWb, CsrNewWb, Machine.CsrNewValue, Machine.CsrOperand;
  }

  /** MEM to WB. */
  lemma WbKept(m: Machine, a: Arch, p: Pipe, mem: Mem, i: Inputs)
    requires MemHolds(m, a, p.exmem) && p.exmem.valid
    requires IsLoad(p.exmem.op) ==> mem == a.mem && !p.exmem.isStore
    requires i.dmemVld && DmemRe(p) ==> i.ldData == m.dp.readWord(mem, p.exmem.result)
    requires !i.halt && !MemWait(p, i)
    ensures WbHolds(m, a, StepMemWb(m.dp, p, i))
  {
  }

  /** EX to MEM. */
  lemma MemKept(m: Machine, a: Arch, p: Pipe, i: Inputs)
    requires OperandLaw(m.dp) && ExHolds(m, a, p.idex)
    requires !i.halt && !MemWait(p, i)
    ensures MemHolds(m, a, StepExMem(m.dp, p, i))
  {
    var w := m.prog(a.pc);
    assert m.InstrAt(a) == m.dp.decode(w);
  }

  /** ID to EX: what the captured operands are worth when no hazard was seen. */
  lemma ExKept(m: Machine, a: Arch, p: Pipe)
    requires p.ifid.pc == a.pc && p.ifid.instr == m.prog(a.pc)
    requires OperandLaw(m.dp)
    requires m.InstrAt(a).rs1Valid ==> ReadReg(p.regs, m.InstrAt(a).rs1) == m.Src1(a)
    requires m.InstrAt(a).rs2Valid ==> ReadReg(p.regs, m.InstrAt(a).rs2) == m.Src2(a)
    ensures ExHolds(m, a, Issue(m.dp, p))
  {
    var w := m.prog(a.pc);
    assert m.InstrAt(a) == m.dp.decode(w);
  }

  lemma TakenSame(m: Machine, a: Arch, p: Pipe)
    requires OperandLaw(m.dp) && ExHolds(m, a, p.idex)
    ensures ExTaken(m.dp, p) == m.dp.branch(m.InstrAt(a).op, m.Src1(a), m.Src2(a))
  {
    var w := m.prog(a.pc);
    assert m.InstrAt(a) == m.dp.decode(w);
  }

  /** A redirect goes where the golden core goes, once the CSR it jumps through is current. */
  lemma RedirectTarget(m: Machine, a: Arch, p: Pipe, i: Inputs)
    requires OperandLaw(m.dp) && ExHolds(m, a, p.idex) && Redirects(m.dp, p) && !i.timerIrq
    requires IsTrap(p.idex.op) ==> CsrRead(p.csrs, MTVEC) == CsrRead(a.csrs, MTVEC)
    requires p.idex.op.Mret? ==> CsrRead(p.csrs, MEPC) == CsrRead(a.csrs, MEPC)
    ensures NextPc(m.dp, p, i) == m.NextPc(a)
  {
    TakenSame(m, a, p);
    assert p.idex.op.Jalr? ==> p.idex.src1 == m.Src1(a) by {
      var w := m.prog(a.pc);
      assert m.InstrAt(a) == m.dp.decode(w);
    }
  }

  /** What EX does not redirect falls through. */
  lemma FallThrough(m: Machine, a: Arch, p: Pipe)
    requires OperandLaw(m.dp) && ExHolds(m, a, p.idex) && !Redirects(m.dp, p)
    ensures m.NextPc(a) == m.dp.plus(a.pc, 4)
  {
    TakenSame(m, a, p);
  }

  /** Only a CSR instruction on mtvec changes mtvec. */
  lemma MtvecStable(m: Machine, a: Arch)
    requires !(IsCsr(m.InstrAt(a).op) && m.InstrAt(a).csrAddr == MTVEC)
    ensures CsrRead(m.NextCsrs(a), MTVEC) == CsrRead(a.csrs, MTVEC)
  {
  }

  /** Only a trap or a CSR instruction on mepc changes mepc. */
  lemma MepcStable(m: Machine, a: Arch)
    requires !(IsCsr(m.InstrAt(a).op) && m.InstrAt(a).csrAddr == MEPC) && !IsTrap(m.InstrAt(a).op)
    ensures CsrRead(m.NextCsrs(a), MEPC) == CsrRead(a.csrs, MEPC)
  {
  }

  lemma TrapCsrFresh(m: Machine, l: Line, p: Pipe)
    requires Linked(m, l, p) && StagesHold(m, l, p) && CsrsHold(m, l, p) && PrivHolds(p)
    requires p.idex.valid && IsTrap(p.idex.op)
    ensures CsrRead(p.csrs, MTVEC) == CsrRead(l.ex.csrs, MTVEC)
  {
    hide Machine.NextCsrs, Machine.NextPc, Machine.NextRegs, Machine.NextMem, Machine.Result, ExHolds, TrapView;
    if p.memwb.valid { MtvecStable(m, l.wb); }
    if p.exmem.valid { MtvecStable(m, l.mem); }
  }

  lemma MretCsrFresh(m: Machine, l: Line, p: Pipe)
    requires Linked(m, l, p) && StagesHold(m, l, p) && CsrsHold(m, l, p) && PrivHolds(p)
    requires p.idex.valid && p.idex.op.Mret?
    ensures CsrRead(p.csrs, MEPC) == CsrRead(l.ex.csrs, MEPC)
  {
    hide Machine.NextCsrs, Machine.NextPc, Machine.NextRegs, Machine.NextMem, Machine.Result, ExHolds;
    if p.memwb.valid && !IsTrap(m.InstrAt(l.wb).op) { MepcStable(m, l.wb); }
    if p.exmem.valid && !IsTrap(p.exmem.op) { MepcStable(m, l.mem); }
  }

  /** When a trap or MRET is in EX, the CSR it jumps through has the value the
      golden core uses. */
  lemma PrivCsrsFresh(m: Machine, l: Line, p: Pipe)
    requires Linked(m, l, p) && StagesHold(m, l, p) && CsrsHold(m, l, p) && PrivHolds(p) && p.idex.valid
    ensures IsTrap(p.idex.op) ==> CsrRead(p.csrs, MTVEC) == CsrRead(l.ex.csrs, MTVEC)
    ensures p.idex.op.Mret? ==> CsrRead(p.csrs, MEPC) == CsrRead(l.ex.csrs, MEPC)
  {
    hide Linked, StagesHold, CsrsHold, PrivHolds;
    if IsTrap(p.idex.op) { TrapCsrFresh(m, l, p); }
    if p.idex.op.Mret? { MretCsrFresh(m, l, p); }
  }

  // ---- One clock keeps each part of the invariant -------------------------------

  lemma LinkKept(m: Machine, l: Line, p: Pipe, i: Inputs)
    requires Linked(m, l, p)
    ensures Linked(m, NextLine(m, l, p, i), Clock(m.dp, p, i))
  {
    hide Machine.Step;
  }

  /** A register no instruction in flight writes already has its final value. */
  lemma RegStable(m: Machine, l: Line, p: Pipe, r: Reg)
    requires Linked(m, l, p) && StagesHold(m, l, p)
    requires r != 0 ==> !Pending(p, r)
    ensures ReadReg(l.wb.regs, r) == ReadReg(l.id.regs, r)
  {
  }

  /** A CSR instruction in WB sees current trap CSRs: a trap behind it would
      have been adjacent to it. */
  lemma WbSeesTrapCsrs(m: Machine, l: Line, p: Pipe)
    requires CsrsHold(m, l, p) && PrivHolds(p) && (p.memwb.valid ==> WbHolds(m, l.wb, p.memwb))
    requires p.memwb.valid && p.memwb.isCsr && TrapCsr(p.memwb.csrAddr)
    ensures TrapCsrsEq(p.csrs, l.wb.csrs)
  {
  }

  lemma RegsKept(m: Machine, l: Line, p: Pipe, i: Inputs)
    requires SupportedAt(m, l.wb) && Linked(m, l, p) && StagesHold(m, l, p) && !i.timerIrq
    requires p.regs == l.wb.regs && CsrsHold(m, l, p) && PrivHolds(p)
    ensures StepRegs(p, i) == NextLine(m, l, p, i).wb.regs
  {
    if Commits(p, i) {
      if p.memwb.isCsr && TrapCsr(p.memwb.csrAddr) { WbSeesTrapCsrs(m, l, p); }
      RegsCommit(m, l.wb, p, i);
    }
  }

  /** What leaves ID has captured the golden operands. */
  lemma IssueFresh(m: Machine, l: Line, p: Pipe, i: Inputs)
    requires OperandLaw(m.dp) && Linked(m, l, p) && StagesHold(m, l, p) && FrontHolds(m, l, p)
    requires p.regs == l.wb.regs && Issues(m.dp, p, i)
    ensures ExHolds(m, l.id, Issue(m.dp, p))
  {
    var d := m.InstrAt(l.id);
    if d.rs1Valid { RegStable(m, l, p, d.rs1); }
    if d.rs2Valid { RegStable(m, l, p, d.rs2); }
    ExKept(m, l.id, p);
  }

  lemma WbStageKept(m: Machine, l: Line, s: Sys, e: Env)
    requires DecodeLaw(m.dp) && Contract(m, s, e) && StagesHold(m, l, s.core) && MemoryHolds(m, l, s)
    ensures var w := StepMemWb(m.dp, s.core, e.pins);
      w.valid ==> WbHolds(m, NextLine(m, l, s.core, e.pins).wb, w)
  {
    hide WbHolds, Machine.Step, Machine.Result, Machine.WriteValue;
    var p, i := s.core, e.pins;
    if !i.halt && !MemWait(p, i) && p.exmem.valid {
      var w := m.prog(l.mem.pc);
      assert m.dp.decode(w).isStore ==> !IsLoad(m.dp.decode(w).op);
      WbKept(m, l.mem, p, s.mem, i);
    }
  }

  lemma MemStageKept(m: Machine, l: Line, p: Pipe, i: Inputs)
    requires OperandLaw(m.dp) && StagesHold(m, l, p)
    ensures var x := StepExMem(m.dp, p, i);
      x.valid ==> MemHolds(m, NextLine(m, l, p, i).mem, x)
  {
    if !i.halt && !MemWait(p, i) && p.idex.valid { MemKept(m, l.ex, p, i); }
  }

  lemma ExStageKept(m: Machine, l: Line, p: Pipe, i: Inputs)
    requires DecodeLaw(m.dp) && OperandLaw(m.dp)
    requires Linked(m, l, p) && StagesHold(m, l, p) && FrontHolds(m, l, p) && p.regs == l.wb.regs
    ensures var x := StepIdEx(m.dp, p, i);
      && (x.valid ==> ExHolds(m, NextLine(m, l, p, i).ex, x))
      && (!x.valid ==> x.op.Undecoded? && !x.isStore)
  {
    if Issues(m.dp, p, i) { IssueFresh(m, l, p, i); }
    hide Pending, PrivHazard, Machine.Step;
  }

  lemma StagesKept(m: Machine, l: Line, s: Sys, e: Env)
    requires Lawful(m.dp) && Contract(m, s, e)
    requires Linked(m, l, s.core) && StagesHold(m, l, s.core) && FrontHolds(m, l, s.core)
    requires s.core.regs == l.wb.regs && MemoryHolds(m, l, s)
    ensures StagesHold(m, NextLine(m, l, s.core, e.pins), Clock(m.dp, s.core, e.pins))
  {
    WbStageKept(m, l, s, e);
    MemStageKept(m, l, s.core, e.pins);
    ExStageKept(m, l, s.core, e.pins);
    hide DecodeLaw, OperandLaw, MemoryLaw, Contract, Linked, FrontHolds, MemoryHolds, WbHolds, MemHolds, ExHolds;
    hide StepMemWb, StepExMem, StepIdEx, StepRegs, StepCsrs, StepPc, StepIfId, NextLine;
  }

  /** The redirect in EX is resolved to the golden successor. */
  lemma FlushTarget(m: Machine, l: Line, p: Pipe, i: Inputs)
    requires OperandLaw(m.dp) && Redirects(m.dp, p) && !i.timerIrq
    requires Linked(m, l, p) && StagesHold(m, l, p) && CsrsHold(m, l, p) && PrivHolds(p)
    ensures NextPc(m.dp, p, i) == l.id.pc
  {
    PrivCsrsFresh(m, l, p);
    RedirectTarget(m, l.ex, p, i);
  }

  /** If the instruction entering EX will not redirect, IF is fetching its successor. */
  lemma IssuePath(m: Machine, l: Line, p: Pipe, i: Inputs)
    requires OperandLaw(m.dp) && Issues(m.dp, p, i) && !Redirects(m.dp, Clock(m.dp, p, i))
    requires Linked(m, l, p) && StagesHold(m, l, p) && FrontHolds(m, l, p) && p.regs == l.wb.regs
    ensures p.pc == m.Step(l.id).pc
  {
    IssueFresh(m, l, p, i);
    FallThrough(m, l.id, Clock(m.dp, p, i));
    hide ExHolds, IdStall, Pending, OperandLaw;
  }

  lemma FrontKept(m: Machine, l: Line, s: Sys, e: Env)
    requires OperandLaw(m.dp) && Contract(m, s, e) && SupportedAt(m, NextLine(m, l, s.core, e.pins).id)
    requires Linked(m, l, s.core) && StagesHold(m, l, s.core) && FrontHolds(m, l, s.core)
    requires s.core.regs == l.wb.regs && CsrsHold(m, l, s.core) && (Redirects(m.dp, s.core) ==> PrivHolds(s.core))
    ensures FrontHolds(m, NextLine(m, l, s.core, e.pins), Clock(m.dp, s.core, e.pins))
  {
    hide Machine.Step, Machine.InstrAt, OperandLaw, ExHolds, MemHolds, WbHolds, CsrsHold, PrivHolds, IdStall, MemWait;
    hide StepMemWb, StepExMem, StepRegs, StepCsrs;
    var p, i := s.core, e.pins;
    if !i.halt && !MemWait(p, i) {
      if Flush(m.dp, p, i) {
        FlushTarget(m, l, p, i);
      } else if Issues(m.dp, p, i) && !Redirects(m.dp, Clock(m.dp, p, i)) {
        IssuePath(m, l, p, i);
      }
    }
  }

  /** EX touches no CSR that only WB writes, and mstatus only to stack it. */
  lemma ExLeavesPlainCsrs(m: Machine, p: Pipe, i: Inputs)
    requires !i.timerIrq && (NeverTraps(m) ==> !Stacks(p.idex.op))
    ensures PlainCsrsEq(m, StepCsrs(m.dp, p, i), WbCsrs(m.dp, p, i))
    ensures !IsTrap(p.idex.op) ==> TrapCsrsEq(StepCsrs(m.dp, p, i), WbCsrs(m.dp, p, i))
  {
    hide WbCsrs, StackedStatus, TrapStatus, MretStatus, NeverTraps;
  }

  lemma ExStacksNothing(m: Machine, l: Line, p: Pipe)
    requires SupportedAt(m, l.ex) && StagesHold(m, l, p) && NeverTraps(m)
    ensures !Stacks(p.idex.op)
  {
    hide NeverTraps, WbHolds, MemHolds;
  }

  lemma PlainCsrsKept(m: Machine, l: Line, p: Pipe, i: Inputs)
    requires SupportedAt(m, l.wb) && SupportedAt(m, l.ex) && !i.timerIrq
    requires Linked(m, l, p) && StagesHold(m, l, p) && CsrsHold(m, l, p) && PrivHolds(p)
    ensures PlainCsrsEq(m, StepCsrs(m.dp, p, i), NextLine(m, l, p, i).wb.csrs)
  {
    if NeverTraps(m) { ExStacksNothing(m, l, p); }
    ExLeavesPlainCsrs(m, p, i);
    if Commits(p, i) {
      if p.memwb.isCsr && TrapCsr(p.memwb.csrAddr) { WbSeesTrapCsrs(m, l, p); }
      CsrsCommit(m, l.wb, p, i);
    }
    hide StepCsrs, Machine.NextCsrs, Machine.NextRegs, WbHolds, MemHolds, ExHolds, NeverTraps;
  }

  /** With a trap in MEM, WB leaves mepc and mcause alone. */
  lemma WbSparesTrap(dp: Datapath, p: Pipe, i: Inputs)
    requires PrivHolds(p) && p.exmem.valid && IsTrap(p.exmem.op)
    ensures TrapCsrsEq(WbCsrs(dp, p, i), p.csrs)
  {
    hide CsrNewWb;
  }

  /** WB leaves mepc and mcause showing the traps that had left EX. */
  lemma WbLeavesTrapCsrs(m: Machine, l: Line, p: Pipe, i: Inputs)
    requires SupportedAt(m, l.wb) && !i.halt && !i.timerIrq
    requires Linked(m, l, p) && StagesHold(m, l, p) && CsrsHold(m, l, p) && PrivHolds(p)
    ensures TrapCsrsEq(WbCsrs(m.dp, p, i),
                       if p.exmem.valid && IsTrap(p.exmem.op) then l.ex.csrs else l.mem.csrs)
  {
    hide Machine.NextCsrs, Machine.NextRegs, Machine.NextPc, Machine.NextMem, MemHolds, ExHolds, CsrNewWb,
      PlainCsrsEq, CsrWrite, SupportedAt, PrivHolds;
    if p.exmem.valid && IsTrap(p.exmem.op) {
      WbSparesTrap(m.dp, p, i);
    } else if p.memwb.valid {
      if p.memwb.isCsr && TrapCsr(p.memwb.csrAddr) { WbSeesTrapCsrs(m, l, p); }
      CsrsCommit(m, l.wb, p, i);
    }
  }

  /** A trap leaving EX records what the golden trap records. */
  lemma TrapRecorded(m: Machine, a: Arch, p: Pipe, i: Inputs)
    requires ExHolds(m, a, p.idex) && IsTrap(p.idex.op) && !i.timerIrq && !i.halt && !MemWait(p, i)
    ensures TrapCsrsEq(StepCsrs(m.dp, p, i), m.Step(a).csrs)
  {
    hide WbCsrs, StackedStatus, TrapStatus, MretStatus;
  }

  /** Whose trap CSRs are shown after a running clock. */
  lemma ViewAfter(m: Machine, l: Line, p: Pipe, i: Inputs)
    requires StagesHold(m, l, p) && !i.halt
    ensures TrapView(m, NextLine(m, l, p, i), Clock(m.dp, p, i)) ==
      if IsTrap(p.idex.op) && !MemWait(p, i) then l.id
      else if p.exmem.valid && IsTrap(p.exmem.op) then l.ex
      else l.mem
  {
    hide Machine.Step, StepPc, StepIfId, StepIdEx, StepRegs, StepCsrs, MemWait, Issues;
    hide ExHolds, WbHolds, Machine.InstrAt;
  }

  lemma TrapCsrsKept(m: Machine, l: Line, p: Pipe, i: Inputs)
    requires SupportedAt(m, l.wb) && !i.timerIrq
    requires Linked(m, l, p) && StagesHold(m, l, p) && CsrsHold(m, l, p) && PrivHolds(p)
    ensures TrapCsrsEq(StepCsrs(m.dp, p, i), TrapView(m, NextLine(m, l, p, i), Clock(m.dp, p, i)).csrs)
  {
    hide StepPc, StepIfId, StepIdEx, StepRegs, SupportedAt, PrivHolds, WbHolds, ExHolds, MemHolds;
    hide Machine.NextCsrs, Machine.NextPc, Machine.NextRegs, Machine.NextMem, PlainCsrsEq;
    hide StackedStatus, TrapStatus, MretStatus;
    if !i.halt {
      ViewAfter(m, l, p, i);
      if IsTrap(p.idex.op) && !MemWait(p, i) {
        TrapRecorded(m, l.ex, p, i);
      } else {
        WbLeavesTrapCsrs(m, l, p, i);
      }
    }
  }

  lemma CsrsKept(m: Machine, l: Line, p: Pipe, i: Inputs)
    requires SupportedAt(m, l.wb) && SupportedAt(m, l.ex) && !i.timerIrq && !Clobber(p)
    requires Linked(m, l, p) && StagesHold(m, l, p) && CsrsHold(m, l, p) && PrivHolds(p)
    ensures CsrsHold(m, NextLine(m, l, p, i), Clock(m.dp, p, i))
  {
    PlainCsrsKept(m, l, p, i);
    TrapCsrsKept(m, l, p, i);
    hide Linked, StagesHold, PrivHolds, PlainCsrsEq, TrapCsrsEq, NextLine, TrapView;
  }

  lemma PrivKept(m: Machine, l: Line, p: Pipe, i: Inputs)
    requires !i.timerIrq && !Clobber(p) && StagesHold(m, l, p) && PrivHolds(p)
    ensures PrivHolds(Clock(m.dp, p, i))
  {
  }

  /** A store in MEM writes what its golden instruction writes. */
  lemma StoreIsStep(m: Machine, l: Line, p: Pipe)
    requires Linked(m, l, p) && StagesHold(m, l, p) && p.exmem.valid
    ensures l.ex.mem == if DmemWe(p) then StoreTo(m.dp, p, l.mem.mem) else l.mem.mem
  {
    hide Machine.NextPc, Machine.NextRegs, Machine.NextCsrs, WbHolds, ExHolds;
  }

  lemma StoreTwice(dp: Datapath, p: Pipe, mem: Mem)
    requires MemoryLaw(dp)
    ensures StoreTo(dp, p, StoreTo(dp, p, mem)) == StoreTo(dp, p, mem)
  {
    var a := p.exmem.result;
    var v, be := dp.storeData(p.exmem.src2, a), dp.storeMask(p.exmem.op, a);
    assert dp.writeWord(dp.writeWord(mem, a, v, be), a, v, be) == dp.writeWord(mem, a, v, be);
  }

  lemma MemoryKept(m: Machine, l: Line, s: Sys, e: Env)
    requires MemoryLaw(m.dp) && Contract(m, s, e) && Linked(m, l, s.core) && StagesHold(m, l, s.core)
    requires MemoryHolds(m, l, s)
    ensures MemoryHolds(m, NextLine(m, l, s.core, e.pins), SysClock(m.dp, s, e))
  {
    var p := s.core;
    hide Machine.Step, StepPc, StepIfId, StepIdEx, StepRegs, StepCsrs, MemoryLaw, WbHolds, MemHolds, ExHolds;
    if p.exmem.valid { StoreIsStep(m, l, p); }
    StoreTwice(m.dp, p, l.mem.mem);
  }

  /** One clock keeps the invariant. */
  lemma InvKept(m: Machine, l: Line, s: Sys, e: Env)
    requires Lawful(m.dp) && Contract(m, s, e) && Inv(m, l, s) && !Clobber(s.core)
    requires SupportedAt(m, l.wb) && SupportedAt(m, l.ex) && SupportedAt(m, NextLine(m, l, s.core, e.pins).id)
    ensures Inv(m, NextLine(m, l, s.core, e.pins), SysClock(m.dp, s, e))
  {
    LinkKept(m, l, s.core, e.pins);
    RegsKept(m, l, s.core, e.pins);
    StagesKept(m, l, s, e);
    FrontKept(m, l, s, e);
    CsrsKept(m, l, s.core, e.pins);
    PrivKept(m, l, s.core, e.pins);
    MemoryKept(m, l, s, e);
    hide Linked, StagesHold, FrontHolds, CsrsHold, PrivHolds, MemoryHolds, NextLine, SupportedAt, Lawful;
    hide StepMemWb, StepExMem, StepIdEx, StepRegs, StepCsrs, StepPc, StepIfId;
  }
}
