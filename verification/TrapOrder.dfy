/** The one place where the pipelined core departs from the golden core: a trap
    entry writes mepc and mcause in EX, so it overtakes a CSR instruction on
    them that is directly in front of it. */
module TrapOrder {
  import opened Isa
  import opened Golden
  import opened Pipeline
  import opened CsrEdge
  import opened Refinement
  import opened Traces

  /** t reads the register that d writes, and so waits in ID until d has committed. */
  predicate Delays(d: Instr, t: Instr) {
    Writes(d) && ((t.rs1Valid && t.rs1 == d.rd) || (t.rs2Valid && t.rs2 == d.rd))
  }

  /** The program never executes ECALL or EBREAK right after a CSR instruction on
      mepc or mcause, unless a register hazard between the two holds the trap back:
      the decoder takes an ECALL's rs1 field for a source. */
  ghost predicate TrapsSeparated(m: Machine) {
    forall k: nat :: SeparatedAt(m, m.Run(k))
  }

  predicate SeparatedAt(m: Machine, a: Arch) {
    var d, t := m.InstrAt(a), m.InstrAt(m.Step(a));
    IsCsr(d.op) && TrapCsr(d.csrAddr) && IsTrap(t.op) ==> Delays(d, t)
  }

  /** Instructions next to each other in EX and MEM have no register hazard: it
      would have kept them apart. */
  ghost predicate Independent(m: Machine, l: Line, p: Pipe) {
    p.idex.valid && p.exmem.valid ==> !Delays(m.InstrAt(l.mem), m.InstrAt(l.ex))
  }

  lemma IndependentKept(m: Machine, l: Line, s: Sys, i: Inputs)
    requires Inv(m, l, s) && Independent(m, l, s.core)
    ensures Independent(m, NextLine(m, l, s.core, i), Clock(m.dp, s.core, i))
  {
    hide CsrsHold, PrivHolds, MemoryHolds, WbHolds, MemHolds, Machine.Step, StepCsrs, StepRegs, StepMemWb, StepPc,
      StepIfId;
  }

  lemma SeparatedNow(m: Machine, l: Line, s: Sys)
    requires Inv(m, l, s) && Independent(m, l, s.core) && SeparatedAt(m, l.mem)
    ensures !Clobber(s.core)
  {
    hide FrontHolds, CsrsHold, PrivHolds, MemoryHolds, WbHolds, Delays;
  }

  lemma {:induction false} IndependentRun(m: Machine, s: Sys, es: seq<Env>)
    requires Lawful(m.dp) && Supported(m) && Reset(m, s)
    requires RunContract(m, s, es) && ClobberFree(m, s, es)
    ensures var p := SysRun(m.dp, s, es).core; Independent(m, LineAt(m, |RunTrace(m.dp, s, es).commits|, p), p)
  {
    hide Lawful, Supported, Inv, Machine.Run, Clobber, Contract, Clock, LineAt, Delays, NextLine, ExecsNow, StoresNow;
    if es != [] {
      var es', e := es[..|es| - 1], es[|es| - 1];
      IndependentRun(m, s, es');
      RunRefines(m, s, es');
      var s', k := SysRun(m.dp, s, es'), |RunTrace(m.dp, s, es').commits|;
      IndependentKept(m, LineAt(m, k, s'.core), s', e.pins);
      NextLineAt(m, k, s'.core, e.pins);
      assert |CommitsNow(m.dp, s'.core, e.pins)| == if Commits(s'.core, e.pins) then 1 else 0;
    }
  }

  lemma SeparatedNowRun(m: Machine, s: Sys, es: seq<Env>)
    requires Lawful(m.dp) && Supported(m) && Reset(m, s) && TrapsSeparated(m)
    requires RunContract(m, s, es) && ClobberFree(m, s, es)
    ensures !Clobber(SysRun(m.dp, s, es).core)
  {
    hide Lawful, Supported, Reset, Inv, SeparatedAt, Machine.Run, Clobber, Contract, RunContract, ClobberFree,
      Independent;
    RunRefines(m, s, es);
    IndependentRun(m, s, es);
    var s', k := SysRun(m.dp, s, es), |RunTrace(m.dp, s, es).commits|;
    assert SeparatedAt(m, m.Run(MemIx(k, s'.core)));
    SeparatedNow(m, LineAt(m, k, s'.core), s');
  }

  lemma {:induction false} SeparatedIsClobberFree(m: Machine, s: Sys, es: seq<Env>)
    requires Lawful(m.dp) && Supported(m) && Reset(m, s) && RunContract(m, s, es) && TrapsSeparated(m)
    ensures ClobberFree(m, s, es)
  {
    hide Lawful, Supported, Reset, TrapsSeparated, Clobber, Contract;
    if es != [] {
      SeparatedIsClobberFree(m, s, es[..|es| - 1]);
      SeparatedNowRun(m, s, es[..|es| - 1]);
    }
  }

  /** The refinement for programs that keep traps and trap-CSR accesses apart,
      on every schedule. */
  lemma SeparatedProgramsRefine(m: Machine, s: Sys, es: seq<Env>)
    requires Lawful(m.dp) && Supported(m) && Reset(m, s) && RunContract(m, s, es) && TrapsSeparated(m)
    ensures var t, p := RunTrace(m.dp, s, es), SysRun(m.dp, s, es).core;
      var k := |t.commits|;
      && t.commits == GoldenCommits(m, k)
      && t.stores == GoldenStores(m, MemIx(k, p))
      && t.execs == GoldenExecs(m, ExIx(k, p))
      && p.regs == m.Run(k).regs
  {
    SeparatedIsClobberFree(m, s, es);
    PipelineRefinesGolden(m, s, es);
  }

  /** What the trap records in the CSR the older instruction names. */
  function TrapValue(m: Machine, a: Arch, x: CsrAddr): Word {
    if x == MEPC then a.pc else if m.InstrAt(a).op.Ecall? then 11 else 3
  }

  lemma NotAStore(m: Machine, a: Arch)
    requires DecodeLaw(m.dp) && (IsCsr(m.InstrAt(a).op) || IsTrap(m.InstrAt(a).op))
    ensures !m.InstrAt(a).isStore
  {
    var w := m.prog(a.pc);
    assert m.dp.decode(w).isStore ==> !IsCsr(m.dp.decode(w).op) && !IsTrap(m.dp.decode(w).op);
  }

  /** Neither the CSR instruction nor the trap waits for data memory. */
  lemma ClobberDoesNotWait(m: Machine, l: Line, p: Pipe)
    requires DecodeLaw(m.dp) && StagesHold(m, l, p) && Clobber(p)
    ensures !DmemReq(p) && !p.idex.isStore && p.idex.valid
  {
    hide WbHolds, DecodeLaw, Machine.InstrAt, Machine.Result;
    NotAStore(m, l.mem);
    NotAStore(m, l.ex);
  }

  lemma ClobberIsValid(m: Machine, l: Line, s: Sys)
    requires DecodeLaw(m.dp) && Inv(m, l, s) && Clobber(s.core)
    ensures s.core.idex.valid
  {
    ClobberDoesNotWait(m, l, s.core);
  }

  /** One clock later the CSR instruction is in WB and the trap is recorded. */
  lemma ClobberFirst(m: Machine, l: Line, s: Sys, e1: Env)
    requires Lawful(m.dp) && Inv(m, l, s) && SupportedAt(m, l.wb) && Contract(m, s, e1)
    requires Clobber(s.core) && !e1.pins.halt
    ensures var p := Clock(m.dp, s.core, e1.pins);
      && p.memwb.valid && WbHolds(m, l.mem, p.memwb) && p.memwb.isCsr
      && p.regs == l.mem.regs && p.idex == IDEX_BUBBLE && !DmemReq(p)
      && TrapCsrsEq(p.csrs, m.Step(l.ex).csrs)
  {
    hide Linked, FrontHolds, MemoryHolds, CsrsHold, PrivHolds, SupportedAt, WbHolds, ExHolds, MemHolds, Machine.Step;
    hide OperandLaw, MemoryLaw, TrapView;
    hide StepRegs, StepCsrs, StepPc, StepIfId, Machine.InstrAt;
    var p, i := s.core, e1.pins;
    ClobberDoesNotWait(m, l, p);
    assert Flush(m.dp, p, i) by { hide Inv, StagesHold; }
    WbStageKept(m, l, s, e1);
    RegsKept(m, l, p, i);
    TrapRecorded(m, l.ex, p, i);
  }

  /** What a CSR instruction commits when its CSR already shows tv. */
  lemma OvertakenCommit(m: Machine, a: Arch, p: Pipe, i: Inputs, tv: Word)
    requires p.memwb.valid && WbHolds(m, a, p.memwb) && p.memwb.isCsr && TrapCsr(p.memwb.csrAddr)
    requires p.regs == a.regs && p.idex.op.Undecoded? && !i.halt && !i.timerIrq
    requires CsrRead(p.csrs, p.memwb.csrAddr) == tv
    ensures var d := m.InstrAt(a);
      && (StepRegs(p, i) == m.NextRegs(a) <==> (!Writes(d) || tv == CsrRead(a.csrs, d.csrAddr)))
      && CsrRead(StepCsrs(m.dp, p, i), d.csrAddr) == m.dp.csrNew(CsrKindOf(d.op), tv, m.CsrOperand(a))
  {
    var d := m.InstrAt(a);
    if Writes(d) {
      assert StepRegs(p, i)[d.rd] == tv && m.NextRegs(a)[d.rd] == CsrRead(a.csrs, d.csrAddr);
    }
  }

  lemma GoldenTrapValue(m: Machine, l: Line, p: Pipe)
    requires Linked(m, l, p) && StagesHold(m, l, p) && Clobber(p) && p.idex.valid
    ensures l.ex.regs == m.NextRegs(l.mem)
    ensures TrapCsr(m.InstrAt(l.mem).csrAddr)
    ensures CsrRead(l.id.csrs, m.InstrAt(l.mem).csrAddr) == TrapValue(m, l.ex, m.InstrAt(l.mem).csrAddr)
  {
    hide Machine.NextPc, Machine.NextMem, Machine.NextRegs;
  }

  /** Exactly when the overtaking matters. Two clocks later the older instruction
      has committed: its destination register is golden iff it writes none or the
      trap's value equals the old one, and the CSR is golden iff rewriting the
      trap's value leaves it unchanged. */
  lemma ClobberOutcome(m: Machine, l: Line, s: Sys, e1: Env, e2: Env)
    requires Lawful(m.dp) && Inv(m, l, s) && SupportedAt(m, l.wb) && Contract(m, s, e1)
    requires Clobber(s.core) && !e1.pins.halt && !e2.pins.halt && !e2.pins.timerIrq
    ensures var p2 := Clock(m.dp, Clock(m.dp, s.core, e1.pins), e2.pins);
      var d := m.InstrAt(l.mem);
      var tv := TrapValue(m, l.ex, d.csrAddr);
      && (p2.regs == l.ex.regs <==> (!Writes(d) || tv == CsrRead(l.mem.csrs, d.csrAddr)))
      && (CsrRead(p2.csrs, d.csrAddr) == CsrRead(l.id.csrs, d.csrAddr)
          <==> m.dp.csrNew(CsrKindOf(d.op), tv, m.CsrOperand(l.mem)) == tv)
  {
    hide Machine.NextPc, Machine.NextMem, Machine.NextRegs, StepPc, StepIfId, StepIdEx, StepExMem, StepMemWb;
    hide StepCsrs, StepRegs, FrontHolds, MemoryHolds, CsrsHold, PrivHolds, MemHolds, ExHolds;
    hide SupportedAt, Contract, OperandLaw;
    ClobberFirst(m, l, s, e1);
    ClobberIsValid(m, l, s);
    var p := Clock(m.dp, s.core, e1.pins);
    GoldenTrapValue(m, l, s.core);
    assert CsrRead(p.csrs, m.InstrAt(l.mem).csrAddr) == CsrRead(l.id.csrs, m.InstrAt(l.mem).csrAddr);
    OvertakenCommit(m, l.mem, p, e2.pins, TrapValue(m, l.ex, m.InstrAt(l.mem).csrAddr));
  }

  // ---- CSRs outside the comparison ---------------------------------------------------------

  /** The golden core keeps mstatus through a trap and an MRET; the pipelined core, if
      WB does not write mstatus in that clock, keeps it through a trap exactly if MIE and
      MPIE are clear, and through an MRET exactly if both are set. */
  lemma StatusAgrees(dp: Datapath, p: Pipe, i: Inputs)
    requires Runs(p, i) && CsrRead(WbCsrs(dp, p, i), MSTATUS) == CsrRead(p.csrs, MSTATUS)
    ensures var s, n := CsrRead(p.csrs, MSTATUS), CsrRead(Clock(dp, p, i).csrs, MSTATUS);
      && (IsTrap(p.idex.op) ==> (n == s <==> s & 0x88 == 0))
      && (p.idex.op.Mret? ==> (n == s <==> s & 0x88 == 0x88))
  {
    hide CsrRead, Clock, WbCsrs, Runs, HasBits;
    var s, n := CsrRead(p.csrs, MSTATUS), CsrRead(Clock(dp, p, i).csrs, MSTATUS);
    if IsTrap(p.idex.op) {
      EntryEdge(dp, p, i);
      TrapKeeps(s, n);
    } else if p.idex.op.Mret? {
      ReturnEdge(dp, p, i);
      ReturnKeeps(s, n);
    }
  }

  lemma TrapKeeps(s: Word, n: Word)
    requires HasBits(n, false, s & 0x08 != 0, s)
    ensures n == s <==> s & 0x88 == 0
  {
  }

  lemma ReturnKeeps(s: Word, n: Word)
    requires HasBits(n, s & 0x80 != 0, true, s)
    ensures n == s <==> s & 0x88 == 0x88
  {
  }

  /** Without a timer interrupt a CSR instruction on mip reads what the golden core
      reads exactly if bit 7 of the register is clear. */
  lemma PendingAgrees(p: Pipe, i: Inputs)
    requires p.memwb.csrAddr == MIP && !i.timerIrq
    ensures CsrReadWb(p, i) == CsrRead(p.csrs, MIP) <==> !Bit7(CsrRead(p.csrs, MIP))
  {
    hide CsrRead;
  }
}
