/** When the trap ordering problem matters: the exact condition on a program under
    which the pipelined core agrees with the golden core on every schedule. */
module Harmless {
  import opened Options
  import opened Isa
  import opened Golden
  import opened Pipeline
  import opened Refinement
  import opened Traces
  import opened TrapOrder
  import opened Overtaking

  /** The trap's value in the CSR makes no difference to the older instruction: not
      to the register it writes, not to the value it writes to the CSR, and that
      value is what the trap left there. */
  predicate Harmless(m: Machine, a: Arch) {
    var d := m.InstrAt(a);
    var old_, tv := CsrRead(a.csrs, d.csrAddr), TrapValue(m, m.Step(a), d.csrAddr);
    var kind, operand := CsrKindOf(d.op), m.CsrOperand(a);
    && (Writes(d) ==> tv == old_)
    && m.dp.csrNew(kind, tv, operand) == tv
    && m.dp.csrNew(kind, old_, operand) == tv
  }

  /** Wherever the program exposes itself, it does not matter. */
  ghost predicate HarmlessProgram(m: Machine) {
    forall k: nat :: Exposed(m, m.Run(k)) ==> Harmless(m, m.Run(k))
  }

  /** The older instruction is in WB and its trap, already recorded, in MEM. */
  ghost predicate Mid(m: Machine, l: Line, s: Sys) {
    var p := s.core;
    && Linked(m, l, p) && p.regs == l.wb.regs && StagesHold(m, l, p) && FrontHolds(m, l, p)
    && CsrsHold(m, l, p) && MemoryHolds(m, l, s)
    && p.memwb.valid && p.memwb.isCsr && TrapCsr(p.memwb.csrAddr)
    && p.exmem.valid && IsTrap(p.exmem.op) && !p.idex.valid
  }

  /** Nothing moves in a halted clock. */
  lemma HaltedStays(m: Machine, s: Sys, e: Env)
    requires e.pins.halt
    ensures SysClock(m.dp, s, e).core == s.core
  {
  }

  lemma InvHalted(m: Machine, l: Line, s: Sys, e: Env)
    requires Lawful(m.dp) && Contract(m, s, e) && e.pins.halt
    requires Linked(m, l, s.core) && StagesHold(m, l, s.core) && MemoryHolds(m, l, s)
    ensures SysClock(m.dp, s, e).core == s.core && MemoryHolds(m, l, SysClock(m.dp, s, e))
  {
    hide Linked, StagesHold, MemoryHolds, Clock, DecodeLaw, OperandLaw, Contract;
    HaltedStays(m, s, e);
    MemoryKept(m, l, s, e);
  }

  /** Overtaking leads to Mid. */
  lemma MidEntered(m: Machine, l: Line, s: Sys, e: Env)
    requires Lawful(m.dp) && Inv(m, l, s) && Contract(m, s, e) && Clobber(s.core) && !e.pins.halt
    requires SupportedAt(m, l.wb) && SupportedAt(m, l.ex) && SupportedAt(m, NextLine(m, l, s.core, e.pins).id)
    ensures Mid(m, NextLine(m, l, s.core, e.pins), SysClock(m.dp, s, e))
  {
    hide Linked, StagesHold, FrontHolds, CsrsHold, PrivHolds, MemoryHolds, NextLine, SupportedAt, DecodeLaw,
      OperandLaw, MemoryLaw, TrapView, PlainCsrsEq, TrapCsrsEq, Clobber;
    hide StepMemWb, StepExMem, StepIdEx, StepRegs, StepCsrs, StepPc, StepIfId;
    LinkKept(m, l, s.core, e.pins);
    RegsKept(m, l, s.core, e.pins);
    StagesKept(m, l, s, e);
    FrontKept(m, l, s, e);
    ClobberCsrs(m, l, s.core, e.pins);
    MemoryKept(m, l, s, e);
    MidShape(m, l, s, e);
  }

  lemma ClobberCsrs(m: Machine, l: Line, p: Pipe, i: Inputs)
    requires SupportedAt(m, l.wb) && SupportedAt(m, l.ex) && !i.timerIrq
    requires Linked(m, l, p) && StagesHold(m, l, p) && CsrsHold(m, l, p) && PrivHolds(p)
    ensures CsrsHold(m, NextLine(m, l, p, i), Clock(m.dp, p, i))
  {
    hide Linked, StagesHold, PrivHolds, PlainCsrsEq, TrapCsrsEq, NextLine, TrapView;
    PlainCsrsKept(m, l, p, i);
    TrapCsrsKept(m, l, p, i);
  }

  lemma MidShape(m: Machine, l: Line, s: Sys, e: Env)
    requires Lawful(m.dp) && Inv(m, l, s) && SupportedAt(m, l.wb) && Contract(m, s, e)
    requires Clobber(s.core) && !e.pins.halt
    ensures var p := SysClock(m.dp, s, e).core;
      && p.memwb.valid && p.memwb.isCsr && TrapCsr(p.memwb.csrAddr)
      && p.exmem.valid && IsTrap(p.exmem.op) && !p.idex.valid
  {
    hide Linked, FrontHolds, CsrsHold, PrivHolds, MemoryHolds, SupportedAt, WbHolds, ExHolds, MemHolds, OperandLaw,
      DecodeLaw, MemoryLaw, StepCsrs, StepRegs, StepPc, StepIfId;
    ClobberDoesNotWait(m, l, s.core);
    ClobberIsValid(m, l, s);
  }

  // ---- Leaving Mid -------------------------------------------------------------------------

  /** A halted clock keeps Mid. */
  lemma MidHalted(m: Machine, l: Line, s: Sys, e: Env)
    requires Lawful(m.dp) && Mid(m, l, s) && Contract(m, s, e) && e.pins.halt
    ensures Mid(m, l, SysClock(m.dp, s, e))
  {
    hide Linked, StagesHold, MemoryHolds, FrontHolds, CsrsHold, Clock, DecodeLaw, OperandLaw, MemoryLaw, Contract,
      SysClock;
    InvHalted(m, l, s, e);
  }

  /** The CSR the older instruction names already shows the trap. */
  lemma MidReads(m: Machine, l: Line, s: Sys)
    requires Mid(m, l, s)
    ensures CsrRead(s.core.csrs, s.core.memwb.csrAddr) == TrapValue(m, m.Step(l.wb), m.InstrAt(l.wb).csrAddr)
    ensures WbHolds(m, l.wb, s.core.memwb) && l.mem == m.Step(l.wb) && IsTrap(m.InstrAt(l.mem).op)
  {
    hide Machine.NextPc, Machine.NextMem, Machine.NextRegs, PlainCsrsEq, FrontHolds, MemoryHolds, ExHolds;
  }

  lemma MidCommits(m: Machine, l: Line, s: Sys, i: Inputs)
    requires Mid(m, l, s) && Harmless(m, l.wb) && !i.timerIrq
    ensures CommitsNow(m.dp, s.core, i) == if Commits(s.core, i) then [GoldenCommit(m, l.wb)] else []
  {
    hide Linked, StagesHold, FrontHolds, CsrsHold, MemoryHolds, Machine.Step, TrapValue, CsrRead, Machine.CsrOperand;
    MidReads(m, l, s);
    assert m.InstrAt(l.wb).csrAddr != MIP;
  }

  /** Nothing waits for memory. */
  lemma MidRuns(m: Machine, l: Line, s: Sys)
    requires DecodeLaw(m.dp) && Mid(m, l, s)
    ensures !DmemReq(s.core)
  {
    hide FrontHolds, CsrsHold, MemoryHolds, Linked, WbHolds, ExHolds, DecodeLaw, Machine.Result;
    NotAStore(m, l.mem);
  }

  lemma MidRegs(m: Machine, l: Line, s: Sys, i: Inputs)
    requires Mid(m, l, s) && Harmless(m, l.wb) && !i.timerIrq && !i.halt
    ensures StepRegs(s.core, i) == l.mem.regs
  {
    hide Linked, StagesHold, FrontHolds, CsrsHold, MemoryHolds, TrapValue, CsrRead, Machine.CsrOperand,
      Machine.NextPc, Machine.NextMem, Machine.NextCsrs, StepCsrs;
    MidReads(m, l, s);
    assert s.core.idex.op.Undecoded? by { assert StagesHold(m, l, s.core); MidIdle(m, l, s.core); }
    OvertakenCommit(m, l.wb, s.core, i, TrapValue(m, m.Step(l.wb), m.InstrAt(l.wb).csrAddr));
  }

  lemma MidIdle(m: Machine, l: Line, p: Pipe)
    requires StagesHold(m, l, p) && !p.idex.valid
    ensures p.idex.op.Undecoded? && !p.idex.isStore
  {
  }

  /** Writing the trap's value over itself changes no CSR. */
  lemma MidWrites(m: Machine, l: Line, s: Sys, i: Inputs)
    requires Mid(m, l, s) && Harmless(m, l.wb) && !i.timerIrq && !i.halt
    ensures StepCsrs(m.dp, s.core, i) == s.core.csrs
    ensures PlainCsrsEq(m, l.mem.csrs, l.wb.csrs)
  {
    hide Linked, StagesHold, FrontHolds, CsrsHold, MemoryHolds, TrapValue, Machine.CsrOperand, Machine.NextPc,
      Machine.NextMem, Machine.NextRegs;
    MidReads(m, l, s);
    MidIdle(m, l, s.core);
  }

  lemma MidCsrs(m: Machine, l: Line, s: Sys, i: Inputs)
    requires DecodeLaw(m.dp) && Mid(m, l, s) && Harmless(m, l.wb) && !i.timerIrq && !i.halt
    ensures CsrsHold(m, NextLine(m, l, s.core, i), Clock(m.dp, s.core, i))
  {
    hide Linked, FrontHolds, MemoryHolds, Harmless, StepCsrs, StepRegs, StepPc, StepIfId, StepIdEx, Machine.Step,
      DecodeLaw, WbHolds, ExHolds;
    MidWrites(m, l, s, i);
    MidRuns(m, l, s);
    MidReads(m, l, s);
  }

  /** The stages behind the trap are empty, so nothing depends on a privileged CSR. */
  lemma MidPriv(m: Machine, l: Line, s: Sys, i: Inputs)
    requires DecodeLaw(m.dp) && Mid(m, l, s) && !i.halt
    ensures PrivHolds(Clock(m.dp, s.core, i))
  {
    hide Linked, FrontHolds, MemoryHolds, CsrsHold, StepCsrs, StepRegs, StepPc, StepIfId, StepIdEx, WbHolds, ExHolds,
      DecodeLaw, MemHolds;
    MidRuns(m, l, s);
  }

  /** A running clock leads from Mid back to the invariant. */
  lemma MidLeft(m: Machine, l: Line, s: Sys, e: Env)
    requires Lawful(m.dp) && Mid(m, l, s) && Harmless(m, l.wb) && Contract(m, s, e) && !e.pins.halt
    requires SupportedAt(m, NextLine(m, l, s.core, e.pins).id)
    ensures Inv(m, NextLine(m, l, s.core, e.pins), SysClock(m.dp, s, e))
    ensures !SysClock(m.dp, s, e).core.exmem.valid
  {
    hide Linked, StagesHold, FrontHolds, CsrsHold, PrivHolds, MemoryHolds, NextLine, SupportedAt, DecodeLaw,
      OperandLaw, MemoryLaw, Harmless, Redirects;
    hide StepMemWb, StepIdEx, StepRegs, StepCsrs, StepPc, StepIfId;
    var p, i := s.core, e.pins;
    MidRuns(m, l, s);
    MidQuiet(m, l, p);
    LinkKept(m, l, p, i);
    StagesKept(m, l, s, e);
    FrontKept(m, l, s, e);
    MidCsrs(m, l, s, i);
    MidPriv(m, l, s, i);
    MemoryKept(m, l, s, e);
    MidRegs(m, l, s, i);
    assert NextLine(m, l, p, i).wb == l.mem by { NextWb(m, l, p, i); }
  }

  lemma MidQuiet(m: Machine, l: Line, p: Pipe)
    requires OperandLaw(m.dp) && StagesHold(m, l, p) && !p.idex.valid
    ensures !Redirects(m.dp, p)
  {
    var op, x, y := p.idex.op, p.idex.src1, p.idex.src2;
    assert !m.dp.branch(op, x, y);
  }

  lemma NextWb(m: Machine, l: Line, p: Pipe, i: Inputs)
    requires !i.halt
    ensures NextLine(m, l, p, i).wb == l.mem
  {
  }

  // ---- Runs of harmless programs --------------------------------------------------------------

  /** After k commits: the invariant of the refinement, or the clocks in which a
      recorded trap has a harmless CSR instruction in front of it. */
  ghost predicate Tracked(m: Machine, k: nat, s: Sys) {
    var l := LineAt(m, k, s.core);
    Inv(m, l, s) || (Mid(m, l, s) && Harmless(m, l.wb))
  }

  /** Wherever the run overtakes, it does no harm. */
  ghost predicate HarmlessOn(m: Machine, s: Sys, es: seq<Env>) {
    es == []
    || (HarmlessOn(m, s, es[..|es| - 1]) && (es[|es| - 1].pins.halt || HarmlessNow(m, s, es[..|es| - 1])))
  }

  ghost predicate HarmlessNow(m: Machine, s: Sys, es: seq<Env>) {
    Clobber(CoreAfter(m, s, es)) ==> Harmless(m, m.Run(MemIx(CommitCount(m, s, es), CoreAfter(m, s, es))))
  }

  lemma IndependentHalted(m: Machine, l: Line, s: Sys, e: Env)
    requires Inv(m, l, s) && e.pins.halt && Lawful(m.dp) && Contract(m, s, e)
    ensures NextLine(m, l, s.core, e.pins) == l && Inv(m, l, SysClock(m.dp, s, e))
  {
    hide Linked, StagesHold, MemoryHolds, FrontHolds, CsrsHold, PrivHolds, Clock, Lawful, Contract, SysClock;
    InvHalted(m, l, s, e);
  }

  /** From the invariant: another clock of it, or overtaking that does no harm. */
  lemma FromInv(m: Machine, l: Line, s: Sys, e: Env)
    requires Lawful(m.dp) && Contract(m, s, e) && Inv(m, l, s)
    requires SupportedAt(m, l.wb) && SupportedAt(m, l.ex) && SupportedAt(m, NextLine(m, l, s.core, e.pins).id)
    requires Clobber(s.core) && !e.pins.halt ==> Harmless(m, l.mem)
    ensures var l', s' := NextLine(m, l, s.core, e.pins), SysClock(m.dp, s, e);
      Inv(m, l', s') || (Mid(m, l', s') && Harmless(m, l'.wb))
  {
    hide Inv, Mid, Clobber, Contract, SupportedAt, Harmless, NextLine, DecodeLaw, OperandLaw, MemoryLaw, Clock;
    if e.pins.halt {
      IndependentHalted(m, l, s, e);
    } else if Clobber(s.core) {
      MidEntered(m, l, s, e);
      NextWb(m, l, s.core, e.pins);
    } else {
      InvKept(m, l, s, e);
    }
  }

  lemma FromMid(m: Machine, l: Line, s: Sys, e: Env)
    requires Lawful(m.dp) && Contract(m, s, e) && Mid(m, l, s) && Harmless(m, l.wb)
    requires SupportedAt(m, NextLine(m, l, s.core, e.pins).id)
    ensures var l', s' := NextLine(m, l, s.core, e.pins), SysClock(m.dp, s, e);
      Inv(m, l', s') || (Mid(m, l', s') && Harmless(m, l'.wb))
  {
    hide Inv, Mid, Contract, SupportedAt, Harmless, DecodeLaw, OperandLaw, MemoryLaw, Clock;
    if e.pins.halt {
      MidHalted(m, l, s, e);
    } else {
      MidLeft(m, l, s, e);
    }
  }

  lemma TrackedKept(m: Machine, k: nat, s: Sys, e: Env)
    requires Lawful(m.dp) && Supported(m) && Contract(m, s, e) && Tracked(m, k, s)
    requires Clobber(s.core) && !e.pins.halt ==> Harmless(m, m.Run(MemIx(k, s.core)))
    ensures Tracked(m, if Commits(s.core, e.pins) then k + 1 else k, SysClock(m.dp, s, e))
  {
    hide Lawful, Inv, Mid, Contract, Clock, SupportedAt, Harmless, Clobber, Machine.Run, NextLine;
    var p, i := s.core, e.pins;
    var l, k' := LineAt(m, k, p), if Commits(p, i) then k + 1 else k;
    NextLineAt(m, k, p, i);
    assert SupportedAt(m, m.Run(k)) && SupportedAt(m, m.Run(ExIx(k, p)));
    assert SupportedAt(m, m.Run(IdIx(k', Clock(m.dp, p, i))));
    if Inv(m, l, s) { FromInv(m, l, s, e); } else { FromMid(m, l, s, e); }
  }

  /** In either state WB commits the golden values, and the stages are golden. */
  lemma TrackedCommits(m: Machine, k: nat, s: Sys, i: Inputs)
    requires SupportedAt(m, m.Run(k)) && Tracked(m, k, s) && !i.timerIrq
    ensures StagesHold(m, LineAt(m, k, s.core), s.core)
    ensures CommitsNow(m.dp, s.core, i) == if Commits(s.core, i) then [GoldenCommit(m, m.Run(k))] else []
  {
    hide Machine.Run, SupportedAt, CommitsNow, GoldenCommit, StagesHold, CsrsHold, PrivHolds, Linked, FrontHolds,
      MemoryHolds, Harmless;
    var l := LineAt(m, k, s.core);
    if Mid(m, l, s) && Harmless(m, l.wb) { MidCommits(m, l, s, i); } else { CommitsAgree(m, l, s.core, i); }
  }

  /** The run so far is golden: everything executed, stored and committed, the
      registers, the CSRs, and once the stages have drained mepc, mcause and memory. */
  ghost predicate Agrees(m: Machine, s: Sys, es: seq<Env>) {
    var t, c := RunTrace(m.dp, s, es), SysRun(m.dp, s, es);
    var p, k := c.core, |t.commits|;
    && t.commits == GoldenCommits(m, k)
    && t.stores == GoldenStores(m, MemIx(k, p))
    && t.execs == GoldenExecs(m, ExIx(k, p))
    && p.regs == m.Run(k).regs
    && PlainCsrsEq(m, p.csrs, m.Run(k).csrs)
    && (Drained(p) ==> TrapCsrsEq(p.csrs, m.Run(k).csrs) && c.mem == m.Run(k).mem)
  }

  lemma TrackedAgrees(m: Machine, k: nat, s: Sys)
    requires Tracked(m, k, s)
    ensures s.core.regs == m.Run(k).regs && PlainCsrsEq(m, s.core.csrs, m.Run(k).csrs)
    ensures Drained(s.core) ==> TrapCsrsEq(s.core.csrs, m.Run(k).csrs) && s.mem == m.Run(k).mem
  {
    hide Machine.Run, StagesHold, PrivHolds, Linked, FrontHolds, Harmless;
  }

  lemma {:induction false} HarmlessRun(m: Machine, s: Sys, es: seq<Env>)
    requires Started(m, s) && HarmlessOn(m, s, es) && RunContract(m, s, es)
    ensures var t, c := RunTrace(m.dp, s, es), SysRun(m.dp, s, es);
      var k := |t.commits|;
      && Tracked(m, k, c)
      && t.commits == GoldenCommits(m, k)
      && t.stores == GoldenStores(m, MemIx(k, c.core))
      && t.execs == GoldenExecs(m, ExIx(k, c.core))
  {
    hide Harmless, Clobber, Tracked, Contract, Clock, ExecsNow, StoresNow, CommitsNow, GoldenCommit, Lawful,
      Machine.Run, LineAt, StagesHold, SupportedAt;
    if es == [] {
      TrackedAtReset(m, s);
    } else {
      var es', e := es[..|es| - 1], es[|es| - 1];
      HarmlessRun(m, s, es');
      var t, c := RunTrace(m.dp, s, es'), SysRun(m.dp, s, es');
      assert SupportedAt(m, m.Run(|t.commits|));
      assert !e.pins.timerIrq by { Quiet(m, c, e); }
      TrackedKept(m, |t.commits|, c, e);
      TrackedCommits(m, |t.commits|, c, e.pins);
      TraceGrows(m, c.core, t, e.pins);
    }
  }

  lemma Quiet(m: Machine, s: Sys, e: Env)
    requires Contract(m, s, e)
    ensures !e.pins.timerIrq
  {
  }

  lemma TrackedAtReset(m: Machine, s: Sys)
    requires Started(m, s)
    ensures Tracked(m, 0, s)
  {
    hide Lawful, Supported, Inv;
    ResetRefines(m, s);
  }

  /** A run that does no harm agrees with the golden core. */
  lemma HarmlessRunAgrees(m: Machine, s: Sys, es: seq<Env>)
    requires Started(m, s) && HarmlessOn(m, s, es) && RunContract(m, s, es)
    ensures Agrees(m, s, es)
  {
    hide Started, HarmlessOn, RunContract, Tracked;
    HarmlessRun(m, s, es);
    TrackedAgrees(m, |RunTrace(m.dp, s, es).commits|, SysRun(m.dp, s, es));
  }

  lemma {:induction false} CleanIsHarmless(m: Machine, s: Sys, es: seq<Env>)
    requires ClobberFree(m, s, es)
    ensures HarmlessOn(m, s, es)
  {
    hide Clobber, Harmless, CommitCount;
    if es != [] { CleanIsHarmless(m, s, es[..|es| - 1]); }
  }

  /** Overtaking happens only where the program exposes itself. */
  lemma ClobberExposes(m: Machine, l: Line, s: Sys)
    requires DecodeLaw(m.dp) && Inv(m, l, s) && Independent(m, l, s.core) && Clobber(s.core)
    ensures Exposed(m, l.mem)
  {
    hide FrontHolds, CsrsHold, PrivHolds, MemoryHolds, WbHolds, Delays, DecodeLaw;
    ClobberIsValid(m, l, s);
  }

  lemma MidIsIndependent(m: Machine, k: nat, s: Sys, e: Env)
    requires DecodeLaw(m.dp) && Mid(m, LineAt(m, k, s.core), s)
    ensures var p := Clock(m.dp, s.core, e.pins); !p.idex.valid || !p.exmem.valid
  {
    hide Linked, FrontHolds, MemoryHolds, CsrsHold, StepCsrs, StepRegs, StepPc, StepIfId, WbHolds, ExHolds, DecodeLaw,
      MemHolds, LineAt;
    MidRuns(m, LineAt(m, k, s.core), s);
  }

  lemma {:induction false} IndependentOn(m: Machine, s: Sys, es: seq<Env>)
    requires Started(m, s) && HarmlessOn(m, s, es) && RunContract(m, s, es)
    ensures var p := CoreAfter(m, s, es); Independent(m, LineAt(m, CommitCount(m, s, es), p), p)
  {
    hide DecodeLaw, OperandLaw, MemoryLaw, Inv, Mid, Harmless, Clobber, Contract, Clock, LineAt, Delays, NextLine,
      ExecsNow, StoresNow, Machine.Run, Machine.InstrAt, Supported;
    if es != [] {
      var es', e := es[..|es| - 1], es[|es| - 1];
      IndependentOn(m, s, es');
      HarmlessRun(m, s, es');
      var s', k := SysRun(m.dp, s, es'), CommitCount(m, s, es');
      NextLineAt(m, k, s'.core, e.pins);
      assert |CommitsNow(m.dp, s'.core, e.pins)| == if Commits(s'.core, e.pins) then 1 else 0;
      if Inv(m, LineAt(m, k, s'.core), s') {
        IndependentKept(m, LineAt(m, k, s'.core), s', e.pins);
      } else {
        MidIsIndependent(m, k, s', e);
      }
    }
  }

  lemma MidIsNoClobber(m: Machine, l: Line, s: Sys)
    requires DecodeLaw(m.dp) && Mid(m, l, s)
    ensures !Clobber(s.core)
  {
    hide Linked, FrontHolds, MemoryHolds, CsrsHold;
    MidIdle(m, l, s.core);
  }

  /** A harmless program does no harm on any schedule. */
  lemma HarmlessHere(m: Machine, s: Sys, es: seq<Env>)
    requires Started(m, s) && HarmlessProgram(m) && RunContract(m, s, es) && HarmlessOn(m, s, es)
    ensures HarmlessNow(m, s, es)
  {
    hide HarmlessOn, RunContract, Reset, Supported, Harmless, Exposed, OperandLaw, MemoryLaw, DecodeLaw, Clobber, Inv,
      Mid, Independent, Machine.Run;
    HarmlessRun(m, s, es);
    IndependentOn(m, s, es);
    var c, k := SysRun(m.dp, s, es), CommitCount(m, s, es);
    var l := LineAt(m, k, c.core);
    if Clobber(c.core) {
      if Inv(m, l, c) { ClobberExposes(m, l, c); } else { MidIsNoClobber(m, l, c); }
    }
  }

  lemma {:induction false} HarmlessEverywhere(m: Machine, s: Sys, es: seq<Env>)
    requires Started(m, s) && HarmlessProgram(m) && RunContract(m, s, es)
    ensures HarmlessOn(m, s, es)
  {
    hide Started, HarmlessProgram, HarmlessNow, Contract;
    if es != [] {
      HarmlessEverywhere(m, s, es[..|es| - 1]);
      HarmlessHere(m, s, es[..|es| - 1]);
    }
  }

  /** A harmless program agrees with the golden core on every schedule. */
  lemma HarmlessAgrees(m: Machine, s: Sys, es: seq<Env>)
    requires Started(m, s) && HarmlessProgram(m) && RunContract(m, s, es)
    ensures Agrees(m, s, es)
  {
    hide Started, HarmlessProgram, HarmlessOn, RunContract, Agrees;
    HarmlessEverywhere(m, s, es);
    HarmlessRunAgrees(m, s, es);
  }

  // ---- Other programs disagree on some schedule ------------------------------------------------

  /** The state after overtaking, as the golden instruction a in WB sees it. */
  ghost predicate Overtaken(m: Machine, a: Arch, p: Pipe) {
    var x := m.InstrAt(a).csrAddr;
    && p.memwb.valid && WbHolds(m, a, p.memwb) && p.memwb.isCsr && TrapCsr(x) && p.regs == a.regs
    && CsrRead(p.csrs, x) == TrapValue(m, m.Step(a), x)
    && p.idex == IDEX_BUBBLE && p.ifid == IFID_BUBBLE && p.exmem.valid && IsTrap(p.exmem.op) && !DmemReq(p)
  }

  lemma OvertakenNow(m: Machine, l: Line, s: Sys, e: Env)
    requires Lawful(m.dp) && Inv(m, l, s) && SupportedAt(m, l.wb) && Contract(m, s, e)
    requires Clobber(s.core) && !e.pins.halt
    ensures Overtaken(m, l.mem, Clock(m.dp, s.core, e.pins))
  {
    hide Machine.NextPc, Machine.NextMem, Machine.NextRegs, StepPc, StepIdEx, StepMemWb, StepCsrs, StepRegs;
    hide FrontHolds, MemoryHolds, CsrsHold, PrivHolds, MemHolds, ExHolds, SupportedAt, Contract, OperandLaw,
      DecodeLaw;
    hide MemoryLaw;
    ClobberFirst(m, l, s, e);
    ClobberIsValid(m, l, s);
    ClobberDoesNotWait(m, l, s.core);
    GoldenTrapValue(m, l, s.core);
  }

  /** What the overtaken instruction commits. */
  function OvertakenEvent(m: Machine, a: Arch): Commit {
    var d := m.InstrAt(a);
    var tv := TrapValue(m, m.Step(a), d.csrAddr);
    Commit(if Writes(d) then Some((d.rd, tv)) else None,
           Some((d.csrAddr, m.dp.csrNew(CsrKindOf(d.op), tv, m.CsrOperand(a)))))
  }

  /** The registers it leaves. */
  function OvertakenRegs(m: Machine, a: Arch): RegFile {
    var d := m.InstrAt(a);
    if Writes(d) then a.regs[d.rd := TrapValue(m, m.Step(a), d.csrAddr)] else a.regs
  }

  lemma OvertakenCommits(m: Machine, a: Arch, p: Pipe, i: Inputs)
    requires Overtaken(m, a, p) && !i.timerIrq && !i.halt
    ensures CommitsNow(m.dp, p, i) == [OvertakenEvent(m, a)] && StepRegs(p, i) == OvertakenRegs(m, a)
    ensures var d := m.InstrAt(a);
      CsrRead(StepCsrs(m.dp, p, i), d.csrAddr)
      == m.dp.csrNew(CsrKindOf(d.op), TrapValue(m, m.Step(a), d.csrAddr), m.CsrOperand(a))
  {
    hide TrapValue, Machine.Step, Machine.CsrOperand;
    OvertakenCommit(m, a, p, i, TrapValue(m, m.Step(a), m.InstrAt(a).csrAddr));
  }

  /** The trap is in WB and nothing is behind it but what IF may hold. */
  predicate Resting(p: Pipe) {
    p.memwb.valid && !p.memwb.isCsr && !p.exmem.valid && !p.idex.valid && p.idex.op.Undecoded?
  }

  lemma OvertakenRests(m: Machine, a: Arch, p: Pipe, i: Inputs)
    requires DecodeLaw(m.dp) && Overtaken(m, a, p) && !i.halt && !i.timerIrq
    ensures Resting(Clock(m.dp, p, i)) && Clock(m.dp, p, i).csrs == StepCsrs(m.dp, p, i)
  {
    hide WbHolds, TrapValue, Machine.Step, StepRegs, StepPc, StepCsrs, StepIfId, IdStall;
  }

  /** One more clock in which ID hands nothing on drains the stages. */
  lemma RestingDrains(dp: Datapath, p: Pipe, i: Inputs)
    requires Resting(p) && !i.halt && !i.timerIrq && !(p.ifid.valid && i.imemVld)
    ensures Drained(Clock(dp, p, i)) && Clock(dp, p, i).csrs == p.csrs
  {
    hide StepRegs, StepPc, StepIfId, IdStall;
  }

  /** The golden value of the CSR once the trap is through. */
  lemma GoldenAfterTrap(m: Machine, a: Arch)
    requires IsTrap(m.InstrAt(m.Step(a)).op) && TrapCsr(m.InstrAt(a).csrAddr)
    ensures var x := m.InstrAt(a).csrAddr; CsrRead(m.Step(m.Step(a)).csrs, x) == TrapValue(m, m.Step(a), x)
  {
    hide Machine.NextPc, Machine.NextMem, Machine.NextRegs;
  }

  /** The committed event is golden and the CSR ends up golden only if no harm is done. */
  lemma HarmlessIf(m: Machine, a: Arch)
    requires IsCsr(m.InstrAt(a).op) && OvertakenEvent(m, a) == GoldenCommit(m, a)
    requires var d := m.InstrAt(a); var tv := TrapValue(m, m.Step(a), d.csrAddr);
      m.dp.csrNew(CsrKindOf(d.op), tv, m.CsrOperand(a)) == tv
    ensures Harmless(m, a)
  {
    hide TrapValue, Machine.Step, Machine.CsrOperand, CsrRead;
  }

  /** A run with one more clock. */
  lemma OneMore(m: Machine, s: Sys, es: seq<Env>, e: Env)
    ensures SysRun(m.dp, s, es + [e]) == SysClock(m.dp, SysRun(m.dp, s, es), e)
    ensures CoreAfter(m, s, es + [e]) == Clock(m.dp, CoreAfter(m, s, es), e.pins)
    ensures RunTrace(m.dp, s, es + [e]).commits
      == RunTrace(m.dp, s, es).commits + CommitsNow(m.dp, CoreAfter(m, s, es), e.pins)
    ensures RunContract(m, s, es + [e]) <==> RunContract(m, s, es) && Contract(m, SysRun(m.dp, s, es), e)
    ensures HarmlessOn(m, s, es + [e]) <==> HarmlessOn(m, s, es) && (e.pins.halt || HarmlessNow(m, s, es))
    ensures ClobberFree(m, s, es + [e]) <==> ClobberFree(m, s, es) && !Clobber(CoreAfter(m, s, es))
  {
    hide ExecsNow, StoresNow, CommitsNow, Clock, Contract, HarmlessNow, Clobber;
    assert (es + [e])[..|es|] == es;
  }

  /** Three running clocks after es; nothing leaves ID in the third. */
  ghost predicate Ending(m: Machine, s: Sys, es: seq<Env>, e1: Env, e2: Env, e3: Env) {
    && RunContract(m, s, es + [e1] + [e2] + [e3]) && !e1.pins.halt && !e2.pins.halt && !e3.pins.halt
    && !(CoreAfter(m, s, es + [e1] + [e2]).ifid.valid && e3.pins.imemVld)
  }

  /** Index of the instruction in MEM. */
  function AtMem(m: Machine, s: Sys, es: seq<Env>): nat { MemIx(CommitCount(m, s, es), CoreAfter(m, s, es)) }

  /** The instructions an overtaking is about. */
  lemma ClobberAt(m: Machine, k: nat, p: Pipe)
    requires StagesHold(m, LineAt(m, k, p), p) && Clobber(p) && p.idex.valid
    ensures p.exmem.valid
    ensures var d, t := m.InstrAt(m.Run(MemIx(k, p))), m.InstrAt(m.Run(MemIx(k, p) + 1));
      IsCsr(d.op) && TrapCsr(d.csrAddr) && IsTrap(t.op)
  {
    hide Machine.Run, Machine.InstrAt, WbHolds;
  }

  lemma TrackedClobber(m: Machine, s: Sys, es: seq<Env>)
    requires Started(m, s) && HarmlessOn(m, s, es) && RunContract(m, s, es) && Clobber(CoreAfter(m, s, es))
    ensures var c, k := SysRun(m.dp, s, es), CommitCount(m, s, es);
      && Inv(m, LineAt(m, k, c.core), c) && SupportedAt(m, m.Run(k))
      && c.core.idex.valid && c.core.exmem.valid
    ensures var d, t := m.InstrAt(m.Run(AtMem(m, s, es))), m.InstrAt(m.Run(AtMem(m, s, es) + 1));
      IsCsr(d.op) && TrapCsr(d.csrAddr) && IsTrap(t.op)
  {
    hide HarmlessOn, RunContract, Reset, Harmless, OperandLaw, MemoryLaw, DecodeLaw, Mid, Machine.Run, SupportedAt,
      FrontHolds, CsrsHold, PrivHolds, MemoryHolds, StagesHold, Linked, Clobber, LineAt, MemIx, SysRun, RunTrace;
    HarmlessRun(m, s, es);
    var c, k := SysRun(m.dp, s, es), CommitCount(m, s, es);
    var l := LineAt(m, k, c.core);
    if !Inv(m, l, c) { MidIsNoClobber(m, l, c); }
    ClobberIsValid(m, l, c);
    ClobberAt(m, k, c.core);
  }

  /** A run that overtakes and then drains: its shorter prefix shows the committed
      event, the whole of it the CSR. */
  lemma OvertakingEnds(m: Machine, s: Sys, es: seq<Env>, e1: Env, e2: Env, e3: Env)
    requires Started(m, s) && HarmlessOn(m, s, es) && Clobber(CoreAfter(m, s, es)) && Ending(m, s, es, e1, e2, e3)
    ensures RunContract(m, s, es + [e1] + [e2]) && RunContract(m, s, es)
    ensures var es2, es3, j := es + [e1] + [e2], es + [e1] + [e2] + [e3], AtMem(m, s, es);
      var d := m.InstrAt(m.Run(j));
      && CommitCount(m, s, es2) == j + 1 && CommitCount(m, s, es3) == j + 2
      && RunTrace(m.dp, s, es2).commits[j] == OvertakenEvent(m, m.Run(j))
      && CoreAfter(m, s, es2).regs == OvertakenRegs(m, m.Run(j))
      && Drained(CoreAfter(m, s, es3))
      && CsrRead(CoreAfter(m, s, es3).csrs, d.csrAddr)
         == m.dp.csrNew(CsrKindOf(d.op), TrapValue(m, m.Run(j + 1), d.csrAddr), m.CsrOperand(m.Run(j)))
  {
    hide RunTrace, SysRun, Clobber, Machine.Run, HarmlessOn, RunContract, Inv, Supported, Reset, Clock, Contract,
      DecodeLaw, OperandLaw, MemoryLaw, Overtaken, OvertakenEvent, OvertakenRegs, TrapValue, Machine.CsrOperand,
      StepCsrs, StepRegs, CsrRead, Machine.Step, Machine.InstrAt;
    var c, c1, c2 := SysRun(m.dp, s, es), SysRun(m.dp, s, es + [e1]), SysRun(m.dp, s, es + [e1] + [e2]);
    var k, a := CommitCount(m, s, es), m.Run(AtMem(m, s, es));
    OneMore(m, s, es, e1);
    OneMore(m, s, es + [e1], e2);
    OneMore(m, s, es + [e1] + [e2], e3);
    Quiet(m, c1, e2);
    Quiet(m, c2, e3);
    TrackedClobber(m, s, es);
    OvertakenNow(m, LineAt(m, k, c.core), c, e1);
    OvertakenCommits(m, a, c1.core, e2.pins);
    OvertakenValid(m, a, c1.core);
    ClockRegs(m.dp, c1.core, e2.pins);
    OvertakenRests(m, a, c1.core, e2.pins);
    RestingDrains(m.dp, c2.core, e3.pins);
    RunNext(m, AtMem(m, s, es));
  }

  /** Unless overtaking does no harm, one of the two shows it. */
  lemma EndsShow(m: Machine, s: Sys, es: seq<Env>, e1: Env, e2: Env, e3: Env)
    requires Started(m, s) && HarmlessOn(m, s, es) && Clobber(CoreAfter(m, s, es)) && Ending(m, s, es, e1, e2, e3)
    requires Agrees(m, s, es + [e1] + [e2]) && Agrees(m, s, es + [e1] + [e2] + [e3])
    ensures HarmlessNow(m, s, es)
  {
    hide RunTrace, SysRun, Machine.Run, RunContract, Harmless, HarmlessOn, OvertakenEvent, TrapValue,
      Machine.CsrOperand, CsrRead, Machine.Step, Machine.InstrAt, Started, GoldenCommit, GoldenCommits, Drained,
      Clobber;
    var j, es3 := AtMem(m, s, es), es + [e1] + [e2] + [e3];
    OvertakingEnds(m, s, es, e1, e2, e3);
    TrackedClobber(m, s, es);
    GoldenGrows(m, j);
    assert OvertakenEvent(m, m.Run(j)) == GoldenCommit(m, m.Run(j));
    RunNext(m, j);
    RunNext(m, j + 1);
    GoldenAfterTrap(m, m.Run(j));
    SameTrapCsr(SysRun(m.dp, s, es3).core.csrs, m.Run(j + 2).csrs, m.InstrAt(m.Run(j)).csrAddr);
    HarmlessIf(m, m.Run(j));
  }

  /** On ideal terms: the run that parks at k, overtakes and drains. */
  lemma OvertakingRun(m: Machine, s: Sys, k: nat) returns (es: seq<Env>, e1: Env, e2: Env, e3: Env)
    requires Started(m, s) && Exposed(m, m.Run(k))
    ensures HarmlessOn(m, s, es) && Clobber(CoreAfter(m, s, es)) && Ending(m, s, es, e1, e2, e3) && AtMem(m, s, es) == k
  {
    hide RunTrace, SysRun, Clobber, Machine.Run, ClobberFree, HarmlessOn, HarmlessNow, RunContract, Exposed,
      Supported, Reset, Clock, Answer, Contract, Lawful;
    es := ReachClobber(m, s, k);
    CleanIsHarmless(m, s, es);
    e1 := Answer(m, SysRun(m.dp, s, es), false);
    OneMore(m, s, es, e1);
    AnswersKept(m, SysRun(m.dp, s, es), false);
    e2 := Answer(m, SysRun(m.dp, s, es + [e1]), false);
    OneMore(m, s, es + [e1], e2);
    AnswersKept(m, SysRun(m.dp, s, es + [e1]), false);
    e3 := Answer(m, SysRun(m.dp, s, es + [e1] + [e2]), false);
    OneMore(m, s, es + [e1] + [e2], e3);
    AnswersKept(m, SysRun(m.dp, s, es + [e1] + [e2]), false);
  }

  lemma ClockRegs(dp: Datapath, p: Pipe, i: Inputs)
    ensures Clock(dp, p, i).regs == StepRegs(p, i)
  {
  }

  lemma OvertakenValid(m: Machine, a: Arch, p: Pipe)
    requires Overtaken(m, a, p)
    ensures p.memwb.valid
  {
  }

  lemma AnswersKept(m: Machine, c: Sys, fetch: bool)
    ensures Contract(m, c, Answer(m, c, fetch))
    ensures !Answer(m, c, fetch).pins.halt && Answer(m, c, fetch).pins.imemVld == fetch
  {
  }

  lemma HarmShows(m: Machine, s: Sys, k: nat) returns (es: seq<Env>)
    requires Started(m, s) && Exposed(m, m.Run(k)) && !Harmless(m, m.Run(k))
    ensures RunContract(m, s, es) && !Agrees(m, s, es)
  {
    hide RunTrace, SysRun, Machine.Run, RunContract, Harmless, Exposed, Started, HarmlessOn, Clobber, Agrees, Ending;
    var first, e1, e2, e3 := OvertakingRun(m, s, k);
    OvertakingEnds(m, s, first, e1, e2, e3);
    if Agrees(m, s, first + [e1] + [e2]) && Agrees(m, s, first + [e1] + [e2] + [e3]) {
      EndsShow(m, s, first, e1, e2, e3);
    }
    EndingRuns(m, s, first, e1, e2, e3);
    es := if Agrees(m, s, first + [e1] + [e2]) then first + [e1] + [e2] + [e3] else first + [e1] + [e2];
  }

  lemma EndingRuns(m: Machine, s: Sys, es: seq<Env>, e1: Env, e2: Env, e3: Env)
    requires Ending(m, s, es, e1, e2, e3)
    ensures RunContract(m, s, es + [e1] + [e2] + [e3])
  {
  }

  lemma SameTrapCsr(c: Csrs, g: Csrs, x: CsrAddr)
    requires TrapCsrsEq(c, g) && TrapCsr(x)
    ensures CsrRead(c, x) == CsrRead(g, x)
  {
  }

  /** Main result: the pipelined core agrees with the golden core on every schedule
      exactly if, wherever the program puts an undelayed trap right behind a CSR
      instruction on mepc or mcause, the trap's value makes no difference to it. */
  lemma AgreesOnAllSchedules(m: Machine, s: Sys)
    requires Started(m, s)
    ensures (forall es :: RunContract(m, s, es) ==> Agrees(m, s, es)) <==> HarmlessProgram(m)
  {
    hide RunContract, Agrees, Machine.Run, Harmless, Exposed, Started;
    if HarmlessProgram(m) {
      forall es | RunContract(m, s, es) ensures Agrees(m, s, es) { HarmlessAgrees(m, s, es); }
    } else {
      var k: nat :| Exposed(m, m.Run(k)) && !Harmless(m, m.Run(k));
      var es := HarmShows(m, s, k);
      assert RunContract(m, s, es) && !Agrees(m, s, es);
    }
  }
}
