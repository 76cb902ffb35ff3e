/** Whole runs: what the pipelined core executes, stores and commits is a prefix
    of what the golden core does. */
module Traces {
  import opened Options
  import opened Isa
  import opened Golden
  import opened Pipeline
  import opened Refinement

  /** An instruction leaving EX: its pc and, for a trap, the recorded cause. */
  datatype Exec = Exec(pc: Word, cause: Option<Word>)
  datatype Store = Store(addr: Word, data: Word, mask: bv4)
  /** An instruction leaving WB: its register write and its CSR write. */
  datatype Commit = Commit(reg: Option<(Reg, Word)>, csr: Option<(CsrAddr, Word)>)
  datatype Trace = Trace(execs: seq<Exec>, stores: seq<Store>, commits: seq<Commit>)

  function CauseOf(op: Op): Option<Word> {
    if op.Ecall? then Some(11) else if op.Ebreak? then Some(3) else None
  }

  // ---- Events of the pipelined core ---------------------------------------------

  predicate Advances(p: Pipe, i: Inputs) { !i.halt && !MemWait(p, i) }

  function ExecsNow(dp: Datapath, p: Pipe, i: Inputs): seq<Exec> {
    if Advances(p, i) && p.idex.valid then
      var after := StepCsrs(dp, p, i);
      [Exec(p.idex.pc, if IsTrap(p.idex.op) then Some(CsrRead(after, MCAUSE)) else None)]
    else []
  }

  function StoresNow(dp: Datapath, p: Pipe, i: Inputs): seq<Store> {
    if Advances(p, i) && DmemWe(p) then
      [Store(p.exmem.result, dp.storeData(p.exmem.src2, p.exmem.result), dp.storeMask(p.exmem.op, p.exmem.result))]
    else []
  }

  function CommitsNow(dp: Datapath, p: Pipe, i: Inputs): seq<Commit> {
    if Commits(p, i) then
      [Commit(if p.memwb.wrEn && p.memwb.rd != 0
              then Some((p.memwb.rd, if p.memwb.isCsr then CsrReadWb(p, i) else p.memwb.wrData)) else None,
              if p.memwb.isCsr then Some((p.memwb.csrAddr, CsrNewWb(dp, p, i))) else None)]
    else []
  }

  function SysRun(dp: Datapath, s: Sys, es: seq<Env>): Sys {
    if es == [] then s else SysClock(dp, SysRun(dp, s, es[..|es| - 1]), es[|es| - 1])
  }

  function RunTrace(dp: Datapath, s: Sys, es: seq<Env>): Trace {
    if es == [] then Trace([], [], [])
    else
      var t := RunTrace(dp, s, es[..|es| - 1]);
      var p := SysRun(dp, s, es[..|es| - 1]).core;
      var i := es[|es| - 1].pins;
      Trace(t.execs + ExecsNow(dp, p, i), t.stores + StoresNow(dp, p, i), t.commits + CommitsNow(dp, p, i))
  }

  // ---- Events of the golden core --------------------------------------------------

  function GoldenExec(m: Machine, a: Arch): Exec { Exec(a.pc, CauseOf(m.InstrAt(a).op)) }

  function GoldenStore(m: Machine, a: Arch): seq<Store> {
    var d := m.InstrAt(a);
    if d.isStore then
      [Store(m.Result(a), m.dp.storeData(m.Src2(a), m.Result(a)), m.dp.storeMask(d.op, m.Result(a)))]
    else []
  }

  function GoldenCommit(m: Machine, a: Arch): Commit {
    var d := m.InstrAt(a);
    Commit(if Writes(d) then Some((d.rd, m.WriteValue(a))) else None,
           if IsCsr(d.op) then Some((d.csrAddr, m.CsrNewValue(a))) else None)
  }

  function GoldenExecs(m: Machine, n: nat): seq<Exec> {
    if n == 0 then [] else GoldenExecs(m, n - 1) + [GoldenExec(m, m.Run(n - 1))]
  }

  function GoldenStores(m: Machine, n: nat): seq<Store> {
    if n == 0 then [] else GoldenStores(m, n - 1) + GoldenStore(m, m.Run(n - 1))
  }

  function GoldenCommits(m: Machine, n: nat): (r: seq<Commit>)
    ensures |r| == n
  {
    if n == 0 then [] else GoldenCommits(m, n - 1) + [GoldenCommit(m, m.Run(n - 1))]
  }

  // ---- Runs ------------------------------------------------------------------------

  /** Every clock of the run keeps the memory contract. */
  ghost predicate RunContract(m: Machine, s: Sys, es: seq<Env>) {
    es == [] || (RunContract(m, s, es[..|es| - 1]) && Contract(m, SysRun(m.dp, s, es[..|es| - 1]), es[|es| - 1]))
  }

  /** The trap-behind-CSR adjacency never occurs. */
  ghost predicate ClobberFree(m: Machine, s: Sys, es: seq<Env>) {
    es == [] || (ClobberFree(m, s, es[..|es| - 1]) && !Clobber(SysRun(m.dp, s, es[..|es| - 1]).core))
  }

  /** Both cores out of reset with equal registers, CSRs and memory. */
  predicate Reset(m: Machine, s: Sys) {
    && s.core.pc == m.init.pc && s.core.ifid == IFID_BUBBLE && s.core.idex == IDEX_BUBBLE
    && !s.core.exmem.valid && !s.core.memwb.valid
    && s.core.regs == m.init.regs && s.core.csrs == m.init.csrs && s.mem == m.init.mem
  }

  function MemIx(k: nat, p: Pipe): nat { k + (if p.memwb.valid then 1 else 0) }
  function ExIx(k: nat, p: Pipe): nat { MemIx(k, p) + (if p.exmem.valid then 1 else 0) }
  function IdIx(k: nat, p: Pipe): nat { ExIx(k, p) + (if p.idex.valid then 1 else 0) }

  /** The golden states in flight when k instructions have committed. */
  function LineAt(m: Machine, k: nat, p: Pipe): Line {
    Line(m.Run(k), m.Run(MemIx(k, p)), m.Run(ExIx(k, p)), m.Run(IdIx(k, p)))
  }

  ghost predicate Refines(m: Machine, s: Sys, t: Trace) {
    var k := |t.commits|;
    && Inv(m, LineAt(m, k, s.core), s)
    && t.commits == GoldenCommits(m, k)
    && t.stores == GoldenStores(m, MemIx(k, s.core))
    && t.execs == GoldenExecs(m, ExIx(k, s.core))
  }

  /** Which stages are occupied after the clock edge. */
  lemma NextValid(dp: Datapath, p: Pipe, i: Inputs)
    ensures var p' := Clock(dp, p, i);
      && (i.halt ==> p'.memwb.valid == p.memwb.valid)
      && (i.halt || MemWait(p, i) ==> p'.exmem.valid == p.exmem.valid && p'.idex.valid == p.idex.valid)
      && (!i.halt && MemWait(p, i) ==> !p'.memwb.valid)
      && (Advances(p, i) ==>
            p'.memwb.valid == p.exmem.valid && p'.exmem.valid == p.idex.valid && p'.idex.valid == Issues(dp, p, i))
  {
    hide StepPc, StepIfId, StepCsrs, StepRegs, Flush, FrontStall;
  }

  lemma RunNext(m: Machine, k: nat)
    ensures m.Run(k + 1) == m.Step(m.Run(k))
  {
    hide Machine.Step;
  }

  lemma NextLineAt(m: Machine, k: nat, p: Pipe, i: Inputs)
    ensures NextLine(m, LineAt(m, k, p), p, i) == LineAt(m, if Commits(p, i) then k + 1 else k, Clock(m.dp, p, i))
  {
    hide Machine.Step, Machine.Run, Clock, MemWait, Issues;
    NextValid(m.dp, p, i);
    RunNext(m, IdIx(k, p));
  }

  lemma ExecsAgree(m: Machine, l: Line, p: Pipe, i: Inputs)
    requires !i.timerIrq && StagesHold(m, l, p)
    ensures ExecsNow(m.dp, p, i) == if Advances(p, i) && p.idex.valid then [GoldenExec(m, l.ex)] else []
  {
    hide WbCsrs, StackedStatus, TrapStatus, MretStatus, WbHolds, MemHolds;
  }

  lemma StoresAgree(m: Machine, l: Line, p: Pipe, i: Inputs)
    requires StagesHold(m, l, p)
    ensures StoresNow(m.dp, p, i) == if Advances(p, i) && p.exmem.valid then GoldenStore(m, l.mem) else []
  {
    hide WbHolds, ExHolds;
  }

  lemma CommitsAgree(m: Machine, l: Line, p: Pipe, i: Inputs)
    requires SupportedAt(m, l.wb) && !i.timerIrq
    requires StagesHold(m, l, p) && CsrsHold(m, l, p) && PrivHolds(p)
    ensures CommitsNow(m.dp, p, i) == if Commits(p, i) then [GoldenCommit(m, l.wb)] else []
  {
    if Commits(p, i) && p.memwb.isCsr {
      if TrapCsr(p.memwb.csrAddr) { WbSeesTrapCsrs(m, l, p); }
      CsrReadFresh(m, l.wb, p, i);
    }
    hide MemHolds, ExHolds, PrivHolds, TrapView, CsrReadWb, CsrRead, Machine.CsrNewValue, CsrNewWb;
  }

  /** The golden trace of one more instruction. */
  lemma GoldenGrows(m: Machine, k: nat)
    ensures GoldenExecs(m, k + 1) == GoldenExecs(m, k) + [GoldenExec(m, m.Run(k))]
    ensures GoldenStores(m, k + 1) == GoldenStores(m, k) + GoldenStore(m, m.Run(k))
    ensures GoldenCommits(m, k + 1) == GoldenCommits(m, k) + [GoldenCommit(m, m.Run(k))]
  {
    hide Machine.Run, GoldenExec, GoldenStore, GoldenCommit;
  }

  /** What one clock adds to the trace is what the golden run adds, once what it
      commits is golden. */
  lemma TraceGrows(m: Machine, p: Pipe, t: Trace, i: Inputs)
    requires var k := |t.commits|;
      && StagesHold(m, LineAt(m, k, p), p) && !i.timerIrq
      && t.commits == GoldenCommits(m, k)
      && t.stores == GoldenStores(m, MemIx(k, p))
      && t.execs == GoldenExecs(m, ExIx(k, p))
      && CommitsNow(m.dp, p, i) == if Commits(p, i) then [GoldenCommit(m, m.Run(k))] else []
    ensures var p', k := Clock(m.dp, p, i), |t.commits|;
      var k' := if Commits(p, i) then k + 1 else k;
      && t.commits + CommitsNow(m.dp, p, i) == GoldenCommits(m, k')
      && t.stores + StoresNow(m.dp, p, i) == GoldenStores(m, MemIx(k', p'))
      && t.execs + ExecsNow(m.dp, p, i) == GoldenExecs(m, ExIx(k', p'))
  {
    hide Machine.Run, Clock, MemWait, ExecsNow, StoresNow, CommitsNow, GoldenExec, GoldenStore, GoldenCommit,
      GoldenExecs, GoldenStores, GoldenCommits, StagesHold;
    var k := |t.commits|;
    var l := LineAt(m, k, p);
    ExecsAgree(m, l, p, i);
    StoresAgree(m, l, p, i);
    NextValid(m.dp, p, i);
    GoldenGrows(m, k);
    GoldenGrows(m, MemIx(k, p));
    GoldenGrows(m, ExIx(k, p));
  }

  lemma TraceKept(m: Machine, s: Sys, t: Trace, i: Inputs)
    requires SupportedAt(m, m.Run(|t.commits|)) && Refines(m, s, t) && !i.timerIrq
    ensures var p, p', k := s.core, Clock(m.dp, s.core, i), |t.commits|;
      var k' := if Commits(p, i) then k + 1 else k;
      && t.commits + CommitsNow(m.dp, p, i) == GoldenCommits(m, k')
      && t.stores + StoresNow(m.dp, p, i) == GoldenStores(m, MemIx(k', p'))
      && t.execs + ExecsNow(m.dp, p, i) == GoldenExecs(m, ExIx(k', p'))
  {
    hide Machine.Run, Clock, SupportedAt, ExecsNow, StoresNow, CommitsNow, GoldenCommit, GoldenExecs, GoldenStores,
      GoldenCommits, StagesHold, CsrsHold, PrivHolds, Linked, FrontHolds, MemoryHolds;
    CommitsAgree(m, LineAt(m, |t.commits|, s.core), s.core, i);
    TraceGrows(m, s.core, t, i);
  }

  lemma RefinesKept(m: Machine, s: Sys, t: Trace, e: Env)
    requires Lawful(m.dp) && Supported(m) && Refines(m, s, t) && Contract(m, s, e) && !Clobber(s.core)
    ensures var p, i := s.core, e.pins;
      Refines(m, SysClock(m.dp, s, e), Trace(t.execs + ExecsNow(m.dp, p, i), t.stores + StoresNow(m.dp, p, i),
                                             t.commits + CommitsNow(m.dp, p, i)))
  {
    hide Inv, Lawful, NextLine, Clock, Clobber, MemWait, SupportedAt, Machine.Run;
    hide ExecsNow, StoresNow, GoldenExecs, GoldenStores, GoldenCommits;
    var p, i, k := s.core, e.pins, |t.commits|;
    NextLineAt(m, k, p, i);
    var k' := if Commits(p, i) then k + 1 else k;
    assert SupportedAt(m, m.Run(k)) && SupportedAt(m, m.Run(ExIx(k, p)));
    assert SupportedAt(m, m.Run(IdIx(k', Clock(m.dp, p, i))));
    InvKept(m, LineAt(m, k, p), s, e);
    TraceKept(m, s, t, i);
  }

  lemma ResetRefines(m: Machine, s: Sys)
    requires Lawful(m.dp) && Reset(m, s)
    ensures Refines(m, s, Trace([], [], []))
  {
  }

  lemma {:induction false} RunRefines(m: Machine, s: Sys, es: seq<Env>)
    requires Lawful(m.dp) && Supported(m) && Reset(m, s)
    requires RunContract(m, s, es) && ClobberFree(m, s, es)
    ensures Refines(m, SysRun(m.dp, s, es), RunTrace(m.dp, s, es))
  {
    if es == [] {
      ResetRefines(m, s);
    } else {
      var es' := es[..|es| - 1];
      RunRefines(m, s, es');
      RefinesKept(m, SysRun(m.dp, s, es'), RunTrace(m.dp, s, es'), es[|es| - 1]);
    }
  }

  /** Main result. For every program, every halt schedule and every memory
      latency, what the pipelined core has executed, stored and committed, in
      order and each exactly once, is a prefix of the golden core's run, with at
      most two executed instructions still uncommitted; the register file is the
      golden one after the committed instructions. */
  lemma PipelineRefinesGolden(m: Machine, s: Sys, es: seq<Env>)
    requires Lawful(m.dp) && Supported(m) && Reset(m, s)
    requires RunContract(m, s, es) && ClobberFree(m, s, es)
    ensures var t, p := RunTrace(m.dp, s, es), SysRun(m.dp, s, es).core;
      var k := |t.commits|;
      && t.commits == GoldenCommits(m, k)
      && t.stores == GoldenStores(m, MemIx(k, p))
      && t.execs == GoldenExecs(m, ExIx(k, p))
      && p.regs == m.Run(k).regs
  {
    RunRefines(m, s, es);
  }
}
