/** When the trap ordering problem occurs: every program that leaves a CSR
    instruction on mepc or mcause exposed to a trap behind it has a schedule that
    reaches it. */
module Overtaking {
  import opened Isa
  import opened Golden
  import opened Pipeline
  import opened Refinement
  import opened Traces
  import opened TrapOrder

  // ---- Schedules --------------------------------------------------------------------------

  /** A clock in which the data memory answers, and the instruction memory if fetch. */
  function Answer(m: Machine, s: Sys, fetch: bool): Env {
    Env(Inputs(false, fetch, m.prog(s.core.pc), true, m.dp.readWord(s.mem, s.core.exmem.result), false), true)
  }

  /** The setting: both cores out of reset. */
  ghost predicate Started(m: Machine, s: Sys) { Lawful(m.dp) && Supported(m) && Reset(m, s) }

  /** A run so far without overtaking. */
  ghost predicate Clean(m: Machine, s: Sys, es: seq<Env>) { RunContract(m, s, es) && ClobberFree(m, s, es) }

  function CommitCount(m: Machine, s: Sys, es: seq<Env>): nat { |RunTrace(m.dp, s, es).commits| }

  function CoreAfter(m: Machine, s: Sys, es: seq<Env>): Pipe { SysRun(m.dp, s, es).core }

  /** The run with one more answered clock. */
  function Then(m: Machine, s: Sys, es: seq<Env>, fetch: bool): seq<Env> {
    es + [Answer(m, SysRun(m.dp, s, es), fetch)]
  }

  lemma ThenRuns(m: Machine, s: Sys, es: seq<Env>, fetch: bool)
    requires RunContract(m, s, es)
    ensures var es', p := Then(m, s, es, fetch), CoreAfter(m, s, es);
      && RunContract(m, s, es')
      && SysRun(m.dp, s, es') == SysClock(m.dp, SysRun(m.dp, s, es), Answer(m, SysRun(m.dp, s, es), fetch))
      && CoreAfter(m, s, es') == Clock(m.dp, p, Answer(m, SysRun(m.dp, s, es), fetch).pins)
      && CommitCount(m, s, es') == CommitCount(m, s, es) + (if p.memwb.valid then 1 else 0)
      && (ClobberFree(m, s, es) && !Clobber(p) ==> ClobberFree(m, s, es'))
  {
    hide Clock, Clobber, Lawful, ExecsNow, StoresNow;
    var es' := Then(m, s, es, fetch);
    assert es'[..|es'| - 1] == es;
  }

  /** What one answered clock does to the occupancy of the stages. */
  lemma Occupancy(m: Machine, l: Line, s: Sys, fetch: bool)
    requires OperandLaw(m.dp) && StagesHold(m, l, s.core)
    ensures var p, q := s.core, Clock(m.dp, s.core, Answer(m, s, fetch).pins);
      && q.memwb.valid == p.exmem.valid && q.exmem.valid == p.idex.valid
      && (!p.idex.valid && !fetch ==> q.ifid.valid == p.ifid.valid && !q.idex.valid)
      && (p.idex.valid && !fetch ==> !q.idex.valid)
      && (!p.idex.valid && !p.ifid.valid && fetch ==> q.ifid.valid && !q.idex.valid)
      && (!p.idex.valid && !p.exmem.valid && !p.memwb.valid && fetch ==> q.ifid.valid && q.idex.valid == p.ifid.valid)
  {
    hide StepCsrs, StepRegs, StepPc, WbHolds, MemHolds, ExHolds;
  }

  /** One instruction waits in ID, and nothing is ahead of it. */
  predicate Parked(p: Pipe) { p.ifid.valid && !p.idex.valid && !p.exmem.valid && !p.memwb.valid }

  predicate Drained(p: Pipe) { !p.idex.valid && !p.exmem.valid && !p.memwb.valid }

  lemma NotBoth(p: Pipe)
    requires !p.exmem.valid || !IsTrap(p.idex.op)
    ensures !Clobber(p)
  {
  }

  /** An answered clock from a state where no trap has anything in front of it. */
  lemma Advance(m: Machine, s: Sys, es: seq<Env>, fetch: bool)
    requires Started(m, s) && Clean(m, s, es)
    requires var p := CoreAfter(m, s, es); !p.exmem.valid || !p.idex.valid
    ensures var es', p := Then(m, s, es, fetch), CoreAfter(m, s, es);
      var q := CoreAfter(m, s, es');
      && Clean(m, s, es')
      && CommitCount(m, s, es') == CommitCount(m, s, es) + (if p.memwb.valid then 1 else 0)
      && q.memwb.valid == p.exmem.valid && q.exmem.valid == p.idex.valid
      && (!p.idex.valid && !fetch ==> q.ifid.valid == p.ifid.valid && !q.idex.valid)
      && (p.idex.valid && !fetch ==> !q.idex.valid)
      && (!p.idex.valid && !p.ifid.valid && fetch ==> q.ifid.valid && !q.idex.valid)
      && (Drained(p) && fetch ==> q.ifid.valid && q.idex.valid == p.ifid.valid)
  {
    hide RunContract, ClobberFree, RunTrace, SysRun, Clock, Clobber, FrontHolds, CsrsHold, PrivHolds, MemoryHolds,
      LineAt, Answer, Linked, Supported, Reset, DecodeLaw, OperandLaw, MemoryLaw, WbHolds, MemHolds, ExHolds;
    RunRefines(m, s, es);
    var s', k := SysRun(m.dp, s, es), CommitCount(m, s, es);
    Occupancy(m, LineAt(m, k, s'.core), s', fetch);
    ThenRuns(m, s, es, fetch);
    NotBoth(s'.core);
  }

  /** A clean schedule exists that parks any golden instruction in ID with all the
      older ones committed: memory withholds every fetch until the stages are empty. */
  lemma {:induction false} ParkAt(m: Machine, s: Sys, k: nat) returns (es: seq<Env>)
    requires Started(m, s)
    ensures Clean(m, s, es) && Parked(CoreAfter(m, s, es)) && CommitCount(m, s, es) == k
    decreases k
  {
    hide Started, Clean, CommitCount, CoreAfter, Then;
    if k == 0 {
      es := [];
      AtReset(m, s);
      Advance(m, s, es, true);
      es := Then(m, s, es, true);
    } else {
      es := ParkAt(m, s, k - 1);
      Advance(m, s, es, true);
      es := Then(m, s, es, true);
      Advance(m, s, es, false);
      es := Then(m, s, es, false);
      Advance(m, s, es, false);
      es := Then(m, s, es, false);
      Advance(m, s, es, false);
      es := Then(m, s, es, false);
      if !CoreAfter(m, s, es).ifid.valid {
        Advance(m, s, es, true);
        es := Then(m, s, es, true);
      }
    }
  }

  lemma AtReset(m: Machine, s: Sys)
    requires Started(m, s)
    ensures Clean(m, s, []) && CommitCount(m, s, []) == 0
    ensures var p := CoreAfter(m, s, []); Drained(p) && !p.ifid.valid
  {
  }

  // ---- Reaching the problem -------------------------------------------------------------------

  /** A CSR instruction on mepc or mcause with a trap behind it that nothing delays. */
  predicate Exposed(m: Machine, a: Arch) { !SeparatedAt(m, a) }

  lemma CsrStays(dp: Datapath, p: Pipe, i: Inputs)
    requires OperandLaw(dp) && IsCsr(p.idex.op) && !i.timerIrq
    ensures !Redirects(dp, p) && !Flush(dp, p, i)
  {
    var op, x, y := p.idex.op, p.idex.src1, p.idex.src2;
    assert !dp.branch(op, x, y);
  }

  /** The CSR instruction is alone in EX and its trap waits in ID. */
  predicate InLine(m: Machine, a: Arch, p: Pipe) {
    var d := m.InstrAt(a);
    && p.idex.valid && p.ifid.valid && !p.exmem.valid && !p.memwb.valid
    && p.idex.op == d.op && p.idex.rd == d.rd && p.idex.rdValid == d.rdValid && p.idex.csrAddr == d.csrAddr
    && m.dp.decode(p.ifid.instr) == m.InstrAt(m.Step(a))
  }

  lemma LinedUp(m: Machine, l: Line, p: Pipe, i: Inputs)
    requires OperandLaw(m.dp) && Linked(m, l, p) && StagesHold(m, l, p) && FrontHolds(m, l, p)
    requires p.idex.valid && p.ifid.valid && !p.exmem.valid && !p.memwb.valid && !i.timerIrq
    requires IsCsr(m.InstrAt(l.ex).op)
    ensures InLine(m, l.ex, p)
  {
    hide Machine.Step, WbHolds, MemHolds, Redirects, OperandLaw, Flush;
    assert p.idex.op == m.InstrAt(l.ex).op;
    CsrStays(m.dp, p, i);
  }

  /** Nothing holds the trap back. */
  lemma NotHeld(m: Machine, a: Arch, p: Pipe, i: Inputs)
    requires InLine(m, a, p) && Exposed(m, a) && !i.timerIrq
    ensures !IdStall(m.dp, p, i)
  {
    hide Machine.Step, Machine.InstrAt, Flush;
  }

  lemma MovesToMem(dp: Datapath, p: Pipe, i: Inputs)
    requires !i.halt && !MemWait(p, i)
    ensures var x := Clock(dp, p, i).exmem;
      x.op == p.idex.op && x.csrAddr == p.idex.csrAddr && x.valid == p.idex.valid
  {
    hide StepIdEx, StepCsrs, StepRegs, StepMemWb, StepPc, StepIfId, MemWait;
  }

  lemma MovesToEx(dp: Datapath, p: Pipe, i: Inputs)
    requires !i.halt && !MemWait(p, i) && i.imemVld && !Flush(dp, p, i) && !IdStall(dp, p, i)
    ensures Clock(dp, p, i).idex.op == dp.decode(p.ifid.instr).op
  {
    hide StepExMem, StepCsrs, StepRegs, StepMemWb, StepPc, StepIfId, Flush, IdStall, MemWait;
  }

  lemma BothMove(m: Machine, a: Arch, p: Pipe, i: Inputs)
    requires OperandLaw(m.dp) && InLine(m, a, p) && Exposed(m, a)
    requires !i.halt && !i.timerIrq && i.imemVld && i.dmemVld
    ensures Clobber(Clock(m.dp, p, i))
  {
    hide Machine.Step, Machine.InstrAt, Delays, Flush, IdStall, Clock, OperandLaw;
    CsrStays(m.dp, p, i);
    NotHeld(m, a, p, i);
    MovesToMem(m.dp, p, i);
    MovesToEx(m.dp, p, i);
  }

  /** With such a CSR instruction alone in EX, its trap is behind it in ID, and
      nothing holds it there. */
  lemma TrapFollows(m: Machine, k: nat, c: Sys)
    requires OperandLaw(m.dp) && Inv(m, LineAt(m, k, c.core), c) && Exposed(m, m.Run(k))
    requires var p := c.core; p.idex.valid && p.ifid.valid && !p.exmem.valid && !p.memwb.valid
    ensures Clobber(Clock(m.dp, c.core, Answer(m, c, true).pins))
  {
    hide Machine.Run, InLine, Clobber, Clock, Linked, StagesHold, FrontHolds, CsrsHold, PrivHolds, MemoryHolds,
      OperandLaw, Delays;
    LinedUp(m, LineAt(m, k, c.core), c.core, Answer(m, c, true).pins);
    BothMove(m, m.Run(k), c.core, Answer(m, c, true).pins);
  }

  /** Every such program has a run from reset, free of the problem up to then, that
      reaches it: the CSR instruction in MEM, its trap in EX. */
  lemma ReachClobber(m: Machine, s: Sys, k: nat) returns (es: seq<Env>)
    requires Started(m, s) && Exposed(m, m.Run(k))
    ensures Clean(m, s, es) && Clobber(CoreAfter(m, s, es)) && CommitCount(m, s, es) == k
    ensures var p := CoreAfter(m, s, es); p.exmem.valid && p.idex.valid && !p.memwb.valid
  {
    hide RunTrace, SysRun, Clobber, Machine.Run, ClobberFree, RunContract, Exposed, Inv, LineAt, Supported, Lawful,
      Reset, Clock, Answer;
    var park := ParkAt(m, s, k);
    Advance(m, s, park, true);
    var one := Then(m, s, park, true);
    RunRefines(m, s, one);
    assert CommitCount(m, s, one) == k;
    TrapFollows(m, k, SysRun(m.dp, s, one)) by { LawfulHasOperands(m); }
    Advance(m, s, one, true);
    ThenRuns(m, s, one, true);
    es := Then(m, s, one, true);
    ClobberFull(m, s, es);
  }

  lemma LawfulHasOperands(m: Machine)
    requires Lawful(m.dp)
    ensures OperandLaw(m.dp)
  {
  }

  lemma ClobberFull(m: Machine, s: Sys, es: seq<Env>)
    requires Started(m, s) && Clean(m, s, es) && Clobber(CoreAfter(m, s, es))
    ensures CoreAfter(m, s, es).idex.valid && CoreAfter(m, s, es).exmem.valid
  {
    hide Machine.Run, Machine.Step, Lawful, Supported, Reset, RunContract, ClobberFree, RunTrace, SysRun, LineAt,
      Linked, FrontHolds, CsrsHold, PrivHolds, MemoryHolds, WbHolds, MemHolds, ExHolds;
    RunRefines(m, s, es);
  }

  /** The refinement's side condition holds on every schedule exactly if the program
      keeps its traps apart. */
  lemma CleanOnAllSchedules(m: Machine, s: Sys)
    requires Started(m, s)
    ensures (forall es :: RunContract(m, s, es) ==> ClobberFree(m, s, es)) <==> TrapsSeparated(m)
  {
    hide RunContract, Machine.Run, SeparatedAt, Clobber, Lawful, Supported, Reset, Clock;
    if TrapsSeparated(m) {
      forall es | RunContract(m, s, es) ensures ClobberFree(m, s, es) { SeparatedIsClobberFree(m, s, es); }
    } else {
      var k: nat :| !SeparatedAt(m, m.Run(k));
      var es := ReachClobber(m, s, k);
      ThenRuns(m, s, es, false);
      var longer := Then(m, s, es, false);
      assert longer[..|longer| - 1] == es;
      assert RunContract(m, s, longer) && !ClobberFree(m, s, longer);
    }
  }
}
