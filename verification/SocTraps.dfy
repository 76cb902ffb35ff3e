/** The trap ordering problem on the board: which halt schedules reach it, and what
    follows for the program. Halting every second clock, as stepping does, hides the
    RAM's latency and so brings a trap right behind the instruction in front of it. */
module SocTraps {
  import opened Isa
  import opened Golden
  import opened Pipeline
  import opened Refinement
  import opened Traces
  import opened Progress
  import opened TrapOrder
  import opened Overtaking
  import opened Harmless
  import opened Soc
  import opened Convergence

  const HOLD: SocPins := SocPins(true, false, 0, 0)
  const RUN: SocPins := SocPins(false, false, 0, 0)

  function CoreOf(m: Machine, ram: Ram, c: Soc, ins: seq<SocPins>): Pipe { SocRun(m.dp, ram, c, ins).sys.core }

  function EnvsFor(m: Machine, ram: Ram, c: Soc, ins: seq<SocPins>): seq<Env> { Envs(m.dp, ram, c, ins) }

  /** A debug schedule after which the core may run. */
  predicate Free(ins: seq<SocPins>) { DebugProtocol(ins) && !DbgBefore(ins) }

  lemma FreeMore(ins: seq<SocPins>, i: SocPins)
    requires Free(ins) && !i.dbgValid
    ensures Free(ins + [i])
  {
    forall j | 0 <= j < |ins + [i]| - 1 && (ins + [i])[j].dbgValid ensures (ins + [i])[j + 1].halt {
      assert j < |ins| - 1 && ins[j].dbgValid;
    }
  }

  /** A run of the board up to now that has done no harm. */
  ghost predicate Sound(m: Machine, ram: Ram, c: Soc, ins: seq<SocPins>) {
    Free(ins) && HarmlessOn(m, c.sys, EnvsFor(m, ram, c, ins))
  }

  lemma OneClock(m: Machine, ram: Ram, c: Soc, ins: seq<SocPins>, i: SocPins)
    ensures SocRun(m.dp, ram, c, ins + [i]) == SocClock(m.dp, ram, SocRun(m.dp, ram, c, ins), i)
    ensures EnvsFor(m, ram, c, ins + [i]) == EnvsFor(m, ram, c, ins) + [EnvOf(ram, SocRun(m.dp, ram, c, ins), i)]
  {
    hide SocClock, EnvOf;
    assert (ins + [i])[..|ins|] == ins;
  }

  // ---- Overtaking on the board shows -------------------------------------------------------------

  /** After the overtaking clock the stages are golden; after the next they are still,
      though what WB wrote need not be. */
  lemma MidIsGrounded(m: Machine, k: nat, s: Sys)
    requires Mid(m, LineAt(m, k, s.core), s)
    ensures Grounded(m, k, s)
  {
    hide Linked, StagesHold, FrontHolds, CsrsHold, MemoryHolds, LineAt;
  }

  lemma AfterMidIsGrounded(m: Machine, k: nat, s: Sys, e: Env)
    requires Lawful(m.dp) && Mid(m, LineAt(m, k, s.core), s) && s.core.ifid == IFID_BUBBLE && Contract(m, s, e)
    requires !e.pins.halt
    ensures Commits(s.core, e.pins) && Grounded(m, k + 1, SysClock(m.dp, s, e))
  {
    hide Linked, FrontHolds, CsrsHold, MemoryHolds, LineAt, StepPc, StepRegs, StepCsrs, WbHolds, MemHolds, ExHolds,
      MemoryLaw, OperandLaw, NextLine, IdStall;
    var l, p, i := LineAt(m, k, s.core), s.core, e.pins;
    NextLineAt(m, k, p, i);
    LinkKept(m, l, p, i);
    WbStageKept(m, l, s, e);
    MemStageKept(m, l, p, i);
    MidRuns(m, l, s);
    MemoryKept(m, l, s, e);
  }

  /** What a bubble in IF lets in cannot be followed in the next clock: its address has
      just changed. */
  lemma NoFetchTwice(dp: Datapath, ram: Ram, c: Soc, i: SocPins, j: SocPins)
    requires RamLaw(dp, ram) && OperandLaw(dp) && c.sys.core.ifid == IFID_BUBBLE && c.sys.core.idex == IDEX_BUBBLE
    requires !i.halt && !DmemReq(c.sys.core)
    ensures var q := SocClock(dp, ram, c, i); !(q.sys.core.ifid.valid && CorePins(ram, q, j).imemVld)
  {
    var p, pins := c.sys.core, CorePins(ram, c, i);
    NoFlushWhenEmpty(dp, p, pins);
    assert dp.plus(p.pc, 4) != p.pc;
    EmptyTakesNext(dp, p, pins);
    hide StepCsrs, StepRegs, StepMemWb, StepIdEx, StepExMem, OperandLaw, RamLaw, Flush, IdStall;
  }

  lemma EmptyTakesNext(dp: Datapath, p: Pipe, i: Inputs)
    requires OperandLaw(dp) && p.idex == IDEX_BUBBLE && !i.timerIrq
    ensures NextPc(dp, p, i) == dp.plus(p.pc, 4)
  {
    var op, x, y := p.idex.op, p.idex.src1, p.idex.src2;
    assert !dp.branch(op, x, y);
  }

  /** The run is in step, and its state golden enough for the next clock. */
  ghost predicate Steady(m: Machine, ram: Ram, c: Soc, ins: seq<SocPins>) {
    var es := EnvsFor(m, ram, c, ins);
    InStep(m, ram, c, ins) && Grounded(m, CommitCount(m, c.sys, es), SysRun(m.dp, c.sys, es))
  }

  lemma SoundIsSteady(m: Machine, ram: Ram, c: Soc, ins: seq<SocPins>)
    requires SocSetup(m, ram, c) && Sound(m, ram, c, ins)
    ensures Steady(m, ram, c, ins)
  {
    hide SocSetup, HarmlessOn, Tracked, Grounded, PortsHold, Started;
    SetupStarts(m, ram, c);
    SocIsSysRun(m, ram, c, ins);
    var es := EnvsFor(m, ram, c, ins);
    HarmlessRun(m, c.sys, es);
    TrackedIsGrounded(m, CommitCount(m, c.sys, es), SysRun(m.dp, c.sys, es));
  }

  /** One clock without a debug access. */
  lemma SteadyStep(m: Machine, ram: Ram, c: Soc, ins: seq<SocPins>, i: SocPins)
    requires SocSetup(m, ram, c) && Steady(m, ram, c, ins) && Free(ins) && !i.dbgValid
    ensures InStep(m, ram, c, ins + [i]) && Free(ins + [i])
    ensures var es, e := EnvsFor(m, ram, c, ins), EnvOf(ram, SocRun(m.dp, ram, c, ins), i);
      var done := Commits(CoreAfter(m, c.sys, es), e.pins);
      && EnvsFor(m, ram, c, ins + [i]) == es + [e]
      && SysRun(m.dp, c.sys, es + [e]) == SysClock(m.dp, SysRun(m.dp, c.sys, es), e)
      && CommitCount(m, c.sys, es + [e]) == CommitCount(m, c.sys, es) + (if done then 1 else 0)
      && Contract(m, SysRun(m.dp, c.sys, es), e)
      && e.pins == CorePins(ram, SocRun(m.dp, ram, c, ins), i)
  {
    hide SocSetup, HarmlessOn, Grounded, PortsHold, SocRun, SysRun, RunTrace, Clock, Contract, CorePins, RunContract,
      DebugProtocol;
    assert (ins + [i])[..|ins + [i]| - 1] == ins;
    FreeMore(ins, i);
    OneClock(m, ram, c, ins, i);
    StepOn(m, ram, c, ins + [i]);
    var es, e := EnvsFor(m, ram, c, ins), EnvOf(ram, SocRun(m.dp, ram, c, ins), i);
    OneMore(m, c.sys, es, e);
    var p := CoreAfter(m, c.sys, es);
    assert |CommitsNow(m.dp, p, e.pins)| == if Commits(p, e.pins) then 1 else 0;
  }

  /** The clock in which the trap overtakes. */
  lemma FirstOfThree(m: Machine, ram: Ram, c: Soc, ins: seq<SocPins>)
    requires SocSetup(m, ram, c) && Sound(m, ram, c, ins) && Clobber(CoreAfter(m, c.sys, EnvsFor(m, ram, c, ins)))
    ensures Steady(m, ram, c, ins) && Steady(m, ram, c, ins + [RUN])
    ensures var es := EnvsFor(m, ram, c, ins + [RUN]); var s1 := SysRun(m.dp, c.sys, es);
      && Mid(m, LineAt(m, CommitCount(m, c.sys, es), s1.core), s1)
      && s1.core.ifid == IFID_BUBBLE && s1.core.idex == IDEX_BUBBLE && !DmemReq(s1.core)
  {
    hide RamLaw, Supported, CodeUntouched, DataInRam, Reset, PortsHold, SysRun, RunTrace, Machine.Run, Clock,
      Contract, HarmlessOn, Mid, Inv, Grounded, LineAt, RunContract, SupportedAt, Started, CorePins, SocRun, Clobber,
      NextLine, DecodeLaw, OperandLaw, MemoryLaw, InStep;
    SoundIsSteady(m, ram, c, ins);
    SetupStarts(m, ram, c);
    SteadyStep(m, ram, c, ins, RUN);
    var es, e := EnvsFor(m, ram, c, ins), EnvOf(ram, SocRun(m.dp, ram, c, ins), RUN);
    var s0, k := SysRun(m.dp, c.sys, es), CommitCount(m, c.sys, es);
    assert !e.pins.halt by { Running(ram, SocRun(m.dp, ram, c, ins)); }
    assert RunContract(m, c.sys, es) by { SteadyRuns(m, ram, c, ins); }
    TrackedClobber(m, c.sys, es);
    NextLineAt(m, k, s0.core, e.pins);
    NextIdSupported(m, k, s0.core, e.pins);
    LineParts(m, k, s0.core);
    SupportedRun(m, ExIx(k, s0.core));
    MidEntered(m, LineAt(m, k, s0.core), s0, e);
    OvertakenNow(m, LineAt(m, k, s0.core), s0, e);
    OvertakenShape(m, LineAt(m, k, s0.core).mem, SysClock(m.dp, s0, e).core);
    MidIsGrounded(m, CommitCount(m, c.sys, es + [e]), SysClock(m.dp, s0, e));
  }

  lemma SupportedRun(m: Machine, k: nat)
    requires Supported(m)
    ensures SupportedAt(m, m.Run(k))
  {
  }

  lemma LineParts(m: Machine, k: nat, p: Pipe)
    ensures LineAt(m, k, p).wb == m.Run(k) && LineAt(m, k, p).mem == m.Run(MemIx(k, p))
    ensures LineAt(m, k, p).ex == m.Run(ExIx(k, p)) && LineAt(m, k, p).id == m.Run(IdIx(k, p))
  {
    hide Machine.Run;
  }

  lemma OvertakenShape(m: Machine, a: Arch, p: Pipe)
    requires Overtaken(m, a, p)
    ensures p.ifid == IFID_BUBBLE && p.idex == IDEX_BUBBLE && !DmemReq(p)
  {
  }

  lemma NextIdSupported(m: Machine, k: nat, p: Pipe, i: Inputs)
    requires Supported(m)
    ensures SupportedAt(m, NextLine(m, LineAt(m, k, p), p, i).id)
  {
    hide Machine.Run, SupportedAt, Clock, NextLine;
    NextLineAt(m, k, p, i);
    assert SupportedAt(m, m.Run(IdIx(if Commits(p, i) then k + 1 else k, Clock(m.dp, p, i))));
  }

  lemma Running(ram: Ram, r: Soc)
    ensures !CorePins(ram, r, RUN).halt && CorePins(ram, r, HOLD).halt
    ensures !CorePins(ram, r, RUN).timerIrq && !CorePins(ram, r, HOLD).timerIrq
  {
  }

  lemma SteadyRuns(m: Machine, ram: Ram, c: Soc, ins: seq<SocPins>)
    requires Steady(m, ram, c, ins)
    ensures RunContract(m, c.sys, EnvsFor(m, ram, c, ins))
    ensures SocRun(m.dp, ram, c, ins).sys == SysRun(m.dp, c.sys, EnvsFor(m, ram, c, ins))
  {
  }

  /** The clock in which the older instruction commits. */
  lemma SecondOfThree(m: Machine, ram: Ram, c: Soc, ins: seq<SocPins>)
    requires SocSetup(m, ram, c) && Steady(m, ram, c, ins) && Free(ins)
    requires var es := EnvsFor(m, ram, c, ins); var s1 := SysRun(m.dp, c.sys, es);
      && Mid(m, LineAt(m, CommitCount(m, c.sys, es), s1.core), s1)
      && s1.core.ifid == IFID_BUBBLE && s1.core.idex == IDEX_BUBBLE && !DmemReq(s1.core)
    ensures Steady(m, ram, c, ins + [RUN])
    ensures var q := SocRun(m.dp, ram, c, ins + [RUN]); !(q.sys.core.ifid.valid && CorePins(ram, q, RUN).imemVld)
  {
    hide RamLaw, Supported, CodeUntouched, DataInRam, Reset, PortsHold, SysRun, RunTrace, Machine.Run, Clock,
      Contract, Mid, Grounded, LineAt, RunContract, CorePins, SocRun, DecodeLaw, OperandLaw, MemoryLaw, InStep,
      SocClock;
    SteadyStep(m, ram, c, ins, RUN);
    var es, r := EnvsFor(m, ram, c, ins), SocRun(m.dp, ram, c, ins);
    Running(ram, r);
    SteadyRuns(m, ram, c, ins);
    AfterMidIsGrounded(m, CommitCount(m, c.sys, es), SysRun(m.dp, c.sys, es), EnvOf(ram, r, RUN));
    OneClock(m, ram, c, ins, RUN);
    NoFetchTwice(m.dp, ram, r, RUN, RUN);
  }

  /** Three running clocks from overtaking are an ending in the sense of module Harmless. */
  lemma BoardEnds(m: Machine, ram: Ram, c: Soc, ins: seq<SocPins>)
    requires SocSetup(m, ram, c) && Sound(m, ram, c, ins) && Clobber(CoreAfter(m, c.sys, EnvsFor(m, ram, c, ins)))
    ensures var i1 := ins + [RUN]; var i2 := i1 + [RUN]; var i3 := i2 + [RUN];
      var r0, r1, r2 := SocRun(m.dp, ram, c, ins), SocRun(m.dp, ram, c, i1), SocRun(m.dp, ram, c, i2);
      var es := EnvsFor(m, ram, c, ins);
      && EnvsFor(m, ram, c, i2) == es + [EnvOf(ram, r0, RUN)] + [EnvOf(ram, r1, RUN)]
      && EnvsFor(m, ram, c, i3) == EnvsFor(m, ram, c, i2) + [EnvOf(ram, r2, RUN)]
      && Ending(m, c.sys, es, EnvOf(ram, r0, RUN), EnvOf(ram, r1, RUN), EnvOf(ram, r2, RUN))
      && InStep(m, ram, c, i2) && InStep(m, ram, c, i3) && DebugProtocol(i2) && DebugProtocol(i3)
  {
    hide SocSetup, PortsHold, SysRun, RunTrace, Machine.Run, Clock, Contract, Clobber, HarmlessOn, Mid, Grounded,
      LineAt, RunContract, CorePins, SocRun;
    var i1, i2, i3 := ins + [RUN], ins + [RUN] + [RUN], ins + [RUN] + [RUN] + [RUN];
    FirstOfThree(m, ram, c, ins);
    SteadyStep(m, ram, c, ins, RUN);
    SecondOfThree(m, ram, c, i1);
    SteadyStep(m, ram, c, i1, RUN);
    SteadyStep(m, ram, c, i2, RUN);
    SteadyRuns(m, ram, c, i2);
    Running(ram, SocRun(m.dp, ram, c, ins));
    Running(ram, SocRun(m.dp, ram, c, i1));
    Running(ram, SocRun(m.dp, ram, c, i2));
  }

  lemma {:induction false} FirstHarm(m: Machine, ram: Ram, c: Soc, ins: seq<SocPins>) returns (first: seq<SocPins>)
    requires DebugProtocol(ins) && !HarmlessOn(m, c.sys, EnvsFor(m, ram, c, ins))
    ensures Sound(m, ram, c, first) && !HarmlessNow(m, c.sys, EnvsFor(m, ram, c, first))
  {
    hide HarmlessNow, SocRun, CorePins;
    var n := |ins| - 1;
    EnvsOfPrefix(m.dp, ram, c, ins);
    ProtocolOfPrefix(ins);
    if HarmlessOn(m, c.sys, EnvsFor(m, ram, c, ins[..n])) {
      first := ins[..n];
      HaltIs(ram, SocRun(m.dp, ram, c, ins[..n]), ins[n]);
    } else {
      first := FirstHarm(m, ram, c, ins[..n]);
    }
  }

  lemma HaltIs(ram: Ram, r: Soc, i: SocPins)
    ensures CorePins(ram, r, i).halt == i.halt
  {
  }

  /** Where overtaking does harm, three running clocks show it. */
  lemma BoardShows(m: Machine, ram: Ram, c: Soc, ins: seq<SocPins>)
    requires SocSetup(m, ram, c) && Sound(m, ram, c, ins) && !HarmlessNow(m, c.sys, EnvsFor(m, ram, c, ins))
    ensures var i2 := ins + [RUN] + [RUN];
      && DebugProtocol(i2) && DebugProtocol(i2 + [RUN])
      && !(Agrees(m, c.sys, EnvsFor(m, ram, c, i2)) && Agrees(m, c.sys, EnvsFor(m, ram, c, i2 + [RUN])))
  {
    hide SocSetup, HarmlessOn, SocRun, Ending, Agrees, Clobber, Harmless.Harmless, Machine.Run, EnvsFor, CommitCount,
      Started, InStep, DebugProtocol;
    var es, i1, i2 := EnvsFor(m, ram, c, ins), ins + [RUN], ins + [RUN] + [RUN];
    SetupStarts(m, ram, c);
    BoardEnds(m, ram, c, ins);
    if Agrees(m, c.sys, EnvsFor(m, ram, c, i2)) && Agrees(m, c.sys, EnvsFor(m, ram, c, i2 + [RUN])) {
      EndsShow(m, c.sys, es, EnvOf(ram, SocRun(m.dp, ram, c, ins), RUN), EnvOf(ram, SocRun(m.dp, ram, c, i1), RUN),
               EnvOf(ram, SocRun(m.dp, ram, c, i2), RUN));
    }
  }

  /** The board's run is one of core and memory, and golden. */
  ghost predicate BoardAgrees(m: Machine, ram: Ram, c: Soc, ins: seq<SocPins>) {
    SocRun(m.dp, ram, c, ins).sys == SysRun(m.dp, c.sys, EnvsFor(m, ram, c, ins))
    && Agrees(m, c.sys, EnvsFor(m, ram, c, ins))
  }

  ghost predicate AgreesOnBoard(m: Machine, ram: Ram, c: Soc) {
    forall ins :: DebugProtocol(ins) ==> BoardAgrees(m, ram, c, ins)
  }

  lemma HarmlessBoard(m: Machine, ram: Ram, c: Soc, ins: seq<SocPins>)
    requires SocSetup(m, ram, c) && DebugProtocol(ins) && HarmlessOn(m, c.sys, EnvsFor(m, ram, c, ins))
    ensures BoardAgrees(m, ram, c, ins)
  {
    hide SocSetup, DebugProtocol, HarmlessOn, Agrees, Started, PortsHold, SocRun;
    SetupStarts(m, ram, c);
    SocIsSysRun(m, ram, c, ins);
    HarmlessRunAgrees(m, c.sys, EnvsFor(m, ram, c, ins));
  }

  lemma HarmfulBoard(m: Machine, ram: Ram, c: Soc, ins: seq<SocPins>) returns (shown: seq<SocPins>)
    requires SocSetup(m, ram, c) && DebugProtocol(ins) && !HarmlessOn(m, c.sys, EnvsFor(m, ram, c, ins))
    ensures DebugProtocol(shown) && !BoardAgrees(m, ram, c, shown)
  {
    hide SocSetup, DebugProtocol, HarmlessOn, Agrees, EnvsFor, HarmlessNow, SocRun;
    var first := FirstHarm(m, ram, c, ins);
    BoardShows(m, ram, c, first);
    var i2 := first + [RUN] + [RUN];
    shown := if Agrees(m, c.sys, EnvsFor(m, ram, c, i2)) then i2 + [RUN] else i2;
  }

  /** The board is golden on every debug schedule exactly if no such schedule lets a trap
      overtake where that does harm. */
  lemma BoardAgreesExactly(m: Machine, ram: Ram, c: Soc)
    requires SocSetup(m, ram, c)
    ensures AgreesOnBoard(m, ram, c)
      <==> (forall ins :: DebugProtocol(ins) ==> HarmlessOn(m, c.sys, EnvsFor(m, ram, c, ins)))
  {
    hide SocSetup, DebugProtocol, HarmlessOn, BoardAgrees, EnvsFor;
    forall ins | DebugProtocol(ins) && HarmlessOn(m, c.sys, EnvsFor(m, ram, c, ins))
      ensures BoardAgrees(m, ram, c, ins)
    {
      HarmlessBoard(m, ram, c, ins);
    }
    if ins :| DebugProtocol(ins) && !HarmlessOn(m, c.sys, EnvsFor(m, ram, c, ins)) {
      var shown := HarmfulBoard(m, ram, c, ins);
      assert DebugProtocol(shown) && !BoardAgrees(m, ram, c, shown);
    }
  }

  // ---- Stepping reaches it -------------------------------------------------------------------------

  function CoreNow(m: Machine, ram: Ram, c: Soc, ins: seq<SocPins>): Pipe {
    CoreAfter(m, c.sys, EnvsFor(m, ram, c, ins))
  }

  /** Number of the instruction in EX, or of the next one to enter it. */
  function AtEx(m: Machine, ram: Ram, c: Soc, ins: seq<SocPins>): nat {
    ExIx(CommitCount(m, c.sys, EnvsFor(m, ram, c, ins)), CoreNow(m, ram, c, ins))
  }

  predicate Front(dp: Datapath, p: Pipe) { Packed(dp, p) && BubblesEmpty(p) }

  ghost predicate NoHarm(m: Machine, ram: Ram, c: Soc, ins: seq<SocPins>) {
    HarmlessNow(m, c.sys, EnvsFor(m, ram, c, ins))
  }

  /** A halted clock changes nothing but what the ports show. */
  lemma HeldClock(m: Machine, ram: Ram, c: Soc, ins: seq<SocPins>)
    requires SocSetup(m, ram, c) && Sound(m, ram, c, ins)
    ensures var held := ins + [HOLD];
      && Sound(m, ram, c, held) && CoreNow(m, ram, c, held) == CoreNow(m, ram, c, ins)
      && CommitCount(m, c.sys, EnvsFor(m, ram, c, held)) == CommitCount(m, c.sys, EnvsFor(m, ram, c, ins))
      && (NoHarm(m, ram, c, ins) ==> NoHarm(m, ram, c, held))
    ensures Useful(CoreNow(m, ram, c, ins), CorePins(ram, SocRun(m.dp, ram, c, ins + [HOLD]), RUN))
  {
    hide SocSetup, HarmlessOn, SysRun, RunTrace, Clock, Contract, RunContract, DebugProtocol, Grounded, PortsHold,
      Machine.Run, Clobber, Harmless.Harmless;
    var r := SocRun(m.dp, ram, c, ins);
    SoundIsSteady(m, ram, c, ins);
    SteadyRuns(m, ram, c, ins);
    SteadyStep(m, ram, c, ins, HOLD);
    OneClock(m, ram, c, ins, HOLD);
    OneMore(m, c.sys, EnvsFor(m, ram, c, ins), EnvOf(ram, r, HOLD));
    Running(ram, r);
    HaltedStays(m, r.sys, EnvOf(ram, r, HOLD));
    PortsShow(m.dp, ram, r);
  }

  lemma PortsShow(dp: Datapath, ram: Ram, r: Soc)
    ensures SocClock(dp, ram, r, HOLD).sys.core == r.sys.core
    ensures Useful(r.sys.core, CorePins(ram, SocClock(dp, ram, r, HOLD), RUN))
  {
  }

  /** A halted clock and a running one: every instruction advances as on memory without
      latency. */
  lemma SteppedClock(m: Machine, ram: Ram, c: Soc, ins: seq<SocPins>)
    requires SocSetup(m, ram, c) && Sound(m, ram, c, ins) && NoHarm(m, ram, c, ins)
    ensures var next, pins := ins + [HOLD] + [RUN], CorePins(ram, SocRun(m.dp, ram, c, ins + [HOLD]), RUN);
      var p := CoreNow(m, ram, c, ins);
      && Sound(m, ram, c, next) && Useful(p, pins) && !pins.timerIrq && CoreNow(m, ram, c, next) == Clock(m.dp, p, pins)
      && CommitCount(m, c.sys, EnvsFor(m, ram, c, next))
         == CommitCount(m, c.sys, EnvsFor(m, ram, c, ins)) + (if p.memwb.valid then 1 else 0)
  {
    hide SocSetup, HarmlessOn, SysRun, RunTrace, Clock, Contract, RunContract, DebugProtocol, Grounded, PortsHold,
      CorePins, SocRun, HarmlessNow, InStep;
    var held := ins + [HOLD];
    HeldClock(m, ram, c, ins);
    SoundIsSteady(m, ram, c, held);
    SteadyStep(m, ram, c, held, RUN);
    OneMore(m, c.sys, EnvsFor(m, ram, c, held), EnvOf(ram, SocRun(m.dp, ram, c, held), RUN));
    Running(ram, SocRun(m.dp, ram, c, held));
  }

  lemma SteppedIx(m: Machine, ram: Ram, c: Soc, ins: seq<SocPins>)
    requires SocSetup(m, ram, c) && Sound(m, ram, c, ins) && NoHarm(m, ram, c, ins)
    ensures var next, p := ins + [HOLD] + [RUN], CoreNow(m, ram, c, ins);
      && AtEx(m, ram, c, next) == AtEx(m, ram, c, ins) + (if p.idex.valid then 1 else 0)
      && AtMem(m, c.sys, EnvsFor(m, ram, c, next)) == AtEx(m, ram, c, ins)
  {
    hide SocSetup, Sound, NoHarm, Clock, CorePins, SocRun, CommitCount, EnvsFor, MemWait;
    SteppedClock(m, ram, c, ins);
    NextValid(m.dp, CoreNow(m, ram, c, ins), CorePins(ram, SocRun(m.dp, ram, c, ins + [HOLD]), RUN));
  }

  lemma SteppedFront(m: Machine, ram: Ram, c: Soc, ins: seq<SocPins>)
    requires SocSetup(m, ram, c) && Sound(m, ram, c, ins) && NoHarm(m, ram, c, ins)
    requires Front(m.dp, CoreNow(m, ram, c, ins))
    ensures var next, p := ins + [HOLD] + [RUN], CoreNow(m, ram, c, ins);
      && Sound(m, ram, c, next) && Front(m.dp, CoreNow(m, ram, c, next))
      && NextExec(m.dp, CoreNow(m, ram, c, next)) <= if p.idex.valid then 3 else NextExec(m.dp, p) - 1
  {
    hide RamLaw, Supported, CodeUntouched, DataInRam, Reset, PortsHold, Sound, NoHarm, Clock, CorePins, SocRun,
      CommitCount, EnvsFor, Packed, BubblesEmpty, NextExec, DecodeLaw, OperandLaw, MemoryLaw, Useful;
    SteppedClock(m, ram, c, ins);
    var p, pins := CoreNow(m, ram, c, ins), CorePins(ram, SocRun(m.dp, ram, c, ins + [HOLD]), RUN);
    PackedKept(m.dp, p, pins);
    BubblesKept(m.dp, p, pins);
    NextExecStep(m.dp, p, pins);
  }

  /** Stepping until EX is occupied, or until harm is done before that. */
  lemma {:induction false} StepToExec(m: Machine, ram: Ram, c: Soc, ins: seq<SocPins>) returns (out: seq<SocPins>)
    requires SocSetup(m, ram, c) && Sound(m, ram, c, ins) && Front(m.dp, CoreNow(m, ram, c, ins))
    ensures Sound(m, ram, c, out) && Front(m.dp, CoreNow(m, ram, c, out))
    ensures !NoHarm(m, ram, c, out)
      || (CoreNow(m, ram, c, out).idex.valid && AtEx(m, ram, c, out) == AtEx(m, ram, c, ins))
    decreases NextExec(m.dp, CoreNow(m, ram, c, ins))
  {
    hide SocSetup, Sound, NoHarm, CoreNow, AtEx, Front, NextExec;
    out := ins;
    if NoHarm(m, ram, c, ins) && !CoreNow(m, ram, c, ins).idex.valid {
      SteppedIx(m, ram, c, ins);
      SteppedFront(m, ram, c, ins);
      out := StepToExec(m, ram, c, ins + [HOLD] + [RUN]);
    }
  }

  lemma StartsSound(m: Machine, ram: Ram, c: Soc)
    requires SocSetup(m, ram, c)
    ensures Sound(m, ram, c, []) && Front(m.dp, CoreNow(m, ram, c, [])) && AtEx(m, ram, c, []) == 0
  {
  }

  /** Stepping reaches every instruction. */
  lemma {:induction false} StepTo(m: Machine, ram: Ram, c: Soc, k: nat) returns (out: seq<SocPins>)
    requires SocSetup(m, ram, c)
    ensures Sound(m, ram, c, out) && Front(m.dp, CoreNow(m, ram, c, out))
    ensures !NoHarm(m, ram, c, out) || (CoreNow(m, ram, c, out).idex.valid && AtEx(m, ram, c, out) == k)
    decreases k
  {
    hide SocSetup, Sound, NoHarm, CoreNow, AtEx, Front;
    if k == 0 {
      StartsSound(m, ram, c);
      out := StepToExec(m, ram, c, []);
    } else {
      out := StepTo(m, ram, c, k - 1);
      if NoHarm(m, ram, c, out) {
        SteppedIx(m, ram, c, out);
        SteppedFront(m, ram, c, out);
        out := StepToExec(m, ram, c, out + [HOLD] + [RUN]);
      }
    }
  }

  /** t waits in ID for d. */
  predicate Holds(d: Instr, t: Instr) { Delays(d, t) || (IsTrap(t.op) && IsCsr(d.op) && d.csrAddr == MTVEC) }

  /** Neither of the two instructions before k holds back the one behind it. */
  ghost predicate Undelayed(m: Machine, k: nat) {
    && (k >= 1 ==> !Holds(m.InstrAt(m.Run(k - 1)), m.InstrAt(m.Run(k + 1))))
    && (k >= 2 ==> !Holds(m.InstrAt(m.Run(k - 2)), m.InstrAt(m.Run(k + 1))))
  }

  /** With the CSR instruction in EX and its trap in ID, nothing holds the trap back. */
  lemma TrapIsFree(m: Machine, k: nat, j: nat, s: Sys, i: Inputs)
    requires OperandLaw(m.dp) && Inv(m, LineAt(m, j, s.core), s) && ExIx(j, s.core) == k && s.core.idex.valid
    requires Packed(m.dp, s.core) && Exposed(m, m.Run(k)) && Undelayed(m, k) && !i.timerIrq
    ensures !IdStall(m.dp, s.core, i) && !Flush(m.dp, s.core, i)
    ensures IsCsr(s.core.idex.op) && TrapCsr(s.core.idex.csrAddr) && IsTrap(m.dp.decode(s.core.ifid.instr).op)
  {
    hide FrontHolds, StagesHold, CsrsHold, PrivHolds, MemoryHolds, Machine.Run, Machine.Step, Machine.InstrAt, Flush,
      OperandLaw, Linked, LineAt, Redirects, Undelayed, Delays, Packed, Pending, PrivHazard;
    var p, t := s.core, m.InstrAt(m.Run(k + 1));
    InEx(m, k, j, s);
    CsrStays(m.dp, p, i);
    InIdNext(m, k, j, s);
    NoPrivHazard(m, k, j, s, i);
    if t.rs1Valid && t.rs1 != 0 { PendingNone(m, k, j, s, t.rs1); }
    if t.rs2Valid && t.rs2 != 0 { PendingNone(m, k, j, s, t.rs2); }
  }

  lemma InEx(m: Machine, k: nat, j: nat, s: Sys)
    requires StagesHold(m, LineAt(m, j, s.core), s.core) && ExIx(j, s.core) == k && s.core.idex.valid
    ensures var d, x := m.InstrAt(m.Run(k)), s.core.idex;
      x.op == d.op && x.rd == d.rd && x.rdValid == d.rdValid && x.csrAddr == d.csrAddr
  {
    hide WbHolds, MemHolds, Machine.Run, Machine.InstrAt, Machine.CsrOperand, Machine.Result, LineAt;
    LineParts(m, j, s.core);
  }

  lemma InMem(m: Machine, k: nat, j: nat, s: Sys)
    requires StagesHold(m, LineAt(m, j, s.core), s.core) && ExIx(j, s.core) == k && s.core.exmem.valid
    ensures k >= 1
    ensures var d, x := m.InstrAt(m.Run(k - 1)), s.core.exmem;
      x.op == d.op && x.rd == d.rd && x.wrEn == Writes(d) && x.csrAddr == d.csrAddr
  {
    hide WbHolds, ExHolds, Machine.Run, Machine.InstrAt, Machine.CsrOperand, Machine.Result, LineAt;
    LineParts(m, j, s.core);
  }

  lemma InWb(m: Machine, k: nat, j: nat, s: Sys)
    requires StagesHold(m, LineAt(m, j, s.core), s.core) && ExIx(j, s.core) == k && s.core.memwb.valid
    ensures j < k && j == (if s.core.exmem.valid then k - 2 else k - 1)
    ensures var d, x := m.InstrAt(m.Run(j)), s.core.memwb;
      x.isCsr == IsCsr(d.op) && x.rd == d.rd && x.wrEn == Writes(d) && x.csrAddr == d.csrAddr
  {
    hide MemHolds, ExHolds, Machine.Run, Machine.InstrAt, Machine.CsrOperand, Machine.WriteValue, LineAt;
    LineParts(m, j, s.core);
  }

  lemma InIdNext(m: Machine, k: nat, j: nat, s: Sys)
    requires FrontHolds(m, LineAt(m, j, s.core), s.core) && ExIx(j, s.core) == k && s.core.idex.valid
    requires Packed(m.dp, s.core) && !Redirects(m.dp, s.core)
    ensures s.core.ifid.valid && m.dp.decode(s.core.ifid.instr) == m.InstrAt(m.Run(k + 1))
    ensures m.Run(k + 1) == m.Step(m.Run(k))
  {
    hide Redirects, Machine.Run;
    RunNext(m, k);
  }

  lemma PendingNone(m: Machine, k: nat, j: nat, s: Sys, r: Reg)
    requires StagesHold(m, LineAt(m, j, s.core), s.core) && ExIx(j, s.core) == k && s.core.idex.valid && Undelayed(m, k)
    requires var t := m.InstrAt(m.Run(k + 1));
      !Delays(m.InstrAt(m.Run(k)), t) && ((t.rs1Valid && t.rs1 == r) || (t.rs2Valid && t.rs2 == r)) && r != 0
    ensures !Pending(s.core, r)
  {
    hide WbHolds, MemHolds, ExHolds, Machine.Run, Machine.InstrAt;
    InEx(m, k, j, s);
    if s.core.exmem.valid { InMem(m, k, j, s); }
    if s.core.memwb.valid { InWb(m, k, j, s); }
  }

  lemma NoPrivHazard(m: Machine, k: nat, j: nat, s: Sys, i: Inputs)
    requires StagesHold(m, LineAt(m, j, s.core), s.core) && ExIx(j, s.core) == k && s.core.idex.valid && Undelayed(m, k)
    requires IsTrap(m.InstrAt(m.Run(k + 1)).op) && TrapCsr(s.core.idex.csrAddr) && !i.timerIrq
    ensures !PrivHazard(m.InstrAt(m.Run(k + 1)), s.core, i)
  {
    hide WbHolds, MemHolds, ExHolds, Machine.Run, Machine.InstrAt, Delays;
    if s.core.exmem.valid { InMem(m, k, j, s); }
    if s.core.memwb.valid { InWb(m, k, j, s); }
  }

  /** Stepping the board brings every exposed CSR instruction into MEM with its trap in
      EX, unless the two instructions before it hold the trap back, or an earlier trap
      already overtakes where that does harm. */
  lemma StepToTrap(m: Machine, ram: Ram, c: Soc, k: nat) returns (out: seq<SocPins>)
    requires SocSetup(m, ram, c) && Exposed(m, m.Run(k)) && Undelayed(m, k)
    ensures Sound(m, ram, c, out) && Clobber(CoreNow(m, ram, c, out))
    ensures AtMem(m, c.sys, EnvsFor(m, ram, c, out)) == k || !NoHarm(m, ram, c, out)
  {
    hide RamLaw, Supported, CodeUntouched, DataInRam, Reset, PortsHold, Sound, Exposed, Undelayed, Machine.Run, Clock,
      Packed, BubblesEmpty, DecodeLaw, MemoryLaw, CorePins, SocRun, RunTrace, SysRun, Harmless.Harmless, Inv, Mid,
      OperandLaw, Flush, IdStall, MemWait, EnvsFor, Started, LineAt, HarmlessOn, RunContract;
    out := StepTo(m, ram, c, k);
    if NoHarm(m, ram, c, out) {
      var es := EnvsFor(m, ram, c, out);
      var s, j := SysRun(m.dp, c.sys, es), CommitCount(m, c.sys, es);
      var pins := CorePins(ram, SocRun(m.dp, ram, c, out + [HOLD]), RUN);
      SoundTracked(m, ram, c, out);
      SteppedClock(m, ram, c, out);
      SteppedIx(m, ram, c, out);
      TrapIsFree(m, k, j, s, pins);
      MovesToMem(m.dp, s.core, pins);
      MovesToEx(m.dp, s.core, pins);
      out := out + [HOLD] + [RUN];
    }
  }

  lemma SoundTracked(m: Machine, ram: Ram, c: Soc, ins: seq<SocPins>)
    requires SocSetup(m, ram, c) && Sound(m, ram, c, ins) && CoreNow(m, ram, c, ins).idex.valid
    ensures var es := EnvsFor(m, ram, c, ins); var s := SysRun(m.dp, c.sys, es);
      Inv(m, LineAt(m, CommitCount(m, c.sys, es), s.core), s)
  {
    hide SocSetup, HarmlessOn, PortsHold, Started, LineAt, RunContract, Inv, SysRun, RunTrace, Harmless.Harmless,
      Linked, StagesHold, FrontHolds, CsrsHold, MemoryHolds, SocRun;
    SoundIsSteady(m, ram, c, ins);
    SteadyRuns(m, ram, c, ins);
    SetupStarts(m, ram, c);
    HarmlessRun(m, c.sys, EnvsFor(m, ram, c, ins));
  }

  /** How far the program-level condition is necessary on the board: a program that is
      golden on every debug schedule does no harm at any trap that stepping lets
      overtake. */
  lemma BoardNeedsHarmless(m: Machine, ram: Ram, c: Soc, k: nat)
    requires SocSetup(m, ram, c) && AgreesOnBoard(m, ram, c) && Exposed(m, m.Run(k)) && Undelayed(m, k)
    ensures Harmless.Harmless(m, m.Run(k))
  {
    hide SocSetup, AgreesOnBoard, Exposed, Undelayed, Machine.Run, Sound, Clobber, SocRun, RunTrace, SysRun, EnvsFor,
      Harmless.Harmless, CommitCount;
    var out := StepToTrap(m, ram, c, k);
    if !NoHarm(m, ram, c, out) {
      HarmOnBoard(m, ram, c, out);
    }
  }

  lemma HarmOnBoard(m: Machine, ram: Ram, c: Soc, ins: seq<SocPins>)
    requires SocSetup(m, ram, c) && Sound(m, ram, c, ins) && !NoHarm(m, ram, c, ins)
    ensures !AgreesOnBoard(m, ram, c)
  {
    hide SocSetup, Sound, HarmlessNow, Agrees, EnvsFor, SocRun, DebugProtocol;
    BoardShows(m, ram, c, ins);
    var i2 := ins + [RUN] + [RUN];
    assert !BoardAgrees(m, ram, c, i2) || !BoardAgrees(m, ram, c, i2 + [RUN]);
  }
}
