/** A program on the RTL's datapath that two memory schedules tell apart:
      0: csrrw x5, mepc, x1
      4: ecall
      8: jal   x0, 0        (mtvec holds 8) */
module OvertakingExample {
  import opened Isa
  import opened Rv32
  import opened Golden
  import opened Pipeline
  import opened Refinement
  import opened Traces
  import opened TrapOrder
  import opened Overtaking
  import opened Harmless
  import opened Soc
  import opened SocTraps
  import Conformance

  const CSRRW_X5_MEPC_X1: Word := 0x341092F3
  const ECALL: Word := 0x0000_0073
  const SPIN: Word := 0x0000_006F

  function Text(a: Word): Word { if a == 0 then CSRRW_X5_MEPC_X1 else if a == 4 then ECALL else SPIN }

  function Example(init: Arch): Machine { Machine(Core(), a => Text(a), a => a == 0 || a == 4 || a == 8, init) }

  predicate Begins(init: Arch) { init.pc == 0 && CsrRead(init.csrs, MTVEC) == 8 }

  lemma DecodedCsrrw()
    ensures var d := Decode(CSRRW_X5_MEPC_X1);
      && d.op == Csrrw && d.csrAddr == MEPC && d.rd == 5 && d.rdValid && d.rs1 == 1 && !d.isStore
  {
  }

  lemma DecodedEcall()
    ensures var d := Decode(ECALL); d.op == Ecall && d.rs1 == 0 && !d.rs2Valid && !d.isStore
  {
  }

  lemma DecodedSpin()
    ensures var d := Decode(SPIN); d.op == Jal && d.imm == 0 && !d.isStore
  {
  }

  lemma TextAt(init: Arch, a: Arch)
    ensures var m := Example(init);
      && (a.pc == 0 ==> m.InstrAt(a) == Decode(CSRRW_X5_MEPC_X1))
      && (a.pc == 4 ==> m.InstrAt(a) == Decode(ECALL))
      && (a.pc == 8 ==> m.InstrAt(a) == Decode(SPIN))
  {
    hide Decode;
  }

  /** The csrrw is first. */
  lemma FirstStep(init: Arch)
    requires Begins(init)
    ensures var a := Example(init).Run(1);
      a.pc == 4 && CsrRead(a.csrs, MTVEC) == 8 && ReadReg(a.regs, 5) == CsrRead(init.csrs, MEPC)
  {
    hide Decode;
    TextAt(init, init);
    DecodedCsrrw();
    RunNext(Example(init), 0);
  }

  lemma SecondStep(init: Arch, a: Arch)
    requires a.pc == 4 && CsrRead(a.csrs, MTVEC) == 8
    ensures var b := Example(init).Step(a); b.pc == 8 && CsrRead(b.csrs, MEPC) == 4
  {
    hide Decode;
    TextAt(init, a);
    DecodedEcall();
  }

  lemma Spins(init: Arch, a: Arch)
    requires a.pc == 8
    ensures Example(init).Step(a).pc == 8
  {
    hide Decode;
    TextAt(init, a);
    DecodedSpin();
  }

  lemma {:induction false} PcsOf(init: Arch, k: nat)
    requires Begins(init)
    ensures Example(init).Run(k).pc == if k == 0 then 0 else if k == 1 then 4 else 8
  {
    hide Machine.Step, Begins;
    if k == 0 {
      assert init.pc == 0 by { BeginsAt(init); }
    } else {
      PcsOf(init, k - 1);
      FirstStep(init);
      if k == 2 { SecondStep(init, Example(init).Run(1)); }
      if k > 2 { Spins(init, Example(init).Run(k - 1)); }
    }
  }

  lemma BeginsAt(init: Arch)
    requires Begins(init)
    ensures init.pc == 0
  {
  }

  lemma DoesTrap(init: Arch)
    requires Begins(init)
    ensures !NeverTraps(Example(init))
  {
    hide Decode, Begins, Machine.Run;
    PcsOf(init, 1);
    TextAt(init, Example(init).Run(1));
    DecodedEcall();
  }

  lemma SupportedPc(init: Arch, a: Arch)
    requires Begins(init) && (a.pc == 0 || a.pc == 4 || a.pc == 8)
    ensures SupportedAt(Example(init), a)
  {
    hide Decode, Machine.InstrAt, NeverTraps, Begins;
    DoesTrap(init);
    TextAt(init, a);
    DecodedCsrrw();
    DecodedEcall();
    DecodedSpin();
  }

  lemma ExampleSupported(init: Arch)
    requires Begins(init)
    ensures Supported(Example(init))
  {
    hide Begins, SupportedAt, Machine.Run, Example;
    var m := Example(init);
    forall k: nat ensures SupportedAt(m, m.Run(k)) {
      PcsOf(init, k);
      SupportedPc(init, m.Run(k));
    }
  }

  lemma ExampleExposed(init: Arch)
    requires Begins(init)
    ensures var m := Example(init); Exposed(m, m.Run(0)) && TrapValue(m, m.Run(1), MEPC) == 4
  {
    hide Decode, Begins, Machine.Step;
    PcsOf(init, 0);
    PcsOf(init, 1);
    TextAt(init, Example(init).Run(0));
    TextAt(init, Example(init).Run(1));
    DecodedCsrrw();
    DecodedEcall();
  }

  lemma ExampleWrites(init: Arch, v: Word)
    requires Begins(init)
    ensures var m := Example(init);
      m.dp.csrNew(CsrKindOf(m.InstrAt(init).op), v, m.CsrOperand(init)) == ReadReg(init.regs, 1)
  {
    hide Decode;
    TextAt(init, init);
    DecodedCsrrw();
  }

  /** What the overtaken csrrw leaves. */
  lemma ExampleLeaves(init: Arch)
    requires Begins(init)
    ensures var m := Example(init); OvertakenRegs(m, init)[5] == 4 && m.InstrAt(init).csrAddr == MEPC
  {
    hide Decode, Machine.Run, TrapValue, Machine.Step, Machine.InstrAt;
    var m := Example(init);
    ExampleExposed(init);
    assert m.Run(1) == m.Step(init) by { RunStarts(m); RunNext(m, 0); }
    TextAt(init, init);
    DecodedCsrrw();
  }

  /** Wherever a run overtakes at the csrrw and then drains, x5 ends with the trap's
      mepc instead of the old one, and mepc with the value of x1 instead of the trap's
      pc. */
  lemma ExampleEnds(init: Arch, s: Sys, es: seq<Env>, e1: Env, e2: Env, e3: Env)
    requires Begins(init) && Reset(Example(init), s)
    requires var m := Example(init);
      HarmlessOn(m, s, es) && Clobber(CoreAfter(m, s, es)) && Ending(m, s, es, e1, e2, e3) && AtMem(m, s, es) == 0
    ensures var m, es2, es3 := Example(init), es + [e1] + [e2], es + [e1] + [e2] + [e3];
      && CommitCount(m, s, es2) == 1 && CommitCount(m, s, es3) == 2 && Drained(CoreAfter(m, s, es3))
      && CoreAfter(m, s, es2).regs[5] == 4 && m.Run(1).regs[5] == CsrRead(init.csrs, MEPC)
      && CsrRead(CoreAfter(m, s, es3).csrs, MEPC) == ReadReg(init.regs, 1) && CsrRead(m.Run(2).csrs, MEPC) == 4
  {
    hide Decode, Machine.Run, Machine.Step, RunContract, RunTrace, SysRun, TrapValue, Begins, Core, Exposed,
      HarmlessOn, Clobber, Ending;
    var m := Example(init);
    ExampleStarted(init, s);
    ExampleExposed(init);
    OvertakingEnds(m, s, es, e1, e2, e3);
    assert m.Run(0) == init by { RunStarts(m); }
    ExampleLeaves(init);
    ExampleWrites(init, TrapValue(m, m.Run(1), MEPC));
    FirstStep(init);
    SecondStep(init, m.Run(1));
    RunNext(m, 1);
  }

  lemma ExampleStarted(init: Arch, s: Sys)
    requires Begins(init) && Reset(Example(init), s)
    ensures Started(Example(init), s)
  {
    hide Lawful, Supported, Reset, Begins, Core;
    Conformance.CoreLawful();
    ExampleSupported(init);
  }

  /** Memory latency alone leads there. */
  lemma ExampleDiverges(init: Arch, s: Sys) returns (es2: seq<Env>, es3: seq<Env>)
    requires Begins(init) && Reset(Example(init), s)
    ensures var m := Example(init);
      && RunContract(m, s, es2) && RunContract(m, s, es3)
      && CommitCount(m, s, es2) == 1 && CommitCount(m, s, es3) == 2 && Drained(CoreAfter(m, s, es3))
      && CoreAfter(m, s, es2).regs[5] == 4 && m.Run(1).regs[5] == CsrRead(init.csrs, MEPC)
      && CsrRead(CoreAfter(m, s, es3).csrs, MEPC) == ReadReg(init.regs, 1) && CsrRead(m.Run(2).csrs, MEPC) == 4
  {
    hide Machine.Run, RunContract, RunTrace, SysRun, Begins, Exposed, HarmlessOn, Clobber, Ending, Example, Reset;
    var m := Example(init);
    ExampleStarted(init, s);
    ExampleExposed(init);
    var es, e1, e2, e3 := OvertakingRun(m, s, 0);
    ExampleEnds(init, s, es, e1, e2, e3);
    OvertakingEnds(m, s, es, e1, e2, e3);
    EndingRuns(m, s, es, e1, e2, e3);
    es2, es3 := es + [e1] + [e2], es + [e1] + [e2] + [e3];
  }

  lemma RunStarts(m: Machine)
    ensures m.Run(0) == m.init
  {
  }

  // ---- On the board --------------------------------------------------------------------------------

  /** The program in the first words of the RAM. */
  predicate InRam(mem: Mem) {
    |mem| == RAM_WORDS && mem[0] == CSRRW_X5_MEPC_X1 && mem[1] == ECALL && mem[2] == SPIN
  }

  lemma Addresses()
    ensures WordIndex(0) == 0 && WordIndex(4) == 1 && WordIndex(8) == 2
  {
  }

  lemma NoMemory(init: Arch, a: Arch)
    requires a.pc == 0 || a.pc == 4 || a.pc == 8
    ensures var m := Example(init); m.Step(a).mem == a.mem && DataInRamAt(m, Conformance.Bram(), a)
  {
    hide Decode, Machine.InstrAt, Machine.NextRegs, Machine.NextCsrs, Machine.NextPc, Machine.Result;
    TextAt(init, a);
    DecodedCsrrw();
    DecodedEcall();
    DecodedSpin();
  }

  lemma {:induction false} MemoryStays(init: Arch, k: nat)
    requires Begins(init)
    ensures Example(init).Run(k).mem == init.mem
  {
    hide Machine.Step, Begins;
    if k > 0 {
      MemoryStays(init, k - 1);
      PcsOf(init, k - 1);
      NoMemory(init, Example(init).Run(k - 1));
    }
  }

  lemma CodeInRam(init: Arch, mem: Mem, a: Word)
    requires InRam(mem) && Example(init).code(a)
    ensures Example(init).dp.readWord(mem, a) == Example(init).prog(a)
  {
    hide WordIndex;
    Addresses();
  }

  lemma ExampleSetup(init: Arch, c: Soc)
    requires Begins(init) && InRam(init.mem) && Reset(Example(init), c.sys) && PortsHold(Conformance.Bram(), c, false)
    ensures SocSetup(Example(init), Conformance.Bram(), c)
  {
    hide Begins, Lawful, RamLaw, Supported, Reset, PortsHold, Machine.Run, DataInRamAt, Example, Conformance.Bram,
      InRam;
    var m := Example(init);
    ExampleStarted(init, c.sys);
    ExampleRam(init);
    forall k: nat, a {:trigger m.Run(k), m.code(a)} | m.code(a) ensures m.dp.readWord(m.Run(k).mem, a) == m.prog(a) {
      MemoryStays(init, k);
      CodeInRam(init, m.Run(k).mem, a);
    }
    forall k: nat ensures DataInRamAt(m, Conformance.Bram(), m.Run(k)) {
      PcsOf(init, k);
      NoMemory(init, m.Run(k));
    }
  }

  lemma ExampleRam(init: Arch)
    ensures RamLaw(Example(init).dp, Conformance.Bram())
  {
    hide RamLaw;
    Conformance.CoreRamLaw();
  }

  /** Only the csrrw can be overtaken. */
  lemma OvertakenIsFirst(init: Arch, k: nat)
    requires Begins(init) && IsCsr(Example(init).InstrAt(Example(init).Run(k)).op)
    ensures k == 0
  {
    hide Decode, Begins, Machine.Run, Machine.InstrAt;
    PcsOf(init, k);
    TextAt(init, Example(init).Run(k));
    DecodedEcall();
    DecodedSpin();
  }

  /** Halting every second clock and then running free: the csrrw is in MEM with the ecall
      in EX, and three clocks on x5 and mepc are wrong. */
  lemma ExampleOnBoard(init: Arch, c: Soc) returns (ins: seq<SocPins>)
    requires Begins(init) && InRam(init.mem) && Reset(Example(init), c.sys) && PortsHold(Conformance.Bram(), c, false)
    ensures var m, ram := Example(init), Conformance.Bram();
      var i2 := ins + [RUN] + [RUN];
      var p2, p3 := CoreOf(m, ram, c, i2), CoreOf(m, ram, c, i2 + [RUN]);
      && DebugProtocol(i2 + [RUN]) && Clobber(CoreOf(m, ram, c, ins)) && Drained(p3)
      && p2.regs[5] == 4 && m.Run(1).regs[5] == CsrRead(init.csrs, MEPC)
      && CsrRead(p3.csrs, MEPC) == ReadReg(init.regs, 1) && CsrRead(m.Run(2).csrs, MEPC) == 4
  {
    hide Begins, InRam, SocSetup, PortsHold, Machine.Run, RunContract, SocRun, SysRun, RunTrace, Example,
      Conformance.Bram, Clobber, HarmlessOn, Ending, EnvsFor, DebugProtocol, Reset, Started, Exposed;
    var m, ram := Example(init), Conformance.Bram();
    ExampleSetup(init, c);
    ExampleExposed(init);
    ins := StepToTrap(m, ram, c, 0);
    var i1, i2 := ins + [RUN], ins + [RUN] + [RUN];
    BoardEnds(m, ram, c, ins);
    SoundIsSteady(m, ram, c, ins);
    SteadyRuns(m, ram, c, ins);
    SetupStarts(m, ram, c);
    TrackedClobber(m, c.sys, EnvsFor(m, ram, c, ins));
    OvertakenIsFirst(init, AtMem(m, c.sys, EnvsFor(m, ram, c, ins)));
    ExampleEnds(init, c.sys, EnvsFor(m, ram, c, ins), EnvOf(ram, SocRun(m.dp, ram, c, ins), RUN),
                EnvOf(ram, SocRun(m.dp, ram, c, i1), RUN), EnvOf(ram, SocRun(m.dp, ram, c, i2), RUN));
    InStepCore(m, ram, c, i2);
    InStepCore(m, ram, c, i2 + [RUN]);
  }

  lemma InStepCore(m: Machine, ram: Ram, c: Soc, ins: seq<SocPins>)
    requires InStep(m, ram, c, ins)
    ensures CoreOf(m, ram, c, ins) == CoreAfter(m, c.sys, EnvsFor(m, ram, c, ins))
  {
  }
}
