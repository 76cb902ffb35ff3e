/** Stalls are bounded and every four useful clocks retire an instruction. */
module Progress {
  import opened Isa
  import opened Golden
  import opened Pipeline
  import opened Refinement
  import opened Traces

  /** A clock in which the core runs and neither memory keeps it waiting. */
  predicate Useful(p: Pipe, i: Inputs) { Advances(p, i) && i.imemVld }

  /** What reset establishes and every clock keeps: an empty ID or EX slot holds
      no instruction. */
  predicate BubblesEmpty(p: Pipe) {
    && (!p.ifid.valid ==> p.ifid.instr == 0)
    && (!p.idex.valid ==> p.idex.op.Undecoded? && !p.idex.isStore)
  }

  lemma BubblesKept(dp: Datapath, p: Pipe, i: Inputs)
    requires DecodeLaw(dp) && BubblesEmpty(p)
    ensures BubblesEmpty(Clock(dp, p, i))
  {
    hide Flush, IdStall, StepCsrs, StepRegs, StepMemWb, StepExMem;
  }

  /** Clocks until the oldest instruction commits if nothing waits. */
  function Distance(p: Pipe): nat {
    if p.memwb.valid then 0
    else if p.exmem.valid then 1
    else if p.idex.valid then 2
    else if p.ifid.valid then 3
    else 4
  }

  lemma NoHazardWhenEmpty(dp: Datapath, p: Pipe, i: Inputs)
    requires !p.idex.valid && !p.exmem.valid && !p.memwb.valid
    ensures !IdStall(dp, p, i)
  {
  }

  lemma NoFlushWhenEmpty(dp: Datapath, p: Pipe, i: Inputs)
    requires OperandLaw(dp) && BubblesEmpty(p) && !p.idex.valid && !i.timerIrq
    ensures !Flush(dp, p, i)
  {
  }

  /** Every useful clock brings the next commit one closer, and a commit puts it
      at most four away; no other clock pushes it back. */
  lemma DistanceStep(dp: Datapath, p: Pipe, i: Inputs)
    requires OperandLaw(dp) && BubblesEmpty(p) && !i.timerIrq
    ensures Distance(Clock(dp, p, i)) + (if Useful(p, i) then 1 else 0)
      <= Distance(p) + (if Commits(p, i) then 4 else 0)
  {
    if !p.idex.valid { NoFlushWhenEmpty(dp, p, i); }
    if !p.idex.valid && !p.exmem.valid && !p.memwb.valid { NoHazardWhenEmpty(dp, p, i); }
    hide Flush, IdStall, StepPc, StepCsrs, StepRegs, OperandLaw;
  }

  function UsefulCount(dp: Datapath, s: Sys, es: seq<Env>): nat {
    if es == [] then 0
    else
      var es' := es[..|es| - 1];
      UsefulCount(dp, s, es') + (if Useful(SysRun(dp, s, es').core, es[|es| - 1].pins) then 1 else 0)
  }

  predicate NoInterrupts(es: seq<Env>) { forall j :: 0 <= j < |es| ==> !es[j].pins.timerIrq }

  lemma {:induction false} ProgressRun(dp: Datapath, s: Sys, es: seq<Env>)
    requires DecodeLaw(dp) && OperandLaw(dp) && BubblesEmpty(s.core) && NoInterrupts(es)
    ensures BubblesEmpty(SysRun(dp, s, es).core)
    ensures UsefulCount(dp, s, es) + Distance(SysRun(dp, s, es).core)
      <= 4 * |RunTrace(dp, s, es).commits| + Distance(s.core)
  {
    hide BubblesEmpty, Distance, Clock, Useful, DecodeLaw, OperandLaw;
    if es != [] {
      var es', e := es[..|es| - 1], es[|es| - 1];
      ProgressRun(dp, s, es');
      var p := SysRun(dp, s, es').core;
      DistanceStep(dp, p, e.pins);
      BubblesKept(dp, p, e.pins);
      assert |CommitsNow(dp, p, e.pins)| == if Commits(p, e.pins) then 1 else 0;
      hide CommitsNow, ExecsNow, StoresNow;
    }
  }

  /** From any state the pipeline can be in, n instructions retire within
      4n + 4 useful clocks, whatever the hazards and redirects. */
  lemma {:induction false} RetiresLinearly(dp: Datapath, s: Sys, es: seq<Env>, n: nat)
    requires DecodeLaw(dp) && OperandLaw(dp) && BubblesEmpty(s.core) && NoInterrupts(es)
    requires UsefulCount(dp, s, es) >= 4 * n + 4
    ensures |RunTrace(dp, s, es).commits| >= n
  {
    ProgressRun(dp, s, es);
  }

  // ---- Hazard stalls -----------------------------------------------------------------

  /** The instruction in ID depends on a register or CSR write of a stage. */
  predicate DependsOn(d: Instr, rd: Reg, writes: bool, csr: bool, csrAddr: CsrAddr) {
    || (writes && rd != 0 && ((d.rs1Valid && d.rs1 == rd) || (d.rs2Valid && d.rs2 == rd)))
    || (csr && ((IsTrap(d.op) && csrAddr == MTVEC) || (d.op.Mret? && csrAddr == MEPC)))
  }

  /** How far the youngest producer is from having committed. */
  function StallDepth(dp: Datapath, p: Pipe): (n: nat)
    ensures n <= 3
  {
    var d := dp.decode(p.ifid.instr);
    if p.idex.valid && DependsOn(d, p.idex.rd, ExWrites(p), IsCsr(p.idex.op), p.idex.csrAddr) then 3
    else if p.exmem.valid && DependsOn(d, p.exmem.rd, p.exmem.wrEn, IsCsr(p.exmem.op), p.exmem.csrAddr) then 2
    else if p.memwb.valid && DependsOn(d, p.memwb.rd, p.memwb.wrEn, p.memwb.isCsr, p.memwb.csrAddr) then 1
    else 0
  }

  lemma StallStep(dp: Datapath, p: Pipe, i: Inputs)
    requires !i.timerIrq && IdStall(dp, p, i)
    ensures StallDepth(dp, p) > 0
    ensures Clock(dp, p, i).ifid == p.ifid
    ensures StallDepth(dp, Clock(dp, p, i)) + (if Advances(p, i) then 1 else 0) <= StallDepth(dp, p)
  {
    hide StepPc, StepCsrs, StepRegs, CsrReadWb;
  }

  function PipeRun(dp: Datapath, p: Pipe, ins: seq<Inputs>): Pipe {
    if ins == [] then p else Clock(dp, PipeRun(dp, p, ins[..|ins| - 1]), ins[|ins| - 1])
  }

  /** A run in which a hazard holds the same instruction in ID throughout. */
  ghost predicate HeldInId(dp: Datapath, p: Pipe, ins: seq<Inputs>) {
    ins == []
    || (&& HeldInId(dp, p, ins[..|ins| - 1])
        && !ins[|ins| - 1].timerIrq
        && IdStall(dp, PipeRun(dp, p, ins[..|ins| - 1]), ins[|ins| - 1]))
  }

  function AdvanceCount(dp: Datapath, p: Pipe, ins: seq<Inputs>): nat {
    if ins == [] then 0
    else
      var ins' := ins[..|ins| - 1];
      AdvanceCount(dp, p, ins') + (if Advances(PipeRun(dp, p, ins'), ins[|ins| - 1]) then 1 else 0)
  }

  lemma {:induction false} StallRun(dp: Datapath, p: Pipe, ins: seq<Inputs>)
    requires HeldInId(dp, p, ins)
    ensures AdvanceCount(dp, p, ins) + StallDepth(dp, PipeRun(dp, p, ins)) <= StallDepth(dp, p)
    ensures PipeRun(dp, p, ins).ifid == p.ifid
  {
    hide StallDepth, Clock, IdStall;
    if ins != [] {
      StallRun(dp, p, ins[..|ins| - 1]);
      StallStep(dp, PipeRun(dp, p, ins[..|ins| - 1]), ins[|ins| - 1]);
    }
  }

  /** A hazard holds one instruction in ID for at most three clocks in which the
      core is neither halted nor waiting for data memory. */
  lemma StallsAtMostThree(dp: Datapath, p: Pipe, ins: seq<Inputs>)
    requires HeldInId(dp, p, ins)
    ensures AdvanceCount(dp, p, ins) <= 3
  {
    StallRun(dp, p, ins);
  }

  /** A redirect costs exactly two EX slots: the target is fetched in the next
      useful clock and is in ID, with EX empty twice, one later. */
  lemma RedirectCostsTwo(dp: Datapath, p: Pipe, i0: Inputs, i1: Inputs, i2: Inputs)
    requires OperandLaw(dp) && DecodeLaw(dp) && Advances(p, i0) && Flush(dp, p, i0)
    requires !i1.timerIrq
    ensures var p1 := Clock(dp, p, i0);
      var p2 := Clock(dp, p1, i1);
      && p1.pc == NextPc(dp, p, i0) && !p1.idex.valid && !p1.ifid.valid
      && (Useful(p1, i1) ==>
            && !p2.idex.valid && p2.ifid == IfId(i1.imemData, NextPc(dp, p, i0), true)
            && (Useful(p2, i2) && !IdStall(dp, p2, i2) && !i2.timerIrq ==>
                  Clock(dp, p2, i2).idex.valid && Clock(dp, p2, i2).idex.pc == NextPc(dp, p, i0)))
  {
    var p1 := Clock(dp, p, i0);
    NoFlushWhenEmpty(dp, p1, i1);
    if Useful(p1, i1) && !i2.timerIrq { NoFlushWhenEmpty(dp, Clock(dp, p1, i1), i2); }
    hide StepCsrs, StepRegs, StepMemWb, StepExMem, OperandLaw;
  }
}
