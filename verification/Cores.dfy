/** Both cores as clocked objects: their registers, and what one clock edge does
    to them. The methods have the blocks' own text, and their contracts do no more than
    tie this clocked form to the next-state functions; what those functions are worth
    is proved in Refinement and Traces. */
module Cores {
  import opened Isa
  import opened Golden
  import P = Pipeline

  /** The pipelined core. Each always_ff block reads the values before the edge;
      here each is a method that computes its register's next value, and Clock
      stores them together. */
  class PipelinedCore {
    var pc: Word
    var ifid: P.IfId
    var idex: P.IdEx
    var exmem: P.ExMem
    var memwb: P.MemWb
    var csrs: Csrs
    const regfile: array<Word>

    ghost predicate Valid() { regfile.Length == 32 }

    function State(): (p: P.Pipe)
      requires Valid()
      reads this, regfile
    {
      P.Pipe(pc, ifid, idex, exmem, memwb, csrs, regfile[..])
    }

    constructor (regs: array<Word>, initial: Csrs)
      requires regs.Length == 32
      ensures Valid() && regfile == regs && csrs == initial
      ensures pc == 0 && ifid == P.IFID_BUBBLE && idex == P.IDEX_BUBBLE && !exmem.valid && !memwb.valid
    {
      pc := 0;
      ifid := P.IFID_BUBBLE;
      idex := P.IDEX_BUBBLE;
      exmem := P.ExMem(Undecoded, false, 0, 0, 0, false, 0, false);
      memwb := P.MEMWB_BUBBLE;
      csrs := initial;
      regfile := regs;
    }

    method ProgramCounter(dp: Datapath, i: P.Inputs) returns (next: Word)
      requires Valid()
      ensures next == P.StepPc(dp, State(), i)
    {
      var p := State();
      next := pc;
      if !i.halt && !P.MemWait(p, i) {
        if P.Flush(dp, p, i) || !P.FrontStall(dp, p, i) {
          next := P.NextPc(dp, p, i);
        }
      }
    }

    method IfIdReg(dp: Datapath, i: P.Inputs) returns (next: P.IfId)
      requires Valid()
      ensures next == P.StepIfId(dp, State(), i)
    {
      var p := State();
      next := ifid;
      if !i.halt && !P.MemWait(p, i) {
        if P.Flush(dp, p, i) {
          next := P.IFID_BUBBLE;
        } else if !P.FrontStall(dp, p, i) {
          next := P.IfId(i.imemData, pc, true);
        }
      }
    }

    method IdExReg(dp: Datapath, i: P.Inputs) returns (next: P.IdEx)
      requires Valid()
      ensures next == P.StepIdEx(dp, State(), i)
    {
      var p := State();
      next := idex;
      if !i.halt && !P.MemWait(p, i) {
        if P.Flush(dp, p, i) || P.FrontStall(dp, p, i) {
          next := P.IDEX_BUBBLE;
        } else {
          next := P.Issue(dp, p);
        }
      }
    }

    method ExMemReg(dp: Datapath, i: P.Inputs) returns (next: P.ExMem)
      requires Valid()
      ensures next == P.StepExMem(dp, State(), i)
    {
      next := exmem;
      if !i.halt && !P.MemWait(State(), i) {
        next := P.ExMem(idex.op, idex.isStore, P.ExResult(dp, State()), idex.src2, idex.rd,
                        idex.rd != 0 && idex.rdValid, idex.csrAddr, idex.valid);
      }
    }

    method MemWbReg(dp: Datapath, i: P.Inputs) returns (next: P.MemWb)
      requires Valid()
      ensures next == P.StepMemWb(dp, State(), i)
    {
      next := memwb;
      if !i.halt {
        if P.MemWait(State(), i) {
          next := P.MEMWB_BUBBLE;
        } else {
          var data := exmem.result;
          if IsLoad(exmem.op) { data := dp.loadValue(exmem.op, exmem.result, i.ldData); }
          next := P.MemWb(data, exmem.rd, exmem.wrEn, IsCsr(exmem.op), CsrKindOf(exmem.op),
                          exmem.csrAddr, exmem.src2, exmem.valid);
        }
      }
    }

    /** The WB-stage write, then the trap entry or return of EX on top of it. */
    method CsrFile(dp: Datapath, i: P.Inputs) returns (next: Csrs)
      requires Valid()
      ensures next == P.StepCsrs(dp, State(), i)
    {
      hide CsrWrite, CsrRead, P.CsrNewWb, P.StackedStatus, P.TrapStatus, P.MretStatus, P.IrqTaken, P.MemWait;
      var p := State();
      next := csrs;
      if memwb.isCsr && memwb.valid && !i.halt {
        next := CsrWrite(next, memwb.csrAddr, P.CsrNewWb(dp, p, i));
      }
      if !i.halt && !P.MemWait(p, i) {
        var status := CsrRead(csrs, MSTATUS);
        if IsTrap(idex.op) || P.IrqTaken(p, i) {
          var stacked := P.StackedStatus(next, P.TrapStatus(status));
          var cause := if P.IrqTaken(p, i) then 0x8000_0007 else if idex.op.Ecall? then 11 else 3;
          next := CsrWrite(CsrWrite(CsrWrite(next, MEPC, idex.pc), MCAUSE, cause), MSTATUS, stacked);
        } else if idex.op.Mret? {
          next := CsrWrite(next, MSTATUS, P.StackedStatus(next, P.MretStatus(status)));
        }
      }
    }

    /** One clock edge. */
    method Clock(dp: Datapath, i: P.Inputs)
      requires Valid()
      modifies this, regfile
      ensures Valid() && State() == P.Clock(dp, old(State()), i)
    {
      hide P.StepPc, P.StepIfId, P.StepIdEx, P.StepExMem, P.StepMemWb, P.StepCsrs, P.CsrReadWb;
      var nextPc := ProgramCounter(dp, i);
      var nextIfId := IfIdReg(dp, i);
      var nextIdEx := IdExReg(dp, i);
      var nextExMem := ExMemReg(dp, i);
      var nextMemWb := MemWbReg(dp, i);
      var nextCsrs := CsrFile(dp, i);
      if memwb.wrEn && memwb.rd != 0 && memwb.valid && !i.halt {
        regfile[memwb.rd] := if memwb.isCsr then P.CsrReadWb(State(), i) else memwb.wrData;
      }
      pc, ifid, idex, exmem, memwb, csrs := nextPc, nextIfId, nextIdEx, nextExMem, nextMemWb, nextCsrs;
    }
  }

  /** The single-cycle core, given the words its memories return. */
  class SingleCycleCore {
    var pc: Word
    var csrs: Csrs
    const regfile: array<Word>

    ghost predicate Valid() { regfile.Length == 32 }

    /** The registers together with a data memory outside the core. */
    function State(mem: Mem): (a: Arch)
      requires Valid()
      reads this, regfile
    {
      Arch(pc, regfile[..], csrs, mem)
    }

    constructor (regs: array<Word>, initial: Csrs)
      requires regs.Length == 32
      ensures Valid() && regfile == regs && csrs == initial && pc == 0
    {
      pc := 0;
      csrs := initial;
      regfile := regs;
    }

    method ProgramCounter(dp: Datapath, d: Instr, src1: Word, src2: Word, ghost m: Machine, ghost a: Arch)
      returns (next: Word)
      requires m.dp == dp && m.InstrAt(a) == d && m.Src1(a) == src1 && m.Src2(a) == src2 && a.pc == pc && a.csrs == csrs
      ensures next == m.NextPc(a)
    {
      if dp.branch(d.op, src1, src2) || d.op.Jal? {
        next := dp.plus(pc, d.imm);
      } else if d.op.Jalr? {
        next := dp.plus(src1, d.imm);
      } else if IsTrap(d.op) {
        next := CsrRead(csrs, MTVEC);
      } else if d.op.Mret? {
        next := CsrRead(csrs, MEPC);
      } else {
        next := dp.plus(pc, 4);
      }
    }

    method CsrFile(dp: Datapath, d: Instr, operand: Word, ghost m: Machine, ghost a: Arch) returns (next: Csrs)
      requires m.dp == dp && m.InstrAt(a) == d && m.CsrOperand(a) == operand && a.pc == pc && a.csrs == csrs
      ensures next == m.NextCsrs(a)
    {
      next := csrs;
      if IsCsr(d.op) {
        next := CsrWrite(csrs, d.csrAddr, dp.csrNew(CsrKindOf(d.op), CsrRead(csrs, d.csrAddr), operand));
      } else if IsTrap(d.op) {
        next := CsrWrite(CsrWrite(csrs, MEPC, pc), MCAUSE, if d.op.Ecall? then 11 else 3);
      }
    }

    /** What the register file is written with. */
    method WriteData(dp: Datapath, d: Instr, result: Word, ldData: Word, ghost m: Machine, ghost a: Arch)
      returns (value: Word)
      requires m.dp == dp && m.InstrAt(a) == d && m.Result(a) == result && a.csrs == csrs
      ensures (IsLoad(d.op) ==> ldData == dp.readWord(a.mem, result)) ==> value == m.WriteValue(a)
    {
      hide Machine.Result, CsrRead;
      value := if IsCsr(d.op) then CsrRead(csrs, d.csrAddr)
               else if IsLoad(d.op) then dp.loadValue(d.op, result, ldData)
               else result;
    }

    method RegisterFile(d: Instr, value: Word, ghost m: Machine, ghost a: Arch)
      requires Valid() && m.InstrAt(a) == d && a.regs == regfile[..]
      modifies regfile
      ensures value == m.WriteValue(a) ==> regfile[..] == m.NextRegs(a)
    {
      hide Machine.WriteValue, Machine.InstrAt;
      if Writes(d) { regfile[d.rd] := value; }
    }

    /** One clock edge with instruction word instr and load data ldData. Stalled or
        halted, nothing changes; otherwise the core takes the golden step of any
        program and memory that agree with the words it was handed. */
    method Clock(dp: Datapath, i: P.Inputs, ghost m: Machine, ghost mem: Mem)
      requires Valid() && m.dp == dp && m.prog(pc) == i.imemData
      modifies this, regfile
      ensures Valid()
      ensures var a := old(State(mem));
        var d := m.InstrAt(a);
        var stall := !i.imemVld || ((d.isStore || IsLoad(d.op)) && !i.dmemVld);
        if i.halt || stall then State(mem) == a
        else (IsLoad(d.op) ==> i.ldData == dp.readWord(mem, m.Result(a))) ==> State(m.NextMem(a)) == m.Step(a)
    {
      hide Machine.NextPc, Machine.NextCsrs, Machine.NextMem, Machine.NextRegs, Machine.WriteValue;
      ghost var a := State(mem);
      var d := dp.decode(i.imemData);
      var src1 := if d.rs1 == 0 then 0 else regfile[d.rs1];
      var src2 := if d.rs2 == 0 then 0 else regfile[d.rs2];
      var result := dp.alu(d.op, d.isStore, src1, src2, d.imm, pc);
      assert d == m.InstrAt(a) && src1 == m.Src1(a) && src2 == m.Src2(a);
      assert result == m.Result(a) && m.CsrOperand(a) == if IsCsrImm(d.op) then d.zimm else src1;
      hide Machine.Result, Machine.InstrAt, Machine.Src1, Machine.Src2, Machine.CsrOperand;
      var stall := !i.imemVld || ((d.isStore || IsLoad(d.op)) && !i.dmemVld);
      if !i.halt && !stall {
        var nextPc := ProgramCounter(dp, d, src1, src2, m, a);
        var nextCsrs := CsrFile(dp, d, if IsCsrImm(d.op) then d.zimm else src1, m, a);
        var value := WriteData(dp, d, result, i.ldData, m, a);
        RegisterFile(d, value, m, a);
        pc, csrs := nextPc, nextCsrs;
      }
    }
  }
}
