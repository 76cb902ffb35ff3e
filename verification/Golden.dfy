/** The single-cycle reference core. */
module Golden {
  import opened Isa

  datatype Arch = Arch(pc: Word, regs: RegFile, csrs: Csrs, mem: Mem)

  /** A program, the addresses its run may fetch from, a datapath, and the state
      after reset. */
  datatype Machine = Machine(dp: Datapath, prog: Program, code: Word -> bool, init: Arch) {

    function InstrAt(a: Arch): Instr { dp.decode(prog(a.pc)) }

    function Src1(a: Arch): Word { ReadReg(a.regs, InstrAt(a).rs1) }

    function Src2(a: Arch): Word { ReadReg(a.regs, InstrAt(a).rs2) }

    function CsrOperand(a: Arch): Word {
      if IsCsrImm(InstrAt(a).op) then InstrAt(a).zimm else Src1(a)
    }

    function Result(a: Arch): Word {
      var d := InstrAt(a);
      dp.alu(d.op, d.isStore, Src1(a), Src2(a), d.imm, a.pc)
    }

    function NextPc(a: Arch): Word {
      var d := InstrAt(a);
      if dp.branch(d.op, Src1(a), Src2(a)) || d.op.Jal? then dp.plus(a.pc, d.imm)
      else if d.op.Jalr? then dp.plus(Src1(a), d.imm)
      else if IsTrap(d.op) then CsrRead(a.csrs, MTVEC)
      else if d.op.Mret? then CsrRead(a.csrs, MEPC)
      else dp.plus(a.pc, 4)
    }

    function CsrNewValue(a: Arch): Word {
      var d := InstrAt(a);
      dp.csrNew(CsrKindOf(d.op), CsrRead(a.csrs, d.csrAddr), CsrOperand(a))
    }

    function NextCsrs(a: Arch): Csrs {
      var d := InstrAt(a);
      if IsCsr(d.op) then CsrWrite(a.csrs, d.csrAddr, CsrNewValue(a))
      else if IsTrap(d.op) then
        CsrWrite(CsrWrite(a.csrs, MEPC, a.pc), MCAUSE, if d.op.Ecall? then 11 else 3)
      else a.csrs
    }

    function WriteValue(a: Arch): Word {
      var d := InstrAt(a);
      if IsCsr(d.op) then CsrRead(a.csrs, d.csrAddr)
      else if IsLoad(d.op) then dp.loadValue(d.op, Result(a), dp.readWord(a.mem, Result(a)))
      else Result(a)
    }

    function NextRegs(a: Arch): RegFile {
      var d := InstrAt(a);
      if Writes(d) then a.regs[d.rd := WriteValue(a)] else a.regs
    }

    function NextMem(a: Arch): Mem {
      var d := InstrAt(a);
      if d.isStore then
        dp.writeWord(a.mem, Result(a), dp.storeData(Src2(a), Result(a)), dp.storeMask(d.op, Result(a)))
      else a.mem
    }

    /** One instruction. */
    function Step(a: Arch): Arch { Arch(NextPc(a), NextRegs(a), NextCsrs(a), NextMem(a)) }

    /** The state before instruction number k. */
    function Run(k: nat): Arch { if k == 0 then init else Step(Run(k - 1)) }
  }
}
