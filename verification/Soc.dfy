/** The pipelined core on the board's block RAM: both read ports register their
    address, and validity is tracked by comparing each address with the one a
    clock earlier. The composition refines the golden core on ideal memory. */
module Soc {
  import opened Isa
  import opened Golden
  import opened Pipeline
  import opened Refinement
  import opened Traces
  import opened Progress
  import opened Overtaking
  import opened Harmless

  /** Where the datapath's memory lives: word index and BRAM address decode. */
  datatype Ram = Ram(index: Word -> nat, selected: Word -> bool)

  ghost predicate RamLaw(dp: Datapath, ram: Ram) {
    && (forall a :: ram.index(a) < RAM_WORDS)
    && (forall mem: Mem, a :: |mem| == RAM_WORDS && ram.index(a) < RAM_WORDS ==>
          dp.readWord(mem, a) == mem[ram.index(a)])
    && (forall mem: Mem, a: Word, v: Word, be: bv4 :: |dp.writeWord(mem, a, v, be)| == |mem|)
    && (forall a :: dp.plus(a, 4) != a)
  }

  /** addrA and addrB are the RAM's registered port addresses. */
  datatype Soc = Soc(sys: Sys, addrA: nat, addrB: nat, imemPrev: Word, dmemPrev: Word)

  /** What the debug UART and the other peripherals drive in one clock. */
  datatype SocPins = SocPins(halt: bool, dbgValid: bool, dbgAddr: Word, periphData: Word)

  function Q(mem: Mem, ix: nat): Word { if ix < |mem| then mem[ix] else 0 }

  /** imem_rvalid, dmem_rvalid and the load mux. */
  function CorePins(ram: Ram, c: Soc, i: SocPins): Inputs {
    var p := c.sys.core;
    Inputs(i.halt,
           p.pc == c.imemPrev, Q(c.sys.mem, c.addrA),
           DmemReq(p) && p.exmem.result == c.dmemPrev,
           if ram.selected(p.exmem.result) then Q(c.sys.mem, c.addrB) else i.periphData,
           false)
  }

  /** Port B belongs to the debug UART while it is reading. */
  function SocClock(dp: Datapath, ram: Ram, c: Soc, i: SocPins): Soc {
    var p := c.sys.core;
    var weB := !i.dbgValid && DmemWe(p) && ram.selected(p.exmem.result);
    Soc(Sys(Clock(dp, p, CorePins(ram, c, i)), if weB then StoreTo(dp, p, c.sys.mem) else c.sys.mem),
        ram.index(p.pc),
        ram.index(if i.dbgValid then i.dbgAddr else p.exmem.result),
        p.pc, p.exmem.result)
  }

  function EnvOf(ram: Ram, c: Soc, i: SocPins): Env {
    Env(CorePins(ram, c, i), !i.dbgValid && ram.selected(c.sys.core.exmem.result))
  }

  function SocRun(dp: Datapath, ram: Ram, c: Soc, ins: seq<SocPins>): Soc {
    if ins == [] then c else SocClock(dp, ram, SocRun(dp, ram, c, ins[..|ins| - 1]), ins[|ins| - 1])
  }

  function Envs(dp: Datapath, ram: Ram, c: Soc, ins: seq<SocPins>): (es: seq<Env>)
    ensures |es| == |ins|
  {
    if ins == [] then []
    else Envs(dp, ram, c, ins[..|ins| - 1]) + [EnvOf(ram, SocRun(dp, ram, c, ins[..|ins| - 1]), ins[|ins| - 1])]
  }

  /** The debug UART reads memory only while it holds the core halted, and keeps
      it halted one clock longer. */
  predicate DebugProtocol(ins: seq<SocPins>) {
    && (forall j :: 0 <= j < |ins| && ins[j].dbgValid ==> ins[j].halt)
    && (forall j :: 0 <= j < |ins| - 1 && ins[j].dbgValid ==> ins[j + 1].halt)
  }

  /** The program fetches what memory held at reset: no store of the run lands
      on a word the run executes. */
  ghost predicate CodeUntouched(m: Machine) {
    forall k: nat, a {:trigger m.Run(k), m.code(a)} ::
      m.code(a) ==> m.dp.readWord(m.Run(k).mem, a) == m.prog(a)
  }

  predicate DataInRamAt(m: Machine, ram: Ram, a: Arch) {
    IsLoad(m.InstrAt(a).op) || m.InstrAt(a).isStore ==> ram.selected(m.Result(a))
  }

  /** All loads and stores of the run address the RAM. */
  ghost predicate DataInRam(m: Machine, ram: Ram) { forall k: nat :: DataInRamAt(m, ram, m.Run(k)) }

  /** Port A has the word of the address a clock earlier, and so has port B
      unless the debug UART used it then. */
  predicate PortsHold(ram: Ram, c: Soc, dbgBefore: bool) {
    && |c.sys.mem| == RAM_WORDS
    && c.addrA == ram.index(c.imemPrev)
    && (!dbgBefore ==> c.addrB == ram.index(c.dmemPrev))
  }

  lemma StoreKeepsLength(dp: Datapath, ram: Ram, p: Pipe, mem: Mem)
    requires RamLaw(dp, ram)
    ensures |StoreTo(dp, p, mem)| == |mem|
  {
    var a := p.exmem.result;
    var v, be := dp.storeData(p.exmem.src2, a), dp.storeMask(p.exmem.op, a);
    assert |dp.writeWord(mem, a, v, be)| == |mem|;
  }

  lemma PortsKept(dp: Datapath, ram: Ram, c: Soc, i: SocPins, dbgBefore: bool)
    requires RamLaw(dp, ram) && PortsHold(ram, c, dbgBefore)
    ensures PortsHold(ram, SocClock(dp, ram, c, i), i.dbgValid)
  {
    StoreKeepsLength(dp, ram, c.sys.core, c.sys.mem);
  }

  /** The memory contract: while imem_rvalid is high the RAM returns the current
      word at the current pc, and while dmem_rvalid is high it returns the
      current word at the current data address, all earlier byte-masked writes
      included, unless the debug UART used the port in the previous clock. */
  lemma ValidMeansCurrent(dp: Datapath, ram: Ram, c: Soc, i: SocPins, dbgBefore: bool)
    requires RamLaw(dp, ram) && PortsHold(ram, c, dbgBefore)
    ensures var pins, p := CorePins(ram, c, i), c.sys.core;
      && (pins.imemVld ==> pins.imemData == dp.readWord(c.sys.mem, p.pc))
      && (pins.dmemVld && DmemRe(p) && ram.selected(p.exmem.result) && !dbgBefore ==>
            pins.ldData == dp.readWord(c.sys.mem, p.exmem.result))
  {
  }

  /** What the memory contract needs of a state: the stages are golden, and memory too. */
  ghost predicate Grounded(m: Machine, k: nat, s: Sys) {
    var l := LineAt(m, k, s.core);
    Linked(m, l, s.core) && StagesHold(m, l, s.core) && MemoryHolds(m, l, s)
  }

  lemma TrackedIsGrounded(m: Machine, k: nat, s: Sys)
    requires Tracked(m, k, s)
    ensures Grounded(m, k, s)
  {
    hide Linked, StagesHold, FrontHolds, CsrsHold, PrivHolds, MemoryHolds, LineAt, Harmless.Harmless;
  }

  /** The word at a code address is the program's, whatever store is pending. */
  lemma FetchIsProgram(m: Machine, k: nat, s: Sys)
    requires CodeUntouched(m) && Grounded(m, k, s) && m.code(s.core.pc)
    ensures m.dp.readWord(s.mem, s.core.pc) == m.prog(s.core.pc)
  {
    hide Linked, StagesHold, Machine.Run;
    var p, j := s.core, MemIx(k, s.core);
    var l := LineAt(m, k, p);
    if s.mem == l.mem.mem {
      assert m.dp.readWord(m.Run(j).mem, p.pc) == m.prog(p.pc);
    } else {
      StoreIsStep(m, l, p);
      assert s.mem == m.Run(j + 1).mem;
      assert m.dp.readWord(m.Run(j + 1).mem, p.pc) == m.prog(p.pc);
    }
  }

  /** Whatever MEM asks of the data memory is in the RAM. */
  lemma RequestsInRam(m: Machine, ram: Ram, l: Line, s: Sys)
    requires StagesHold(m, l, s.core) && DataInRamAt(m, ram, l.mem)
    ensures DmemReq(s.core) ==> ram.selected(s.core.exmem.result)
  {
  }

  /** The SoC meets the contract the core was proved against. */
  lemma SocContract(m: Machine, ram: Ram, k: nat, c: Soc, i: SocPins, dbgBefore: bool)
    requires Lawful(m.dp) && RamLaw(m.dp, ram) && CodeUntouched(m) && DataInRamAt(m, ram, m.Run(MemIx(k, c.sys.core)))
    requires Grounded(m, k, c.sys) && PortsHold(ram, c, dbgBefore)
    requires i.dbgValid || dbgBefore ==> i.halt
    ensures Contract(m, c.sys, EnvOf(ram, c, i))
    ensures SocClock(m.dp, ram, c, i).sys == SysClock(m.dp, c.sys, EnvOf(ram, c, i))
  {
    hide Linked, StagesHold, MemoryHolds, Lawful, RamLaw, CodeUntouched, Machine.Run, Clock, StoreTo, DataInRamAt;
    ValidMeansCurrent(m.dp, ram, c, i, dbgBefore);
    if m.code(c.sys.core.pc) { FetchIsProgram(m, k, c.sys); }
    RequestsInRam(m, ram, LineAt(m, k, c.sys.core), c.sys);
  }

  // ---- Whole runs ---------------------------------------------------------------------

  ghost predicate SocSetup(m: Machine, ram: Ram, c: Soc) {
    && Lawful(m.dp) && RamLaw(m.dp, ram)
    && Supported(m) && CodeUntouched(m) && DataInRam(m, ram)
    && Reset(m, c.sys) && PortsHold(ram, c, false)
  }

  predicate NeverHalted(ins: seq<SocPins>) { forall j :: 0 <= j < |ins| ==> !ins[j].halt }

  predicate DbgBefore(ins: seq<SocPins>) { ins != [] && ins[|ins| - 1].dbgValid }

  lemma EnvsOfPrefix(dp: Datapath, ram: Ram, c: Soc, ins: seq<SocPins>)
    requires ins != []
    ensures var n := |ins| - 1;
      Envs(dp, ram, c, ins)[..n] == Envs(dp, ram, c, ins[..n])
      && Envs(dp, ram, c, ins)[n] == EnvOf(ram, SocRun(dp, ram, c, ins[..n]), ins[n])
  {
    hide EnvOf, SocRun;
  }

  lemma ProtocolOfPrefix(ins: seq<SocPins>)
    requires DebugProtocol(ins) && ins != []
    ensures DebugProtocol(ins[..|ins| - 1])
    ensures ins[|ins| - 1].dbgValid || DbgBefore(ins[..|ins| - 1]) ==> ins[|ins| - 1].halt
  {
    var n := |ins| - 1;
    if DbgBefore(ins[..n]) { assert ins[n - 1].dbgValid; }
  }

  /** The SoC run is so far a run of the core and memory that keeps the contract. */
  ghost predicate InStep(m: Machine, ram: Ram, c: Soc, ins: seq<SocPins>) {
    && SocRun(m.dp, ram, c, ins).sys == SysRun(m.dp, c.sys, Envs(m.dp, ram, c, ins))
    && RunContract(m, c.sys, Envs(m.dp, ram, c, ins))
    && PortsHold(ram, SocRun(m.dp, ram, c, ins), DbgBefore(ins))
  }

  /** One more clock. */
  lemma StepOn(m: Machine, ram: Ram, c: Soc, ins: seq<SocPins>)
    requires SocSetup(m, ram, c) && DebugProtocol(ins) && ins != [] && InStep(m, ram, c, ins[..|ins| - 1])
    requires var es := Envs(m.dp, ram, c, ins[..|ins| - 1]);
      Grounded(m, CommitCount(m, c.sys, es), SysRun(m.dp, c.sys, es))
    ensures InStep(m, ram, c, ins)
  {
    hide Lawful, RamLaw, Supported, CodeUntouched, DataInRamAt, Reset, PortsHold, Grounded, Contract, EnvOf, SocClock,
      SysClock, Machine.Run, CommitCount, DebugProtocol;
    var n := |ins| - 1;
    EnvsOfPrefix(m.dp, ram, c, ins);
    ProtocolOfPrefix(ins);
    var es, c' := Envs(m.dp, ram, c, ins[..n]), SocRun(m.dp, ram, c, ins[..n]);
    var k := CommitCount(m, c.sys, es);
    assert DataInRamAt(m, ram, m.Run(MemIx(k, c'.sys.core)));
    SocContract(m, ram, k, c', ins[n], DbgBefore(ins[..n]));
    PortsKept(m.dp, ram, c', ins[n], DbgBefore(ins[..n]));
  }

  lemma SetupStarts(m: Machine, ram: Ram, c: Soc)
    requires SocSetup(m, ram, c)
    ensures Started(m, c.sys)
  {
  }

  /** It is one for as long as overtaking does no harm. */
  lemma {:induction false} SocIsSysRun(m: Machine, ram: Ram, c: Soc, ins: seq<SocPins>)
    requires SocSetup(m, ram, c) && DebugProtocol(ins)
    requires HarmlessOn(m, c.sys, Envs(m.dp, ram, c, ins))
    ensures InStep(m, ram, c, ins)
  {
    hide Lawful, RamLaw, Supported, SupportedAt, CodeUntouched, DataInRam, Reset, Grounded, Tracked, HarmlessNow,
      Contract, EnvOf, SocClock, SysClock, Machine.Run, Started, CommitCount;
    if ins != [] {
      var n := |ins| - 1;
      EnvsOfPrefix(m.dp, ram, c, ins);
      ProtocolOfPrefix(ins);
      SocIsSysRun(m, ram, c, ins[..n]);
      var es := Envs(m.dp, ram, c, ins[..n]);
      SetupStarts(m, ram, c);
      HarmlessRun(m, c.sys, es);
      assert CommitCount(m, c.sys, es) == |RunTrace(m.dp, c.sys, es).commits| by { CountIs(m, c.sys, es); }
      TrackedIsGrounded(m, CommitCount(m, c.sys, es), SysRun(m.dp, c.sys, es));
      StepOn(m, ram, c, ins);
    }
  }

  lemma CountIs(m: Machine, s: Sys, es: seq<Env>)
    ensures CommitCount(m, s, es) == |RunTrace(m.dp, s, es).commits|
  {
    hide RunTrace;
  }

  // ---- Registered-address timing keeps a gap behind every instruction -------------------

  /** An instruction in EX has a bubble in front of it, and its successor is not
      fetched yet. */
  predicate Gap(c: Soc) {
    c.sys.core.idex.valid ==> !c.sys.core.exmem.valid && c.imemPrev != c.sys.core.pc
  }

  lemma GapKept(dp: Datapath, ram: Ram, c: Soc, i: SocPins)
    requires OperandLaw(dp) && RamLaw(dp, ram) && BubblesEmpty(c.sys.core) && Gap(c) && !i.halt
    ensures Gap(SocClock(dp, ram, c, i))
  {
    var p, pins := c.sys.core, CorePins(ram, c, i);
    if !p.idex.valid { NoFlushWhenEmpty(dp, p, pins); }
    assert p.pc != dp.plus(p.pc, 4);
    hide StepCsrs, StepRegs, StepMemWb, IdStall, OperandLaw, RamLaw, BubblesEmpty;
  }

  lemma GapIsClobberFree(c: Soc)
    requires Gap(c) && BubblesEmpty(c.sys.core)
    ensures !Clobber(c.sys.core)
  {
  }

  /** On block RAM a free-running core never meets the trap ordering problem. */
  lemma {:induction false} FreeRunning(m: Machine, ram: Ram, c: Soc, ins: seq<SocPins>)
    requires SocSetup(m, ram, c) && DebugProtocol(ins) && NeverHalted(ins)
    ensures ClobberFree(m, c.sys, Envs(m.dp, ram, c, ins))
    ensures Gap(SocRun(m.dp, ram, c, ins)) && BubblesEmpty(SocRun(m.dp, ram, c, ins).sys.core)
  {
    hide RamLaw, Supported, CodeUntouched, DataInRam, PortsHold, EnvOf, SysClock, Clobber, Machine.Run, Clock;
    hide OperandLaw, DecodeLaw, MemoryLaw;
    if ins != [] {
      var n := |ins| - 1;
      EnvsOfPrefix(m.dp, ram, c, ins);
      ProtocolOfPrefix(ins);
      FreeRunning(m, ram, c, ins[..n]);
      CleanIsHarmless(m, c.sys, Envs(m.dp, ram, c, ins[..n]));
      SocIsSysRun(m, ram, c, ins[..n]);
      var c' := SocRun(m.dp, ram, c, ins[..n]);
      GapIsClobberFree(c');
      GapKept(m.dp, ram, c', ins[n]);
      BubblesKept(m.dp, c'.sys.core, CorePins(ram, c', ins[n]));
    }
  }

  /** A harmless program does no harm on any schedule of halts and debug reads. */
  lemma {:induction false} HarmlessSoc(m: Machine, ram: Ram, c: Soc, ins: seq<SocPins>)
    requires SocSetup(m, ram, c) && DebugProtocol(ins) && HarmlessProgram(m)
    ensures HarmlessOn(m, c.sys, Envs(m.dp, ram, c, ins))
  {
    hide SocSetup, HarmlessNow, EnvOf, HarmlessProgram, PortsHold, Started, DebugProtocol;
    if ins != [] {
      var n := |ins| - 1;
      EnvsOfPrefix(m.dp, ram, c, ins);
      ProtocolOfPrefix(ins);
      HarmlessSoc(m, ram, c, ins[..n]);
      SocIsSysRun(m, ram, c, ins[..n]);
      SetupStarts(m, ram, c);
      HarmlessHere(m, c.sys, Envs(m.dp, ram, c, ins[..n]));
    }
  }

  /** Main result at SoC level: the pipelined core on registered-address block RAM does
      what the golden core does on ideal memory: the same commits, stores and executed
      pcs, the same registers and CSRs, and the same memory whenever it has drained. A
      free-running core needs nothing more of the program than that it leaves its code
      alone and keeps its data in RAM; under arbitrary halts and debug reads it must
      also be harmless where a trap follows a CSR instruction on mepc or mcause. */
  lemma SocRefinesGolden(m: Machine, ram: Ram, c: Soc, ins: seq<SocPins>)
    requires SocSetup(m, ram, c) && DebugProtocol(ins) && (HarmlessProgram(m) || NeverHalted(ins))
    ensures SocRun(m.dp, ram, c, ins).sys == SysRun(m.dp, c.sys, Envs(m.dp, ram, c, ins))
    ensures Agrees(m, c.sys, Envs(m.dp, ram, c, ins))
  {
    hide SocSetup, DebugProtocol, HarmlessProgram, HarmlessOn, ClobberFree, Agrees, PortsHold, SocRun, Gap,
      BubblesEmpty;
    if HarmlessProgram(m) {
      HarmlessSoc(m, ram, c, ins);
    } else {
      FreeRunning(m, ram, c, ins);
      CleanIsHarmless(m, c.sys, Envs(m.dp, ram, c, ins));
    }
    SocIsSysRun(m, ram, c, ins);
    SetupStarts(m, ram, c);
    HarmlessRunAgrees(m, c.sys, Envs(m.dp, ram, c, ins));
  }

  // ---- Clocks per instruction on block RAM -------------------------------------------------

  /** A store-class word in EX is not one that redirects. */
  predicate StoresDecoded(p: Pipe) {
    p.idex.isStore ==> p.idex.op.Undecoded? || p.idex.op.Sb? || p.idex.op.Sh? || p.idex.op.Sw?
  }

  lemma StoresDecodedKept(dp: Datapath, p: Pipe, i: Inputs)
    requires DecodeLaw(dp) && StoresDecoded(p)
    ensures StoresDecoded(Clock(dp, p, i))
  {
    var w := p.ifid.instr;
    assert dp.decode(w).isStore ==>
        var op := dp.decode(w).op; op.Undecoded? || op.Sb? || op.Sh? || op.Sw?;
    hide StepPc, StepIfId, StepCsrs, StepRegs, StepMemWb, StepExMem, Flush, IdStall;
  }

  /** Instruction and data port have no wait state to show. */
  predicate FetchReady(c: Soc) { c.sys.core.pc == c.imemPrev }
  predicate DataWaits(c: Soc) { DmemReq(c.sys.core) && c.sys.core.exmem.result != c.dmemPrev }

  /** At most this many clocks pass before a useful one. */
  function WaitStates(dp: Datapath, c: Soc): (n: nat)
    ensures n <= 3
  {
    if DataWaits(c) then 1
    else if FetchReady(c) then 0
    else if Redirects(dp, c.sys.core) then 3
    else 2
  }

  lemma UsefulMeans(dp: Datapath, ram: Ram, c: Soc, i: SocPins)
    requires !i.halt
    ensures Useful(c.sys.core, CorePins(ram, c, i)) <==> WaitStates(dp, c) == 0
  {
  }

  /** While MEM waits, both ports come to show the addresses they are driven with. */
  lemma AfterDataWait(dp: Datapath, ram: Ram, c: Soc, i: SocPins)
    requires !i.halt && DataWaits(c)
    ensures WaitStates(dp, SocClock(dp, ram, c, i)) == 0
  {
    hide Flush, IdStall, StepCsrs, StepRegs, StepMemWb, StoreTo;
  }

  /** A fetch in flight with nothing to redirect it arrives in the next clock. */
  lemma AfterFetch(dp: Datapath, ram: Ram, c: Soc, i: SocPins)
    requires OperandLaw(dp) && !i.halt && !DataWaits(c) && !FetchReady(c) && !Redirects(dp, c.sys.core)
    ensures WaitStates(dp, SocClock(dp, ram, c, i)) <= 1
  {
    hide Redirects, IdStall, StepCsrs, StepRegs, StepMemWb, StepExMem, StepIfId, StepIdEx, StoreTo, OperandLaw;
  }

  /** A redirect leaves EX empty and asks nothing of the data memory. */
  lemma AfterRedirect(dp: Datapath, ram: Ram, c: Soc, i: SocPins)
    requires OperandLaw(dp) && StoresDecoded(c.sys.core) && !i.halt
    requires !DataWaits(c) && !FetchReady(c) && Redirects(dp, c.sys.core)
    ensures WaitStates(dp, SocClock(dp, ram, c, i)) <= 2
  {
    var p, pins := c.sys.core, CorePins(ram, c, i);
    var op, x, y := p.idex.op, p.idex.src1, p.idex.src2;
    assert dp.branch(op, x, y) ==> IsBranch(op);
    var q := SocClock(dp, ram, c, i).sys.core;
    assert q.idex == IDEX_BUBBLE && !DmemReq(q);
    assert !Redirects(dp, q) by { EmptyKeeps(dp, q); }
    hide IdStall, StepCsrs, StepRegs, StepMemWb, StepIfId, StoreTo, OperandLaw;
  }

  lemma EmptyKeeps(dp: Datapath, p: Pipe)
    requires OperandLaw(dp) && p.idex.op.Undecoded?
    ensures !Redirects(dp, p)
  {
    var op, x, y := p.idex.op, p.idex.src1, p.idex.src2;
    assert !dp.branch(op, x, y);
  }

  /** Every clock that is not useful uses up a wait state. */
  lemma WaitStep(dp: Datapath, ram: Ram, c: Soc, i: SocPins)
    requires OperandLaw(dp) && StoresDecoded(c.sys.core) && !i.halt
    ensures 1 + WaitStates(dp, SocClock(dp, ram, c, i))
      <= WaitStates(dp, c) + (if Useful(c.sys.core, CorePins(ram, c, i)) then 4 else 0)
  {
    hide SocClock, OperandLaw, Redirects, Useful, CorePins;
    UsefulMeans(dp, ram, c, i);
    if DataWaits(c) {
      AfterDataWait(dp, ram, c, i);
    } else if !FetchReady(c) {
      if Redirects(dp, c.sys.core) { AfterRedirect(dp, ram, c, i); } else { AfterFetch(dp, ram, c, i); }
    }
  }

  lemma {:induction false} WaitsBounded(m: Machine, ram: Ram, c: Soc, ins: seq<SocPins>)
    requires SocSetup(m, ram, c) && DebugProtocol(ins) && NeverHalted(ins)
    ensures StoresDecoded(SocRun(m.dp, ram, c, ins).sys.core) && NoInterrupts(Envs(m.dp, ram, c, ins))
    ensures |ins| + WaitStates(m.dp, SocRun(m.dp, ram, c, ins))
      <= 4 * UsefulCount(m.dp, c.sys, Envs(m.dp, ram, c, ins)) + 3
  {
    hide RamLaw, Supported, CodeUntouched, DataInRam, PortsHold, SysClock, Clobber, Machine.Run, Clock, WaitStates,
      Useful, OperandLaw, DecodeLaw, MemoryLaw, CorePins, SysRun;
    if ins != [] {
      var n := |ins| - 1;
      EnvsOfPrefix(m.dp, ram, c, ins);
      ProtocolOfPrefix(ins);
      WaitsBounded(m, ram, c, ins[..n]);
      FreeRunning(m, ram, c, ins[..n]);
      CleanIsHarmless(m, c.sys, Envs(m.dp, ram, c, ins[..n]));
      SocIsSysRun(m, ram, c, ins[..n]);
      var c' := SocRun(m.dp, ram, c, ins[..n]);
      WaitStep(m.dp, ram, c', ins[n]);
      StoresDecodedKept(m.dp, c'.sys.core, CorePins(ram, c', ins[n]));
      QuietTimer(ram, c', ins[n]);
    }
  }

  lemma QuietTimer(ram: Ram, c: Soc, i: SocPins)
    ensures !CorePins(ram, c, i).timerIrq
  {
  }

  /** A free-running SoC retires n instructions within 16n + 19 clocks of reset: no more
      than three wait states come before a useful clock. */
  lemma SocRetiresLinearly(m: Machine, ram: Ram, c: Soc, ins: seq<SocPins>, n: nat)
    requires SocSetup(m, ram, c) && DebugProtocol(ins) && NeverHalted(ins)
    requires |ins| >= 16 * n + 19
    ensures |RunTrace(m.dp, c.sys, Envs(m.dp, ram, c, ins)).commits| >= n
  {
    WaitsBounded(m, ram, c, ins);
    RetiresLinearly(m.dp, c.sys, Envs(m.dp, ram, c, ins), n);
  }
}
