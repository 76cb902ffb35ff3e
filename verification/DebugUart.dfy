/** The debug UART's command state machine, joined to its transmitter. Words are
    kept as their four bytes, least significant first, as the wire carries them. */
module DebugUart {
  import opened Options
  import opened Uart

  type Byte = b: nat | b < 256
  type Word = s: seq<Byte> | |s| == 4 witness [0, 0, 0, 0]

  const ZERO: Word := [0, 0, 0, 0]

  const CMD_HALT: Byte := 0x01
  const CMD_RESUME: Byte := 0x02
  const CMD_STEP: Byte := 0x03
  const CMD_READ_REG: Byte := 0x04
  const CMD_READ_PC: Byte := 0x05
  const CMD_READ_ALL: Byte := 0x06
  const CMD_WRITE_MEM: Byte := 0x07
  const CMD_READ_MEM: Byte := 0x08
  const CMD_READ_CSR: Byte := 0x09
  const CMD_READ_MMIO: Byte := 0x0A

  const TIMEOUT_BIT_PERIODS: nat := 20
  const TWO32: nat := 0x1_0000_0000

  datatype Phase =
    | CmdIdle | WaitArg | StepAssert | StepDeassert
    | SendLoad | SendByteStart | SendByteWaitBusy | SendByteWaitDone
    | RecvMemAddr | RecvMemData | MemWritePulse | MemReadWait | MemReadLatch
    | WaitArgCsr | RecvMmioAddr | MmioReadWait | MmioReadLatch

  /** wordSel 0-31 is a register, 32 the pc; csrAddr holds two bytes. */
  datatype Fsm = Fsm(
    phase: Phase, halt: bool, wordSel: nat, wordCount: nat, byteSel: nat, curWord: Word,
    txEn: bool, txData: Byte, memAddr: Word, memData: Word, rxIx: nat, memIsWrite: bool,
    csrAddr: (Byte, Byte), csrIx: nat, readingCsr: bool, mmioAddr: Word, timeout: nat)

  const RESET: Fsm := Fsm(CmdIdle, true, 0, 0, 0, ZERO, false, 0, ZERO, ZERO, 0, false, (0, 0), 0, false, ZERO, 0)

  /** Index registers stay within their widths. */
  predicate FsmOk(f: Fsm) {
    f.wordSel < 64 && f.wordCount < 64 && f.byteSel < 4 && f.rxIx < 4 && f.csrIx < 2 && f.timeout < TWO32
  }

  /** What the FSM reads in one clock: a received byte, tx_busy, and the data the
      rest of the system returns for the addresses it drives. */
  datatype Pins = Pins(
    rx: Option<Byte>, txBusy: bool, regData: Word, pc: Word, csrData: Word, memData: Word, mmioData: Word)

  // ---- Outputs ------------------------------------------------------------------------

  predicate MemWe(f: Fsm) { f.phase.MemWritePulse? }
  predicate MemValid(f: Fsm) { f.phase.MemWritePulse? || f.phase.MemReadWait? || f.phase.MemReadLatch? }
  predicate MmioValid(f: Fsm) { f.phase.MmioReadWait? || f.phase.MmioReadLatch? }

  // ---- Next state ------------------------------------------------------------------------

  /** tx_en falls and the timeout counter runs unless a phase says otherwise. */
  function Defaults(f: Fsm): (r: Fsm)
    requires FsmOk(f)
    ensures FsmOk(r)
  {
    f.(txEn := false, timeout := if f.timeout + 1 == TWO32 then 0 else f.timeout + 1)
  }

  predicate TimedOut(N: nat, f: Fsm) { f.timeout >= N * TIMEOUT_BIT_PERIODS }

  /** HALT, RESUME, STEP. */
  function OnControl(f: Fsm, b: Byte): (r: Fsm)
    requires FsmOk(f)
    ensures FsmOk(r)
  {
    var g := Defaults(f);
    if b == CMD_HALT then g.(halt := true) else if b == CMD_RESUME then g.(halt := false) else g.(phase := StepAssert)
  }

  predicate IsControl(b: Byte) { b == CMD_HALT || b == CMD_RESUME || b == CMD_STEP }

  /** READ_REG, READ_PC, READ_ALL, READ_CSR. */
  function OnQuery(f: Fsm, b: Byte): (r: Fsm)
    requires FsmOk(f)
    ensures FsmOk(r)
  {
    var g := Defaults(f);
    if b == CMD_READ_REG then g.(timeout := 0, phase := WaitArg)
    else if b == CMD_READ_PC then g.(wordSel := 32, wordCount := 1, readingCsr := false, phase := SendLoad)
    else if b == CMD_READ_ALL then g.(wordSel := 0, wordCount := 33, readingCsr := false, phase := SendLoad)
    else g.(csrIx := 0, timeout := 0, phase := WaitArgCsr)
  }

  predicate IsQuery(b: Byte) { b == CMD_READ_REG || b == CMD_READ_PC || b == CMD_READ_ALL || b == CMD_READ_CSR }

  /** The commands that only run halted; anything else is ignored. */
  function OnMemory(f: Fsm, b: Byte): (r: Fsm)
    requires FsmOk(f)
    ensures FsmOk(r)
  {
    var g := Defaults(f);
    if b == CMD_WRITE_MEM && f.halt then g.(memIsWrite := true, rxIx := 0, timeout := 0, phase := RecvMemAddr)
    else if b == CMD_READ_MEM && f.halt then g.(memIsWrite := false, rxIx := 0, timeout := 0, phase := RecvMemAddr)
    else if b == CMD_READ_MMIO && f.halt then g.(rxIx := 0, timeout := 0, phase := RecvMmioAddr)
    else g
  }

  function OnCommand(f: Fsm, b: Byte): (r: Fsm)
    requires FsmOk(f)
    ensures FsmOk(r)
  {
    if IsControl(b) then OnControl(f, b) else if IsQuery(b) then OnQuery(f, b) else OnMemory(f, b)
  }

  function OnCsrByte(f: Fsm, b: Byte): (r: Fsm)
    requires FsmOk(f)
    ensures FsmOk(r)
  {
    var a := if f.csrIx == 0 then (b, f.csrAddr.1) else (f.csrAddr.0, b);
    var g := Defaults(f).(csrAddr := a, timeout := 0);
    if f.csrIx == 1 then g.(wordCount := 1, readingCsr := true, phase := SendLoad) else g.(csrIx := 1)
  }

  function OnMemAddrByte(f: Fsm, b: Byte): (r: Fsm)
    requires FsmOk(f)
    ensures FsmOk(r)
  {
    var g := Defaults(f).(memAddr := f.memAddr[f.rxIx := b], timeout := 0);
    if f.rxIx == 3 then g.(rxIx := 0, phase := if f.memIsWrite then RecvMemData else MemReadWait)
    else g.(rxIx := f.rxIx + 1)
  }

  function OnMemDataByte(f: Fsm, b: Byte): (r: Fsm)
    requires FsmOk(f)
    ensures FsmOk(r)
  {
    var g := Defaults(f).(memData := f.memData[f.rxIx := b], timeout := 0);
    if f.rxIx == 3 then g.(rxIx := 0, phase := MemWritePulse) else g.(rxIx := f.rxIx + 1)
  }

  function OnMmioByte(f: Fsm, b: Byte): (r: Fsm)
    requires FsmOk(f)
    ensures FsmOk(r)
  {
    var g := Defaults(f).(mmioAddr := f.mmioAddr[f.rxIx := b], timeout := 0);
    if f.rxIx == 3 then g.(rxIx := 0, phase := MmioReadWait) else g.(rxIx := f.rxIx + 1)
  }

  function AfterByte(f: Fsm): (r: Fsm)
    requires FsmOk(f)
    ensures FsmOk(r)
  {
    var g := Defaults(f);
    if f.byteSel < 3 then g.(byteSel := f.byteSel + 1, phase := SendByteStart)
    else if f.wordCount == 1 then g.(phase := CmdIdle)
    else g.(wordSel := if f.wordSel == 63 then 0 else f.wordSel + 1,
                 wordCount := if f.wordCount == 0 then 63 else f.wordCount - 1, phase := SendLoad)
  }

  /** The receive branch of a phase that waits for an argument byte. */
  function OnByte(f: Fsm, b: Byte): (r: Fsm)
    requires FsmOk(f) && Waits(f)
    ensures FsmOk(r)
  {
    match f.phase
    case WaitArg => Defaults(f).(wordSel := b % 32, wordCount := 1, readingCsr := false, phase := SendLoad)
    case WaitArgCsr => OnCsrByte(f, b)
    case RecvMemAddr => OnMemAddrByte(f, b)
    case RecvMemData => OnMemDataByte(f, b)
    case RecvMmioAddr => OnMmioByte(f, b)
  }

  predicate Waits(f: Fsm) {
    f.phase.WaitArg? || f.phase.WaitArgCsr? || f.phase.RecvMemAddr? || f.phase.RecvMemData? || f.phase.RecvMmioAddr?
  }

  predicate Sends(f: Fsm) {
    f.phase.SendLoad? || f.phase.SendByteStart? || f.phase.SendByteWaitBusy? || f.phase.SendByteWaitDone?
  }

  /** The word sender. */
  function SendStep(f: Fsm, i: Pins): (r: Fsm)
    requires FsmOk(f) && Sends(f)
    ensures FsmOk(r)
  {
    var g := Defaults(f);
    match f.phase
    case SendLoad =>
      g.(curWord := if f.readingCsr then i.csrData else if f.wordSel < 32 then i.regData else i.pc,
         byteSel := 0, phase := SendByteStart)
    case SendByteStart =>
      if !i.txBusy then g.(txData := f.curWord[f.byteSel], txEn := true, phase := SendByteWaitBusy) else g
    case SendByteWaitBusy => if i.txBusy then g.(phase := SendByteWaitDone) else g
    case SendByteWaitDone => if !i.txBusy then AfterByte(f) else g
  }

  /** One clock of the command FSM. */
  function FsmStep(N: nat, f: Fsm, i: Pins): (r: Fsm)
    requires FsmOk(f)
    ensures FsmOk(r)
  {
    if f.phase.CmdIdle? then (if i.rx.Some? then OnCommand(f, i.rx.value) else Defaults(f))
    else if Waits(f) then
      if i.rx.Some? then OnByte(f, i.rx.value)
      else if TimedOut(N, f) then Defaults(f).(phase := CmdIdle)
      else Defaults(f)
    else if Sends(f) then SendStep(f, i)
    else PulseStep(f, i)
  }

  /** The phases that last one clock whatever happens. */
  function PulseStep(f: Fsm, i: Pins): (r: Fsm)
    requires FsmOk(f) && !f.phase.CmdIdle? && !Waits(f) && !Sends(f)
    ensures FsmOk(r)
  {
    var g := Defaults(f);
    match f.phase
    case StepAssert => g.(halt := false, phase := StepDeassert)
    case StepDeassert => g.(halt := true, phase := CmdIdle)
    case MemWritePulse => g.(phase := CmdIdle)
    case MemReadWait => g.(phase := MemReadLatch)
    case MemReadLatch => g.(curWord := i.memData, wordCount := 1, byteSel := 0, phase := SendByteStart)
    case MmioReadWait => g.(phase := MmioReadLatch)
    case MmioReadLatch =>
      g.(curWord := i.mmioData, wordCount := 1, byteSel := 0, readingCsr := false, phase := SendByteStart)
  }

  // ---- The FSM as a clocked object --------------------------------------------------------

  class DebugFsm {
    var phase: Phase
    var halt: bool
    var wordSel: nat
    var wordCount: nat
    var byteSel: nat
    var curWord: Word
    var txEn: bool
    var txData: Byte
    var memAddr: Word
    var memData: Word
    var rxIx: nat
    var memIsWrite: bool
    var csrAddr: (Byte, Byte)
    var csrIx: nat
    var readingCsr: bool
    var mmioAddr: Word
    var timeout: nat

    function State(): Fsm reads this {
      Fsm(phase, halt, wordSel, wordCount, byteSel, curWord, txEn, txData, memAddr, memData, rxIx, memIsWrite,
          csrAddr, csrIx, readingCsr, mmioAddr, timeout)
    }

    ghost predicate Valid() reads this { FsmOk(State()) }

    constructor ()
      ensures Valid() && State() == RESET && halt && phase.CmdIdle? && !txEn
    {
      phase, halt := CmdIdle, true;
      wordSel, wordCount, byteSel, curWord := 0, 0, 0, ZERO;
      txEn, txData := false, 0;
      memAddr, memData, rxIx, memIsWrite := ZERO, ZERO, 0, false;
      csrAddr, csrIx, readingCsr := (0, 0), 0, false;
      mmioAddr, timeout := ZERO, 0;
    }

    method Tick()
      requires Valid()
      modifies this`txEn, this`timeout
      ensures State() == Defaults(old(State()))
    {
      txEn := false;
      timeout := if timeout + 1 == TWO32 then 0 else timeout + 1;
    }

    method Control(b: Byte)
      requires Valid() && IsControl(b)
      modifies this
      ensures State() == OnControl(old(State()), b)
    {
      Tick();
      if b == CMD_HALT { halt := true; } else if b == CMD_RESUME { halt := false; } else { phase := StepAssert; }
    }

    method Query(b: Byte)
      requires Valid() && IsQuery(b)
      modifies this
      ensures State() == OnQuery(old(State()), b)
    {
      Tick();
      if b == CMD_READ_REG {
        timeout, phase := 0, WaitArg;
      } else if b == CMD_READ_PC {
        wordSel, wordCount, readingCsr, phase := 32, 1, false, SendLoad;
      } else if b == CMD_READ_ALL {
        wordSel, wordCount, readingCsr, phase := 0, 33, false, SendLoad;
      } else {
        csrIx, timeout, phase := 0, 0, WaitArgCsr;
      }
    }

    method Memory(b: Byte)
      requires Valid()
      modifies this
      ensures State() == OnMemory(old(State()), b)
    {
      Tick();
      if b == CMD_WRITE_MEM || b == CMD_READ_MEM {
        if halt { memIsWrite, rxIx, timeout, phase := b == CMD_WRITE_MEM, 0, 0, RecvMemAddr; }
      } else if b == CMD_READ_MMIO {
        if halt { rxIx, timeout, phase := 0, 0, RecvMmioAddr; }
      }
    }

    method Command(b: Byte)
      requires Valid()
      modifies this
      ensures State() == OnCommand(old(State()), b)
    {
      hide OnControl, OnQuery, OnMemory;
      if IsControl(b) { Control(b); } else if IsQuery(b) { Query(b); } else { Memory(b); }
    }

    method CsrArgument(b: Byte)
      requires Valid() && phase.WaitArgCsr?
      modifies this
      ensures State() == OnCsrByte(old(State()), b)
    {
      Tick();
      csrAddr, timeout := if csrIx == 0 then (b, csrAddr.1) else (csrAddr.0, b), 0;
      if csrIx == 1 { wordCount, readingCsr, phase := 1, true, SendLoad; } else { csrIx := 1; }
    }

    method MemAddrArgument(b: Byte)
      requires Valid() && phase.RecvMemAddr?
      modifies this
      ensures State() == OnMemAddrByte(old(State()), b)
    {
      Tick();
      memAddr, timeout := memAddr[rxIx := b], 0;
      if rxIx == 3 {
        rxIx, phase := 0, if memIsWrite then RecvMemData else MemReadWait;
      } else {
        rxIx := rxIx + 1;
      }
    }

    method MemDataArgument(b: Byte)
      requires Valid() && phase.RecvMemData?
      modifies this
      ensures State() == OnMemDataByte(old(State()), b)
    {
      Tick();
      memData, timeout := memData[rxIx := b], 0;
      if rxIx == 3 { rxIx, phase := 0, MemWritePulse; } else { rxIx := rxIx + 1; }
    }

    method MmioArgument(b: Byte)
      requires Valid() && phase.RecvMmioAddr?
      modifies this
      ensures State() == OnMmioByte(old(State()), b)
    {
      Tick();
      mmioAddr, timeout := mmioAddr[rxIx := b], 0;
      if rxIx == 3 { rxIx, phase := 0, MmioReadWait; } else { rxIx := rxIx + 1; }
    }

    /** A byte arrives while the FSM waits for an argument. */
    method Argument(b: Byte)
      requires Valid() && Waits(State())
      modifies this
      ensures State() == OnByte(old(State()), b)
    {
      hide OnCsrByte, OnMemAddrByte, OnMemDataByte, OnMmioByte;
      match phase {
        case WaitArg =>
          Tick();
          wordSel, wordCount, readingCsr, phase := b % 32, 1, false, SendLoad;
        case WaitArgCsr => CsrArgument(b);
        case RecvMemAddr => MemAddrArgument(b);
        case RecvMemData => MemDataArgument(b);
        case RecvMmioAddr => MmioArgument(b);
      }
    }

    /** A byte has gone out. */
    method NextByte()
      requires Valid()
      modifies this
      ensures State() == AfterByte(old(State()))
    {
      Tick();
      if byteSel == 3 {
        if wordCount == 1 {
          phase := CmdIdle;
        } else {
          wordSel := if wordSel == 63 then 0 else wordSel + 1;
          wordCount := if wordCount == 0 then 63 else wordCount - 1;
          phase := SendLoad;
        }
      } else {
        byteSel, phase := byteSel + 1, SendByteStart;
      }
    }

    /** The next word is fetched. */
    method LoadWord(i: Pins)
      requires Valid() && phase.SendLoad?
      modifies this
      ensures State() == SendStep(old(State()), i)
    {
      Tick();
      curWord := if readingCsr then i.csrData else if wordSel < 32 then i.regData else i.pc;
      byteSel, phase := 0, SendByteStart;
    }

    method Send(i: Pins)
      requires Valid() && Sends(State())
      modifies this
      ensures State() == SendStep(old(State()), i)
    {
      hide AfterByte;
      match phase {
        case SendLoad => LoadWord(i);
        case SendByteStart =>
          Tick();
          if !i.txBusy { txData, txEn, phase := curWord[byteSel], true, SendByteWaitBusy; }
        case SendByteWaitBusy =>
          Tick();
          if i.txBusy { phase := SendByteWaitDone; }
        case SendByteWaitDone =>
          if i.txBusy { Tick(); } else { NextByte(); }
      }
    }

    /** The word read from memory or a peripheral is taken. */
    method Latch(i: Pins)
      requires Valid() && (phase.MemReadLatch? || phase.MmioReadLatch?)
      modifies this
      ensures State() == PulseStep(old(State()), i)
    {
      var mmio := phase.MmioReadLatch?;
      Tick();
      curWord, wordCount, byteSel, phase := if mmio then i.mmioData else i.memData, 1, 0, SendByteStart;
      if mmio { readingCsr := false; }
    }

    method Pulse(i: Pins)
      requires Valid() && !phase.CmdIdle? && !Waits(State()) && !Sends(State())
      modifies this
      ensures State() == PulseStep(old(State()), i)
    {
      if phase.MemReadLatch? || phase.MmioReadLatch? {
        Latch(i);
      } else {
        Tick();
        match phase {
          case StepAssert => halt, phase := false, StepDeassert;
          case StepDeassert => halt, phase := true, CmdIdle;
          case MemWritePulse => phase := CmdIdle;
          case MemReadWait => phase := MemReadLatch;
          case MmioReadWait => phase := MmioReadLatch;
        }
      }
    }

    /** One clock edge. */
    method Clock(N: nat, i: Pins)
      requires Valid()
      modifies this
      ensures Valid() && State() == FsmStep(N, old(State()), i)
    {
      hide OnCommand, OnByte, SendStep, PulseStep;
      if phase.CmdIdle? {
        if i.rx.Some? { Command(i.rx.value); } else { Tick(); }
      } else if Waits(State()) {
        if i.rx.Some? {
          Argument(i.rx.value);
        } else {
          var expired := timeout >= N * TIMEOUT_BIT_PERIODS;
          Tick();
          if expired { phase := CmdIdle; }
        }
      } else if Sends(State()) {
        Send(i);
      } else {
        Pulse(i);
      }
    }
  }

  // ---- Safety ---------------------------------------------------------------------------

  /** The phases of a command that only runs halted. */
  predicate NeedsHalt(f: Fsm) {
    f.phase.RecvMemAddr? || f.phase.RecvMemData? || MemValid(f) || f.phase.RecvMmioAddr? || MmioValid(f)
  }

  function FsmRun(N: nat, f: Fsm, ins: seq<Pins>): (r: Fsm)
    requires FsmOk(f)
    ensures FsmOk(r)
  {
    if ins == [] then f else FsmStep(N, FsmRun(N, f, ins[..|ins| - 1]), ins[|ins| - 1])
  }

  lemma CommandNeedsHalt(f: Fsm, b: Byte)
    requires FsmOk(f) && f.phase.CmdIdle?
    ensures NeedsHalt(OnCommand(f, b)) ==> OnCommand(f, b).halt
  {
  }

  lemma MemBytesKeepHalt(f: Fsm, b: Byte)
    requires FsmOk(f) && (f.phase.RecvMemAddr? || f.phase.RecvMemData?)
    ensures OnByte(f, b).halt == f.halt && NeedsHalt(f)
  {
  }

  lemma BytesKeepHalt(f: Fsm, b: Byte)
    requires FsmOk(f) && Waits(f)
    ensures OnByte(f, b).halt == f.halt && (NeedsHalt(OnByte(f, b)) ==> NeedsHalt(f))
  {
    hide OnMemAddrByte, OnMemDataByte;
    if f.phase.RecvMemAddr? || f.phase.RecvMemData? { MemBytesKeepHalt(f, b); }
  }

  lemma SendingKeepsHalt(f: Fsm, i: Pins)
    requires FsmOk(f) && Sends(f)
    ensures SendStep(f, i).halt == f.halt && !NeedsHalt(SendStep(f, i))
  {
  }

  lemma PulseHalt(f: Fsm, i: Pins)
    requires FsmOk(f) && !f.phase.CmdIdle? && !Waits(f) && !Sends(f)
    ensures NeedsHalt(f) ==> PulseStep(f, i).halt == f.halt
    ensures NeedsHalt(PulseStep(f, i)) ==> NeedsHalt(f)
  {
  }

  lemma HaltHeld(N: nat, f: Fsm, i: Pins)
    requires FsmOk(f) && (NeedsHalt(f) ==> f.halt)
    ensures NeedsHalt(FsmStep(N, f, i)) ==> FsmStep(N, f, i).halt
    ensures MemValid(f) || MmioValid(f) ==> FsmStep(N, f, i).halt
  {
    hide OnCommand, OnByte, SendStep, PulseStep;
    if f.phase.CmdIdle? {
      if i.rx.Some? { CommandNeedsHalt(f, i.rx.value); }
    } else if Waits(f) {
      if i.rx.Some? { BytesKeepHalt(f, i.rx.value); }
    } else if Sends(f) {
      SendingKeepsHalt(f, i);
    } else {
      PulseHalt(f, i);
    }
  }

  lemma {:induction false} SteeringFrom(N: nat, f0: Fsm, ins: seq<Pins>, i: Pins)
    requires FsmOk(f0) && (NeedsHalt(f0) ==> f0.halt)
    ensures var f := FsmRun(N, f0, ins);
      && (NeedsHalt(f) ==> f.halt)
      && (MemWe(f) || MemValid(f) || MmioValid(f) ==> f.halt && FsmStep(N, f, i).halt)
  {
    hide FsmStep;
    if ins != [] {
      SteeringFrom(N, f0, ins[..|ins| - 1], ins[|ins| - 1]);
      HaltHeld(N, FsmRun(N, f0, ins[..|ins| - 1]), ins[|ins| - 1]);
    }
    HaltHeld(N, FsmRun(N, f0, ins), i);
  }

  /** In every reachable state debug steering of memory or peripherals, and the
      write strobe, occur only with halt high, and halt stays high for the clock
      after them. */
  lemma SteeringOnlyHalted(N: nat, ins: seq<Pins>, i: Pins)
    ensures var f := FsmRun(N, RESET, ins);
      && (NeedsHalt(f) ==> f.halt)
      && (MemWe(f) || MemValid(f) || MmioValid(f) ==> f.halt && FsmStep(N, f, i).halt)
  {
    hide FsmStep, FsmRun;
    SteeringFrom(N, RESET, ins, i);
  }

  /** A STEP taken while halted drops halt for exactly one clock, whatever the
      pins do meanwhile. */
  lemma StepDropsHaltOnce(N: nat, f: Fsm, i0: Pins, i1: Pins, i2: Pins)
    requires FsmOk(f) && f.phase.CmdIdle? && f.halt && i0.rx == Some(0x03)
    ensures var f1 := FsmStep(N, f, i0);
      var f2 := FsmStep(N, f1, i1);
      var f3 := FsmStep(N, f2, i2);
      f1.halt && !f2.halt && f3.halt && f3.phase.CmdIdle?
  {
  }

  /** The last address byte of a READ_MEM steers the memory port to that address for two
      clocks, and the word on the port in the second is the one that is sent. */
  lemma ReadHoldsTwice(N: nat, f: Fsm, i0: Pins, i1: Pins, i2: Pins)
    requires FsmOk(f) && f.phase.RecvMemAddr? && f.rxIx == 3 && !f.memIsWrite && i0.rx.Some?
    ensures var f1 := FsmStep(N, f, i0);
      var f2 := FsmStep(N, f1, i1);
      var f3 := FsmStep(N, f2, i2);
      && MemValid(f1) && MemValid(f2) && !MemValid(f3) && !MemWe(f1) && !MemWe(f2)
      && f1.memAddr == f2.memAddr == f.memAddr[..3] + [i0.rx.value]
      && f3.curWord == i2.memData && f3.wordCount == 1
  {
  }

  /** The same for a READ_MMIO and the peripheral port. */
  lemma PeripheralHoldsTwice(N: nat, f: Fsm, i0: Pins, i1: Pins, i2: Pins)
    requires FsmOk(f) && f.phase.RecvMmioAddr? && f.rxIx == 3 && i0.rx.Some?
    ensures var f1 := FsmStep(N, f, i0);
      var f2 := FsmStep(N, f1, i1);
      var f3 := FsmStep(N, f2, i2);
      && MmioValid(f1) && MmioValid(f2) && !MmioValid(f3) && !MemValid(f1) && !MemValid(f2)
      && f1.mmioAddr == f2.mmioAddr == f.mmioAddr[..3] + [i0.rx.value]
      && f3.curWord == i2.mmioData && f3.wordCount == 1
  {
  }

  lemma PulseNeverWrites(f: Fsm, i: Pins)
    requires FsmOk(f) && !f.phase.CmdIdle? && !Waits(f) && !Sends(f)
    ensures !MemWe(PulseStep(f, i)) && (MemWe(f) ==> PulseStep(f, i).phase.CmdIdle?)
  {
  }

  lemma ByteMayWrite(f: Fsm, b: Byte)
    requires FsmOk(f) && Waits(f)
    ensures MemWe(OnByte(f, b)) <==> f.phase.RecvMemData? && f.rxIx == 3
  {
  }

  lemma OthersNeverWrite(f: Fsm, b: Byte, i: Pins)
    requires FsmOk(f)
    ensures !MemWe(OnCommand(f, b)) || f.phase.MemWritePulse?
    ensures Sends(f) ==> !MemWe(SendStep(f, i))
  {
  }

  /** The write strobe rises exactly when the last data byte of a WRITE_MEM arrives,
      and lasts one clock. */
  lemma WritePulseOnce(N: nat, f: Fsm, i: Pins)
    requires FsmOk(f)
    ensures MemWe(FsmStep(N, f, i)) <==> f.phase.RecvMemData? && f.rxIx == 3 && i.rx.Some?
    ensures MemWe(f) ==> FsmStep(N, f, i).phase.CmdIdle?
  {
    hide OnCommand, OnByte, SendStep, PulseStep;
    if f.phase.CmdIdle? {
      if i.rx.Some? { OthersNeverWrite(f, i.rx.value, i); }
    } else if Waits(f) {
      if i.rx.Some? { ByteMayWrite(f, i.rx.value); }
    } else if Sends(f) {
      OthersNeverWrite(f, 0, i);
    } else {
      PulseNeverWrites(f, i);
    }
  }
}
