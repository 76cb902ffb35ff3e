/** Each debug command, from its first byte to the last byte of its reply: what it
    does to halt and memory, and what it sends back. */
module DebugCommands {
  import opened Options
  import opened Uart
  import opened DebugUart
  import opened DebugUnit

  datatype Command =
    | Halt | Resume | Step
    | ReadReg(idx: Byte) | ReadPc | ReadAll
    | WriteMem(addr: Word, data: Word) | ReadMem(addr: Word)
    | ReadCsr(csr: (Byte, Byte)) | ReadMmio(addr: Word)

  function Encode(c: Command): (s: seq<Byte>)
    ensures |s| >= 1
  {
    match c
    case Halt => [0x01]
    case Resume => [0x02]
    case Step => [0x03]
    case ReadReg(i) => [0x04, i]
    case ReadPc => [0x05]
    case ReadAll => [0x06]
    case WriteMem(a, d) => [0x07] + a + d
    case ReadMem(a) => [0x08] + a
    case ReadCsr(a) => [0x09, a.0, a.1]
    case ReadMmio(a) => [0x0A] + a
  }

  predicate OnlyHalted(c: Command) { c.WriteMem? || c.ReadMem? || c.ReadMmio? }

  // ---- Meaning --------------------------------------------------------------------------

  /** The register file and pc in READ_ALL order. */
  function Dump(v: View): seq<Word> { v.regs + [v.pc] }

  function Flatten(ws: seq<Word>): (s: seq<Byte>)
    ensures |s| == 4 * |ws|
  {
    if ws == [] then [] else Flatten(ws[..|ws| - 1]) + ws[|ws| - 1]
  }

  predicate ViewOk(v: View) { |v.regs| == 32 }

  function HaltAfter(halt: bool, c: Command): bool {
    match c
    case Halt => true
    case Resume => false
    case Step => true
    case _ => halt
  }

  function MemAfter(mem: seq<Word>, c: Command): (r: seq<Word>)
    requires |mem| == RAM_WORDS
    ensures |r| == RAM_WORDS
  {
    if c.WriteMem? then mem[WordIx(c.addr) := c.data] else mem
  }

  function Reply(v: View, mem: seq<Word>, c: Command): seq<Byte>
    requires |mem| == RAM_WORDS && ViewOk(v)
  {
    match c
    case ReadReg(i) => v.regs[i % 32]
    case ReadPc => v.pc
    case ReadAll => Flatten(Dump(v))
    case ReadMem(a) => mem[WordIx(a)]
    case ReadCsr(a) => v.csr(a)
    case ReadMmio(a) => v.mmio(a)
    case _ => []
  }

  /** Halt, memory, and what has been sent. */
  datatype World = World(halt: bool, mem: seq<Word>, said: seq<Byte>)

  predicate WorldOk(w: World) { |w.mem| == RAM_WORDS }

  function Effect(v: View, w: World, c: Command): (r: World)
    requires WorldOk(w) && ViewOk(v)
    ensures WorldOk(r)
  {
    World(HaltAfter(w.halt, c), MemAfter(w.mem, c), w.said + Reply(v, w.mem, c))
  }

  function WorldOf(u: Unit): World { World(u.f.halt, u.mem, u.sent) }

  /** Clocks from the last argument byte until the unit is idle again. */
  function Work(N: nat, c: Command): nat {
    match c
    case Halt => 0
    case Resume => 0
    case Step => 2
    case WriteMem(_, _) => 1
    case ReadAll => 33 * WordCost(N)
    case ReadMem(_) => 2 + 4 * ByteCost(N)
    case ReadMmio(_) => 2 + 4 * ByteCost(N)
    case _ => WordCost(N)
  }

  // ---- Time -----------------------------------------------------------------------------

  lemma {:induction false} QuietAdd(N: nat, v: View, u: Unit, a: nat, b: nat)
    requires N >= 1 && Sized(u)
    ensures Quiet(N, v, Quiet(N, v, u, a), b) == Quiet(N, v, u, a + b)
  {
    hide UnitStep, Sized;
    if b > 0 { QuietAdd(N, v, u, a, b - 1); }
  }

  lemma QuietOne(N: nat, v: View, u: Unit)
    requires N >= 1 && Sized(u)
    ensures Quiet(N, v, u, 1) == UnitStep(N, v, u, None)
  {
    assert Quiet(N, v, u, 0) == u;
  }

  lemma QuietNext(N: nat, v: View, u: Unit, n: nat)
    requires N >= 1 && Sized(u)
    ensures Quiet(N, v, u, n + 1) == UnitStep(N, v, Quiet(N, v, u, n), None)
  {
    hide UnitStep, Sized;
  }

  /** A byte reported after gap quiet clocks. */
  function Deliver(N: nat, v: View, u: Unit, gap: nat, b: Byte): (r: Unit)
    requires N >= 1 && Sized(u)
    ensures Sized(r)
  {
    UnitStep(N, v, Quiet(N, v, u, gap), Some(b))
  }

  function Feed(N: nat, v: View, u: Unit, bytes: seq<Byte>, gaps: seq<nat>): (r: Unit)
    requires N >= 1 && Sized(u) && |gaps| == |bytes|
    ensures Sized(r)
    decreases |bytes|
  {
    var n := |bytes|;
    if n == 0 then u else Deliver(N, v, Feed(N, v, u, bytes[..n - 1], gaps[..n - 1]), gaps[n - 1], bytes[n - 1])
  }

  lemma {:induction false} FeedSplit(N: nat, v: View, u: Unit, xs: seq<Byte>, ys: seq<Byte>, gaps: seq<nat>)
    requires N >= 1 && Sized(u) && |gaps| == |xs + ys|
    ensures Feed(N, v, u, xs + ys, gaps) == Feed(N, v, Feed(N, v, u, xs, gaps[..|xs|]), ys, gaps[|xs|..])
    decreases |ys|
  {
    hide Deliver, Sized;
    if ys == [] {
      assert xs + ys == xs && gaps[..|xs|] == gaps;
    } else {
      var n := |xs + ys|;
      FeedSplit(N, v, u, xs, ys[..|ys| - 1], gaps[..n - 1]);
      assert (xs + ys)[..n - 1] == xs + ys[..|ys| - 1];
      assert gaps[..n - 1][..|xs|] == gaps[..|xs|];
      assert gaps[|xs|..][..|ys| - 1] == gaps[..n - 1][|xs|..];
    }
  }

  lemma FeedOne(N: nat, v: View, u: Unit, bytes: seq<Byte>, gaps: seq<nat>)
    requires N >= 1 && Sized(u) && |gaps| == |bytes| == 1
    ensures Feed(N, v, u, bytes, gaps) == Deliver(N, v, u, gaps[0], bytes[0])
  {
    assert Feed(N, v, u, bytes[..0], gaps[..0]) == u;
  }

  lemma FeedLast(N: nat, v: View, u: Unit, bytes: seq<Byte>, gaps: seq<nat>)
    requires N >= 1 && Sized(u) && |gaps| == |bytes| >= 1
    ensures var n := |bytes| - 1;
      && bytes == bytes[..n] + [bytes[n]]
      && Feed(N, v, u, bytes, gaps) == Deliver(N, v, Feed(N, v, u, bytes[..n], gaps[..n]), gaps[n], bytes[n])
  {
    hide Deliver, Sized;
  }

  lemma FeedNone(N: nat, v: View, u: Unit)
    requires N >= 1 && Sized(u)
    ensures Feed(N, v, u, [], []) == u
  {
  }

  // ---- Waiting --------------------------------------------------------------------------

  /** Same memory, nothing more sent. */
  predicate Still(u: Unit, r: Unit) { r.mem == u.mem && r.sent == u.sent }

  lemma {:induction false} WaitGap(N: nat, v: View, u: Unit, n: nat)
    requires Divisor(N) && UnitOk(N, u) && Waits(u.f) && u.f.timeout + n <= N * TIMEOUT_BIT_PERIODS
    ensures var r := Quiet(N, v, u, n);
      UnitOk(N, r) && r.f == u.f.(timeout := u.f.timeout + n) && Still(u, r)
  {
    hide UnitStep, Joined, FsmShape, Sized;
    if n > 0 {
      WaitGap(N, v, u, n - 1);
      QuietWait(N, v, Quiet(N, v, u, n - 1));
    }
  }

  lemma QuietWait(N: nat, v: View, u: Unit)
    requires Divisor(N) && UnitOk(N, u) && Waits(u.f) && u.f.timeout < N * TIMEOUT_BIT_PERIODS
    ensures var r := UnitStep(N, v, u, None); UnitOk(N, r) && r.f == u.f.(timeout := u.f.timeout + 1) && Still(u, r)
  {
    hide OnByte, OnCommand, SendStep, PulseStep, FsmShape, TxStep;
    UnitKept(N, v, u, None);
  }

  predicate Ready(N: nat, u: Unit) { UnitOk(N, u) && u.f.phase.CmdIdle? }

  lemma {:induction false} IdleGap(N: nat, v: View, u: Unit, n: nat)
    requires Divisor(N) && Ready(N, u)
    ensures var r := Quiet(N, v, u, n);
      Ready(N, r) && r.f == u.f.(timeout := r.f.timeout) && Still(u, r)
  {
    hide UnitStep, Joined, FsmShape, Sized;
    if n > 0 {
      IdleGap(N, v, u, n - 1);
      QuietIdle(N, v, Quiet(N, v, u, n - 1));
    }
  }

  lemma QuietIdle(N: nat, v: View, u: Unit)
    requires Divisor(N) && Ready(N, u)
    ensures var r := UnitStep(N, v, u, None); Ready(N, r) && r.f == u.f.(timeout := r.f.timeout) && Still(u, r)
  {
    hide OnByte, OnCommand, SendStep, PulseStep, FsmShape, TxStep;
    UnitKept(N, v, u, None);
  }

  lemma Opcode(N: nat, v: View, u: Unit, gap: nat, b: Byte)
    requires Divisor(N) && Ready(N, u)
    ensures var r, t := Deliver(N, v, u, gap, b), Quiet(N, v, u, gap).f.timeout;
      t < TWO32 && UnitOk(N, r) && r.f == OnCommand(u.f.(timeout := t), b) && Still(u, r)
  {
    hide OnByte, OnCommand, SendStep, PulseStep;
    IdleGap(N, v, u, gap);
    UnitKept(N, v, Quiet(N, v, u, gap), Some(b));
  }

  lemma Argument(N: nat, v: View, u: Unit, gap: nat, b: Byte)
    requires Divisor(N) && UnitOk(N, u) && Waits(u.f) && u.f.timeout == 0 && gap <= N * TIMEOUT_BIT_PERIODS
    ensures gap < TWO32
    ensures var r := Deliver(N, v, u, gap, b);
      UnitOk(N, r) && r.f == OnByte(u.f.(timeout := gap), b) && Still(u, r)
  {
    hide OnByte, OnCommand, SendStep, PulseStep;
    WaitGap(N, v, u, gap);
    UnitKept(N, v, Quiet(N, v, u, gap), Some(b));
  }

  ghost predicate InTime(N: nat, gaps: seq<nat>) { forall k :: 0 <= k < |gaps| ==> gaps[k] <= N * TIMEOUT_BIT_PERIODS }

  /** After these bytes of the argument. */
  predicate AddressSoFar(N: nat, u: Unit, r: Unit, bytes: seq<Byte>) {
    var n := |bytes|;
    && n <= 4 && UnitOk(N, r) && Still(u, r) && r.f.timeout == 0
    && r.f.halt == u.f.halt && r.f.memIsWrite == u.f.memIsWrite
    && r.f.memAddr[..n] == bytes
    && r.f.rxIx == n % 4
    && r.f.phase == if n < 4 then RecvMemAddr else if u.f.memIsWrite then RecvMemData else MemReadWait
  }

  lemma AddressStep(N: nat, v: View, u: Unit, w: Unit, bytes: seq<Byte>, gap: nat, b: Byte)
    requires Divisor(N) && AddressSoFar(N, u, w, bytes) && |bytes| < 4 && gap <= N * TIMEOUT_BIT_PERIODS
    ensures AddressSoFar(N, u, Deliver(N, v, w, gap, b), bytes + [b])
  {
    hide Deliver, Joined, FsmShape, OnByte, TxOk;
    Argument(N, v, w, gap, b);
    AddressByte(w.f, gap, b);
  }

  /** The four bytes of an address, least significant first. */
  lemma {:induction false} AddressArrives(N: nat, v: View, u: Unit, bytes: seq<Byte>, gaps: seq<nat>)
    requires Divisor(N) && UnitOk(N, u) && u.f.phase.RecvMemAddr? && u.f.rxIx == 0 && u.f.timeout == 0
    requires |gaps| == |bytes| <= 4 && InTime(N, gaps)
    ensures AddressSoFar(N, u, Feed(N, v, u, bytes, gaps), bytes)
    decreases |bytes|
  {
    hide Deliver, Feed, AddressSoFar, Sized, FsmShape, Joined;
    var n := |bytes| - 1;
    if n >= 0 {
      AddressArrives(N, v, u, bytes[..n], gaps[..n]);
      FeedLast(N, v, u, bytes, gaps);
      AddressStep(N, v, u, Feed(N, v, u, bytes[..n], gaps[..n]), bytes[..n], gaps[n], bytes[n]);
    } else {
      FeedNone(N, v, u);
      assert bytes == [] && gaps == [];
      assert AddressSoFar(N, u, u, []) by { AddressNone(N, u); }
    }
  }

  lemma AddressNone(N: nat, u: Unit)
    requires UnitOk(N, u) && u.f.phase.RecvMemAddr? && u.f.rxIx == 0 && u.f.timeout == 0
    ensures AddressSoFar(N, u, u, [])
  {
  }

  lemma AddressByte(f: Fsm, t: nat, b: Byte)
    requires FsmOk(f) && t < TWO32 && f.phase.RecvMemAddr?
    ensures var r, n := OnByte(f.(timeout := t), b), f.rxIx + 1;
      && r.timeout == 0 && r.halt == f.halt && r.memIsWrite == f.memIsWrite
      && r.memAddr[..n] == f.memAddr[..n - 1] + [b]
      && r.rxIx == n % 4
      && r.phase == if n < 4 then RecvMemAddr else if f.memIsWrite then RecvMemData else MemReadWait
  {
  }

  /** After these bytes of the argument. */
  predicate DataSoFar(N: nat, u: Unit, r: Unit, bytes: seq<Byte>) {
    var n := |bytes|;
    && n <= 4 && UnitOk(N, r) && Still(u, r) && r.f.timeout == 0
    && r.f.halt == u.f.halt && r.f.memAddr == u.f.memAddr
    && r.f.memData[..n] == bytes
    && r.f.rxIx == n % 4
    && r.f.phase == if n < 4 then RecvMemData else MemWritePulse
  }

  lemma DataStep(N: nat, v: View, u: Unit, w: Unit, bytes: seq<Byte>, gap: nat, b: Byte)
    requires Divisor(N) && DataSoFar(N, u, w, bytes) && |bytes| < 4 && gap <= N * TIMEOUT_BIT_PERIODS
    ensures DataSoFar(N, u, Deliver(N, v, w, gap, b), bytes + [b])
  {
    hide Deliver, Joined, FsmShape, OnByte, TxOk;
    Argument(N, v, w, gap, b);
    DataByte(w.f, gap, b);
  }

  lemma {:induction false} DataArrives(N: nat, v: View, u: Unit, bytes: seq<Byte>, gaps: seq<nat>)
    requires Divisor(N) && UnitOk(N, u) && u.f.phase.RecvMemData? && u.f.rxIx == 0 && u.f.timeout == 0
    requires |gaps| == |bytes| <= 4 && InTime(N, gaps)
    ensures DataSoFar(N, u, Feed(N, v, u, bytes, gaps), bytes)
    decreases |bytes|
  {
    hide Deliver, Feed, DataSoFar, Sized, FsmShape, Joined;
    var n := |bytes| - 1;
    if n >= 0 {
      DataArrives(N, v, u, bytes[..n], gaps[..n]);
      FeedLast(N, v, u, bytes, gaps);
      DataStep(N, v, u, Feed(N, v, u, bytes[..n], gaps[..n]), bytes[..n], gaps[n], bytes[n]);
    } else {
      FeedNone(N, v, u);
      assert bytes == [] && gaps == [];
      assert DataSoFar(N, u, u, []) by { DataNone(N, u); }
    }
  }

  lemma DataNone(N: nat, u: Unit)
    requires UnitOk(N, u) && u.f.phase.RecvMemData? && u.f.rxIx == 0 && u.f.timeout == 0
    ensures DataSoFar(N, u, u, [])
  {
  }

  lemma DataByte(f: Fsm, t: nat, b: Byte)
    requires FsmOk(f) && t < TWO32 && f.phase.RecvMemData?
    ensures var r, n := OnByte(f.(timeout := t), b), f.rxIx + 1;
      && r.timeout == 0 && r.halt == f.halt && r.memAddr == f.memAddr
      && r.memData[..n] == f.memData[..n - 1] + [b]
      && r.rxIx == n % 4
      && r.phase == if n < 4 then RecvMemData else MemWritePulse
  {
  }

  /** After these bytes of the argument. */
  predicate MmioSoFar(N: nat, u: Unit, r: Unit, bytes: seq<Byte>) {
    var n := |bytes|;
    && n <= 4 && UnitOk(N, r) && Still(u, r) && r.f.timeout == 0
    && r.f.halt == u.f.halt
    && r.f.mmioAddr[..n] == bytes
    && r.f.rxIx == n % 4
    && r.f.phase == if n < 4 then RecvMmioAddr else MmioReadWait
  }

  lemma MmioStep(N: nat, v: View, u: Unit, w: Unit, bytes: seq<Byte>, gap: nat, b: Byte)
    requires Divisor(N) && MmioSoFar(N, u, w, bytes) && |bytes| < 4 && gap <= N * TIMEOUT_BIT_PERIODS
    ensures MmioSoFar(N, u, Deliver(N, v, w, gap, b), bytes + [b])
  {
    hide Deliver, Joined, FsmShape, OnByte, TxOk;
    Argument(N, v, w, gap, b);
    MmioByte(w.f, gap, b);
  }

  lemma {:induction false} MmioArrives(N: nat, v: View, u: Unit, bytes: seq<Byte>, gaps: seq<nat>)
    requires Divisor(N) && UnitOk(N, u) && u.f.phase.RecvMmioAddr? && u.f.rxIx == 0 && u.f.timeout == 0
    requires |gaps| == |bytes| <= 4 && InTime(N, gaps)
    ensures MmioSoFar(N, u, Feed(N, v, u, bytes, gaps), bytes)
    decreases |bytes|
  {
    hide Deliver, Feed, MmioSoFar, Sized, FsmShape, Joined;
    var n := |bytes| - 1;
    if n >= 0 {
      MmioArrives(N, v, u, bytes[..n], gaps[..n]);
      FeedLast(N, v, u, bytes, gaps);
      MmioStep(N, v, u, Feed(N, v, u, bytes[..n], gaps[..n]), bytes[..n], gaps[n], bytes[n]);
    } else {
      FeedNone(N, v, u);
      assert bytes == [] && gaps == [];
      assert MmioSoFar(N, u, u, []) by { MmioNone(N, u); }
    }
  }

  lemma MmioNone(N: nat, u: Unit)
    requires UnitOk(N, u) && u.f.phase.RecvMmioAddr? && u.f.rxIx == 0 && u.f.timeout == 0
    ensures MmioSoFar(N, u, u, [])
  {
  }

  lemma MmioByte(f: Fsm, t: nat, b: Byte)
    requires FsmOk(f) && t < TWO32 && f.phase.RecvMmioAddr?
    ensures var r, n := OnByte(f.(timeout := t), b), f.rxIx + 1;
      && r.timeout == 0 && r.halt == f.halt
      && r.mmioAddr[..n] == f.mmioAddr[..n - 1] + [b]
      && r.rxIx == n % 4
      && r.phase == if n < 4 then RecvMmioAddr else MmioReadWait
  {
  }

  lemma {:induction false} CsrArrives(N: nat, v: View, u: Unit, b0: Byte, b1: Byte, gaps: seq<nat>)
    requires Divisor(N) && UnitOk(N, u) && u.f.phase.WaitArgCsr? && u.f.csrIx == 0 && u.f.timeout == 0
    requires |gaps| == 2 && InTime(N, gaps)
    ensures var r := Feed(N, v, u, [b0, b1], gaps);
      && UnitOk(N, r) && Still(u, r) && r.f.halt == u.f.halt
      && r.f.csrAddr == (b0, b1) && r.f.wordCount == 1 && r.f.readingCsr && r.f.phase.SendLoad?
  {
    hide Deliver, Joined, FsmShape;
    Argument(N, v, u, gaps[0], b0);
    var w := Deliver(N, v, u, gaps[0], b0);
    FeedOne(N, v, u, [b0], gaps[..1]);
    assert [b0, b1][..1] == [b0];
    Argument(N, v, w, gaps[1], b1);
  }

  // ---- Sending --------------------------------------------------------------------------

  /** The registers the word sender works from. */
  predicate Agree(f: Fsm, g: Fsm) {
    && g.halt == f.halt && g.wordSel == f.wordSel && g.wordCount == f.wordCount && g.byteSel == f.byteSel
    && g.curWord == f.curWord && g.readingCsr == f.readingCsr
  }

  lemma HandshakeStep(N: nat, v: View, u: Unit)
    requires Divisor(N) && UnitOk(N, u) && (u.f.phase.SendByteStart? || InHandshake(u.f))
    requires !(u.f.phase.SendByteWaitDone? && !u.tx.busy)
    ensures var r := UnitStep(N, v, u, None);
      && UnitOk(N, r) && Agree(u.f, r.f) && r.mem == u.mem
      && (!u.f.txEn ==> r.tx == TxStep(N, u.tx, None))
      && r.sent == (if u.f.txEn then u.sent + [u.f.txData] else u.sent)
      && (u.f.phase.SendByteStart? ==> r.f.txEn && r.f.txData == u.f.curWord[u.f.byteSel])
      && (InHandshake(u.f) ==> !r.f.txEn)
      && r.f.phase == (if u.f.phase.SendByteStart? || !u.tx.busy then SendByteWaitBusy else SendByteWaitDone)
  {
    hide OnByte, OnCommand, PulseStep, FsmShape, AfterByte, TxStep;
    UnitKept(N, v, u, None);
  }

  lemma StartsByte(N: nat, v: View, u: Unit)
    requires Divisor(N) && UnitOk(N, u) && u.f.phase.SendByteStart?
    ensures var r := Quiet(N, v, u, 3);
      && UnitOk(N, r) && Agree(u.f, r.f) && r.f.phase.SendByteWaitDone?
      && r.mem == u.mem && r.sent == u.sent + [u.f.curWord[u.f.byteSel]]
      && TxLeft(N, r.tx) == PACKET_SIZE * N
  {
    hide UnitStep, FsmShape, TxStep;
    assert Quiet(N, v, u, 0) == u;
    var u1, u2 := Quiet(N, v, u, 1), Quiet(N, v, u, 2);
    HandshakeStep(N, v, u);
    HandshakeStep(N, v, u1);
    HandshakeStep(N, v, u2);
    TxCounts(N, u2.tx);
    assert Quiet(N, v, u, 3) == UnitStep(N, v, u2, None);
  }

  lemma {:induction false} WaitsOut(N: nat, v: View, u: Unit, n: nat)
    requires Divisor(N) && UnitOk(N, u) && u.f.phase.SendByteWaitDone? && n <= TxLeft(N, u.tx)
    ensures var r := Quiet(N, v, u, n);
      && UnitOk(N, r) && Agree(u.f, r.f) && r.f.phase.SendByteWaitDone? && Still(u, r)
      && TxLeft(N, r.tx) == TxLeft(N, u.tx) - n
  {
    hide UnitStep, FsmShape, TxStep;
    if n > 0 {
      WaitsOut(N, v, u, n - 1);
      var w := Quiet(N, v, u, n - 1);
      TxCounts(N, w.tx);
      HandshakeStep(N, v, w);
    }
  }

  lemma FinishesByte(N: nat, v: View, u: Unit)
    requires Divisor(N) && UnitOk(N, u) && u.f.phase.SendByteWaitDone? && !u.tx.busy
    ensures var r := UnitStep(N, v, u, None);
      UnitOk(N, r) && r.f == AfterByte(u.f) && Still(u, r)
  {
    hide OnByte, OnCommand, PulseStep, FsmShape, AfterByte, TxStep;
    UnitKept(N, v, u, None);
  }

  /** Where the sender goes after the last byte of a word. */
  predicate WordSent(f: Fsm, g: Fsm) {
    && (f.wordCount == 1 ==> g.phase.CmdIdle?)
    && (f.wordCount > 1 ==> g.phase.SendLoad? && g.wordCount == f.wordCount - 1)
    && (f.wordSel < 63 && g.phase.SendLoad? ==> g.wordSel == f.wordSel + 1)
  }

  /** One byte takes exactly ByteCost clocks. */
  lemma SendsByte(N: nat, v: View, u: Unit)
    requires Divisor(N) && UnitOk(N, u) && u.f.phase.SendByteStart?
    ensures var r, f := Quiet(N, v, u, ByteCost(N)), u.f;
      && UnitOk(N, r) && r.mem == u.mem && r.sent == u.sent + [f.curWord[f.byteSel]]
      && r.f.halt == f.halt && r.f.curWord == f.curWord && r.f.readingCsr == f.readingCsr
      && (f.byteSel < 3 ==>
            r.f.phase.SendByteStart? && r.f.byteSel == f.byteSel + 1 && r.f.wordCount == f.wordCount
            && r.f.wordSel == f.wordSel)
      && (f.byteSel == 3 ==> WordSent(f, r.f))
  {
    hide UnitStep, Joined, FsmShape, TxLeft, Quiet;
    var n := PACKET_SIZE * N;
    var u1 := Quiet(N, v, u, 3);
    StartsByte(N, v, u);
    WaitsOut(N, v, u1, n);
    var u2 := Quiet(N, v, u1, n);
    QuietAdd(N, v, u, 3, n);
    SilentAtZero(N, u2);
    FinishesByte(N, v, u2);
    QuietNext(N, v, u, 3 + n);
  }

  lemma SilentAtZero(N: nat, u: Unit)
    requires Divisor(N) && UnitOk(N, u) && TxLeft(N, u.tx) == 0
    ensures !u.tx.busy
  {
    if u.tx.phase.Transmit? { MulUp(0, 10 - u.tx.index, N); }
  }

  lemma {:induction false} SendsBytes(N: nat, v: View, u: Unit, k: nat)
    requires Divisor(N) && UnitOk(N, u) && u.f.phase.SendByteStart? && u.f.byteSel == 0 && k < 4
    ensures var r := Quiet(N, v, u, k * ByteCost(N));
      && UnitOk(N, r) && r.mem == u.mem && r.sent == u.sent + u.f.curWord[..k]
      && r.f.halt == u.f.halt && r.f.curWord == u.f.curWord && r.f.readingCsr == u.f.readingCsr
      && r.f.phase.SendByteStart? && r.f.byteSel == k && r.f.wordCount == u.f.wordCount && r.f.wordSel == u.f.wordSel
  {
    hide UnitStep, Joined, FsmShape, ByteCost;
    if k > 0 {
      SendsBytes(N, v, u, k - 1);
      var w := Quiet(N, v, u, (k - 1) * ByteCost(N));
      SendsByte(N, v, w);
      QuietAdd(N, v, u, (k - 1) * ByteCost(N), ByteCost(N));
      DropOne(k, ByteCost(N));
      assert u.f.curWord[..k] == u.f.curWord[..k - 1] + [u.f.curWord[k - 1]];
    }
  }

  lemma SendsWord(N: nat, v: View, u: Unit)
    requires Divisor(N) && UnitOk(N, u) && u.f.phase.SendByteStart? && u.f.byteSel == 0
    ensures var r := Quiet(N, v, u, 4 * ByteCost(N));
      && UnitOk(N, r) && r.mem == u.mem && r.sent == u.sent + u.f.curWord
      && r.f.halt == u.f.halt && r.f.readingCsr == u.f.readingCsr
      && WordSent(u.f, r.f)
  {
    hide UnitStep, Joined, FsmShape, ByteCost;
    SendsBytes(N, v, u, 3);
    var w := Quiet(N, v, u, 3 * ByteCost(N));
    SendsByte(N, v, w);
    QuietAdd(N, v, u, 3 * ByteCost(N), ByteCost(N));
    assert u.f.curWord == u.f.curWord[..3] + [u.f.curWord[3]];
  }

  /** The word SEND_LOAD takes. */
  function Loaded(v: View, f: Fsm): Word
    requires ViewOk(v)
  {
    if f.readingCsr then v.csr(f.csrAddr) else if f.wordSel < 32 then v.regs[f.wordSel] else v.pc
  }

  lemma LoadStep(N: nat, v: View, u: Unit)
    requires Divisor(N) && UnitOk(N, u) && u.f.phase.SendLoad? && ViewOk(v)
    ensures var r := UnitStep(N, v, u, None);
      && UnitOk(N, r) && Still(u, r) && r.f.phase.SendByteStart? && r.f.byteSel == 0
      && r.f.curWord == Loaded(v, u.f)
      && r.f.halt == u.f.halt && r.f.readingCsr == u.f.readingCsr
      && r.f.wordSel == u.f.wordSel && r.f.wordCount == u.f.wordCount
  {
    hide OnByte, OnCommand, PulseStep, FsmShape, AfterByte, TxStep;
    UnitKept(N, v, u, None);
  }

  lemma LoadsWord(N: nat, v: View, u: Unit)
    requires Divisor(N) && UnitOk(N, u) && u.f.phase.SendLoad? && ViewOk(v)
    ensures var r := Quiet(N, v, u, WordCost(N));
      && UnitOk(N, r) && r.mem == u.mem && r.sent == u.sent + Loaded(v, u.f)
      && r.f.halt == u.f.halt && r.f.readingCsr == u.f.readingCsr
      && WordSent(u.f, r.f)
  {
    hide UnitStep, Joined, FsmShape, ByteCost, Loaded;
    QuietOne(N, v, u);
    LoadStep(N, v, u);
    SendsWord(N, v, Quiet(N, v, u, 1));
    QuietAdd(N, v, u, 1, 4 * ByteCost(N));
  }

  lemma FlattenMore(ws: seq<Word>, w: Word)
    ensures Flatten(ws + [w]) == Flatten(ws) + w
  {
    assert (ws + [w])[..|ws|] == ws;
  }

  /** READ_ALL's loop after k of the 33 words. */
  lemma {:induction false} SendsWords(N: nat, v: View, u: Unit, k: nat)
    requires Divisor(N) && UnitOk(N, u) && u.f.phase.SendLoad? && ViewOk(v)
    requires u.f.wordSel == 0 && u.f.wordCount == 33 && !u.f.readingCsr && k <= 33
    ensures var r := Quiet(N, v, u, k * WordCost(N));
      && UnitOk(N, r) && r.mem == u.mem && r.sent == u.sent + Flatten(Dump(v)[..k]) && r.f.halt == u.f.halt
      && (k == 33 ==> r.f.phase.CmdIdle?)
      && (k < 33 ==> r.f.phase.SendLoad? && r.f.wordSel == k && r.f.wordCount == 33 - k && !r.f.readingCsr)
  {
    hide UnitStep, Joined, FsmShape, WordCost, Flatten;
    if k > 0 {
      SendsWords(N, v, u, k - 1);
      var w := Quiet(N, v, u, (k - 1) * WordCost(N));
      LoadsWord(N, v, w);
      QuietAdd(N, v, u, (k - 1) * WordCost(N), WordCost(N));
      DropOne(k, WordCost(N));
      assert Dump(v)[..k] == Dump(v)[..k - 1] + [Loaded(v, w.f)];
      FlattenMore(Dump(v)[..k - 1], Loaded(v, w.f));
    } else {
      FlattenNone();
    }
  }

  lemma FlattenNone()
    ensures Flatten([]) == []
  {
  }

  // ---- Whole commands -------------------------------------------------------------------

  /** The unit a command finds: idle, with its memory in place. */
  predicate Accepts(N: nat, v: View, u: Unit, c: Command) {
    Divisor(N) && Ready(N, u) && ViewOk(v) && |u.mem| == RAM_WORDS && (OnlyHalted(c) ==> u.f.halt)
  }

  /** Between a command's bytes the line may pause up to the timeout; before its
      first byte, for as long as it likes. */
  ghost predicate Paced(N: nat, gaps: seq<nat>) { |gaps| >= 1 && InTime(N, gaps[1..]) }

  function After(N: nat, v: View, u: Unit, c: Command, gaps: seq<nat>): (r: Unit)
    requires N >= 1 && Sized(u) && |gaps| == |Encode(c)|
    ensures Sized(r)
  {
    Quiet(N, v, Feed(N, v, u, Encode(c), gaps), Work(N, c))
  }

  /** All its bytes have come: nothing is sent yet, and Work clocks remain. */
  predicate Fed(N: nat, u: Unit, w: Unit, c: Command) {
    UnitOk(N, w) && Still(u, w) && !Waits(w.f) && Left(N, w) == Work(N, c)
  }

  /** The command has run to completion. */
  ghost predicate Ran(N: nat, v: View, u: Unit, r: Unit, c: Command)
    requires |u.mem| == RAM_WORDS && ViewOk(v)
  {
    && Ready(N, r)
    && r.f.halt == HaltAfter(u.f.halt, c)
    && r.mem == MemAfter(u.mem, c)
    && r.sent == u.sent + Reply(v, u.mem, c)
  }

  lemma SimpleRuns(N: nat, v: View, u: Unit, c: Command, gaps: seq<nat>)
    requires Accepts(N, v, u, c) && |gaps| == |Encode(c)| && Paced(N, gaps)
    requires c.Halt? || c.Resume? || c.Step?
    ensures Fed(N, u, Feed(N, v, u, Encode(c), gaps), c)
    ensures Ran(N, v, u, After(N, v, u, c, gaps), c)
  {
    hide Deliver, UnitStep, Joined, FsmShape;
    var b := Encode(c)[0];
    Opcode(N, v, u, gaps[0], b);
    FeedOne(N, v, u, Encode(c), gaps);
    var w := Deliver(N, v, u, gaps[0], b);
    assert Quiet(N, v, w, 0) == w;
    if c.Step? {
      PulseAdvances(N, v, w);
      PulseAdvances(N, v, Quiet(N, v, w, 1));
      assert Quiet(N, v, w, 2) == UnitStep(N, v, Quiet(N, v, w, 1), None);
    }
  }

  /** A one-clock phase. */
  lemma PulseAdvances(N: nat, v: View, u: Unit)
    requires Divisor(N) && UnitOk(N, u) && !u.f.phase.CmdIdle? && !Waits(u.f) && !Sends(u.f)
    ensures var r := UnitStep(N, v, u, None);
      && UnitOk(N, r) && r.f == PulseStep(u.f, PinsOf(v, u, None)) && r.sent == u.sent
      && r.mem == (if MemWe(u.f) && WordIx(u.f.memAddr) < |u.mem| then u.mem[WordIx(u.f.memAddr) := u.f.memData]
                   else u.mem)
      && (MemValid(u.f) ==> r.ramIx == WordIx(u.f.memAddr))
  {
    hide OnByte, OnCommand, SendStep, PulseStep, FsmShape, TxStep;
    UnitKept(N, v, u, None);
  }

  /** One word is about to be loaded: this one. */
  predicate Selects(N: nat, v: View, u: Unit, r: Unit, word: Word)
    requires ViewOk(v)
  {
    UnitOk(N, r) && Still(u, r) && r.f.halt == u.f.halt && r.f.phase.SendLoad? && r.f.wordCount == 1
    && Loaded(v, r.f) == word
  }

  lemma RegSelected(N: nat, v: View, u: Unit, idx: Byte, gaps: seq<nat>)
    requires Accepts(N, v, u, ReadReg(idx)) && |gaps| == 2 && Paced(N, gaps)
    ensures Selects(N, v, u, Feed(N, v, u, [CMD_READ_REG] + [idx], gaps), v.regs[idx % 32])
  {
    hide Deliver, UnitStep, Joined, FsmShape, Feed;
    Opcode(N, v, u, gaps[0], CMD_READ_REG);
    var w := Deliver(N, v, u, gaps[0], CMD_READ_REG);
    FeedOne(N, v, u, [CMD_READ_REG], gaps[..1]);
    FeedSplit(N, v, u, [CMD_READ_REG], [idx], gaps);
    FeedOne(N, v, w, [idx], gaps[1..]);
    assert gaps[1..][0] == gaps[1];
    Argument(N, v, w, gaps[1], idx);
  }

  lemma CsrSelected(N: nat, v: View, u: Unit, csr: (Byte, Byte), gaps: seq<nat>)
    requires Accepts(N, v, u, ReadCsr(csr)) && |gaps| == 3 && Paced(N, gaps)
    ensures Selects(N, v, u, Feed(N, v, u, [CMD_READ_CSR] + [csr.0, csr.1], gaps), v.csr(csr))
  {
    hide Deliver, UnitStep, Joined, FsmShape, Feed;
    Opcode(N, v, u, gaps[0], CMD_READ_CSR);
    var w := Deliver(N, v, u, gaps[0], CMD_READ_CSR);
    FeedOne(N, v, u, [CMD_READ_CSR], gaps[..1]);
    FeedSplit(N, v, u, [CMD_READ_CSR], [csr.0, csr.1], gaps);
    CsrArrives(N, v, w, csr.0, csr.1, gaps[1..]);
  }

  lemma PcSelected(N: nat, v: View, u: Unit, gaps: seq<nat>)
    requires Accepts(N, v, u, ReadPc) && |gaps| == 1
    ensures Selects(N, v, u, Feed(N, v, u, [CMD_READ_PC], gaps), v.pc)
  {
    hide Deliver, UnitStep, Joined, FsmShape, Feed;
    Opcode(N, v, u, gaps[0], CMD_READ_PC);
    FeedOne(N, v, u, [CMD_READ_PC], gaps);
  }

  /** The command's bytes select the word of its reply. */
  lemma WordSelected(N: nat, v: View, u: Unit, c: Command, gaps: seq<nat>)
    requires Accepts(N, v, u, c) && |gaps| == |Encode(c)| && Paced(N, gaps)
    requires c.ReadReg? || c.ReadPc? || c.ReadCsr?
    ensures Selects(N, v, u, Feed(N, v, u, Encode(c), gaps), Reply(v, u.mem, c))
  {
    hide Feed, Selects, Accepts, Paced;
    if c.ReadReg? {
      assert Encode(c) == [CMD_READ_REG] + [c.idx];
      RegSelected(N, v, u, c.idx, gaps);
    } else if c.ReadCsr? {
      assert Encode(c) == [CMD_READ_CSR] + [c.csr.0, c.csr.1];
      CsrSelected(N, v, u, c.csr, gaps);
    } else {
      PcSelected(N, v, u, gaps);
    }
  }

  lemma ReadWordRuns(N: nat, v: View, u: Unit, c: Command, gaps: seq<nat>)
    requires Accepts(N, v, u, c) && |gaps| == |Encode(c)| && Paced(N, gaps)
    requires c.ReadReg? || c.ReadPc? || c.ReadCsr?
    ensures Fed(N, u, Feed(N, v, u, Encode(c), gaps), c)
    ensures Ran(N, v, u, After(N, v, u, c, gaps), c)
  {
    hide Feed, UnitStep, Joined, FsmShape, WordCost, Loaded, Encode;
    WordSelected(N, v, u, c, gaps);
    LoadsWord(N, v, Feed(N, v, u, Encode(c), gaps));
  }

  lemma ReadAllRuns(N: nat, v: View, u: Unit, gaps: seq<nat>)
    requires Accepts(N, v, u, ReadAll) && |gaps| == 1
    ensures Fed(N, u, Feed(N, v, u, Encode(ReadAll), gaps), ReadAll)
    ensures Ran(N, v, u, After(N, v, u, ReadAll, gaps), ReadAll)
  {
    hide Deliver, UnitStep, Joined, FsmShape, WordCost, Flatten;
    Opcode(N, v, u, gaps[0], CMD_READ_ALL);
    FeedOne(N, v, u, Encode(ReadAll), gaps);
    SendsWords(N, v, Deliver(N, v, u, gaps[0], CMD_READ_ALL), 33);
    assert Dump(v)[..33] == Dump(v);
  }

  lemma MemAddressed(N: nat, v: View, u: Unit, c: Command, a: Word, gaps: seq<nat>)
    requires Accepts(N, v, u, c) && |gaps| == 5 && Paced(N, gaps) && (c == ReadMem(a) || (c.WriteMem? && c.addr == a))
    ensures var r := Feed(N, v, u, [Encode(c)[0]] + a, gaps);
      && UnitOk(N, r) && Still(u, r) && r.f.timeout == 0 && r.f.rxIx == 0
      && r.f.halt == u.f.halt && r.f.memAddr == a
      && r.f.phase == if c.WriteMem? then RecvMemData else MemReadWait
  {
    hide Deliver, UnitStep, Joined, FsmShape;
    var b := Encode(c)[0];
    Opcode(N, v, u, gaps[0], b);
    var w := Deliver(N, v, u, gaps[0], b);
    FeedOne(N, v, u, [b], gaps[..1]);
    FeedSplit(N, v, u, [b], a, gaps);
    AddressArrives(N, v, w, a, gaps[1..]);
    var r := Feed(N, v, u, [b] + a, gaps);
    assert r.f.memAddr == r.f.memAddr[..4];
  }

  lemma WriteArrives(N: nat, v: View, u: Unit, c: Command, gaps: seq<nat>)
    requires Accepts(N, v, u, c) && c.WriteMem? && |gaps| == 9 && Paced(N, gaps)
    ensures var w := Feed(N, v, u, Encode(c), gaps);
      && UnitOk(N, w) && Still(u, w) && w.f.halt == u.f.halt
      && w.f.memAddr == c.addr && w.f.memData == c.data && w.f.phase.MemWritePulse?
  {
    hide Deliver, UnitStep, Joined, FsmShape;
    var head := [CMD_WRITE_MEM] + c.addr;
    assert gaps[..5][1..] == gaps[1..][..4] && gaps[5..] == gaps[1..][4..];
    MemAddressed(N, v, u, c, c.addr, gaps[..5]);
    FeedSplit(N, v, u, head, c.data, gaps);
    DataArrives(N, v, Feed(N, v, u, head, gaps[..5]), c.data, gaps[5..]);
    var w := Feed(N, v, u, Encode(c), gaps);
    assert w.f.memData == w.f.memData[..4];
  }

  lemma WriteMemRuns(N: nat, v: View, u: Unit, c: Command, gaps: seq<nat>)
    requires Accepts(N, v, u, c) && c.WriteMem? && |gaps| == 9 && Paced(N, gaps)
    ensures Fed(N, u, Feed(N, v, u, Encode(c), gaps), c)
    ensures Ran(N, v, u, After(N, v, u, c, gaps), c)
  {
    hide Feed, UnitStep, Joined, FsmShape;
    WriteArrives(N, v, u, c, gaps);
    var w := Feed(N, v, u, Encode(c), gaps);
    PulseAdvances(N, v, w);
    QuietOne(N, v, w);
  }

  /** Two clocks fetch the word over the registered port, then it is sent. */
  lemma Fetches(N: nat, v: View, u: Unit)
    requires Divisor(N) && UnitOk(N, u) && |u.mem| == RAM_WORDS
    requires u.f.phase.MemReadWait? || u.f.phase.MmioReadWait?
    ensures var r := Quiet(N, v, u, 2 + 4 * ByteCost(N));
      && Ready(N, r) && r.f.halt == u.f.halt && r.mem == u.mem
      && r.sent == u.sent + if u.f.phase.MemReadWait? then u.mem[WordIx(u.f.memAddr)] else v.mmio(u.f.mmioAddr)
  {
    hide UnitStep, Joined, FsmShape, ByteCost;
    PulseAdvances(N, v, u);
    QuietOne(N, v, u);
    var w := Quiet(N, v, u, 1);
    PulseAdvances(N, v, w);
    assert Quiet(N, v, u, 2) == UnitStep(N, v, w, None);
    SendsWord(N, v, Quiet(N, v, u, 2));
    QuietAdd(N, v, u, 2, 4 * ByteCost(N));
  }

  lemma FetchSelected(N: nat, v: View, u: Unit, c: Command, gaps: seq<nat>)
    requires Accepts(N, v, u, c) && (c.ReadMem? || c.ReadMmio?) && |gaps| == 5 && Paced(N, gaps)
    ensures var r := Feed(N, v, u, Encode(c), gaps);
      && UnitOk(N, r) && Still(u, r) && r.f.halt == u.f.halt
      && (if c.ReadMem? then r.f.phase.MemReadWait? && r.f.memAddr == c.addr
          else r.f.phase.MmioReadWait? && r.f.mmioAddr == c.addr)
  {
    hide Deliver, UnitStep, Joined, FsmShape;
    if c.ReadMem? {
      MemAddressed(N, v, u, c, c.addr, gaps);
    } else {
      Opcode(N, v, u, gaps[0], CMD_READ_MMIO);
      var w := Deliver(N, v, u, gaps[0], CMD_READ_MMIO);
      FeedOne(N, v, u, [CMD_READ_MMIO], gaps[..1]);
      FeedSplit(N, v, u, [CMD_READ_MMIO], c.addr, gaps);
      MmioArrives(N, v, w, c.addr, gaps[1..]);
      var r := Feed(N, v, u, Encode(c), gaps);
      assert r.f.mmioAddr == r.f.mmioAddr[..4];
    }
  }

  lemma ReadMemRuns(N: nat, v: View, u: Unit, c: Command, gaps: seq<nat>)
    requires Accepts(N, v, u, c) && (c.ReadMem? || c.ReadMmio?) && |gaps| == 5 && Paced(N, gaps)
    ensures Fed(N, u, Feed(N, v, u, Encode(c), gaps), c)
    ensures Ran(N, v, u, After(N, v, u, c, gaps), c)
  {
    hide Feed, UnitStep, Joined, FsmShape, ByteCost;
    FetchSelected(N, v, u, c, gaps);
    Fetches(N, v, Feed(N, v, u, Encode(c), gaps));
  }

  /** Main result: from any idle state, any command whose bytes arrive within the
      timeout of each other runs to completion within Work clocks of its last
      byte, with the stated effect on halt and memory and the stated reply. Memory is
      what the unit itself writes, and the view what it is shown: a core that RESUME or
      STEP lets run adds its own stores and changes its view. */
  lemma CommandRuns(N: nat, v: View, u: Unit, c: Command, gaps: seq<nat>)
    requires Accepts(N, v, u, c) && |gaps| == |Encode(c)| && Paced(N, gaps)
    ensures Fed(N, u, Feed(N, v, u, Encode(c), gaps), c)
    ensures Ran(N, v, u, After(N, v, u, c, gaps), c)
  {
    hide After, Ran;
    match c
    case Halt => SimpleRuns(N, v, u, c, gaps);
    case Resume => SimpleRuns(N, v, u, c, gaps);
    case Step => SimpleRuns(N, v, u, c, gaps);
    case ReadReg(_) => ReadWordRuns(N, v, u, c, gaps);
    case ReadPc => ReadWordRuns(N, v, u, c, gaps);
    case ReadCsr(_) => ReadWordRuns(N, v, u, c, gaps);
    case ReadAll => ReadAllRuns(N, v, u, gaps);
    case WriteMem(_, _) => WriteMemRuns(N, v, u, c, gaps);
    case ReadMem(_) => ReadMemRuns(N, v, u, c, gaps);
    case ReadMmio(_) => ReadMemRuns(N, v, u, c, gaps);
  }

  /** Clocks spent waiting may be counted before or after they are split off. */
  lemma FeedShift(N: nat, v: View, u: Unit, bytes: seq<Byte>, gaps: seq<nat>, w: nat)
    requires N >= 1 && Sized(u) && |gaps| == |bytes| >= 1 && w <= gaps[0]
    ensures Feed(N, v, u, bytes, gaps) == Feed(N, v, Quiet(N, v, u, w), bytes, gaps[0 := gaps[0] - w])
  {
    hide UnitStep, Sized, Feed;
    var later, rest := gaps[0 := gaps[0] - w], bytes[1..];
    assert bytes == bytes[..1] + rest && later[1..] == gaps[1..];
    FeedSplit(N, v, u, bytes[..1], rest, gaps);
    FeedSplit(N, v, Quiet(N, v, u, w), bytes[..1], rest, later);
    FeedOne(N, v, u, bytes[..1], gaps[..1]);
    FeedOne(N, v, Quiet(N, v, u, w), bytes[..1], later[..1]);
    QuietAdd(N, v, u, w, gaps[0] - w);
  }

  // ---- How it will end ------------------------------------------------------------------

  /** Halt, memory and the bytes sent once the unit is done, if no byte comes. */
  function Finish(N: nat, v: View, u: Unit): World
    requires N >= 1 && Sized(u) && Left(N, u) >= 0
  {
    WorldOf(Quiet(N, v, u, Left(N, u)))
  }

  /** Letting time pass changes nothing about the end, and what has been sent is the
      part of the reply that is no longer owed. */
  lemma FinishKept(N: nat, v: View, u: Unit, n: nat)
    requires Divisor(N) && UnitOk(N, u) && !Waits(u.f) && |u.mem| == RAM_WORDS
    ensures Left(N, u) >= 0
    ensures var r := Quiet(N, v, u, n);
      && UnitOk(N, r) && !Waits(r.f) && Left(N, r) >= 0
      && Finish(N, v, r) == Finish(N, v, u)
      && u.sent <= r.sent <= Finish(N, v, u).said && Owed(r.f) + |r.sent| == |Finish(N, v, u).said|
      && (n >= Left(N, u) ==> r.sent == Finish(N, v, u).said)
  {
    hide UnitStep, Joined, FsmShape, Left, Owed, Quiet, Sized;
    LeftBounds(N, u);
    var r, done := Quiet(N, v, u, n), Quiet(N, v, u, Left(N, u));
    QuietKept(N, v, u, n);
    QuietKept(N, v, u, Left(N, u));
    OwedKept(N, v, u, n);
    LeftBounds(N, r);
    LeftBounds(N, done);
    if n <= Left(N, u) {
      QuietAdd(N, v, u, n, Left(N, r));
    } else {
      QuietAdd(N, v, u, Left(N, u), n - Left(N, u));
      IdleGap(N, v, done, n - Left(N, u));
      assert Quiet(N, v, r, 0) == r by { NoWait(N, v, r); }
    }
    OwedKept(N, v, r, Left(N, r));
    OwedIsNat(N, Quiet(N, v, r, Left(N, r)));
    QuietKept(N, v, r, Left(N, r));
    LeftBounds(N, Quiet(N, v, r, Left(N, r)));
  }

  lemma NoWait(N: nat, v: View, u: Unit)
    requires N >= 1 && Sized(u)
    ensures Quiet(N, v, u, 0) == u
  {
  }

  // ---- Memory commands while the core runs ----------------------------------------------

  /** The command bytes that act on a running core's debug unit at once. */
  predicate Acts(b: Byte) {
    b == CMD_HALT || b == CMD_STEP || b == CMD_READ_REG || b == CMD_READ_PC || b == CMD_READ_ALL || b == CMD_READ_CSR
  }

  predicate Untouched(u: Unit, r: Unit) { r.f.phase.CmdIdle? && !r.f.halt && Still(u, r) }

  lemma OneByteWhileRunning(N: nat, v: View, u: Unit, gap: nat, b: Byte)
    requires Divisor(N) && Ready(N, u) && !u.f.halt
    ensures var r := Deliver(N, v, u, gap, b);
      UnitOk(N, r) && (Untouched(u, r) <==> !Acts(b))
  {
    hide Deliver, UnitStep, Joined, FsmShape;
    Opcode(N, v, u, gap, b);
  }

  lemma {:induction false} NothingActs(N: nat, v: View, u: Unit, bytes: seq<Byte>, gaps: seq<nat>)
    requires Divisor(N) && Ready(N, u) && !u.f.halt && |gaps| == |bytes|
    requires forall k :: 0 <= k < |bytes| ==> !Acts(bytes[k])
    ensures Ready(N, Feed(N, v, u, bytes, gaps)) && Untouched(u, Feed(N, v, u, bytes, gaps))
    decreases |bytes|
  {
    hide Deliver, UnitStep, Joined, FsmShape, Acts, Sized;
    var n := |bytes|;
    if n > 0 {
      NothingActs(N, v, u, bytes[..n - 1], gaps[..n - 1]);
      OneByteWhileRunning(N, v, Feed(N, v, u, bytes[..n - 1], gaps[..n - 1]), gaps[n - 1], bytes[n - 1]);
    }
  }

  lemma FirstToAct(N: nat, v: View, u: Unit, bytes: seq<Byte>, gaps: seq<nat>, k: nat)
    requires Divisor(N) && Ready(N, u) && !u.f.halt && |gaps| == |bytes| && k < |bytes|
    requires Acts(bytes[k]) && forall j :: 0 <= j < k ==> !Acts(bytes[j])
    ensures !Untouched(u, Feed(N, v, u, bytes[..k + 1], gaps[..k + 1]))
  {
    hide Deliver, UnitStep, Joined, FsmShape, Acts, Sized;
    NothingActs(N, v, u, bytes[..k], gaps[..k]);
    OneByteWhileRunning(N, v, Feed(N, v, u, bytes[..k], gaps[..k]), gaps[k], bytes[k]);
    assert bytes[..k + 1][..k] == bytes[..k] && gaps[..k + 1][..k] == gaps[..k];
  }

  /** Least index of an acting byte. */
  lemma LeastActing(bytes: seq<Byte>, n: nat) returns (k: nat)
    requires n < |bytes| && Acts(bytes[n])
    ensures k <= n && Acts(bytes[k]) && forall j :: 0 <= j < k ==> !Acts(bytes[j])
  {
    hide Acts;
    k := 0;
    while !Acts(bytes[k])
      invariant k <= n && forall j :: 0 <= j < k ==> !Acts(bytes[j])
      decreases n - k
    {
      k := k + 1;
    }
  }

  /** While the core runs, a memory command is dropped at its first byte but its
      argument bytes are still read as commands. Any bytes leave the unit untouched
      after each of them exactly if none is a command that acts; so a WRITE_MEM,
      READ_MEM or READ_MMIO is ignored only if its argument has no such byte. */
  lemma IgnoredWhileRunning(N: nat, v: View, u: Unit, bytes: seq<Byte>, gaps: seq<nat>)
    requires Divisor(N) && Ready(N, u) && !u.f.halt && |gaps| == |bytes|
    ensures (forall k :: 0 <= k <= |bytes| ==> Untouched(u, Feed(N, v, u, bytes[..k], gaps[..k])))
       <==> (forall k :: 0 <= k < |bytes| ==> !Acts(bytes[k]))
  {
    hide Feed, Joined, FsmShape, Acts, Untouched, Sized;
    if n :| 0 <= n < |bytes| && Acts(bytes[n]) {
      var k := LeastActing(bytes, n);
      FirstToAct(N, v, u, bytes, gaps, k);
    } else {
      forall k | 0 <= k <= |bytes| ensures Untouched(u, Feed(N, v, u, bytes[..k], gaps[..k])) {
        NothingActs(N, v, u, bytes[..k], gaps[..k]);
      }
    }
  }

  /** Writing to address 0x100 of a running core is not ignored: its second
      address byte is HALT. */
  lemma RunningWriteCanHalt(N: nat, v: View, u: Unit, data: Word, gaps: seq<nat>)
    requires Divisor(N) && Ready(N, u) && !u.f.halt && |gaps| == 9
    ensures var bytes := Encode(WriteMem([0, 1, 0, 0], data));
      exists k :: 0 <= k <= 9 && !Untouched(u, Feed(N, v, u, bytes[..k], gaps[..k]))
  {
    hide Deliver, Feed, Joined, FsmShape, Untouched;
    var bytes := Encode(WriteMem([0, 1, 0, 0], data));
    IgnoredWhileRunning(N, v, u, bytes, gaps);
    assert Acts(bytes[2]);
  }

  // ---- Bytes that are no command, and bytes that do not come ------------------------------------

  /** A byte other than the ten commands changes nothing, halted or running. */
  lemma UnknownIgnored(N: nat, v: View, u: Unit, gap: nat, b: Byte)
    requires Divisor(N) && Ready(N, u) && (b == 0 || b > 0x0A)
    ensures var r := Deliver(N, v, u, gap, b); Ready(N, r) && r.f.halt == u.f.halt && Still(u, r)
  {
    hide Deliver, Joined, FsmShape;
    Opcode(N, v, u, gap, b);
  }

  /** An argument is awaited for twenty bit periods and no longer. */
  lemma WaitsTwenty(N: nat, v: View, u: Unit, n: nat)
    requires Divisor(N) && UnitOk(N, u) && Waits(u.f) && u.f.timeout == 0
    ensures Quiet(N, v, u, n).f.phase.CmdIdle? <==> n > 20 * N
    ensures n <= 20 * N ==> Quiet(N, v, u, n).f.phase == u.f.phase
  {
    hide Quiet, Joined, FsmShape;
    QuietKept(N, v, u, n);
    LeftBounds(N, Quiet(N, v, u, n));
    if n <= 20 * N { WaitGap(N, v, u, n); }
  }
}
