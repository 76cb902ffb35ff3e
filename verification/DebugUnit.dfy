/** The command FSM with its transmitter and the RAM port it steers: recovery
    from any state, and what each command does to memory and sends back. */
module DebugUnit {
  import opened Options
  import opened Uart
  import opened DebugUart

  const RAM_WORDS: nat := 4096

  /** The rest of the system while the core is held: register file, pc, CSRs,
      peripherals, and the addresses the core leaves on port B and on the peripherals. */
  datatype View = View(
    regs: seq<Word>, pc: Word, csr: ((Byte, Byte)) -> Word, mmio: Word -> Word, coreIx: nat, coreAddr: Word)

  /** sent lists the bytes the transmitter has taken. */
  datatype Unit = Unit(f: Fsm, tx: Tx, mem: seq<Word>, ramIx: nat, sent: seq<Byte>)

  /** addr[13:2] of an address given as bytes. */
  function WordIx(a: Word): (i: nat)
    ensures i < RAM_WORDS
  {
    var low: nat, high: nat := a[0] / 4, a[1] % 64;
    low + 64 * high
  }

  /** The low k bits of n, least significant first, and the number they denote. */
  function BitsOf(n: nat, k: nat): (s: seq<bool>)
    ensures |s| == k
  {
    if k == 0 then [] else [n % 2 == 1] + BitsOf(n / 2, k - 1)
  }

  function ValueOf(s: seq<bool>): (n: nat)
    ensures n < Pow2(|s|)
  {
    if s == [] then 0 else (if s[0] then 1 else 0) + 2 * ValueOf(s[1..])
  }

  function Pow2(k: nat): nat { if k == 0 then 1 else 2 * Pow2(k - 1) }

  lemma {:induction false} ValueOfBits(n: nat, k: nat)
    requires n < Pow2(k)
    ensures ValueOf(BitsOf(n, k)) == n
  {
    if k > 0 {
      ValueOfBits(n / 2, k - 1);
      assert BitsOf(n, k)[1..] == BitsOf(n / 2, k - 1);
    }
  }

  function ToBits(b: Byte): Bits { BitsOf(b, 8) }

  function ReadMem(mem: seq<Word>, ix: nat): Word { if ix < |mem| then mem[ix] else ZERO }

  function PinsOf(v: View, u: Unit, rx: Option<Byte>): Pins {
    Pins(rx, u.tx.busy,
         if u.f.wordSel % 32 < |v.regs| then v.regs[u.f.wordSel % 32] else ZERO,
         v.pc, v.csr(u.f.csrAddr), ReadMem(u.mem, u.ramIx),
         v.mmio(if MmioValid(u.f) then u.f.mmioAddr else v.coreAddr))
  }

  predicate Offers(u: Unit) { u.f.txEn && u.tx.phase.TxIdle? }

  /** The ranges the hardware's registers have by width. */
  predicate Sized(u: Unit) { FsmOk(u.f) && TxOk(u.tx) }

  /** One clock, with the byte the receiver reports in it. */
  function UnitStep(N: nat, v: View, u: Unit, rx: Option<Byte>): (r: Unit)
    requires N >= 1 && Sized(u)
    ensures Sized(r)
  {
    Unit(FsmStep(N, u.f, PinsOf(v, u, rx)),
         TxStep(N, u.tx, if u.f.txEn then Some(ToBits(u.f.txData)) else None),
         if MemWe(u.f) && WordIx(u.f.memAddr) < |u.mem| then u.mem[WordIx(u.f.memAddr) := u.f.memData] else u.mem,
         if MemValid(u.f) then WordIx(u.f.memAddr) else v.coreIx,
         if Offers(u) then u.sent + [u.f.txData] else u.sent)
  }

  // ---- What every reachable state keeps -----------------------------------------------------

  /** clk_per_bit is 16 bits wide. */
  predicate Divisor(N: nat) { 1 <= N < 0x10000 }

  predicate FsmShape(N: nat, f: Fsm) {
    && FsmOk(f)
    && (NeedsHalt(f) ==> f.halt)
    && (Waits(f) ==> f.timeout <= N * TIMEOUT_BIT_PERIODS)
    && (Sends(f) ==> 1 <= f.wordCount <= 33)
  }

  predicate InHandshake(f: Fsm) { f.phase.SendByteWaitBusy? || f.phase.SendByteWaitDone? }

  /** The transmitter works exactly while the FSM waits for it. */
  predicate Joined(N: nat, f: Fsm, tx: Tx) {
    && TxOk(tx)
    && (tx.busy <==> !tx.phase.TxIdle?)
    && (tx.phase.Transmit? ==> tx.count < N)
    && (f.txEn ==> f.phase.SendByteWaitBusy? && !tx.busy)
    && (f.phase.SendByteWaitBusy? && !f.txEn ==> tx.phase.Transmit? && tx.index == 0 && tx.count == 0)
    && (!InHandshake(f) ==> !tx.busy)
  }

  predicate UnitOk(N: nat, u: Unit) { Sized(u) && FsmShape(N, u.f) && Joined(N, u.f, u.tx) }

  lemma CommandShape(N: nat, f: Fsm, b: Byte)
    requires FsmShape(N, f) && f.phase.CmdIdle?
    ensures FsmShape(N, OnCommand(f, b))
    ensures !OnCommand(f, b).txEn && !InHandshake(OnCommand(f, b))
  {
  }

  lemma ByteShape(N: nat, f: Fsm, b: Byte)
    requires FsmShape(N, f) && Waits(f)
    ensures FsmShape(N, OnByte(f, b))
    ensures !OnByte(f, b).txEn && !InHandshake(OnByte(f, b))
  {
  }

  lemma SendShape(N: nat, f: Fsm, i: Pins)
    requires FsmShape(N, f) && Sends(f)
    ensures FsmShape(N, SendStep(f, i))
  {
  }

  lemma SendHandshake(f: Fsm, i: Pins)
    requires FsmOk(f) && Sends(f)
    ensures var g := SendStep(f, i);
      && (g.txEn <==> f.phase.SendByteStart? && !i.txBusy)
      && (g.phase.SendByteWaitBusy? <==> g.txEn || (f.phase.SendByteWaitBusy? && !i.txBusy))
      && (g.phase.SendByteWaitDone? <==> InHandshake(f) && i.txBusy)
  {
  }

  lemma PulseShape(N: nat, f: Fsm, i: Pins)
    requires FsmShape(N, f) && !f.phase.CmdIdle? && !Waits(f) && !Sends(f)
    ensures FsmShape(N, PulseStep(f, i))
    ensures !PulseStep(f, i).txEn && !InHandshake(PulseStep(f, i))
  {
  }

  lemma ShapeKept(N: nat, f: Fsm, i: Pins)
    requires Divisor(N) && FsmShape(N, f)
    ensures FsmShape(N, FsmStep(N, f, i))
    ensures var g := FsmStep(N, f, i);
      && (g.txEn <==> f.phase.SendByteStart? && !i.txBusy)
      && (g.phase.SendByteWaitBusy? <==> g.txEn || (f.phase.SendByteWaitBusy? && !i.txBusy))
      && (g.phase.SendByteWaitDone? <==> InHandshake(f) && i.txBusy)
  {
    hide OnCommand, OnByte, SendStep, PulseStep;
    if f.phase.CmdIdle? {
      if i.rx.Some? { CommandShape(N, f, i.rx.value); }
    } else if Waits(f) {
      if i.rx.Some? { ByteShape(N, f, i.rx.value); }
    } else if Sends(f) {
      SendShape(N, f, i);
      SendHandshake(f, i);
    } else {
      PulseShape(N, f, i);
    }
  }

  /** Both invariants hold after every clock, whatever byte arrives in it. */
  lemma UnitKept(N: nat, v: View, u: Unit, rx: Option<Byte>)
    requires Divisor(N) && UnitOk(N, u)
    ensures UnitOk(N, UnitStep(N, v, u, rx))
  {
    hide FsmStep;
    ShapeKept(N, u.f, PinsOf(v, u, rx));
  }

  // ---- Recovery -----------------------------------------------------------------------------

  /** Clocks to send one byte, and one word with its load. */
  function ByteCost(N: nat): nat { PACKET_SIZE * N + 4 }

  function WordCost(N: nat): nat { 4 * ByteCost(N) + 1 }

  /** What is left after the byte being sent. */
  function LaterBytes(N: nat, f: Fsm): int { (3 - f.byteSel) * ByteCost(N) + (f.wordCount - 1) * WordCost(N) }

  function TxLeft(N: nat, t: Tx): int {
    match t.phase
    case TxIdle => 0
    case Transmit => (10 - t.index) * N + (N - t.count) + 1
    case TxDone => 1
  }

  /** Clocks until the FSM is idle again if no byte arrives. */
  function Left(N: nat, u: Unit): int {
    var f := u.f;
    match f.phase
    case CmdIdle => 0
    case WaitArg => N * TIMEOUT_BIT_PERIODS - f.timeout + 1
    case WaitArgCsr => N * TIMEOUT_BIT_PERIODS - f.timeout + 1
    case RecvMemAddr => N * TIMEOUT_BIT_PERIODS - f.timeout + 1
    case RecvMemData => N * TIMEOUT_BIT_PERIODS - f.timeout + 1
    case RecvMmioAddr => N * TIMEOUT_BIT_PERIODS - f.timeout + 1
    case StepAssert => 2
    case StepDeassert => 1
    case MemWritePulse => 1
    case SendLoad => f.wordCount * WordCost(N)
    case SendByteStart => ByteCost(N) + LaterBytes(N, f)
    case SendByteWaitBusy => (if f.txEn then ByteCost(N) - 1 else ByteCost(N) - 2) + LaterBytes(N, f)
    case SendByteWaitDone => TxLeft(N, u.tx) + 1 + LaterBytes(N, f)
    case MemReadWait => 2 + 4 * ByteCost(N)
    case MemReadLatch => 1 + 4 * ByteCost(N)
    case MmioReadWait => 2 + 4 * ByteCost(N)
    case MmioReadLatch => 1 + 4 * ByteCost(N)
  }

  function RecoveryBound(N: nat): nat {
    33 * WordCost(N)
  }

  lemma DropOne(x: int, y: int)
    ensures x * y == (x - 1) * y + y
  {
  }

  lemma TxCounts(N: nat, t: Tx)
    requires N >= 1 && TxOk(t) && !t.phase.TxIdle? && (t.phase.Transmit? ==> t.count < N)
    ensures TxLeft(N, TxStep(N, t, None)) == TxLeft(N, t) - 1
  {
    if t.phase.Transmit? { DropOne(10 - t.index, N); }
  }

  lemma SendCounts(N: nat, v: View, u: Unit)
    requires Divisor(N) && UnitOk(N, u) && Sends(u.f)
    ensures Left(N, UnitStep(N, v, u, None)) == Left(N, u) - 1
  {
    hide LaterBytes, WordCost, ByteCost, TxStep, AfterByte;
    var f, r := u.f, UnitStep(N, v, u, None);
    match f.phase
    case SendLoad => FirstByte(N, r.f);
    case SendByteStart => SameBytes(N, f, r.f);
    case SendByteWaitBusy =>
      SameBytes(N, f, r.f);
      if !f.txEn { FirstClock(N, u); }
    case SendByteWaitDone =>
      if u.tx.busy {
        SameBytes(N, f, r.f);
        TxCounts(N, u.tx);
      } else {
        NextByte(N, f, r.tx, r.mem, r.ramIx, r.sent);
      }
  }

  lemma FirstByte(N: nat, f: Fsm)
    requires f.byteSel == 0
    ensures ByteCost(N) + LaterBytes(N, f) == f.wordCount * WordCost(N) - 1
  {
    DropOne(f.wordCount, WordCost(N));
  }

  lemma SameBytes(N: nat, f: Fsm, g: Fsm)
    requires f.byteSel == g.byteSel && f.wordCount == g.wordCount
    ensures LaterBytes(N, f) == LaterBytes(N, g)
  {
  }

  lemma FirstClock(N: nat, u: Unit)
    requires Divisor(N) && Joined(N, u.f, u.tx) && u.f.phase.SendByteWaitBusy? && !u.f.txEn
    ensures TxLeft(N, TxStep(N, u.tx, None)) + 1 == ByteCost(N) - 3
  {
    TxCounts(N, u.tx);
  }

  lemma NextByte(N: nat, f: Fsm, tx: Tx, mem: seq<Word>, ramIx: nat, sent: seq<Byte>)
    requires FsmOk(f) && f.phase.SendByteWaitDone? && 1 <= f.wordCount
    ensures Left(N, Unit(AfterByte(f), tx, mem, ramIx, sent)) == LaterBytes(N, f)
  {
    hide ByteCost, WordCost;
    DropOne(3 - f.byteSel, ByteCost(N));
  }

  lemma OthersCount(N: nat, v: View, u: Unit)
    requires Divisor(N) && UnitOk(N, u) && !u.f.phase.CmdIdle? && !Sends(u.f)
    ensures Left(N, UnitStep(N, v, u, None)) == Left(N, u) - 1
  {
    hide LaterBytes, ByteCost, WordCost, OnByte, OnCommand, SendStep, TxStep;
    var r := UnitStep(N, v, u, None);
    if r.f.phase.SendByteStart? {
      FourBytes(N, r.f);
    }
  }

  lemma FourBytes(N: nat, f: Fsm)
    requires f.byteSel == 0 && f.wordCount == 1
    ensures LaterBytes(N, f) == 3 * ByteCost(N)
  {
    assert (f.wordCount - 1) * WordCost(N) == 0;
  }

  /** A clock without a received byte brings the FSM exactly one clock closer to
      idle, and an idle FSM stays idle. */
  lemma QuietCounts(N: nat, v: View, u: Unit)
    requires Divisor(N) && UnitOk(N, u)
    ensures Left(N, UnitStep(N, v, u, None)) == if u.f.phase.CmdIdle? then 0 else Left(N, u) - 1
  {
    hide LaterBytes, ByteCost, WordCost, OnByte, OnCommand, SendStep, PulseStep, TxStep;
    if u.f.phase.CmdIdle? {
    } else if Sends(u.f) {
      SendCounts(N, v, u);
    } else {
      OthersCount(N, v, u);
    }
  }

  lemma LaterBounds(N: nat, f: Fsm)
    requires FsmOk(f) && 1 <= f.wordCount <= 33
    ensures 0 <= LaterBytes(N, f) <= 33 * WordCost(N) - 1 - ByteCost(N)
    ensures 0 <= f.wordCount * WordCost(N) - WordCost(N) <= 32 * WordCost(N)
  {
    hide ByteCost;
    MulUp(f.wordCount - 1, 32, WordCost(N));
    MulUp(3 - f.byteSel, 3, ByteCost(N));
  }

  lemma TxBounds(N: nat, t: Tx)
    requires N >= 1 && TxOk(t) && (t.phase.Transmit? ==> t.count < N)
    ensures 0 <= TxLeft(N, t) <= ByteCost(N) - 3
  {
    if t.phase.Transmit? { MulUp(10 - t.index, 10, N); }
  }

  lemma LeftBounds(N: nat, u: Unit)
    requires Divisor(N) && UnitOk(N, u)
    ensures 0 <= Left(N, u) <= RecoveryBound(N)
    ensures Waits(u.f) ==> Left(N, u) <= N * TIMEOUT_BIT_PERIODS + 1
    ensures Left(N, u) == 0 <==> u.f.phase.CmdIdle?
  {
    hide LaterBytes;
    if Sends(u.f) {
      LaterBounds(N, u.f);
      TxBounds(N, u.tx);
    }
  }

  lemma MulUp(x: nat, y: nat, z: nat)
    requires x <= y
    ensures 0 <= x * z <= y * z
  {
    assert y * z == x * z + (y - x) * z;
  }

  /** n clocks in which no byte arrives. */
  function Quiet(N: nat, v: View, u: Unit, n: nat): (r: Unit)
    requires N >= 1 && Sized(u)
    ensures Sized(r)
  {
    if n == 0 then u else UnitStep(N, v, Quiet(N, v, u, n - 1), None)
  }

  lemma {:induction false} QuietKept(N: nat, v: View, u: Unit, n: nat)
    requires Divisor(N) && UnitOk(N, u)
    ensures UnitOk(N, Quiet(N, v, u, n))
    ensures Left(N, Quiet(N, v, u, n)) == if n <= Left(N, u) then Left(N, u) - n else 0
  {
    hide UnitStep, Left;
    LeftBounds(N, u);
    if n > 0 {
      QuietKept(N, v, u, n - 1);
      var w := Quiet(N, v, u, n - 1);
      UnitKept(N, v, w, None);
      QuietCounts(N, v, w);
      LeftBounds(N, w);
    }
  }

  // ---- Bytes still to be sent ----------------------------------------------------------------

  function LaterOwed(f: Fsm): int { 3 - f.byteSel + 4 * (f.wordCount - 1) }

  /** Reply bytes the transmitter has not taken yet. */
  function Owed(f: Fsm): int {
    match f.phase
    case SendLoad => 4 * f.wordCount
    case SendByteStart => 1 + LaterOwed(f)
    case SendByteWaitBusy => (if f.txEn then 1 else 0) + LaterOwed(f)
    case SendByteWaitDone => LaterOwed(f)
    case MemReadWait => 4
    case MemReadLatch => 4
    case MmioReadWait => 4
    case MmioReadLatch => 4
    case _ => 0
  }

  lemma OwedSend(N: nat, f: Fsm, i: Pins)
    requires FsmShape(N, f) && Sends(f) && (f.txEn ==> f.phase.SendByteWaitBusy?)
    ensures var g := SendStep(f, i); !Waits(g) && Owed(g) == Owed(f) - if f.txEn then 1 else 0
  {
  }

  lemma OwedPulse(N: nat, f: Fsm, i: Pins)
    requires FsmShape(N, f) && !f.phase.CmdIdle? && !Waits(f) && !Sends(f)
    ensures var g := PulseStep(f, i); !Waits(g) && Owed(g) == Owed(f)
  {
  }

  /** Once a command's bytes are in, a quiet clock neither adds to the reply nor drops
      any of it. */
  lemma OwedStep(N: nat, v: View, u: Unit)
    requires Divisor(N) && UnitOk(N, u) && !Waits(u.f)
    ensures var r := UnitStep(N, v, u, None);
      !Waits(r.f) && Owed(r.f) + |r.sent| == Owed(u.f) + |u.sent| && u.sent <= r.sent
  {
    hide TxStep, OnByte, OnCommand, SendStep, PulseStep, Owed, FsmOk, FsmShape;
    var i := PinsOf(v, u, None);
    if u.f.phase.CmdIdle? {
      OwedIdle(u.f);
      OwedIdle(Defaults(u.f));
    } else if Sends(u.f) {
      OwedSend(N, u.f, i);
    } else {
      OwedPulse(N, u.f, i);
    }
  }

  lemma OwedIdle(f: Fsm)
    requires f.phase.CmdIdle?
    ensures Owed(f) == 0
  {
  }

  lemma {:induction false} OwedKept(N: nat, v: View, u: Unit, n: nat)
    requires Divisor(N) && UnitOk(N, u) && !Waits(u.f)
    ensures var r := Quiet(N, v, u, n);
      !Waits(r.f) && Owed(r.f) + |r.sent| == Owed(u.f) + |u.sent| && u.sent <= r.sent
  {
    hide UnitStep, Owed, FsmShape, Joined, Sized;
    if n > 0 {
      OwedKept(N, v, u, n - 1);
      QuietKept(N, v, u, n - 1);
      OwedStep(N, v, Quiet(N, v, u, n - 1));
    }
  }

  lemma OwedIsNat(N: nat, u: Unit)
    requires UnitOk(N, u)
    ensures Owed(u.f) >= 0
    ensures u.f.phase.CmdIdle? ==> Owed(u.f) == 0
  {
  }

  /** Clocks in which a unit that has handed over its last reply byte is done. */
  function LastByte(N: nat): nat { PACKET_SIZE * N + 2 }

  lemma OwedNothing(N: nat, u: Unit)
    requires Divisor(N) && UnitOk(N, u) && !Waits(u.f) && Owed(u.f) == 0
    ensures Left(N, u) <= LastByte(N)
  {
    var f := u.f;
    if Sends(f) {
      assert f.byteSel == 3 && f.wordCount == 1;
      assert LaterBytes(N, f) == 0;
      TxBounds(N, u.tx);
    }
  }

  /** Everything that can have happened since reset: any bytes, at any clocks, and
      any answers from the core. */
  function History(N: nat, u: Unit, views: seq<View>, bytes: seq<Option<Byte>>): (r: Unit)
    requires N >= 1 && Sized(u) && |views| == |bytes|
    ensures Sized(r)
    decreases |bytes|
  {
    var n := |bytes|;
    if n == 0 then u
    else UnitStep(N, views[n - 1], History(N, u, views[..n - 1], bytes[..n - 1]), bytes[n - 1])
  }

  function UnitReset(mem: seq<Word>): Unit { Unit(RESET, TX_RESET, mem, 0, []) }

  lemma {:induction false} HistoryKept(N: nat, mem: seq<Word>, views: seq<View>, bytes: seq<Option<Byte>>)
    requires Divisor(N) && |views| == |bytes|
    ensures UnitOk(N, History(N, UnitReset(mem), views, bytes))
    decreases |bytes|
  {
    hide UnitStep;
    var n := |bytes|;
    if n > 0 {
      HistoryKept(N, mem, views[..n - 1], bytes[..n - 1]);
      UnitKept(N, views[n - 1], History(N, UnitReset(mem), views[..n - 1], bytes[..n - 1]), bytes[n - 1]);
    }
  }

  /** Debug recovery. From any reachable state, after any history of lost, extra or
      garbled bytes, n clocks without a byte leave the FSM idle exactly if n has
      reached the remaining time. That is at most 20 bit periods while an argument is
      awaited, and never more than 33 words take to send: 132 frames of 11 bit
      periods with their handshakes. */
  lemma Recovers(N: nat, mem: seq<Word>, views: seq<View>, bytes: seq<Option<Byte>>, v: View, n: nat)
    requires Divisor(N) && |views| == |bytes|
    ensures var u := History(N, UnitReset(mem), views, bytes);
      && 0 <= Left(N, u) <= RecoveryBound(N)
      && (Waits(u.f) ==> Left(N, u) <= 20 * N + 1)
      && (Quiet(N, v, u, n).f.phase.CmdIdle? <==> n >= Left(N, u))
  {
    hide UnitStep, Left;
    var u := History(N, UnitReset(mem), views, bytes);
    HistoryKept(N, mem, views, bytes);
    LeftBounds(N, u);
    QuietKept(N, v, u, n);
    LeftBounds(N, Quiet(N, v, u, n));
  }
}
