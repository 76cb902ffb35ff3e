/** The UART's two state machines, configured as the board instantiates them:
    8 data bits, no parity, 2 stop bits. N is clk_per_bit. */
module Uart {
  import opened Options

  /** A byte as its eight bits, least significant first. */
  type Bits = s: seq<bool> | |s| == 8 witness [false, false, false, false, false, false, false, false]

  const PACKET_SIZE: nat := 11
  const ZERO_BITS: Bits := [false, false, false, false, false, false, false, false]

  // ---- Transmitter ----------------------------------------------------------------------

  datatype TxPhase = TxIdle | Transmit | TxDone

  datatype Tx = Tx(phase: TxPhase, packet: seq<bool>, index: nat, count: nat, out: bool, done: bool, busy: bool)

  const TX_RESET: Tx := Tx(TxIdle, [], 0, 0, true, false, false)

  /** Start bit, data bits, two stop bits. */
  function Packet(data: Bits): (p: seq<bool>)
    ensures |p| == PACKET_SIZE
  {
    [false] + data + [true, true]
  }

  predicate TxOk(t: Tx) { t.phase.Transmit? ==> |t.packet| == PACKET_SIZE && t.index < PACKET_SIZE }

  /** One clock of the transmitter; offer is dataIn qualified by TXen. */
  function TxStep(N: nat, t: Tx, offer: Option<Bits>): (r: Tx)
    requires N >= 1 && TxOk(t)
    ensures TxOk(r)
  {
    match t.phase
    case TxIdle =>
      if offer.Some? then Tx(Transmit, Packet(offer.value), 0, 0, true, false, true)
      else t.(index := 0, count := 0, out := true, done := false)
    case Transmit =>
      var u := t.(out := t.packet[t.index]);
      if t.count < N - 1 then u.(count := t.count + 1)
      else if t.index == PACKET_SIZE - 1 then u.(count := 0, phase := TxDone)
      else u.(count := 0, index := t.index + 1)
    case TxDone => t.(phase := TxIdle, busy := false, done := true, index := 0, count := 0)
  }

  // ---- Receiver --------------------------------------------------------------------------

  datatype RxPhase = RxIdle | Start | Receive | RxDone

  /** meta and regIn are the two synchroniser flip-flops. */
  datatype Rx = Rx(phase: RxPhase, index: nat, count: nat, meta: bool, regIn: bool, data: Bits, done: bool, out: Bits)

  const RX_RESET: Rx := Rx(RxIdle, 0, 0, true, true, ZERO_BITS, false, ZERO_BITS)

  /** (clk_per_bit - 1) >> 1. */
  function Half(N: nat): nat
    requires N >= 1
  {
    (N - 1) / 2
  }

  function RxFsm(N: nat, r: Rx): Rx
    requires N >= 1
  {
    match r.phase
    case RxIdle =>
      r.(count := 0, index := 0, data := ZERO_BITS, done := false, phase := if r.regIn then RxIdle else Start)
    case Start =>
      if r.count == Half(N) then r.(count := 0, phase := Receive) else r.(count := r.count + 1)
    case Receive =>
      if r.count < N - 1 then r.(count := r.count + 1)
      else if r.index < 8 then r.(count := 0, data := r.data[r.index := r.regIn], index := r.index + 1)
      else r.(count := 0, phase := RxDone)
    case RxDone =>
      if r.count == Half(N) then r.(count := 0, phase := RxIdle, done := true, index := 0, out := r.data)
      else r.(count := r.count + 1)
  }

  /** One clock of the receiver with the pin at line. */
  function RxStep(N: nat, r: Rx, line: bool): Rx
    requires N >= 1
  {
    RxFsm(N, r).(meta := line, regIn := r.meta)
  }

  // ---- The same machines as clocked objects ------------------------------------------------

  class UartTx {
    var phase: TxPhase
    var packet: seq<bool>
    var index: nat
    var count: nat
    var out: bool
    var done: bool
    var busy: bool

    ghost predicate Valid() reads this { TxOk(State()) }

    function State(): Tx reads this { Tx(phase, packet, index, count, out, done, busy) }

    constructor ()
      ensures Valid() && State() == TX_RESET
    {
      phase, packet, index, count, out, done, busy := TxIdle, [], 0, 0, true, false, false;
    }

    method Clock(N: nat, enable: bool, dataIn: Bits)
      requires N >= 1 && Valid()
      modifies this
      ensures Valid() && State() == TxStep(N, old(State()), if enable then Some(dataIn) else None)
    {
      match phase {
        case TxIdle =>
          out, index, count, done := true, 0, 0, false;
          if enable {
            packet := Packet(dataIn);
            busy := true;
            phase := Transmit;
          }
        case Transmit =>
          out := packet[index];
          if count < N - 1 {
            count := count + 1;
          } else {
            count := 0;
            if index == PACKET_SIZE - 1 { phase := TxDone; } else { index := index + 1; }
          }
        case TxDone =>
          phase, busy, done, index, count := TxIdle, false, true, 0, 0;
      }
    }
  }

  class UartRx {
    var phase: RxPhase
    var index: nat
    var count: nat
    var meta: bool
    var regIn: bool
    var data: Bits
    var done: bool
    var out: Bits

    function State(): Rx reads this { Rx(phase, index, count, meta, regIn, data, done, out) }

    constructor ()
      ensures State() == RX_RESET
    {
      phase, index, count, meta, regIn := RxIdle, 0, 0, true, true;
      data, done, out := ZERO_BITS, false, ZERO_BITS;
    }

    method Clock(N: nat, line: bool)
      requires N >= 1
      modifies this
      ensures State() == RxStep(N, old(State()), line)
    {
      match phase {
        case RxIdle =>
          count, index, data, done := 0, 0, ZERO_BITS, false;
          if !regIn { phase := Start; }
        case Start =>
          if count == Half(N) { count, phase := 0, Receive; } else { count := count + 1; }
        case Receive =>
          if count < N - 1 {
            count := count + 1;
          } else {
            count := 0;
            if index < 8 { data, index := data[index := regIn], index + 1; } else { phase := RxDone; }
          }
        case RxDone =>
          if count == Half(N) {
            count, phase, done, index, out := 0, RxIdle, true, 0, data;
          } else {
            count := count + 1;
          }
      }
      meta, regIn := line, meta;
    }
  }
}
