/** Receiving a serial line: exact sampling points, correct reception of every
    byte stream within the baud tolerance, and loopback as a pure delay. */
module SerialLink {
  import opened Options
  import opened Uart

  type Line = nat -> bool

  /** The receiver before clock t. */
  function RxAt(N: nat, line: Line, t: nat): Rx
    requires N >= 1
  {
    if t == 0 then RX_RESET else RxStep(N, RxAt(N, line, t - 1), line(t - 1))
  }

  lemma RxNext(N: nat, line: Line, t: nat)
    requires N >= 1
    ensures RxAt(N, line, t + 1) == RxStep(N, RxAt(N, line, t), line(t))
  {
  }

  /** The synchroniser shows the pin two clocks late. */
  lemma RegInIsLate(N: nat, line: Line, t: nat)
    requires N >= 1
    ensures RxAt(N, line, t + 2).regIn == line(t)
  {
    hide RxAt, RxFsm;
    RxNext(N, line, t);
    RxNext(N, line, t + 1);
  }

  predicate BusyQuiet(r: Rx) { !r.phase.RxIdle? && !r.done }

  /** START counts to half a bit. */
  lemma {:induction false} StartCounts(N: nat, line: Line, s: nat, j: nat)
    requires N >= 1 && j <= Half(N)
    requires RxAt(N, line, s).phase.RxIdle? && !RxAt(N, line, s).regIn
    ensures var r := RxAt(N, line, s + 1 + j); r.phase.Start? && r.count == j && r.index == 0 && !r.done
  {
    hide RxAt;
    if j > 0 { StartCounts(N, line, s, j - 1); }
    RxNext(N, line, s + j);
  }

  /** RECEIVE counts to a whole bit. */
  lemma {:induction false} ReceiveCounts(N: nat, line: Line, b: nat, j: nat)
    requires N >= 1 && j < N
    requires RxAt(N, line, b).phase.Receive? && RxAt(N, line, b).count == 0
    ensures var r, r0 := RxAt(N, line, b + j), RxAt(N, line, b);
      r.phase.Receive? && r.count == j && r.index == r0.index && r.data == r0.data && r.done == r0.done
  {
    hide RxAt;
    if j > 0 {
      ReceiveCounts(N, line, b, j - 1);
      RxNext(N, line, b + j - 1);
    }
  }

  /** DONE counts to half a bit. */
  lemma {:induction false} DoneCounts(N: nat, line: Line, b: nat, j: nat)
    requires N >= 1 && j <= Half(N)
    requires RxAt(N, line, b).phase.RxDone? && RxAt(N, line, b).count == 0
    ensures var r, r0 := RxAt(N, line, b + j), RxAt(N, line, b);
      r.phase.RxDone? && r.count == j && r.data == r0.data && r.done == r0.done
  {
    hide RxAt;
    if j > 0 {
      DoneCounts(N, line, b, j - 1);
      RxNext(N, line, b + j - 1);
    }
  }

  /** The clock in which RECEIVE begins to wait for sample k, when IDLE saw the
      start bit in clock s. */
  function WaitStart(N: nat, s: nat, k: nat): nat requires N >= 1 { s + 2 + Half(N) + N * k }

  /** The clock whose synchronised input is data bit k. */
  function SampleClock(N: nat, s: nat, k: nat): nat requires N >= 1 { s + 1 + (N - 1) / 2 + N * (k + 1) }

  lemma WaitNext(N: nat, s: nat, k: nat)
    requires N >= 1
    ensures WaitStart(N, s, k + 1) == WaitStart(N, s, k) + N
    ensures SampleClock(N, s, k) == WaitStart(N, s, k) + N - 1
  {
  }

  /** One bit time of RECEIVE, and the sample at its end. */
  lemma OneSample(N: nat, line: Line, b: nat)
    requires N >= 1
    requires var q := RxAt(N, line, b); q.phase.Receive? && q.count == 0 && q.index < 8 && !q.done
    ensures forall t :: b <= t <= b + N ==> BusyQuiet(RxAt(N, line, t))
    ensures var r, q := RxAt(N, line, b + N), RxAt(N, line, b);
      && r.phase.Receive? && r.count == 0 && r.index == q.index + 1 && !r.done
      && r.data == q.data[q.index := RxAt(N, line, b + N - 1).regIn]
  {
    hide RxAt;
    forall t | b <= t < b + N ensures BusyQuiet(RxAt(N, line, t)) { ReceiveCounts(N, line, b, t - b); }
    ReceiveCounts(N, line, b, N - 1);
    RxNext(N, line, b + N - 1);
  }

  /** The half bit of START. */
  lemma StartBit(N: nat, line: Line, s: nat)
    requires N >= 1 && RxAt(N, line, s).phase.RxIdle? && !RxAt(N, line, s).regIn
    ensures forall t :: s < t <= s + 2 + Half(N) ==> BusyQuiet(RxAt(N, line, t))
    ensures var r := RxAt(N, line, s + 2 + Half(N)); r.phase.Receive? && r.count == 0 && r.index == 0
  {
    hide RxAt;
    var h := Half(N);
    forall t | s < t <= s + 1 + h ensures BusyQuiet(RxAt(N, line, t)) { StartCounts(N, line, s, t - s - 1); }
    StartCounts(N, line, s, h);
    RxNext(N, line, s + 1 + h);
  }

  /** After k samples the first k data bits are the line at the sample points. */
  lemma {:induction false} Samples(N: nat, line: Line, s: nat, k: nat)
    requires N >= 1 && k <= 8
    requires RxAt(N, line, s).phase.RxIdle? && !RxAt(N, line, s).regIn
    ensures var r := RxAt(N, line, WaitStart(N, s, k));
      && r.phase.Receive? && r.count == 0 && r.index == k
      && forall i :: 0 <= i < k ==> r.data[i] == RxAt(N, line, SampleClock(N, s, i)).regIn
    ensures forall t :: s < t <= WaitStart(N, s, k) ==> BusyQuiet(RxAt(N, line, t))
    ensures s < WaitStart(N, s, k)
  {
    hide RxAt;
    if k == 0 {
      StartBit(N, line, s);
      assert WaitStart(N, s, 0) == s + 2 + Half(N);
    } else {
      hide WaitStart, SampleClock;
      Samples(N, line, s, k - 1);
      WaitNext(N, s, k - 1);
      OneSample(N, line, WaitStart(N, s, k - 1));
    }
  }

  /** The clock in which a frame detected in clock s is reported. */
  function ReportClock(N: nat, s: nat): nat requires N >= 1 { s + 3 + 2 * ((N - 1) / 2) + 9 * N }

  /** From the last data bit to IDLE: the first stop bit's sample and half a bit. */
  lemma StopBit(N: nat, line: Line, b: nat)
    requires N >= 1
    requires var q := RxAt(N, line, b); q.phase.Receive? && q.count == 0 && q.index == 8 && !q.done
    ensures forall t :: b <= t <= b + N + Half(N) ==> BusyQuiet(RxAt(N, line, t))
    ensures var r := RxAt(N, line, b + N + Half(N) + 1); r.phase.RxIdle? && r.done && r.out == RxAt(N, line, b).data
  {
    hide RxAt;
    var c, h := b + N, Half(N);
    forall t | b <= t < c ensures BusyQuiet(RxAt(N, line, t)) { ReceiveCounts(N, line, b, t - b); }
    ReceiveCounts(N, line, b, N - 1);
    RxNext(N, line, c - 1);
    forall t | c <= t <= c + h ensures BusyQuiet(RxAt(N, line, t)) { DoneCounts(N, line, c, t - c); }
    DoneCounts(N, line, c, h);
    RxNext(N, line, c + h);
  }

  /** A start bit seen in clock s leads to exactly one report, 9N + 2h + 3 clocks
      later, of the line's values at the eight sample points; until then the
      receiver is busy, and then it is back in IDLE. */
  lemma FrameReceived(N: nat, line: Line, s: nat)
    requires N >= 1
    requires RxAt(N, line, s).phase.RxIdle? && !RxAt(N, line, s).regIn
    ensures forall t :: s < t < ReportClock(N, s) ==> BusyQuiet(RxAt(N, line, t))
    ensures var r := RxAt(N, line, ReportClock(N, s));
      && r.phase.RxIdle? && r.done
      && forall i :: 0 <= i < 8 ==> r.out[i] == RxAt(N, line, SampleClock(N, s, i)).regIn
  {
    hide RxAt, SampleClock;
    Samples(N, line, s, 8);
    var b := WaitStart(N, s, 8);
    StopBit(N, line, b);
    assert b + N + Half(N) + 1 == ReportClock(N, s);
  }

  /** While the synchronised line is high, IDLE stays quiet. */
  lemma {:induction false} IdleStays(N: nat, line: Line, a: nat, b: nat)
    requires N >= 1 && a <= b && RxAt(N, line, a).phase.RxIdle?
    requires forall t :: a <= t < b ==> RxAt(N, line, t).regIn
    ensures RxAt(N, line, b).phase.RxIdle?
    ensures a < b ==> !RxAt(N, line, b).done
    decreases b - a
  {
    hide RxAt;
    if a < b {
      IdleStays(N, line, a, b - 1);
      RxNext(N, line, b - 1);
    }
  }

  // ---- Frames on the line -------------------------------------------------------------------

  /** Bit i of a frame: start, eight data bits, two stop bits. */
  function FrameBit(b: Bits, i: nat): bool
    requires i < PACKET_SIZE
  {
    if i == 0 then false else if i <= 8 then b[i - 1] else true
  }

  /** Clock d of bit i of a frame that begins at t. */
  function BitTime(M: nat, t: nat, i: nat, d: nat): nat { t + M * i + d }

  /** One frame of bit period M, carrying byte b from clock t on. */
  ghost predicate IsFrame(line: Line, M: nat, t: nat, b: Bits) {
    forall i: nat, d: nat :: i < PACKET_SIZE && d < M ==> line(BitTime(M, t, i, d)) == FrameBit(b, i)
  }

  /** Clock t is in no frame. */
  ghost predicate Between(M: nat, frame: nat -> Option<Bits>, t: nat) {
    forall u: nat :: u <= t < u + PACKET_SIZE * M ==> frame(u).None?
  }

  /** A line carrying frames: frame(t) is the byte whose start bit begins at t.
      Frames do not overlap, and the line is high between them. */
  ghost predicate Carries(line: Line, M: nat, frame: nat -> Option<Bits>) {
    && (forall t: nat, u: nat :: frame(t).Some? && frame(u).Some? && t < u ==> u >= t + PACKET_SIZE * M)
    && (forall t: nat :: frame(t).Some? ==> IsFrame(line, M, t, frame(t).value))
    && (forall t: nat :: Between(M, frame, t) ==> line(t))
  }

  /** The tolerance: sample k falls within data bit k for every k. */
  predicate Tolerates(N: nat, M: nat)
    requires N >= 1
  {
    8 * (M - N) <= (N - 1) / 2 + 1 && 8 * (N - M) <= M - (N - 1) / 2 - 2
  }

  /** Where sample k falls, measured from the start of the frame. */
  lemma SampleInBit(N: nat, M: nat, k: nat)
    requires N >= 2 && M >= 1 && k < 8 && Tolerates(N, M)
    ensures M * (k + 1) <= 1 + Half(N) + N * (k + 1) < M * (k + 1) + M
  {
    if k == 0 {} else if k == 1 {} else if k == 2 {} else if k == 3 {}
    else if k == 4 {} else if k == 5 {} else if k == 6 {} else {}
  }

  /** The whole report delay, from the first low clock of the start bit. */
  function Delay(N: nat): nat requires N >= 1 { 9 * N + 2 * ((N - 1) / 2) + 5 }

  /** Sample k of a frame is its data bit k. */
  lemma SampleIsBit(N: nat, M: nat, line: Line, t: nat, b: Bits, k: nat)
    requires N >= 2 && M >= 1 && Tolerates(N, M) && IsFrame(line, M, t, b) && k < 8
    ensures RxAt(N, line, SampleClock(N, t + 2, k)).regIn == b[k]
  {
    hide RxAt, Tolerates;
    SampleInBit(N, M, k);
    var d := 1 + Half(N) + N * (k + 1) - M * (k + 1);
    var u := BitTime(M, t, k + 1, d);
    assert u + 2 == SampleClock(N, t + 2, k);
    RegInIsLate(N, line, u);
    assert line(u) == FrameBit(b, k + 1);
  }

  lemma StartIsLow(N: nat, M: nat, line: Line, t: nat, b: Bits)
    requires N >= 1 && M >= 1 && IsFrame(line, M, t, b)
    ensures !RxAt(N, line, t + 2).regIn
  {
    hide RxAt;
    assert BitTime(M, t, 0, 0) == t;
    assert line(BitTime(M, t, 0, 0)) == FrameBit(b, 0);
    RegInIsLate(N, line, t);
  }

  /** If IDLE meets the start of a frame, the frame's byte is reported. */
  lemma FrameDecoded(N: nat, M: nat, line: Line, t: nat, b: Bits)
    requires N >= 2 && M >= 1 && Tolerates(N, M) && IsFrame(line, M, t, b)
    requires RxAt(N, line, t + 2).phase.RxIdle?
    ensures forall u :: t + 2 < u < t + Delay(N) ==> BusyQuiet(RxAt(N, line, u))
    ensures var r := RxAt(N, line, t + Delay(N)); r.phase.RxIdle? && r.done && r.out == b
  {
    hide RxAt, Tolerates, SampleClock, IsFrame;
    StartIsLow(N, M, line, t, b);
    FrameReceived(N, line, t + 2);
    assert ReportClock(N, t + 2) == t + Delay(N);
    forall k | 0 <= k < 8 ensures RxAt(N, line, t + Delay(N)).out[k] == b[k] {
      SampleIsBit(N, M, line, t, b, k);
    }
  }

  /** The report comes after the last data bit and before the next frame. */
  lemma DelayFits(N: nat, M: nat)
    requires N >= 2 && M >= 1 && Tolerates(N, M)
    ensures 9 * M + 2 <= Delay(N) < PACKET_SIZE * M + 2
  {
  }

  /** Once a frame is reported, the line it sees is high until the next frame. */
  lemma HighAfter(N: nat, M: nat, line: Line, frame: nat -> Option<Bits>, t: nat, u: nat)
    requires N >= 2 && M >= 1 && Tolerates(N, M) && Carries(line, M, frame) && frame(t).Some?
    requires t + Delay(N) <= u + 2
    requires forall v: nat :: t < v <= u ==> frame(v).None?
    ensures line(u)
  {
    DelayFits(N, M);
    if u < t + PACKET_SIZE * M {
      var i := if u < t + 10 * M then 9 else 10;
      var d := u - t - M * i;
      assert u == BitTime(M, t, i, d);
      assert line(BitTime(M, t, i, d)) == FrameBit(frame(t).value, i);
    } else {
      forall v: nat | v <= u < v + PACKET_SIZE * M ensures frame(v).None? {
      }
      assert Between(M, frame, u);
    }
  }

  /** Before the first frame the line is high. */
  lemma HighBefore(M: nat, line: Line, frame: nat -> Option<Bits>, u: nat)
    requires Carries(line, M, frame)
    requires forall v: nat :: v <= u ==> frame(v).None?
    ensures line(u)
  {
    assert Between(M, frame, u);
  }

  /** The last frame that begins before clock u, if any. */
  function LastFrame(frame: nat -> Option<Bits>, u: nat): (r: Option<nat>)
    ensures r.Some? ==> r.value < u && frame(r.value).Some? && forall v: nat :: r.value < v < u ==> frame(v).None?
    ensures r.None? ==> forall v: nat :: v < u ==> frame(v).None?
  {
    if u == 0 then None
    else if frame(u - 1).Some? then Some(u - 1)
    else LastFrame(frame, u - 1)
  }

  /** The receiver is back in IDLE, and quiet, at every clock from a frame's report
      until the next frame is seen. */
  lemma {:induction false} IdleBetween(N: nat, M: nat, line: Line, frame: nat -> Option<Bits>, u: nat)
    requires N >= 2 && M >= 1 && Tolerates(N, M) && Carries(line, M, frame)
    requires forall t: nat :: t < u && frame(t).Some? ==> t + Delay(N) <= u + 2
    ensures RxAt(N, line, u + 2).phase.RxIdle?
    ensures RxAt(N, line, u + 2).done <==> exists t: nat :: frame(t).Some? && t + Delay(N) == u + 2
    decreases u
  {
    hide RxAt, Tolerates, IsFrame, Delay;
    DelayFits(N, M);
    match LastFrame(frame, u)
    case None =>
      forall v | 0 <= v < u + 2 ensures RxAt(N, line, v).regIn {
        if v >= 2 {
          HighBefore(M, line, frame, v - 2);
          RegInIsLate(N, line, v - 2);
        } else {
          FirstClocks(N, line);
        }
      }
      FirstClocks(N, line);
      IdleStays(N, line, 0, u + 2);
    case Some(t) =>
      assert forall v: nat :: v < t && frame(v).Some? ==> v + PACKET_SIZE * M <= t;
      IdleBetween(N, M, line, frame, t);
      FrameDecoded(N, M, line, t, frame(t).value);
      forall v | t + Delay(N) <= v < u + 2 ensures RxAt(N, line, v).regIn {
        HighAfter(N, M, line, frame, t, v - 2);
        RegInIsLate(N, line, v - 2);
      }
      IdleStays(N, line, t + Delay(N), u + 2);
  }

  lemma FirstClocks(N: nat, line: Line)
    requires N >= 1
    ensures RxAt(N, line, 0) == RX_RESET && RxAt(N, line, 1).regIn
  {
  }

  /** Main result for a mismatched sender. Whatever back-to-back stream of frames
      of bit period M the line carries, a receiver of divisor N within the
      tolerance reports exactly those bytes, each once, each for one clock,
      9N + 2h + 5 clocks after its start bit begins. */
  lemma StreamDecoded(N: nat, M: nat, line: Line, frame: nat -> Option<Bits>, u: nat)
    requires N >= 2 && M >= 1 && Tolerates(N, M) && Carries(line, M, frame)
    ensures var r := RxAt(N, line, u);
      if u >= Delay(N) && frame(u - Delay(N)).Some? then r.done && r.out == frame(u - Delay(N)).value else !r.done
  {
    hide RxAt, Tolerates, IsFrame;
    DelayFits(N, M);
    if u < 2 {
      QuietFirst(N, line);
    } else {
      match LastFrame(frame, u - 2)
      case None => IdleBetween(N, M, line, frame, u - 2);
      case Some(t) =>
        IdleBetween(N, M, line, frame, t);
        FrameDecoded(N, M, line, t, frame(t).value);
        if u > t + Delay(N) { IdleBetween(N, M, line, frame, u - 2); }
    }
  }

  lemma QuietFirst(N: nat, line: Line)
    requires N >= 1
    ensures !RxAt(N, line, 0).done && !RxAt(N, line, 1).done
  {
  }

  // ---- The tolerance is exact ---------------------------------------------------------------

  /** One frame beginning at clock 0 of an otherwise high line. */
  function Single(M: nat, b: Bits): Line
    requires M >= 1
  {
    (t: nat) => t / M >= PACKET_SIZE || FrameBit(b, t / M)
  }

  /** The receiver reports b when b is all the line carries. */
  predicate Decodes(N: nat, M: nat, b: Bits)
    requires N >= 1 && M >= 1
  {
    var r := RxAt(N, Single(M, b), Delay(N));
    r.done && r.out == b
  }

  lemma DivMul(M: nat, i: nat, d: nat)
    requires M >= 1 && d < M
    ensures (M * i + d) / M == i
  {
    var q, r := (M * i + d) / M, (M * i + d) % M;
    assert M * (q - i) == d - r;
    if q > i { MulAtLeast(M, q - i); } else if q < i { MulAtLeast(M, i - q); }
  }

  lemma MulAtLeast(M: nat, x: nat)
    requires x >= 1
    ensures M * x >= M
  {
  }

  lemma SingleFrame(M: nat, b: Bits)
    requires M >= 1
    ensures IsFrame(Single(M, b), M, 0, b)
  {
    forall i: nat, d: nat | i < PACKET_SIZE && d < M
      ensures Single(M, b)(BitTime(M, 0, i, d)) == FrameBit(b, i)
    {
      DivMul(M, i, d);
    }
  }

  lemma StartsIdle(N: nat, line: Line)
    requires N >= 1
    ensures RxAt(N, line, 2).phase.RxIdle?
  {
    hide RxAt;
    FirstClocks(N, line);
    RxNext(N, line, 0);
    RxNext(N, line, 1);
  }

  /** Data bit 7 of what a single frame leads to. */
  lemma LastSample(N: nat, M: nat, b: Bits)
    requires N >= 1 && M >= 1
    ensures var r := RxAt(N, Single(M, b), Delay(N)); r.done && r.out[7] == Single(M, b)(1 + Half(N) + 8 * N)
  {
    hide RxAt, Single;
    var line := Single(M, b);
    StartsIdle(N, line);
    SingleFrame(M, b);
    StartIsLow(N, M, line, 0, b);
    FrameReceived(N, line, 2);
    RegInIsLate(N, line, 1 + Half(N) + 8 * N);
    assert SampleClock(N, 2, 7) == 1 + Half(N) + 8 * N + 2;
    assert ReportClock(N, 2) == Delay(N);
  }

  const ONLY_TOP: Bits := [false, false, false, false, false, false, false, true]

  lemma QuotientBounds(M: nat, p: nat, lo: nat, hi: nat)
    requires M >= 1 && M * lo <= p
    ensures lo <= p / M
    ensures p < M * hi ==> p / M < hi
  {
    var q := p / M;
    assert M * q <= p < M * (q + 1) by { assert M * (q + 1) == M * q + M; }
    if q < lo { MulGrows(M, q + 1, lo); }
    if q >= hi { MulGrows(M, hi, q); }
  }

  /** If the receiver is too slow a sender's last data bit is read in the stop
      bit, if too fast in the bit before it. */
  lemma OutsideTolerance(N: nat, M: nat)
    requires N >= 2 && M >= 1 && !Tolerates(N, M)
    ensures !Decodes(N, M, ONLY_TOP) || !Decodes(N, M, ZERO_BITS)
  {
    hide RxAt;
    var p := 1 + Half(N) + 8 * N;
    if 8 * (M - N) > Half(N) + 1 {
      LastSample(N, M, ONLY_TOP);
      QuotientBounds(M, p, 0, 8);
    } else {
      LastSample(N, M, ZERO_BITS);
      QuotientBounds(M, p, 9, p + 1);
    }
  }

  /** Every byte is received from a sender of bit period M exactly if the divisors
      are within the tolerance. */
  lemma ToleranceIsExact(N: nat, M: nat)
    requires N >= 2 && M >= 1
    ensures (forall b: Bits :: Decodes(N, M, b)) <==> Tolerates(N, M)
  {
    hide RxAt, Single;
    if Tolerates(N, M) {
      forall b: Bits ensures Decodes(N, M, b) {
        StartsIdle(N, Single(M, b));
        SingleFrame(M, b);
        FrameDecoded(N, M, Single(M, b), 0, b);
      }
    } else {
      OutsideTolerance(N, M);
    }
  }

  // ---- Loopback ---------------------------------------------------------------------------------

  /** The transmitter before clock t, offered bytes by `offers`. */
  function TxAt(N: nat, offers: nat -> Option<Bits>, t: nat): (x: Tx)
    requires N >= 1
    ensures TxOk(x)
  {
    if t == 0 then TX_RESET else TxStep(N, TxAt(N, offers, t - 1), offers(t - 1))
  }

  function TxLine(N: nat, offers: nat -> Option<Bits>): Line
    requires N >= 1
  {
    (t: nat) => TxAt(N, offers, t).out
  }

  lemma TxNext(N: nat, offers: nat -> Option<Bits>, t: nat)
    requires N >= 1
    ensures TxAt(N, offers, t + 1) == TxStep(N, TxAt(N, offers, t), offers(t))
  {
  }

  /** busy is low exactly in IDLE, and an idle transmitter holds the line high. */
  lemma {:induction false} TxInvariant(N: nat, offers: nat -> Option<Bits>, t: nat)
    requires N >= 1
    ensures var x := TxAt(N, offers, t);
      (x.busy <==> !x.phase.TxIdle?) && (x.phase.Transmit? ==> x.packet[10]) && (!x.phase.Transmit? ==> x.out)
  {
    hide TxAt;
    if t > 0 {
      TxInvariant(N, offers, t - 1);
      TxNext(N, offers, t - 1);
    } else {
      TxStarts(N, offers);
    }
  }

  lemma TxStarts(N: nat, offers: nat -> Option<Bits>)
    requires N >= 1
    ensures TxAt(N, offers, 0) == TX_RESET
  {
  }

  /** Clock d of bit i of the frame sent for the byte taken in clock c. */
  function SendTime(N: nat, c: nat, i: nat, d: nat): nat { BitTime(N, c + 1, i, d) }

  lemma {:induction false} TxTransmits(N: nat, offers: nat -> Option<Bits>, c: nat, i: nat, d: nat)
    requires N >= 1 && i < PACKET_SIZE && d < N
    requires TxAt(N, offers, c).phase.TxIdle? && offers(c).Some?
    ensures var x := TxAt(N, offers, SendTime(N, c, i, d));
      x.phase.Transmit? && x.index == i && x.count == d && x.packet == Packet(offers(c).value) && !x.done
    decreases i, d
  {
    hide TxAt;
    if d > 0 {
      TxTransmits(N, offers, c, i, d - 1);
      TxNext(N, offers, SendTime(N, c, i, d - 1));
    } else if i > 0 {
      TxTransmits(N, offers, c, i - 1, N - 1);
      assert SendTime(N, c, i, 0) == SendTime(N, c, i - 1, N - 1) + 1;
      TxNext(N, offers, SendTime(N, c, i - 1, N - 1));
    } else {
      assert SendTime(N, c, 0, 0) == c + 1;
      TxNext(N, offers, c);
    }
  }

  /** The byte taken in clock c is on the line, bit by bit, from clock c + 2. */
  lemma TxSendsFrame(N: nat, offers: nat -> Option<Bits>, c: nat)
    requires N >= 1 && TxAt(N, offers, c).phase.TxIdle? && offers(c).Some?
    ensures IsFrame(TxLine(N, offers), N, c + 2, offers(c).value)
  {
    hide TxAt;
    var s := c + 2;
    forall i: nat, d: nat | i < PACKET_SIZE && d < N
      ensures TxLine(N, offers)(BitTime(N, s, i, d)) == FrameBit(offers(c).value, i)
    {
      TxTransmits(N, offers, c, i, d);
      TxNext(N, offers, SendTime(N, c, i, d));
      assert BitTime(N, c + 2, i, d) == SendTime(N, c, i, d) + 1;
    }
  }

  /** It is busy for 11N + 1 clocks without a report, and then idle with tx_done high for
      one clock. */
  lemma TxBusyFor(N: nat, offers: nat -> Option<Bits>, c: nat)
    requires N >= 1 && TxAt(N, offers, c).phase.TxIdle? && offers(c).Some?
    ensures forall t :: c < t < c + 2 + 11 * N ==> TxAt(N, offers, t).busy && !TxAt(N, offers, t).done
    ensures var x := TxAt(N, offers, c + 2 + 11 * N); x.phase.TxIdle? && !x.busy && x.done
    ensures !TxAt(N, offers, c + 3 + 11 * N).done
  {
    hide TxAt;
    forall t | c < t <= c + 11 * N ensures TxAt(N, offers, t).busy && !TxAt(N, offers, t).done {
      var i, d := SplitTime(N, t - c - 1);
      TxTransmits(N, offers, c, i, d);
      TxInvariant(N, offers, t);
    }
    var last := SendTime(N, c, 10, N - 1);
    TxTransmits(N, offers, c, 10, N - 1);
    TxNext(N, offers, last);
    TxInvariant(N, offers, last + 1);
    TxNext(N, offers, last + 1);
    TxInvariant(N, offers, last + 2);
    TxNext(N, offers, last + 2);
  }

  lemma SplitTime(N: nat, x: nat) returns (i: nat, d: nat)
    requires N >= 1 && x < PACKET_SIZE * N
    ensures i < PACKET_SIZE && d < N && x == N * i + d
  {
    i, d := x / N, x % N;
    if i >= PACKET_SIZE { MulGrows(N, PACKET_SIZE, i); }
  }

  lemma MulGrows(N: nat, x: nat, y: nat)
    requires x <= y
    ensures N * x <= N * y
  {
    assert N * y == N * x + N * (y - x);
  }

  lemma {:induction false} TxIdleStays(N: nat, offers: nat -> Option<Bits>, a: nat, b: nat)
    requires N >= 1 && a <= b && TxAt(N, offers, a).phase.TxIdle?
    requires forall t: nat :: a <= t < b ==> offers(t).None?
    ensures TxAt(N, offers, b).phase.TxIdle?
    decreases b - a
  {
    hide TxAt;
    if a < b {
      TxIdleStays(N, offers, a, b - 1);
      TxNext(N, offers, b - 1);
    }
  }

  /** Bytes are offered only when the transmitter is not busy. */
  ghost predicate OfferedWhenFree(N: nat, offers: nat -> Option<Bits>)
    requires N >= 1
  {
    forall t: nat :: offers(t).Some? ==> !TxAt(N, offers, t).busy
  }

  /** The frames that offers produce, two clocks later. */
  function FrameOf(offers: nat -> Option<Bits>): nat -> Option<Bits> {
    (t: nat) => if t >= 2 then offers(t - 2) else None
  }

  lemma HighBetween(N: nat, offers: nat -> Option<Bits>, t: nat)
    requires N >= 1 && OfferedWhenFree(N, offers) && Between(N, FrameOf(offers), t)
    ensures TxAt(N, offers, t).out
  {
    hide TxAt;
    match LastFrame(offers, t)
    case None =>
      TxStarts(N, offers);
      TxIdleStays(N, offers, 0, t);
      TxInvariant(N, offers, t);
    case Some(c) =>
      TxInvariant(N, offers, c);
      if t == c + 1 {
        TxNext(N, offers, c);
      } else {
        assert FrameOf(offers)(c + 2).Some?;
        assert t >= c + 2 + PACKET_SIZE * N;
        TxBusyFor(N, offers, c);
        TxIdleStays(N, offers, c + 2 + PACKET_SIZE * N, t);
        TxInvariant(N, offers, t);
      }
  }

  lemma LoopCarries(N: nat, offers: nat -> Option<Bits>)
    requires N >= 1 && OfferedWhenFree(N, offers)
    ensures Carries(TxLine(N, offers), N, FrameOf(offers))
  {
    hide TxAt, IsFrame, Between;
    var frame, line := FrameOf(offers), TxLine(N, offers);
    forall t: nat, u: nat | frame(t).Some? && frame(u).Some? && t < u ensures u >= t + PACKET_SIZE * N {
      TxInvariant(N, offers, t - 2);
      TxBusyFor(N, offers, t - 2);
    }
    forall t: nat | frame(t).Some? ensures IsFrame(line, N, t, frame(t).value) {
      TxInvariant(N, offers, t - 2);
      TxSendsFrame(N, offers, t - 2);
    }
    forall t: nat | Between(N, frame, t) ensures line(t) { HighBetween(N, offers, t); }
  }

  /** Main result for the loopback: at every divisor N >= 2 the link is a pure
      delay of 9N + 2h + 7 clocks. The receiver reports in clock t exactly if a
      byte was offered that many clocks earlier, and reports that byte; so every
      byte comes out once, unchanged and in order, with a one-clock pulse. */
  lemma LoopbackIsDelay(N: nat, offers: nat -> Option<Bits>, t: nat)
    requires N >= 2 && OfferedWhenFree(N, offers)
    ensures var r, d := RxAt(N, TxLine(N, offers), t), Delay(N) + 2;
      if t >= d && offers(t - d).Some? then r.done && r.out == offers(t - d).value else !r.done
  {
    hide RxAt, TxAt, Carries, OfferedWhenFree;
    LoopCarries(N, offers);
    StreamDecoded(N, N, TxLine(N, offers), FrameOf(offers), t);
  }
}
