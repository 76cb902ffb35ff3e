/** The debug unit on its wires: serial frames in, serial frames out. */
module DebugLink {
  import opened Options
  import opened Uart
  import opened SerialLink
  import opened DebugUart
  import opened DebugUnit
  import opened DebugCommands

  // ---- Bytes and bits -------------------------------------------------------------------

  function FromBits(b: Bits): (r: nat)
    ensures r < 256
  {
    assert Pow2(8) == 256;
    ValueOf(b)
  }

  lemma FromToBits(b: Byte)
    ensures FromBits(ToBits(b)) == b
  {
    assert Pow2(8) == 256;
    ValueOfBits(b, 8);
  }

  // ---- The unit behind its receiver -------------------------------------------------------

  type Arrivals = nat -> Option<Byte>

  /** What the receiver reports in each clock. */
  function Reports(N: nat, line: Line): Arrivals
    requires N >= 1
  {
    (t: nat) => var r := RxAt(N, line, t); if r.done then Some(FromBits(r.out)) else None
  }

  /** The unit before clock t. */
  function UnitAt(N: nat, v: View, u: Unit, rx: Arrivals, t: nat): (r: Unit)
    requires N >= 1 && Sized(u)
    ensures Sized(r)
  {
    if t == 0 then u else UnitStep(N, v, UnitAt(N, v, u, rx, t - 1), rx(t - 1))
  }

  lemma {:induction false} UnitAtOk(N: nat, v: View, u: Unit, rx: Arrivals, t: nat)
    requires Divisor(N) && UnitOk(N, u)
    ensures UnitOk(N, UnitAt(N, v, u, rx, t))
  {
    hide UnitStep, Joined, FsmShape;
    if t > 0 {
      UnitAtOk(N, v, u, rx, t - 1);
      UnitKept(N, v, UnitAt(N, v, u, rx, t - 1), rx(t - 1));
    }
  }

  /** Clocks in which nothing is reported are quiet clocks. */
  lemma {:induction false} Silence(N: nat, v: View, u: Unit, rx: Arrivals, a: nat, n: nat)
    requires N >= 1 && Sized(u) && forall s: nat :: a <= s < a + n ==> rx(s).None?
    ensures UnitAt(N, v, u, rx, a + n) == Quiet(N, v, UnitAt(N, v, u, rx, a), n)
  {
    hide UnitStep, Sized;
    if n > 0 { Silence(N, v, u, rx, a, n - 1); }
  }

  // ---- Bytes in ---------------------------------------------------------------------------

  /** The frames on the line are these bytes, beginning at these clocks. */
  ghost predicate Schedules(frame: nat -> Option<Bits>, starts: seq<nat>, bytes: seq<Byte>) {
    && |starts| == |bytes|
    && (forall j, k :: 0 <= j < k < |starts| ==> starts[j] < starts[k])
    && (forall k :: 0 <= k < |starts| ==> frame(starts[k]) == Some(ToBits(bytes[k])))
    && (forall t: nat :: frame(t).Some? ==> t in starts)
  }

  /** The clock after byte k - 1 is reported. */
  function Seen(N: nat, starts: seq<nat>, k: nat): nat
    requires N >= 1 && k <= |starts|
  {
    if k == 0 then 0 else starts[k - 1] + Delay(N) + 1
  }

  ghost predicate Increasing(starts: seq<nat>) { forall j, k :: 0 <= j < k < |starts| ==> starts[j] < starts[k] }

  /** Quiet clocks before each byte. */
  function Gaps(N: nat, starts: seq<nat>): (g: seq<nat>)
    requires N >= 1 && Increasing(starts)
    ensures |g| == |starts|
  {
    seq(|starts|, k requires 0 <= k < |starts| => starts[k] + Delay(N) - Seen(N, starts, k))
  }

  lemma ReportsBytes(N: nat, M: nat, line: Line, frame: nat -> Option<Bits>, starts: seq<nat>, bytes: seq<Byte>, t: nat)
    requires N >= 2 && M >= 1 && Tolerates(N, M) && Carries(line, M, frame) && Schedules(frame, starts, bytes)
    ensures t >= Delay(N) && t - Delay(N) in starts ==>
      exists k :: 0 <= k < |starts| && starts[k] == t - Delay(N) && Reports(N, line)(t) == Some(bytes[k])
    ensures !(t >= Delay(N) && t - Delay(N) in starts) ==> Reports(N, line)(t).None?
  {
    hide RxAt, Carries, Tolerates, Delay, ToBits, FromBits;
    StreamDecoded(N, M, line, frame, t);
    if t >= Delay(N) && t - Delay(N) in starts {
      var k :| 0 <= k < |starts| && starts[k] == t - Delay(N);
      FromToBits(bytes[k]);
    }
  }

  lemma OneArrival(N: nat, v: View, u: Unit, rx: Arrivals, a: nat, s: nat)
    requires N >= 1 && Sized(u) && a <= s && rx(s).Some?
    requires forall t: nat :: a <= t < s ==> rx(t).None?
    ensures UnitAt(N, v, u, rx, s + 1) == Deliver(N, v, UnitAt(N, v, u, rx, a), s - a, rx(s).value)
  {
    hide UnitStep, Sized;
    Silence(N, v, u, rx, a, s - a);
  }

  lemma Arrival(N: nat, M: nat, line: Line, frame: nat -> Option<Bits>, starts: seq<nat>, bytes: seq<Byte>, k: nat)
    requires N >= 2 && M >= 1 && Tolerates(N, M) && Carries(line, M, frame) && Schedules(frame, starts, bytes)
    requires k < |bytes|
    ensures var a, s := Seen(N, starts, k), starts[k] + Delay(N);
      && a <= s && Reports(N, line)(s) == Some(bytes[k])
      && forall t: nat :: a <= t < s ==> Reports(N, line)(t).None?
  {
    hide Carries, Tolerates, Delay, Reports;
    var a, s := Seen(N, starts, k), starts[k] + Delay(N);
    forall t: nat | a <= t < s ensures Reports(N, line)(t).None? {
      ReportsBytes(N, M, line, frame, starts, bytes, t);
    }
    ReportsBytes(N, M, line, frame, starts, bytes, s);
  }

  /** The unit sees the frames' bytes with the frames' spacing. */
  lemma {:induction false} WireFeeds(N: nat, M: nat, line: Line, frame: nat -> Option<Bits>, starts: seq<nat>,
      bytes: seq<Byte>, v: View, u: Unit, k: nat)
    requires N >= 2 && M >= 1 && Tolerates(N, M) && Carries(line, M, frame) && Schedules(frame, starts, bytes)
    requires Sized(u) && k <= |bytes|
    ensures UnitAt(N, v, u, Reports(N, line), Seen(N, starts, k)) == Feed(N, v, u, bytes[..k], Gaps(N, starts)[..k])
  {
    hide Deliver, Sized, Carries, Tolerates, Delay, Reports, UnitAt;
    var gaps, rx := Gaps(N, starts), Reports(N, line);
    if k > 0 {
      WireFeeds(N, M, line, frame, starts, bytes, v, u, k - 1);
      var a, s := Seen(N, starts, k - 1), starts[k - 1] + Delay(N);
      Arrival(N, M, line, frame, starts, bytes, k - 1);
      OneArrival(N, v, u, rx, a, s);
      assert bytes[..k][..k - 1] == bytes[..k - 1] && gaps[..k][..k - 1] == gaps[..k - 1];
    } else {
      AtZero(N, v, u, rx);
    }
  }

  lemma AtZero(N: nat, v: View, u: Unit, rx: Arrivals)
    requires N >= 1 && Sized(u)
    ensures UnitAt(N, v, u, rx, 0) == u
  {
  }

  // ---- Bytes out --------------------------------------------------------------------------

  /** The byte a unit offers its transmitter. */
  function Offer(u: Unit): Option<Byte> { if u.f.txEn then Some(u.f.txData) else None }

  function OfferBits(u: Unit): Option<Bits> { if u.f.txEn then Some(ToBits(u.f.txData)) else None }

  function OffersOf(N: nat, v: View, u: Unit, rx: Arrivals): nat -> Option<Bits>
    requires N >= 1 && Sized(u)
  {
    (t: nat) => OfferBits(UnitAt(N, v, u, rx, t))
  }

  lemma OfferTaken(N: nat, v: View, u: Unit, b: Option<Byte>)
    requires Divisor(N) && UnitOk(N, u)
    ensures var r := UnitStep(N, v, u, b);
      r.tx == TxStep(N, u.tx, OfferBits(u)) && r.sent == u.sent + One(Offer(u))
  {
    hide FsmStep, TxStep, ToBits, FsmShape;
  }

  lemma UnitNext(N: nat, v: View, u: Unit, rx: Arrivals, t: nat)
    requires N >= 1 && Sized(u)
    ensures UnitAt(N, v, u, rx, t + 1) == UnitStep(N, v, UnitAt(N, v, u, rx, t), rx(t))
  {
    hide Sized, UnitStep;
  }

  /** The unit's transmitter is the serial link's, fed with those offers. */
  lemma {:induction false} TxIsLinkTx(N: nat, v: View, u: Unit, rx: Arrivals, t: nat)
    requires Divisor(N) && UnitOk(N, u) && u.tx == TX_RESET
    ensures UnitAt(N, v, u, rx, t).tx == TxAt(N, OffersOf(N, v, u, rx), t)
  {
    hide TxStep, UnitStep, OfferBits, Joined, FsmShape, UnitAt, TxAt;
    var offers := OffersOf(N, v, u, rx);
    if t > 0 {
      var w := UnitAt(N, v, u, rx, t - 1);
      TxIsLinkTx(N, v, u, rx, t - 1);
      UnitAtOk(N, v, u, rx, t - 1);
      OfferTaken(N, v, w, rx(t - 1));
      UnitNext(N, v, u, rx, t - 1);
      TxNext(N, offers, t - 1);
      assert offers(t - 1) == OfferBits(w);
    } else {
      AtZero(N, v, u, rx);
      TxStarts(N, offers);
    }
  }

  /** The bytes a receiver of divisor H has reported before clock t. */
  function Heard(H: nat, line: Line, t: nat): seq<Byte>
    requires H >= 1
  {
    if t == 0 then [] else Heard(H, line, t - 1) + One(Reports(H, line)(t - 1))
  }

  function One(b: Option<Byte>): seq<Byte> { if b.Some? then [b.value] else [] }

  function OutLine(N: nat, v: View, u: Unit, rx: Arrivals): Line
    requires N >= 1 && Sized(u)
  {
    TxLine(N, OffersOf(N, v, u, rx))
  }

  lemma OffersFree(N: nat, v: View, u: Unit, rx: Arrivals)
    requires Divisor(N) && UnitOk(N, u) && u.tx == TX_RESET
    ensures OfferedWhenFree(N, OffersOf(N, v, u, rx))
  {
    hide UnitAt, TxAt, FsmShape;
    forall t: nat | OffersOf(N, v, u, rx)(t).Some? ensures !TxAt(N, OffersOf(N, v, u, rx), t).busy {
      UnitAtOk(N, v, u, rx, t);
      TxIsLinkTx(N, v, u, rx, t);
    }
  }

  /** Clocks from taking a byte to hearing it. */
  function Lag(H: nat): nat requires H >= 1 { Delay(H) + 2 }

  lemma HeardLater(N: nat, H: nat, v: View, u: Unit, rx: Arrivals, t: nat)
    requires Divisor(N) && H >= 2 && Tolerates(H, N) && UnitOk(N, u) && u.tx == TX_RESET
    ensures Reports(H, OutLine(N, v, u, rx))(t) == if t >= Lag(H) then Offer(UnitAt(N, v, u, rx, t - Lag(H))) else None
  {
    hide RxAt, TxAt, Delay, Tolerates, UnitAt, Carries, FromBits, ToBits, FsmShape, Joined;
    var offers := OffersOf(N, v, u, rx);
    var line := TxLine(N, offers);
    OffersFree(N, v, u, rx);
    LoopCarries(N, offers);
    var frame := FrameOf(offers);
    StreamDecoded(H, N, line, frame, t);
    if t >= Lag(H) {
      var w := UnitAt(N, v, u, rx, t - Lag(H));
      assert frame(t - Delay(H)) == offers(t - Lag(H)) == OfferBits(w);
      FromToBits(w.f.txData);
    } else if t >= Delay(H) {
      assert frame(t - Delay(H)).None?;
    }
  }

  lemma {:induction false} NothingYet(H: nat, line: Line, n: nat)
    requires H >= 1 && forall t: nat :: t < n ==> Reports(H, line)(t).None?
    ensures Heard(H, line, n) == []
  {
    hide Reports;
    if n > 0 { NothingYet(H, line, n - 1); }
  }

  /** What the unit sends, a receiver within the tolerance hears: Lag clocks later
      it has reported exactly the bytes the unit had sent, in order. */
  lemma {:induction false} SentIsHeard(N: nat, H: nat, v: View, u: Unit, rx: Arrivals, t: nat)
    requires Divisor(N) && H >= 2 && Tolerates(H, N) && UnitOk(N, u) && u.tx == TX_RESET && u.sent == []
    ensures Heard(H, OutLine(N, v, u, rx), t + Lag(H)) == UnitAt(N, v, u, rx, t).sent
    decreases t
  {
    hide Reports, Lag, OutLine, UnitAt, UnitStep, Tolerates, FsmShape, Joined, One;
    var line := OutLine(N, v, u, rx);
    if t > 0 {
      SentIsHeard(N, H, v, u, rx, t - 1);
      HeardLater(N, H, v, u, rx, t - 1 + Lag(H));
      UnitAtOk(N, v, u, rx, t - 1);
      OfferTaken(N, v, UnitAt(N, v, u, rx, t - 1), rx(t - 1));
      UnitNext(N, v, u, rx, t - 1);
    } else {
      AtZero(N, v, u, rx);
      forall s: nat | s < Lag(H) ensures Reports(H, line)(s).None? { HeardLater(N, H, v, u, rx, s); }
      NothingYet(H, line, Lag(H));
    }
  }

  // ---- After the last byte --------------------------------------------------------------------

  lemma QuietAfterLast(N: nat, M: nat, line: Line, frame: nat -> Option<Bits>, starts: seq<nat>, bytes: seq<Byte>,
      t: nat)
    requires N >= 2 && M >= 1 && Tolerates(N, M) && Carries(line, M, frame) && Schedules(frame, starts, bytes)
    requires t >= Seen(N, starts, |starts|)
    ensures Reports(N, line)(t).None?
  {
    hide Carries, Tolerates, Delay, Reports;
    ReportsBytes(N, M, line, frame, starts, bytes, t);
  }

  lemma SilentTail(N: nat, M: nat, line: Line, frame: nat -> Option<Bits>, starts: seq<nat>, bytes: seq<Byte>,
      v: View, u: Unit, n: nat)
    requires N >= 2 && M >= 1 && Tolerates(N, M) && Carries(line, M, frame) && Schedules(frame, starts, bytes)
    requires Sized(u)
    ensures var a := Seen(N, starts, |starts|);
      UnitAt(N, v, u, Reports(N, line), a + n) == Quiet(N, v, UnitAt(N, v, u, Reports(N, line), a), n)
  {
    hide Carries, Tolerates, Reports, UnitAt, Sized, Seen, Quiet, Schedules;
    var a, rx := Seen(N, starts, |starts|), Reports(N, line);
    forall t: nat | a <= t < a + n ensures rx(t).None? {
      QuietAfterLast(N, M, line, frame, starts, bytes, t);
    }
    Silence(N, v, u, rx, a, n);
  }
}
