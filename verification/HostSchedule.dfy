/** A schedule for every debug session: the host's frames as it could write them, on
    a line that carries them, at a pace that satisfies the session theorem. */
module HostSchedule {
  import opened Options
  import opened Uart
  import opened SerialLink
  import opened DebugUart
  import opened DebugUnit
  import opened DebugCommands
  import opened DebugLink
  import opened DebugSession

  // ---- When the frames begin ------------------------------------------------------------------

  /** Long enough between two commands for the longest reply to be sent and read. */
  function Pause(N: nat, M: nat, H: nat): nat
    requires N >= 1 && H >= 1
  {
    Delay(N) + 1 + RecoveryBound(N) + Lag(H) + PACKET_SIZE * M
  }

  function Begin(N: nat, M: nat, H: nat, prev: seq<nat>): nat
    requires N >= 1 && H >= 1
  {
    if prev == [] then 0 else prev[|prev| - 1] + Pause(N, M, H)
  }

  function BackToBack(M: nat, t: nat, n: nat): (s: seq<nat>)
    ensures |s| == n
  {
    seq(n, j requires 0 <= j < n => t + PACKET_SIZE * M * j)
  }

  /** Each command's frames back to back. */
  function Starts(N: nat, M: nat, H: nat, cs: seq<Command>): (s: seq<nat>)
    requires N >= 1 && H >= 1
    ensures |s| == |AllBytes(cs)|
  {
    if cs == [] then []
    else
      var prev := Starts(N, M, H, cs[..|cs| - 1]);
      prev + BackToBack(M, Begin(N, M, H, prev), |Encode(cs[|cs| - 1])|)
  }

  /** Starts at least a frame apart. */
  ghost predicate Spaced(M: nat, starts: seq<nat>) {
    forall j, k :: 0 <= j < k < |starts| ==> starts[j] + PACKET_SIZE * M <= starts[k]
  }

  lemma StepUp(M: nat, t: nat, n: nat, j: nat, k: nat)
    requires j < k < n
    ensures BackToBack(M, t, n)[j] + PACKET_SIZE * M <= BackToBack(M, t, n)[k]
    ensures k == j + 1 ==> BackToBack(M, t, n)[k] - BackToBack(M, t, n)[j] == PACKET_SIZE * M
  {
    MulUp(j + 1, k, PACKET_SIZE * M);
    assert PACKET_SIZE * M * k >= PACKET_SIZE * M * j + PACKET_SIZE * M;
  }

  lemma {:induction false} StartsSpaced(N: nat, M: nat, H: nat, cs: seq<Command>)
    requires N >= 1 && H >= 1
    ensures Spaced(M, Starts(N, M, H, cs))
  {
    hide Encode, Pause;
    if cs != [] {
      StartsSpaced(N, M, H, cs[..|cs| - 1]);
      Appends(N, M, H, Starts(N, M, H, cs[..|cs| - 1]), |Encode(cs[|cs| - 1])|);
    }
  }

  lemma Appends(N: nat, M: nat, H: nat, prev: seq<nat>, n: nat)
    requires N >= 1 && H >= 1 && Spaced(M, prev)
    ensures Spaced(M, prev + BackToBack(M, Begin(N, M, H, prev), n))
  {
    hide Delay, Lag, RecoveryBound, BackToBack;
    var t, p := Begin(N, M, H, prev), |prev|;
    var s := prev + BackToBack(M, t, n);
    forall j, k | 0 <= j < k < |s| ensures s[j] + PACKET_SIZE * M <= s[k] {
      if j >= p {
        StepUp(M, t, n, j - p, k - p);
      } else if k >= p {
        FirstIs(M, t, n, k - p);
        assert prev[j] <= prev[p - 1];
      }
    }
  }

  lemma FirstIs(M: nat, t: nat, n: nat, k: nat)
    requires k < n
    ensures BackToBack(M, t, n)[k] >= t && BackToBack(M, t, n)[0] == t
  {
    MulUp(0, k, PACKET_SIZE * M);
  }

  // ---- The line that carries them ----------------------------------------------------------------

  function FrameAt(starts: seq<nat>, bytes: seq<Byte>, t: nat): Option<Bits>
    requires |starts| == |bytes|
    decreases |starts|
  {
    var n := |starts| - 1;
    if n < 0 then None
    else if starts[n] == t then Some(ToBits(bytes[n]))
    else FrameAt(starts[..n], bytes[..n], t)
  }

  function Frames(starts: seq<nat>, bytes: seq<Byte>): nat -> Option<Bits>
    requires |starts| == |bytes|
  {
    (t: nat) => FrameAt(starts, bytes, t)
  }

  lemma {:induction false} FrameOnly(starts: seq<nat>, bytes: seq<Byte>, t: nat)
    requires |starts| == |bytes|
    ensures FrameAt(starts, bytes, t).Some? ==> t in starts
    decreases |starts|
  {
    hide ToBits;
    var n := |starts| - 1;
    if n >= 0 && starts[n] != t { FrameOnly(starts[..n], bytes[..n], t); }
  }

  lemma {:induction false} FrameThere(starts: seq<nat>, bytes: seq<Byte>, k: nat)
    requires |starts| == |bytes| && Increasing(starts) && k < |starts|
    ensures FrameAt(starts, bytes, starts[k]) == Some(ToBits(bytes[k]))
    decreases |starts|
  {
    hide ToBits;
    var n := |starts| - 1;
    if k < n { FrameThere(starts[..n], bytes[..n], k); }
  }

  /** High except inside a frame. */
  function LineOf(M: nat, frame: nat -> Option<Bits>): Line
    requires M >= 1
  {
    (t: nat) =>
      match LastFrame(frame, t + 1)
      case None => true
      case Some(s) => (t - s) / M >= PACKET_SIZE || FrameBit(frame(s).value, (t - s) / M)
  }

  lemma Latest(frame: nat -> Option<Bits>, M: nat, s: nat, t: nat)
    requires frame(s).Some? && s <= t < s + PACKET_SIZE * M
    requires forall a: nat, b: nat :: frame(a).Some? && frame(b).Some? && a < b ==> b >= a + PACKET_SIZE * M
    ensures LastFrame(frame, t + 1) == Some(s)
  {
    hide LastFrame;
    var r := LastFrame(frame, t + 1);
    assert r.Some?;
    assert r.value >= s;
  }

  lemma FrameShown(M: nat, frame: nat -> Option<Bits>, s: nat)
    requires M >= 1 && frame(s).Some?
    requires forall a: nat, b: nat :: frame(a).Some? && frame(b).Some? && a < b ==> b >= a + PACKET_SIZE * M
    ensures IsFrame(LineOf(M, frame), M, s, frame(s).value)
  {
    hide LastFrame, FrameBit;
    forall i: nat, d: nat | i < PACKET_SIZE && d < M
      ensures LineOf(M, frame)(BitTime(M, s, i, d)) == FrameBit(frame(s).value, i)
    {
      var t := BitTime(M, s, i, d);
      assert t < s + PACKET_SIZE * M by { MulUp(i, PACKET_SIZE - 1, M); }
      Latest(frame, M, s, t);
      DivMul(M, i, d);
    }
  }

  lemma HighOutside(M: nat, frame: nat -> Option<Bits>, t: nat)
    requires M >= 1 && Between(M, frame, t)
    ensures LineOf(M, frame)(t)
  {
    hide FrameBit;
    match LastFrame(frame, t + 1)
    case None =>
    case Some(s) =>
      assert t >= s + PACKET_SIZE * M;
      QuotientBounds(M, t - s, PACKET_SIZE, PACKET_SIZE);
  }

  lemma LineCarries(M: nat, starts: seq<nat>, bytes: seq<Byte>)
    requires M >= 1 && |starts| == |bytes| && Spaced(M, starts)
    ensures Increasing(starts)
    ensures Schedules(Frames(starts, bytes), starts, bytes)
    ensures Carries(LineOf(M, Frames(starts, bytes)), M, Frames(starts, bytes))
  {
    hide IsFrame, Between, LineOf, ToBits, FrameAt;
    var frame := Frames(starts, bytes);
    forall k | 0 <= k < |starts| ensures frame(starts[k]) == Some(ToBits(bytes[k])) { FrameThere(starts, bytes, k); }
    forall t: nat | frame(t).Some? ensures t in starts { FrameOnly(starts, bytes, t); }
    forall a: nat, b: nat | frame(a).Some? && frame(b).Some? && a < b ensures b >= a + PACKET_SIZE * M {
      FrameOnly(starts, bytes, a);
      FrameOnly(starts, bytes, b);
      SpacedOut(M, starts, a, b);
    }
    forall t: nat | frame(t).Some? ensures IsFrame(LineOf(M, frame), M, t, frame(t).value) { FrameShown(M, frame, t); }
    forall t: nat | Between(M, frame, t) ensures LineOf(M, frame)(t) { HighOutside(M, frame, t); }
  }

  lemma SpacedOut(M: nat, starts: seq<nat>, a: nat, b: nat)
    requires Spaced(M, starts) && a in starts && b in starts && a < b
    ensures b >= a + PACKET_SIZE * M
  {
    var j :| 0 <= j < |starts| && starts[j] == a;
    var k :| 0 <= k < |starts| && starts[k] == b;
    if k < j { assert starts[k] + PACKET_SIZE * M <= starts[j]; }
  }

  // ---- At the host's pace -------------------------------------------------------------------------

  lemma {:induction false} PrefixOf(N: nat, M: nat, H: nat, cs: seq<Command>, n: nat)
    requires N >= 1 && H >= 1 && n <= |cs|
    ensures var k := |AllBytes(cs[..n])|;
      && k <= |AllBytes(cs)| && AllBytes(cs)[..k] == AllBytes(cs[..n])
      && Starts(N, M, H, cs)[..k] == Starts(N, M, H, cs[..n])
  {
    hide Encode, Pause;
    if n == |cs| {
      assert cs[..n] == cs;
    } else {
      PrefixOf(N, M, H, cs[..|cs| - 1], n);
      assert cs[..|cs| - 1][..n] == cs[..n];
    }
  }

  /** Eleven of the host's bit periods are less than the unit's timeout. */
  lemma FrameFits(N: nat, M: nat)
    requires N >= 2 && M >= 1 && Tolerates(N, M)
    ensures PACKET_SIZE * M <= N * TIMEOUT_BIT_PERIODS
  {
  }

  lemma WorkBound(N: nat, c: Command)
    ensures Work(N, c) <= RecoveryBound(N)
  {
  }

  /** The line on which these frames go out. */
  function HostLine(N: nat, M: nat, H: nat, cs: seq<Command>): Line
    requires N >= 1 && M >= 1 && H >= 1
  {
    LineOf(M, Frames(Starts(N, M, H, cs), AllBytes(cs)))
  }

  /** By the next command's start the whole reply of the session so far has been heard. */
  lemma HeardByThen(N: nat, M: nat, H: nat, line: Line, frame: nat -> Option<Bits>, starts: seq<nat>, bytes: seq<Byte>,
      v: View, u: Unit, cs: seq<Command>)
    requires Wired(N, M, H, line, frame, starts, bytes, v, u) && cs != [] && Allowed(v, WorldOf(u), cs)
    requires |AllBytes(cs)| < |bytes| && AllBytes(cs) == bytes[..|AllBytes(cs)|]
    requires HostPaced(N, H, OutLine(N, v, u, Reports(N, line)), starts[..|AllBytes(cs)|], cs)
    requires var k := |AllBytes(cs)|; k > 0 && starts[k] == starts[k - 1] + Pause(N, M, H)
    ensures |Heard(H, OutLine(N, v, u, Reports(N, line)), starts[|AllBytes(cs)|])| >= ReplyBytes(cs)
  {
    hide Carries, Tolerates, Reports, UnitAt, Joined, FsmShape, Sized, Timely, HostPaced, Allowed, Heard, OutLine,
      Delay, Lag, Feed, Quiet, Left, Gaps, AllBytes, Work, RecoveryBound, ReplyBytes;
    var k, rx := |AllBytes(cs)|, Reports(N, line);
    var n, t := LastWork(N, cs), Seen(N, starts, k) + LastWork(N, cs);
    WorkBound(N, cs[|cs| - 1]);
    PacedIsTimely(N, M, H, line, frame, starts, bytes, v, u, cs);
    LastFed(N, v, u, cs, Gaps(N, starts)[..k]);
    QuietGap(N, M, H, line, frame, starts, bytes, v, u, k, n);
    SentIsHeard(N, H, v, u, rx, t);
    HeardMore(H, OutLine(N, v, u, rx), t + Lag(H), starts[k]);
  }

  /** Where the n-th command's frames lie. */
  lemma OwnStarts(N: nat, M: nat, H: nat, cs: seq<Command>, n: nat, j: nat)
    requires N >= 1 && H >= 1 && 0 < n <= |cs|
    requires |AllBytes(cs[..n - 1])| <= j < |AllBytes(cs[..n])|
    ensures |AllBytes(cs[..n])| <= |AllBytes(cs)|
    ensures var k, s := |AllBytes(cs[..n - 1])|, Starts(N, M, H, cs);
      && (j > k ==> s[j] == s[j - 1] + PACKET_SIZE * M)
      && (j == k > 0 ==> s[j] == s[j - 1] + Pause(N, M, H))
  {
    hide Encode, Pause, BackToBack;
    PrefixOf(N, M, H, cs, n);
    var own := cs[..n];
    assert own[..n - 1] == cs[..n - 1];
    var k, s := |AllBytes(cs[..n - 1])|, Starts(N, M, H, own);
    var prev := Starts(N, M, H, cs[..n - 1]);
    var t, e := Begin(N, M, H, prev), |Encode(own[n - 1])|;
    assert s == prev + BackToBack(M, t, e);
    FirstIs(M, t, e, 0);
    if j > k { StepUp(M, t, e, j - k - 1, j - k); }
    assert Starts(N, M, H, cs)[j] == s[j] && (j > 0 ==> Starts(N, M, H, cs)[j - 1] == s[j - 1]);
  }

  lemma {:induction false} StartsPaced(N: nat, M: nat, H: nat, v: View, u: Unit, cs: seq<Command>, n: nat)
    requires M >= 1 && N >= 1 && H >= 1 && n <= |cs|
    requires Wired(N, M, H, HostLine(N, M, H, cs), Frames(Starts(N, M, H, cs), AllBytes(cs)), Starts(N, M, H, cs),
                   AllBytes(cs), v, u)
    requires Allowed(v, WorldOf(u), cs[..n])
    ensures HostPaced(N, H, OutLine(N, v, u, Reports(N, HostLine(N, M, H, cs))), Starts(N, M, H, cs[..n]), cs[..n])
    decreases n
  {
    hide Carries, Schedules, Reports, UnitAt, Joined, FsmShape, Sized, Heard, OutLine, Starts, AllBytes, HostLine,
      Frames, Pause, Ready, Encode, Tolerates;
    if n > 0 {
      var own, before, starts := cs[..n], cs[..n - 1], Starts(N, M, H, cs);
      assert own[..n - 1] == before;
      AllBytesSplit(own);
      StartsPaced(N, M, H, v, u, cs, n - 1);
      PrefixOf(N, M, H, cs, n);
      PrefixOf(N, M, H, cs, n - 1);
      var k, all := |AllBytes(before)|, |AllBytes(own)|;
      var ours := Starts(N, M, H, own);
      assert ours == starts[..all] && ours[..k] == starts[..k];
      FrameFits(N, M);
      forall j | k < j < all ensures ours[j] - ours[j - 1] <= N * TIMEOUT_BIT_PERIODS {
        OwnStarts(N, M, H, cs, n, j);
      }
      if before != [] {
        AllBytesSplit(before);
        OwnStarts(N, M, H, cs, n, k);
        HeardByThen(N, M, H, HostLine(N, M, H, cs), Frames(starts, AllBytes(cs)), starts, AllBytes(cs), v, u, before);
      }
    }
  }

  /** Every allowed session has a schedule: frames of the host's bit period on a line
      that carries them, at the pace the session theorem asks for. */
  lemma SessionsExist(N: nat, M: nat, H: nat, v: View, u: Unit, cs: seq<Command>)
    returns (line: Line, frame: nat -> Option<Bits>, starts: seq<nat>)
    requires 2 <= N < 0x10000 && M >= 1 && Tolerates(N, M) && H >= 2 && Tolerates(H, N)
    requires Ready(N, u) && ViewOk(v) && |u.mem| == RAM_WORDS && u.tx == TX_RESET && u.sent == []
    requires Allowed(v, WorldOf(u), cs)
    ensures Wired(N, M, H, line, frame, starts, AllBytes(cs), v, u)
    ensures HostPaced(N, H, OutLine(N, v, u, Reports(N, line)), starts, cs)
  {
    hide Carries, Schedules, Reports, UnitAt, Joined, FsmShape, Heard, OutLine, Starts, AllBytes, HostPaced, Spaced,
      Frames, Tolerates, Allowed;
    starts := Starts(N, M, H, cs);
    frame := Frames(starts, AllBytes(cs));
    line := HostLine(N, M, H, cs);
    StartsSpaced(N, M, H, cs);
    LineCarries(M, starts, AllBytes(cs));
    assert cs[..|cs|] == cs;
    StartsPaced(N, M, H, v, u, cs, |cs|);
  }
}
