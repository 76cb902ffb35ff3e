/** Whole debug sessions: any list of commands, on the wire from reset, against what
    the commands mean one after the other. */
module DebugSession {
  import opened Options
  import opened Uart
  import opened SerialLink
  import opened DebugUart
  import opened DebugUnit
  import opened DebugCommands
  import opened DebugLink
  import opened DebugHost

  // ---- Meaning ------------------------------------------------------------------------------

  function Plays(v: View, w: World, cs: seq<Command>): (r: World)
    requires WorldOk(w) && ViewOk(v)
    ensures WorldOk(r)
  {
    if cs == [] then w else Effect(v, Plays(v, w, cs[..|cs| - 1]), cs[|cs| - 1])
  }

  /** Memory commands are only given while the core is halted. */
  predicate Allowed(v: View, w: World, cs: seq<Command>)
    requires WorldOk(w) && ViewOk(v)
  {
    cs == []
    || (Allowed(v, w, cs[..|cs| - 1]) && (OnlyHalted(cs[|cs| - 1]) ==> Plays(v, w, cs[..|cs| - 1]).halt))
  }

  // ---- Bytes of a session ---------------------------------------------------------------------

  function AllBytes(cs: seq<Command>): seq<Byte> {
    if cs == [] then [] else AllBytes(cs[..|cs| - 1]) + Encode(cs[|cs| - 1])
  }

  /** Time the last command needs after its last byte. */
  function LastWork(N: nat, cs: seq<Command>): nat { if cs == [] then 0 else Work(N, cs[|cs| - 1]) }

  /** Pauses before the bytes: within a command no longer than the timeout, between
      commands no shorter than the work of the one before. */
  ghost predicate Timely(N: nat, cs: seq<Command>, gaps: seq<nat>) {
    && |gaps| == |AllBytes(cs)|
    && (cs == [] ||
          var before := cs[..|cs| - 1];
          var k := |AllBytes(before)|;
          && Timely(N, before, gaps[..k])
          && Paced(N, gaps[k..])
          && gaps[k] >= LastWork(N, before))
  }

  function SessionEnd(N: nat, v: View, u: Unit, cs: seq<Command>, gaps: seq<nat>): Unit
    requires N >= 1 && Sized(u) && |gaps| == |AllBytes(cs)|
  {
    Quiet(N, v, Feed(N, v, u, AllBytes(cs), gaps), LastWork(N, cs))
  }

  /** One more command. */
  lemma NextCommand(N: nat, v: View, u: Unit, cs: seq<Command>, gaps: seq<nat>)
    requires Divisor(N) && Sized(u) && ViewOk(v) && cs != [] && Timely(N, cs, gaps)
    requires var before := cs[..|cs| - 1];
      var m := SessionEnd(N, v, u, before, gaps[..|AllBytes(before)|]);
      Accepts(N, v, m, cs[|cs| - 1])
    ensures var before := cs[..|cs| - 1];
      var m := SessionEnd(N, v, u, before, gaps[..|AllBytes(before)|]);
      && Ran(N, v, m, SessionEnd(N, v, u, cs, gaps), cs[|cs| - 1])
      && Fed(N, m, Feed(N, v, u, AllBytes(cs), gaps), cs[|cs| - 1])
  {
    hide Feed, Ran, Fed, Ready, Sized, Encode, Work;
    var before, c := cs[..|cs| - 1], cs[|cs| - 1];
    var xs, k, w := AllBytes(before), |AllBytes(before)|, LastWork(N, before);
    var own := gaps[k..];
    var m := SessionEnd(N, v, u, before, gaps[..k]);
    FeedSplit(N, v, u, xs, Encode(c), gaps);
    FeedShift(N, v, Feed(N, v, u, xs, gaps[..k]), Encode(c), own, w);
    assert own[0 := own[0] - w][1..] == own[1..];
    CommandRuns(N, v, m, c, own[0 := own[0] - w]);
  }

  /** A session leaves the unit idle, with halt, memory and the bytes sent exactly as
      the commands mean one after the other. */
  lemma {:induction false} SessionRuns(N: nat, v: View, u: Unit, cs: seq<Command>, gaps: seq<nat>)
    requires Divisor(N) && Ready(N, u) && ViewOk(v) && |u.mem| == RAM_WORDS
    requires Timely(N, cs, gaps) && Allowed(v, WorldOf(u), cs)
    ensures var r := SessionEnd(N, v, u, cs, gaps); Ready(N, r) && WorldOf(r) == Plays(v, WorldOf(u), cs)
    decreases |cs|
  {
    hide Joined, FsmShape, Sized, Encode, Work, UnitStep, HaltAfter, MemAfter, Reply, Deliver;
    if cs == [] {
      assert Feed(N, v, u, AllBytes(cs), gaps) == u;
    } else {
      var before := cs[..|cs| - 1];
      SessionRuns(N, v, u, before, gaps[..|AllBytes(before)|]);
      NextCommand(N, v, u, cs, gaps);
    }
  }

  // ---- On the wire --------------------------------------------------------------------------

  /** When the last byte has been seen and its command has had its time. */
  function EndClock(N: nat, starts: seq<nat>, cs: seq<Command>): nat
    requires N >= 1
  {
    Seen(N, starts, |starts|) + LastWork(N, cs)
  }

  lemma WireSession(N: nat, M: nat, line: Line, frame: nat -> Option<Bits>, starts: seq<nat>, v: View, u: Unit,
      cs: seq<Command>)
    requires N >= 2 && M >= 1 && Tolerates(N, M) && Sized(u)
    requires Carries(line, M, frame) && Schedules(frame, starts, AllBytes(cs))
    ensures Increasing(starts) && |starts| == |AllBytes(cs)|
    ensures UnitAt(N, v, u, Reports(N, line), EndClock(N, starts, cs)) == SessionEnd(N, v, u, cs, Gaps(N, starts))
  {
    hide Carries, Tolerates, Reports, UnitAt, Sized, AllBytes, LastWork, Feed, Gaps, Seen, Quiet;
    var bytes, gaps := AllBytes(cs), Gaps(N, starts);
    WireFeeds(N, M, line, frame, starts, bytes, v, u, |bytes|);
    SilentTail(N, M, line, frame, starts, bytes, v, u, LastWork(N, cs));
    assert bytes[..|bytes|] == bytes && gaps[..|bytes|] == gaps;
  }

  // ---- The host's pace --------------------------------------------------------------------------

  /** How many bytes the host reads after a command. */
  function ReplySize(c: Command): nat {
    if c.Halt? || c.Resume? || c.Step? || c.WriteMem? then 0 else if c.ReadAll? then 132 else 4
  }

  function ReplyBytes(cs: seq<Command>): nat {
    if cs == [] then 0 else ReplyBytes(cs[..|cs| - 1]) + ReplySize(cs[|cs| - 1])
  }

  lemma {:induction false} SaidCounts(v: View, w: World, cs: seq<Command>)
    requires WorldOk(w) && ViewOk(v)
    ensures |Plays(v, w, cs).said| == |w.said| + ReplyBytes(cs)
  {
    if cs != [] { SaidCounts(v, w, cs[..|cs| - 1]); }
  }

  /** The host as tools/reg_debugger.py runs: it writes a command's frames at most 20
      bit periods apart, and begins the next command when it has read the whole reply
      of the one before, that is, when its receiver has reported all of its bytes. */
  ghost predicate HostPaced(N: nat, H: nat, out: Line, starts: seq<nat>, cs: seq<Command>)
    requires H >= 1
  {
    && |starts| == |AllBytes(cs)|
    && (cs == [] ||
          var before := cs[..|cs| - 1];
          var k := |AllBytes(before)|;
          && HostPaced(N, H, out, starts[..k], before)
          && (forall j :: k < j < |starts| ==> starts[j] - starts[j - 1] <= N * TIMEOUT_BIT_PERIODS)
          && (before != [] && ReplySize(before[|before| - 1]) > 0 ==> |Heard(H, out, starts[k])| >= ReplyBytes(before)))
  }

  /** The two ends of the link, both within the baud tolerance, with these frames on
      the host's line. */
  ghost predicate Wired(N: nat, M: nat, H: nat, line: Line, frame: nat -> Option<Bits>, starts: seq<nat>,
      bytes: seq<Byte>, v: View, u: Unit)
  {
    && 2 <= N < 0x10000 && M >= 1 && Tolerates(N, M) && H >= 2 && Tolerates(H, N)
    && Carries(line, M, frame) && Schedules(frame, starts, bytes)
    && Ready(N, u) && ViewOk(v) && |u.mem| == RAM_WORDS && u.tx == TX_RESET && u.sent == []
  }

  lemma {:induction false} HeardMore(H: nat, line: Line, a: nat, b: nat)
    requires H >= 1 && a <= b
    ensures |Heard(H, line, a)| <= |Heard(H, line, b)|
    decreases b
  {
    hide Reports;
    if a < b { HeardMore(H, line, a, b - 1); }
  }

  lemma SentStep(N: nat, v: View, u: Unit, b: Option<Byte>)
    requires N >= 1 && Sized(u)
    ensures |u.sent| <= |UnitStep(N, v, u, b).sent|
  {
    hide FsmStep, TxStep, Sized;
  }

  lemma {:induction false} SentMore(N: nat, v: View, u: Unit, rx: Arrivals, a: nat, b: nat)
    requires N >= 1 && Sized(u) && a <= b
    ensures |UnitAt(N, v, u, rx, a).sent| <= |UnitAt(N, v, u, rx, b).sent|
    decreases b
  {
    hide UnitStep, Sized;
    if a < b {
      SentMore(N, v, u, rx, a, b - 1);
      SentStep(N, v, UnitAt(N, v, u, rx, b - 1), rx(b - 1));
    }
  }

  /** From the last reply byte's hand-over to the report of the next command's first
      byte there is time for the unit to become idle. */
  lemma ToleranceMargin(N: nat, H: nat)
    requires N >= 2 && H >= 2 && Tolerates(H, N)
    ensures Delay(N) + Lag(H) >= LastByte(N)
  {
  }

  /** Once a unit has handed over its whole reply it is nearly done. */
  lemma NearlyDone(N: nat, v: View, w: Unit, n: nat)
    requires Divisor(N) && UnitOk(N, w) && !Waits(w.f) && Left(N, w) >= 0
    requires |Quiet(N, v, w, n).sent| >= |Quiet(N, v, w, Left(N, w)).sent|
    ensures Left(N, w) <= n + LastByte(N)
  {
    hide UnitStep, Owed, Left, Sized, FsmShape, Joined, Quiet;
    var done, now := Quiet(N, v, w, Left(N, w)), Quiet(N, v, w, n);
    OwedKept(N, v, w, n);
    OwedKept(N, v, w, Left(N, w));
    QuietKept(N, v, w, n);
    QuietKept(N, v, w, Left(N, w));
    LeftBounds(N, done);
    OwedIsNat(N, done);
    OwedIsNat(N, now);
    OwedNothing(N, now);
  }

  /** The unit when the last byte of a session has come. */
  lemma LastFed(N: nat, v: View, u: Unit, cs: seq<Command>, gaps: seq<nat>)
    requires Divisor(N) && Ready(N, u) && ViewOk(v) && |u.mem| == RAM_WORDS && cs != []
    requires Timely(N, cs, gaps) && Allowed(v, WorldOf(u), cs)
    ensures var w := Feed(N, v, u, AllBytes(cs), gaps);
      && UnitOk(N, w) && !Waits(w.f) && Left(N, w) == LastWork(N, cs)
      && |w.sent| == |u.sent| + ReplyBytes(cs[..|cs| - 1])
      && |Quiet(N, v, w, LastWork(N, cs)).sent| == |u.sent| + ReplyBytes(cs)
  {
    hide Joined, FsmShape, Sized, Encode, Work, UnitStep, HaltAfter, MemAfter, Reply, Deliver, Feed, Quiet, Left;
    var before := cs[..|cs| - 1];
    SessionRuns(N, v, u, before, gaps[..|AllBytes(before)|]);
    NextCommand(N, v, u, cs, gaps);
    SessionRuns(N, v, u, cs, gaps);
    SaidCounts(v, WorldOf(u), before);
    SaidCounts(v, WorldOf(u), cs);
  }

  /** A clock by which so much has been heard comes Lag after one by which it was sent. */
  lemma HeardWasSent(N: nat, M: nat, H: nat, line: Line, frame: nat -> Option<Bits>, starts: seq<nat>,
      bytes: seq<Byte>, v: View, u: Unit, t: nat)
    requires Wired(N, M, H, line, frame, starts, bytes, v, u)
    requires |Heard(H, OutLine(N, v, u, Reports(N, line)), t)| > 0
    ensures t >= Lag(H)
    ensures |UnitAt(N, v, u, Reports(N, line), t - Lag(H)).sent|
      == |Heard(H, OutLine(N, v, u, Reports(N, line)), t)|
  {
    hide Carries, Tolerates, Reports, UnitAt, Joined, FsmShape, Sized, Schedules, Heard, OutLine, Lag;
    var rx := Reports(N, line);
    if t < Lag(H) {
      HeardMore(H, OutLine(N, v, u, rx), t, Lag(H));
      SentIsHeard(N, H, v, u, rx, 0);
      AtZero(N, v, u, rx);
    } else {
      SentIsHeard(N, H, v, u, rx, t - Lag(H));
    }
  }

  /** No byte is reported from one byte's report to the next one's. */
  lemma QuietGap(N: nat, M: nat, H: nat, line: Line, frame: nat -> Option<Bits>, starts: seq<nat>,
      bytes: seq<Byte>, v: View, u: Unit, k: nat, n: nat)
    requires Wired(N, M, H, line, frame, starts, bytes, v, u) && k < |bytes|
    requires Seen(N, starts, k) + n <= starts[k] + Delay(N)
    ensures var rx, a := Reports(N, line), Seen(N, starts, k);
      UnitAt(N, v, u, rx, a + n) == Quiet(N, v, Feed(N, v, u, bytes[..k], Gaps(N, starts)[..k]), n)
  {
    hide Carries, Tolerates, Reports, UnitAt, Sized, Delay, Ready, Feed, Gaps, Quiet, Seen;
    var rx, a := Reports(N, line), Seen(N, starts, k);
    assert Sized(u) by { ReadyIsSized(N, u); }
    WireFeeds(N, M, line, frame, starts, bytes, v, u, k);
    Arrival(N, M, line, frame, starts, bytes, k);
    forall t: nat | a <= t < a + n ensures rx(t).None? { assert Reports(N, line)(t).None?; }
    Silence(N, v, u, rx, a, n);
  }

  lemma ReadyIsSized(N: nat, u: Unit)
    requires Ready(N, u)
    ensures Sized(u)
  {
  }

  /** The next command's first byte comes when the one before has done its work. */
  lemma GapCovers(N: nat, M: nat, H: nat, line: Line, frame: nat -> Option<Bits>, starts: seq<nat>,
      bytes: seq<Byte>, v: View, u: Unit, cs: seq<Command>, k: nat)
    requires Wired(N, M, H, line, frame, starts, bytes, v, u)
    requires k == |AllBytes(cs)| < |bytes| && AllBytes(cs) == bytes[..k] && cs != []
    requires Timely(N, cs, Gaps(N, starts)[..k]) && Allowed(v, WorldOf(u), cs)
    requires ReplySize(cs[|cs| - 1]) > 0
    requires |Heard(H, OutLine(N, v, u, Reports(N, line)), starts[k])| >= ReplyBytes(cs)
    ensures Gaps(N, starts)[k] >= LastWork(N, cs)
  {
    hide Carries, Tolerates, Reports, UnitAt, Joined, FsmShape, Sized, Timely, Allowed, Heard, OutLine, Delay, Lag,
      LastByte, LastWork, Feed, Quiet, Left, AllBytes, Gaps;
    var rx, a := Reports(N, line), Seen(N, starts, k);
    var gaps := Gaps(N, starts)[..k];
    var w := Feed(N, v, u, AllBytes(cs), gaps);
    LastFed(N, v, u, cs, gaps);
    HeardWasSent(N, M, H, line, frame, starts, bytes, v, u, starts[k]);
    var t := starts[k] - Lag(H);
    QuietGap(N, M, H, line, frame, starts, bytes, v, u, k, 0);
    GapAt(N, starts, k);
    QuietNone(N, v, w);
    if t < a {
      SentMore(N, v, u, rx, t, a);
    }
    QuietGap(N, M, H, line, frame, starts, bytes, v, u, k, t - a);
    NearlyDone(N, v, w, t - a);
    ToleranceMargin(N, H);
  }

  lemma QuietNone(N: nat, v: View, w: Unit)
    requires N >= 1 && Sized(w)
    ensures Quiet(N, v, w, 0) == w
  {
  }

  lemma GapAt(N: nat, starts: seq<nat>, k: nat)
    requires N >= 1 && Increasing(starts) && k < |starts|
    ensures Seen(N, starts, k) + Gaps(N, starts)[k] == starts[k] + Delay(N)
    ensures k > 0 ==> Gaps(N, starts)[k] == starts[k] - starts[k - 1] - 1
  {
  }

  /** A command without a reply is done before a whole frame has passed. */
  lemma FrameCovers(M: nat, line: Line, frame: nat -> Option<Bits>, starts: seq<nat>, bytes: seq<Byte>, N: nat,
      c: Command, k: nat)
    requires N >= 1 && M >= 1 && Carries(line, M, frame) && Schedules(frame, starts, bytes)
    requires 0 < k < |starts| && ReplySize(c) == 0
    ensures Gaps(N, starts)[k] >= Work(N, c)
  {
    hide IsFrame, Delay;
    GapAt(N, starts, k);
    assert frame(starts[k - 1]).Some? && frame(starts[k]).Some?;
  }

  lemma AllBytesSplit(cs: seq<Command>)
    requires cs != []
    ensures AllBytes(cs) == AllBytes(cs[..|cs| - 1]) + Encode(cs[|cs| - 1])
    ensures |AllBytes(cs[..|cs| - 1])| < |AllBytes(cs)|
  {
  }

  /** The pause before the byte after a session. */
  lemma FirstGap(N: nat, M: nat, H: nat, line: Line, frame: nat -> Option<Bits>, starts: seq<nat>, bytes: seq<Byte>,
      v: View, u: Unit, cs: seq<Command>, k: nat)
    requires Wired(N, M, H, line, frame, starts, bytes, v, u)
    requires k == |AllBytes(cs)| < |bytes| && AllBytes(cs) == bytes[..k]
    requires Timely(N, cs, Gaps(N, starts)[..k]) && Allowed(v, WorldOf(u), cs)
    requires cs != [] && ReplySize(cs[|cs| - 1]) > 0 ==>
      |Heard(H, OutLine(N, v, u, Reports(N, line)), starts[k])| >= ReplyBytes(cs)
    ensures Gaps(N, starts)[k] >= LastWork(N, cs)
  {
    hide Carries, Tolerates, Reports, UnitAt, Joined, FsmShape, Sized, Timely, Allowed, Heard, OutLine, Delay, Lag,
      Feed, Quiet, Left, AllBytes, Gaps, Work, Encode;
    if cs != [] {
      AllBytesSplit(cs);
      if ReplySize(cs[|cs| - 1]) > 0 {
        GapCovers(N, M, H, line, frame, starts, bytes, v, u, cs, k);
      } else {
        FrameCovers(M, line, frame, starts, bytes, N, cs[|cs| - 1], k);
      }
    }
  }

  lemma AllowedBefore(v: View, w: World, cs: seq<Command>)
    requires WorldOk(w) && ViewOk(v) && Allowed(v, w, cs) && cs != []
    ensures Allowed(v, w, cs[..|cs| - 1])
  {
  }

  lemma PacedBefore(N: nat, H: nat, out: Line, starts: seq<nat>, cs: seq<Command>)
    requires H >= 1 && cs != [] && HostPaced(N, H, out, starts, cs)
    ensures var before := cs[..|cs| - 1];
      var k := |AllBytes(before)|;
      && k < |starts| && HostPaced(N, H, out, starts[..k], before)
      && (forall j :: k < j < |starts| ==> starts[j] - starts[j - 1] <= N * TIMEOUT_BIT_PERIODS)
      && (before != [] && ReplySize(before[|before| - 1]) > 0 ==> |Heard(H, out, starts[k])| >= ReplyBytes(before))
  {
    hide AllBytes, Encode, Heard, ReplySize, ReplyBytes;
    AllBytesSplit(cs);
  }

  lemma TimelyAfter(N: nat, cs: seq<Command>, gaps: seq<nat>)
    requires cs != [] && |gaps| == |AllBytes(cs)|
    requires var before := cs[..|cs| - 1];
      var k := |AllBytes(before)|;
      && k < |gaps| && Timely(N, before, gaps[..k]) && gaps[k] >= LastWork(N, before)
      && forall j :: k < j < |gaps| ==> gaps[j] <= N * TIMEOUT_BIT_PERIODS
    ensures Timely(N, cs, gaps)
  {
    hide AllBytes, Encode, LastWork;
  }

  lemma TimelyNone(N: nat)
    ensures Timely(N, [], []) && AllBytes([]) == []
  {
  }

  /** A host that keeps this pace is timely: the pauses the protocol needs are there
      without the host counting clocks. */
  lemma {:induction false} PacedIsTimely(N: nat, M: nat, H: nat, line: Line, frame: nat -> Option<Bits>,
      starts: seq<nat>, bytes: seq<Byte>, v: View, u: Unit, cs: seq<Command>)
    requires Wired(N, M, H, line, frame, starts, bytes, v, u)
    requires |AllBytes(cs)| <= |bytes| && AllBytes(cs) == bytes[..|AllBytes(cs)|] && Allowed(v, WorldOf(u), cs)
    requires HostPaced(N, H, OutLine(N, v, u, Reports(N, line)), starts[..|AllBytes(cs)|], cs)
    ensures Timely(N, cs, Gaps(N, starts)[..|AllBytes(cs)|])
    decreases |cs|
  {
    hide Carries, Tolerates, Reports, UnitAt, Joined, FsmShape, Sized, Heard, OutLine, Delay, Lag, Feed, Quiet, Left,
      Gaps, AllBytes, Work, Encode, Timely, HostPaced, Allowed, LastWork, ReplySize, ReplyBytes;
    var all, gaps := |AllBytes(cs)|, Gaps(N, starts);
    if cs == [] {
      TimelyNone(N);
      assert gaps[..0] == [];
    } else {
      var before := cs[..|cs| - 1];
      var k := |AllBytes(before)|;
      AllBytesSplit(cs);
      AllowedBefore(v, WorldOf(u), cs);
      PacedBefore(N, H, OutLine(N, v, u, Reports(N, line)), starts[..all], cs);
      assert AllBytes(before) == bytes[..k];
      assert starts[..all][..k] == starts[..k] && gaps[..all][..k] == gaps[..k] && starts[..all][k] == starts[k];
      PacedIsTimely(N, M, H, line, frame, starts, bytes, v, u, before);
      FirstGap(N, M, H, line, frame, starts, bytes, v, u, before, k);
      forall j | k < j < all ensures gaps[..all][j] <= N * TIMEOUT_BIT_PERIODS {
        GapAt(N, starts, j);
        assert starts[..all][j] == starts[j] && starts[..all][j - 1] == starts[j - 1];
      }
      TimelyAfter(N, cs, gaps[..all]);
    }
  }

  lemma NoBytes()
    ensures AllBytes([]) == []
  {
  }

  function HaltedAfter(halt: bool, cs: seq<Command>): bool {
    if cs == [] then halt else HaltAfter(HaltedAfter(halt, cs[..|cs| - 1]), cs[|cs| - 1])
  }

  /** Apart from HALT, every command finds the core held and leaves it so: from the
      first HALT on no core runs and stores. */
  predicate Held(halt: bool, cs: seq<Command>) {
    cs == []
    || (var before, c := cs[..|cs| - 1], cs[|cs| - 1];
        Held(halt, before) && (c.Halt? || (HaltedAfter(halt, before) && !c.Resume? && !c.Step?)))
  }

  /** Main result: a host that paces itself by the replies it reads sends any allowed
      list of commands. Then the unit ends idle with halt as the commands mean; and on
      a held core, memory ends as they mean too, and what the host has read is exactly
      the replies, in order. */
  lemma SessionOverTheWire(N: nat, M: nat, H: nat, line: Line, frame: nat -> Option<Bits>, starts: seq<nat>,
      v: View, u: Unit, cs: seq<Command>)
    requires Wired(N, M, H, line, frame, starts, AllBytes(cs), v, u) && Allowed(v, WorldOf(u), cs)
    requires HostPaced(N, H, OutLine(N, v, u, Reports(N, line)), starts, cs)
    ensures var rx, t, w := Reports(N, line), EndClock(N, starts, cs), Plays(v, WorldOf(u), cs);
      var r := UnitAt(N, v, u, rx, t);
      && Ready(N, r) && r.f.halt == w.halt
      && (Held(u.f.halt, cs) ==> r.mem == w.mem && Heard(H, OutLine(N, v, u, rx), t + Lag(H)) == w.said)
  {
    hide Carries, Tolerates, Reports, UnitAt, Joined, FsmShape, Sized, Timely, HostPaced, Allowed, Plays, Heard,
      OutLine, Lag, SessionEnd, EndClock, Gaps, AllBytes;
    var bytes := AllBytes(cs);
    assert bytes[..|bytes|] == bytes && starts[..|bytes|] == starts && Gaps(N, starts)[..|bytes|] == Gaps(N, starts);
    PacedIsTimely(N, M, H, line, frame, starts, bytes, v, u, cs);
    WireSession(N, M, line, frame, starts, v, u, cs);
    SessionRuns(N, v, u, cs, Gaps(N, starts));
    SentIsHeard(N, H, v, u, Reports(N, line), EndClock(N, starts, cs));
  }

  // ---- load_program and read_mem_range ------------------------------------------------------

  /** load_program's commands for the first i words. */
  function LoadCommands(words: seq<nat>, base: nat, i: nat): seq<Command>
    requires AllWords(words) && base + 4 * |words| <= TWO32 && i <= |words|
  {
    if i == 0 then [Halt]
    else LoadCommands(words, base, i - 1) + [WriteMem(Pack(base + 4 * (i - 1)), Pack(words[i - 1]))]
  }

  /** Then read_mem_range's for the first i. */
  function RoundTripCommands(words: seq<nat>, base: nat, i: nat): seq<Command>
    requires AllWords(words) && base + 4 * |words| <= TWO32 && i <= |words|
  {
    if i == 0 then LoadCommands(words, base, |words|)
    else RoundTripCommands(words, base, i - 1) + [ReadMem(Pack(base + 4 * (i - 1)))]
  }

  function Packed(words: seq<nat>): seq<Word>
    requires AllWords(words)
  {
    seq(|words|, i requires 0 <= i < |words| => Pack(words[i]))
  }

  lemma PlaysMore(v: View, w: World, cs: seq<Command>, c: Command)
    requires WorldOk(w) && ViewOk(v)
    ensures Plays(v, w, cs + [c]) == Effect(v, Plays(v, w, cs), c)
    ensures Allowed(v, w, cs + [c]) <==> Allowed(v, w, cs) && (OnlyHalted(c) ==> Plays(v, w, cs).halt)
  {
    assert (cs + [c])[..|cs|] == cs;
  }

  lemma {:induction false} LoadPlays(v: View, w: World, words: seq<nat>, base: nat, i: nat)
    requires WorldOk(w) && ViewOk(v) && AllWords(words) && base + 4 * |words| <= TWO32 && i <= |words| <= RAM_WORDS
    ensures var cs := LoadCommands(words, base, i);
      var r := Plays(v, w, cs);
      Allowed(v, w, cs) && r.halt && r.said == w.said && IsLoaded(w.mem, r.mem, base, words[..i])
  {
    hide Plays, Allowed, Pack, WordIx, Offset;
    if i == 0 {
      PlaysNone(v, w);
      PlaysMore(v, w, [], Halt);
      assert [] + [Halt] == [Halt];
    } else {
      var before := LoadCommands(words, base, i - 1);
      LoadPlays(v, w, words, base, i - 1);
      PlaysMore(v, w, before, WriteMem(Pack(base + 4 * (i - 1)), Pack(words[i - 1])));
      LoadsMore(w.mem, Plays(v, w, before).mem, base, words, i - 1);
      PackedIx(base + 4 * (i - 1));
      OffsetInverts(base, i - 1, 0);
    }
  }

  lemma PlaysNone(v: View, w: World)
    requires WorldOk(w) && ViewOk(v)
    ensures Plays(v, w, []) == w && Allowed(v, w, [])
  {
  }

  lemma {:induction false} RoundTripPlays(v: View, w: World, words: seq<nat>, base: nat, i: nat)
    requires WorldOk(w) && ViewOk(v) && AllWords(words) && base + 4 * |words| <= TWO32 && i <= |words| <= RAM_WORDS
    ensures var cs := RoundTripCommands(words, base, i);
      var r := Plays(v, w, cs);
      && Allowed(v, w, cs) && r.halt && IsLoaded(w.mem, r.mem, base, words)
      && r.said == w.said + Flatten(Packed(words)[..i])
  {
    hide Plays, Allowed, Pack, WordIx, Offset, Flatten;
    if i == 0 {
      LoadPlays(v, w, words, base, |words|);
      assert words[..|words|] == words;
      FlattenNone();
    } else {
      var before := RoundTripCommands(words, base, i - 1);
      RoundTripPlays(v, w, words, base, i - 1);
      PlaysMore(v, w, before, ReadMem(Pack(base + 4 * (i - 1))));
      PackedIx(base + 4 * (i - 1));
      OffsetInverts(base, i - 1, IxOf(base, i - 1));
      FlattenMore(Packed(words)[..i - 1], Pack(words[i - 1]));
      assert Packed(words)[..i] == Packed(words)[..i - 1] + [Pack(words[i - 1])];
    }
  }

  lemma {:induction false} LoadHolds(halt: bool, words: seq<nat>, base: nat, i: nat)
    requires AllWords(words) && base + 4 * |words| <= TWO32 && i <= |words|
    ensures var cs := LoadCommands(words, base, i); Held(halt, cs) && HaltedAfter(halt, cs)
  {
    hide Pack;
    if i > 0 {
      LoadHolds(halt, words, base, i - 1);
      HeldMore(halt, LoadCommands(words, base, i - 1), WriteMem(Pack(base + 4 * (i - 1)), Pack(words[i - 1])));
    } else {
      HeldMore(halt, [], Halt);
      assert [] + [Halt] == [Halt];
    }
  }

  lemma {:induction false} RoundTripHolds(halt: bool, words: seq<nat>, base: nat, i: nat)
    requires AllWords(words) && base + 4 * |words| <= TWO32 && i <= |words|
    ensures var cs := RoundTripCommands(words, base, i); Held(halt, cs) && HaltedAfter(halt, cs)
  {
    hide Pack;
    if i > 0 {
      RoundTripHolds(halt, words, base, i - 1);
      HeldMore(halt, RoundTripCommands(words, base, i - 1), ReadMem(Pack(base + 4 * (i - 1))));
    } else {
      LoadHolds(halt, words, base, |words|);
    }
  }

  lemma HeldMore(halt: bool, cs: seq<Command>, c: Command)
    ensures HaltedAfter(halt, cs + [c]) == HaltAfter(HaltedAfter(halt, cs), c)
    ensures Held(halt, cs + [c])
      <==> Held(halt, cs) && (c.Halt? || (HaltedAfter(halt, cs) && !c.Resume? && !c.Step?))
  {
    assert (cs + [c])[..|cs|] == cs;
  }

  /** End to end on the wires: the frames of load_program and read_mem_range for any
      words that fit, written by a host that blocks on every reply, leave exactly those
      words in the memory that the HALT found, and exactly their bytes come back. */
  lemma LoadAndReadOverTheWire(N: nat, M: nat, H: nat, line: Line, frame: nat -> Option<Bits>, starts: seq<nat>,
      v: View, u: Unit, words: seq<nat>, base: nat)
    requires AllWords(words) && base + 4 * |words| <= TWO32 && |words| <= RAM_WORDS
    requires var cs := RoundTripCommands(words, base, |words|);
      Wired(N, M, H, line, frame, starts, AllBytes(cs), v, u)
      && HostPaced(N, H, OutLine(N, v, u, Reports(N, line)), starts, cs)
    ensures var rx, t := Reports(N, line), EndClock(N, starts, RoundTripCommands(words, base, |words|));
      && IsLoaded(u.mem, UnitAt(N, v, u, rx, t).mem, base, words)
      && Heard(H, OutLine(N, v, u, rx), t + Lag(H)) == Flatten(Packed(words))
  {
    hide Carries, Tolerates, Reports, UnitAt, Joined, FsmShape, Sized, Schedules, HostPaced, Allowed, Plays, Heard,
      OutLine, Lag, EndClock, AllBytes, Flatten, IsLoaded, RoundTripCommands, Held;
    RoundTripPlays(v, WorldOf(u), words, base, |words|);
    RoundTripHolds(u.f.halt, words, base, |words|);
    assert Packed(words)[..|words|] == Packed(words);
    SessionOverTheWire(N, M, H, line, frame, starts, v, u, RoundTripCommands(words, base, |words|));
  }
}
