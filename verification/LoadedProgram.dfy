/** Load, then run, from the host's wire to the program's execution: load_program's
    frames leave its words in the SoC's memory while the core is held, and released
    it does what the reference core does on them. */
module LoadedProgram {
  import opened Options
  import opened Uart
  import opened SerialLink
  import opened DebugUart
  import opened DebugUnit
  import opened DebugCommands
  import opened DebugLink
  import opened DebugHost
  import opened DebugSession
  import I = Isa
  import G = Golden
  import R = Refinement
  import Harm = Harmless
  import T = Traces
  import C = Soc
  import S = SocDebug

  // ---- Where a load session is after each byte ----------------------------------------------

  /** The place within its WRITE_MEM of byte k, where byte 0 is the HALT. */
  function Position(k: nat): (p: nat)
    requires k >= 1
    ensures p < 9
  {
    (k - 1) % 9
  }

  /** Halted, and between or within WRITE_MEM commands. */
  predicate Loading(f: Fsm) {
    f.halt && (f.phase.CmdIdle? || f.phase.MemWritePulse? || f.phase.RecvMemAddr? || f.phase.RecvMemData?)
  }

  /** The state just after k bytes. */
  predicate After(k: nat, f: Fsm) {
    && Loading(f)
    && if k <= 1 then f.phase.CmdIdle?
       else
         var p := Position(k);
         if p == 0 then f.phase.MemWritePulse?
         else if p <= 4 then f.phase.RecvMemAddr? && f.memIsWrite && f.rxIx == p - 1 && f.timeout == 0
         else f.phase.RecvMemData? && f.rxIx == p - 5 && f.timeout == 0
  }

  lemma {:induction false} StaysLoading(N: nat, v: View, u: Unit, n: nat)
    requires N >= 1 && Sized(u) && Loading(u.f)
    ensures Loading(Quiet(N, v, u, n).f)
  {
    hide Sized, UnitStep, Loading;
    if n > 0 {
      StaysLoading(N, v, u, n - 1);
      QuietLoading(N, v, Quiet(N, v, u, n - 1));
    }
  }

  lemma QuietLoading(N: nat, v: View, u: Unit)
    requires N >= 1 && Sized(u) && Loading(u.f)
    ensures Loading(UnitStep(N, v, u, None).f)
  {
    hide WordIx;
  }

  lemma CommandState(k: nat, f: Fsm, b: Byte)
    requires FsmOk(f) && f.halt && f.phase.CmdIdle? && (k == 0 || Position(k) == 0)
    requires b == if k == 0 then CMD_HALT else CMD_WRITE_MEM
    ensures After(k + 1, OnCommand(f, b))
  {
    if k > 0 { assert Position(k + 1) == 1; }
  }

  lemma NextPosition(k: nat)
    requires k >= 1
    ensures Position(k + 1) == if Position(k) == 8 then 0 else Position(k) + 1
  {
  }

  lemma ArgumentState(k: nat, f: Fsm, b: Byte)
    requires FsmOk(f) && k >= 1 && After(k, f.(timeout := 0)) && Position(k) != 0
    ensures Waits(f) && After(k + 1, OnByte(f, b))
  {
    NextPosition(k);
    hide Position;
  }

  /** A command byte, after a pause that covers the write before it. */
  lemma CommandByte(N: nat, v: View, u: Unit, k: nat, gap: nat, b: Byte)
    requires Divisor(N) && UnitOk(N, u) && After(k, u.f) && (k == 0 || Position(k) == 0)
    requires b == (if k == 0 then CMD_HALT else CMD_WRITE_MEM) && (k > 1 ==> gap >= 1)
    ensures var r := Deliver(N, v, u, gap, b); UnitOk(N, r) && After(k + 1, r.f)
  {
    hide Left, Quiet, OnCommand, UnitStep, Joined, FsmShape;
    var w, rest := u, gap;
    if k > 1 {
      PulseAdvances(N, v, u);
      QuietOne(N, v, u);
      QuietAdd(N, v, u, 1, gap - 1);
      PulseEnds(N, v, u);
      w, rest := Quiet(N, v, u, 1), gap - 1;
    }
    Opcode(N, v, w, rest, b);
    CommandState(k, w.f.(timeout := Quiet(N, v, w, rest).f.timeout), b);
  }

  lemma PulseEnds(N: nat, v: View, u: Unit)
    requires N >= 1 && Sized(u) && u.f.phase.MemWritePulse?
    ensures var r := UnitStep(N, v, u, None); r.f.phase.CmdIdle? && r.f.halt == u.f.halt
  {
    hide WordIx;
  }

  /** An argument byte, within the timeout. */
  lemma ArgumentByte(N: nat, v: View, u: Unit, k: nat, gap: nat, b: Byte)
    requires Divisor(N) && UnitOk(N, u) && k >= 1 && After(k, u.f) && Position(k) != 0 && gap <= N * TIMEOUT_BIT_PERIODS
    ensures var r := Deliver(N, v, u, gap, b); UnitOk(N, r) && After(k + 1, r.f)
  {
    hide Left, OnByte, Deliver, Joined, FsmShape, Position;
    ArgumentStart(k, u.f);
    Argument(N, v, u, gap, b);
    assert u.f == u.f.(timeout := gap).(timeout := 0);
    ArgumentState(k, u.f.(timeout := gap), b);
  }

  lemma ArgumentStart(k: nat, f: Fsm)
    requires k >= 1 && After(k, f) && Position(k) != 0
    ensures Waits(f) && f.timeout == 0
  {
    assert Position(1) == 0;
  }

  // ---- The whole session ------------------------------------------------------------------------

  lemma WriteBytes(a: Word, d: Word)
    ensures var b := Encode(WriteMem(a, d)); |b| == 9 && b[0] == CMD_WRITE_MEM
  {
  }

  lemma HaltBytes()
    ensures AllBytes([Halt]) == [CMD_HALT]
  {
    OneCommand([], Halt);
    NoBytes();
    assert [] + [Halt] == [Halt];
  }

  /** Appending nine bytes of a WRITE_MEM. */
  lemma MoreBytes(bytes: seq<Byte>, b: seq<Byte>, i: nat)
    requires i >= 1 && |bytes| == 9 * i - 8 && |b| == 9 && b[0] == CMD_WRITE_MEM
    requires forall k :: 1 <= k < |bytes| && Position(k) == 0 ==> bytes[k] == CMD_WRITE_MEM
    ensures forall k :: 1 <= k < |bytes + b| && Position(k) == 0 ==> (bytes + b)[k] == CMD_WRITE_MEM
  {
    hide Position;
    forall k | 1 <= k < |bytes + b| && Position(k) == 0 ensures (bytes + b)[k] == CMD_WRITE_MEM {
      if k >= |bytes| { PositionIn(i, k); }
    }
  }

  /** A WRITE_MEM is nine bytes, so its first byte is in position 0. */
  lemma {:induction false} LoadBytes(words: seq<nat>, base: nat, i: nat)
    requires AllWords(words) && base + 4 * |words| <= TWO32 && i <= |words|
    ensures var bytes := AllBytes(LoadCommands(words, base, i));
      && |bytes| == 1 + 9 * i && bytes[0] == CMD_HALT
      && forall k :: 1 <= k < |bytes| && Position(k) == 0 ==> bytes[k] == CMD_WRITE_MEM
  {
    hide Pack, Position, AllBytes, Encode;
    HaltBytes();
    if i > 0 {
      var a, d := Pack(base + 4 * (i - 1)), Pack(words[i - 1]);
      var before := LoadCommands(words, base, i - 1);
      LoadBytes(words, base, i - 1);
      OneCommand(before, WriteMem(a, d));
      WriteBytes(a, d);
      MoreBytes(AllBytes(before), Encode(WriteMem(a, d)), i);
    }
  }

  lemma OneCommand(cs: seq<Command>, c: Command)
    ensures AllBytes(cs + [c]) == AllBytes(cs) + Encode(c)
  {
    assert (cs + [c])[..|cs|] == cs;
  }

  lemma PositionIn(i: nat, k: nat)
    requires i >= 1 && 9 * i - 8 <= k < 9 * i + 1
    ensures Position(k) == k - (9 * i - 8)
  {
  }

  /** The pauses a load session needs: within a command the timeout, between two writes
      the one clock of the first. */
  ghost predicate LoadTimely(N: nat, gaps: seq<nat>) {
    forall k :: 1 <= k < |gaps| ==>
      if Position(k) == 0 then k > 1 ==> gaps[k] >= 1 else gaps[k] <= N * TIMEOUT_BIT_PERIODS
  }

  lemma TimelyMore(N: nat, cs: seq<Command>, c: Command, gaps: seq<nat>)
    requires Timely(N, cs + [c], gaps)
    ensures |gaps| == |AllBytes(cs)| + |Encode(c)|
    ensures var k := |AllBytes(cs)|; Timely(N, cs, gaps[..k]) && Paced(N, gaps[k..]) && gaps[k] >= LastWork(N, cs)
  {
    hide Encode, LastWork;
    assert (cs + [c])[..|cs|] == cs;
    OneCommand(cs, c);
  }

  lemma LoadWork(N: nat, words: seq<nat>, base: nat, i: nat)
    requires AllWords(words) && base + 4 * |words| <= TWO32 && i <= |words|
    ensures LastWork(N, LoadCommands(words, base, i)) == if i == 0 then 0 else 1
  {
    hide Pack;
  }

  lemma {:induction false} TimelyLoad(N: nat, words: seq<nat>, base: nat, i: nat, gaps: seq<nat>)
    requires AllWords(words) && base + 4 * |words| <= TWO32 && i <= |words|
    requires Timely(N, LoadCommands(words, base, i), gaps)
    ensures |gaps| == 1 + 9 * i && LoadTimely(N, gaps)
  {
    hide Pack, Position, AllBytes, Timely, Encode, LastWork;
    LoadBytes(words, base, i);
    TimelySize(N, LoadCommands(words, base, i), gaps);
    if i > 0 {
      var before, n := LoadCommands(words, base, i - 1), 9 * i - 8;
      LoadBytes(words, base, i - 1);
      TimelyMore(N, before, WriteMem(Pack(base + 4 * (i - 1)), Pack(words[i - 1])), gaps);
      TimelyLoad(N, words, base, i - 1, gaps[..n]);
      LoadWork(N, words, base, i - 1);
      forall k | 1 <= k < |gaps|
        ensures if Position(k) == 0 then k > 1 ==> gaps[k] >= 1 else gaps[k] <= N * TIMEOUT_BIT_PERIODS
      {
        if k >= n {
          PositionIn(i, k);
          if k > n { assert gaps[k] == gaps[n..][1..][k - n - 1]; }
        } else {
          assert gaps[k] == gaps[..n][k];
        }
      }
    }
  }

  lemma TimelySize(N: nat, cs: seq<Command>, gaps: seq<nat>)
    requires Timely(N, cs, gaps)
    ensures |gaps| == |AllBytes(cs)|
  {
  }

  lemma {:induction false} StateAfter(N: nat, v: View, u: Unit, words: seq<nat>, base: nat, bytes: seq<Byte>,
      gaps: seq<nat>, k: nat)
    requires AllWords(words) && base + 4 * |words| <= TWO32 && bytes == AllBytes(LoadCommands(words, base, |words|))
    requires Divisor(N) && Ready(N, u) && u.f.halt && |gaps| == |bytes| && LoadTimely(N, gaps) && k <= |bytes|
    ensures var w := Feed(N, v, u, bytes[..k], gaps[..k]); UnitOk(N, w) && After(k, w.f)
  {
    hide Position, AllBytes, Deliver, Joined, FsmShape, Sized, Loading;
    if k == 0 {
      FeedNone(N, v, u);
      assert bytes[..0] == [] && gaps[..0] == [];
      assert Loading(u.f) by { IdleLoads(u.f); }
    } else {
      StateAfter(N, v, u, words, base, bytes, gaps, k - 1);
      LoadBytes(words, base, |words|);
      var w := Feed(N, v, u, bytes[..k - 1], gaps[..k - 1]);
      assert bytes[..k][..k - 1] == bytes[..k - 1] && gaps[..k][..k - 1] == gaps[..k - 1];
      if k == 1 || Position(k - 1) == 0 {
        CommandByte(N, v, w, k - 1, gaps[k - 1], bytes[k - 1]);
      } else {
        ArgumentByte(N, v, w, k - 1, gaps[k - 1], bytes[k - 1]);
      }
    }
  }

  lemma IdleLoads(f: Fsm)
    requires f.halt && f.phase.CmdIdle?
    ensures Loading(f)
  {
  }

  // ---- On the wire --------------------------------------------------------------------------------

  /** From a halted unit on, no clock of a load session releases the core. */
  lemma {:induction false} HeldUntil(N: nat, M: nat, line: Line, frame: nat -> Option<Bits>, starts: seq<nat>, v: View,
      u: Unit, words: seq<nat>, base: nat, k: nat, s: nat)
    requires 2 <= N < 0x10000 && M >= 1 && Tolerates(N, M) && Carries(line, M, frame) && Ready(N, u) && u.f.halt
    requires AllWords(words) && base + 4 * |words| <= TWO32
    requires var bytes := AllBytes(LoadCommands(words, base, |words|));
      Schedules(frame, starts, bytes) && LoadTimely(N, Gaps(N, starts)) && k <= |bytes|
    requires s <= Seen(N, starts, k)
    ensures UnitAt(N, v, u, Reports(N, line), s).f.halt
  {
    hide Carries, Tolerates, Reports, UnitAt, Ready, Seen, AllBytes, LoadTimely, Gaps, Schedules, AllWords;
    SameCount(frame, starts, AllBytes(LoadCommands(words, base, |words|)));
    if k == 0 {
      ReadySized(N, u);
      SeenNone(N, starts);
      AtZero(N, v, u, Reports(N, line));
    } else if s <= Seen(N, starts, k - 1) {
      HeldUntil(N, M, line, frame, starts, v, u, words, base, k - 1, s);
    } else if s == Seen(N, starts, k) {
      HeldAt(N, M, line, frame, starts, v, u, words, base, k);
    } else {
      HeldBetween(N, M, line, frame, starts, v, u, words, base, k - 1, s);
    }
  }

  lemma SeenNone(N: nat, starts: seq<nat>)
    requires N >= 1
    ensures Seen(N, starts, 0) == 0
  {
  }

  lemma SeenNext(N: nat, starts: seq<nat>, k: nat)
    requires N >= 1 && k < |starts|
    ensures Seen(N, starts, k + 1) == starts[k] + Delay(N) + 1
  {
  }

  lemma SameCount(frame: nat -> Option<Bits>, starts: seq<nat>, bytes: seq<Byte>)
    requires Schedules(frame, starts, bytes)
    ensures |starts| == |bytes| && Increasing(starts)
  {
  }

  lemma HeldBetween(N: nat, M: nat, line: Line, frame: nat -> Option<Bits>, starts: seq<nat>, v: View, u: Unit,
      words: seq<nat>, base: nat, k: nat, s: nat)
    requires 2 <= N < 0x10000 && M >= 1 && Tolerates(N, M) && Carries(line, M, frame) && Ready(N, u) && u.f.halt
    requires AllWords(words) && base + 4 * |words| <= TWO32
    requires var bytes := AllBytes(LoadCommands(words, base, |words|));
      Schedules(frame, starts, bytes) && LoadTimely(N, Gaps(N, starts)) && k < |bytes|
    requires Seen(N, starts, k) <= s < Seen(N, starts, k + 1)
    ensures UnitAt(N, v, u, Reports(N, line), s).f.halt
  {
    hide Carries, Tolerates, Reports, UnitAt, Ready, Sized, Quiet, Seen, AllBytes, Loading, LoadTimely, Gaps,
      Schedules, AllWords, LoadCommands;
    SameCount(frame, starts, AllBytes(LoadCommands(words, base, |words|)));
    var rx, a := Reports(N, line), Seen(N, starts, k);
    ReadySized(N, u);
    HeldAt(N, M, line, frame, starts, v, u, words, base, k);
    Arrival(N, M, line, frame, starts, AllBytes(LoadCommands(words, base, |words|)), k);
    SeenNext(N, starts, k);
    Silence(N, v, u, rx, a, s - a);
    StaysLoading(N, v, UnitAt(N, v, u, rx, a), s - a);
    LoadingHalts(Quiet(N, v, UnitAt(N, v, u, rx, a), s - a).f);
  }

  lemma ReadySized(N: nat, u: Unit)
    requires Ready(N, u)
    ensures Sized(u)
  {
  }

  lemma LoadingHalts(f: Fsm)
    requires Loading(f)
    ensures f.halt
  {
  }

  lemma HeldAt(N: nat, M: nat, line: Line, frame: nat -> Option<Bits>, starts: seq<nat>, v: View, u: Unit,
      words: seq<nat>, base: nat, k: nat)
    requires 2 <= N < 0x10000 && M >= 1 && Tolerates(N, M) && Carries(line, M, frame) && Ready(N, u) && u.f.halt
    requires AllWords(words) && base + 4 * |words| <= TWO32
    requires var bytes := AllBytes(LoadCommands(words, base, |words|));
      Schedules(frame, starts, bytes) && LoadTimely(N, Gaps(N, starts)) && k <= |bytes|
    ensures var f := UnitAt(N, v, u, Reports(N, line), Seen(N, starts, k)).f; Loading(f) && f.halt
  {
    hide Carries, Tolerates, Reports, UnitAt, Joined, FsmShape, Sized, Delay, AllBytes, Feed, Loading, LoadTimely,
      Gaps, Seen;
    var bytes := AllBytes(LoadCommands(words, base, |words|));
    ReadySized(N, u);
    WireFeeds(N, M, line, frame, starts, bytes, v, u, k);
    StateAfter(N, v, u, words, base, bytes, Gaps(N, starts), k);
    LoadingHalts(UnitAt(N, v, u, Reports(N, line), Seen(N, starts, k)).f);
  }

  /** The first clock, or any later one, at which the last write is over and port B is
      the core's again. */
  function Released(N: nat, starts: seq<nat>, words: seq<nat>, base: nat, d: nat): (t: nat)
    requires N >= 1 && AllWords(words) && base + 4 * |words| <= TWO32
    ensures t >= 1
  {
    EndClock(N, starts, LoadCommands(words, base, |words|)) + 1 + d
  }

  /** What a load session has done by then: the words are in memory, and in no clock was
      the core released. */
  lemma SessionHolds(N: nat, M: nat, H: nat, line: Line, frame: nat -> Option<Bits>, starts: seq<nat>, v: View, u: Unit,
      words: seq<nat>, base: nat, d: nat)
    requires AllWords(words) && base + 4 * |words| <= TWO32 && |words| <= RAM_WORDS && u.f.halt
    requires var cs := LoadCommands(words, base, |words|);
      Wired(N, M, H, line, frame, starts, AllBytes(cs), v, u)
      && HostPaced(N, H, OutLine(N, v, u, Reports(N, line)), starts, cs)
    ensures var rx, t := Reports(N, line), Released(N, starts, words, base, d);
      && IsLoaded(u.mem, UnitAt(N, v, u, rx, t).mem, base, words)
      && UnitAt(N, v, u, rx, t - 1).f.phase.CmdIdle?
      && forall s: nat :: s < t ==> UnitAt(N, v, u, rx, s).f.halt
  {
    hide Carries, Tolerates, Reports, UnitAt, Joined, FsmShape, Sized, HostPaced, Allowed, Plays, Heard, OutLine, Lag,
      EndClock, AllBytes, IsLoaded, LoadCommands, Held, Timely, Gaps, LoadTimely, Schedules;
    var cs, rx := LoadCommands(words, base, |words|), Reports(N, line);
    var e, r := EndClock(N, starts, cs), UnitAt(N, v, u, rx, EndClock(N, starts, cs));
    LoadPlays(v, WorldOf(u), words, base, |words|);
    LoadHolds(u.f.halt, words, base, |words|);
    assert words[..|words|] == words;
    SessionOverTheWire(N, M, H, line, frame, starts, v, u, cs);
    SameCount(frame, starts, AllBytes(cs));
    WholeIsTimely(N, M, H, line, frame, starts, v, u, cs);
    TimelyLoad(N, words, base, |words|, Gaps(N, starts));
    AfterSession(N, M, line, frame, starts, v, u, words, base, d);
    AfterSession(N, M, line, frame, starts, v, u, words, base, d + 1);
    forall s: nat | s < e + 1 + d ensures UnitAt(N, v, u, rx, s).f.halt {
      HeldInSession(N, M, line, frame, starts, v, u, words, base, s);
    }
  }

  lemma WholeIsTimely(N: nat, M: nat, H: nat, line: Line, frame: nat -> Option<Bits>, starts: seq<nat>, v: View,
      u: Unit, cs: seq<Command>)
    requires Wired(N, M, H, line, frame, starts, AllBytes(cs), v, u) && Allowed(v, WorldOf(u), cs)
    requires HostPaced(N, H, OutLine(N, v, u, Reports(N, line)), starts, cs) && Increasing(starts)
    ensures Timely(N, cs, Gaps(N, starts))
  {
    hide Carries, Tolerates, Reports, UnitAt, Joined, FsmShape, Sized, HostPaced, Allowed, OutLine, AllBytes, Timely,
      Gaps;
    var bytes := AllBytes(cs);
    assert |starts| == |bytes|;
    assert bytes[..|bytes|] == bytes && starts[..|bytes|] == starts && Gaps(N, starts)[..|bytes|] == Gaps(N, starts);
    PacedIsTimely(N, M, H, line, frame, starts, bytes, v, u, cs);
  }

  /** Idle clocks after the session. */
  lemma AfterSession(N: nat, M: nat, line: Line, frame: nat -> Option<Bits>, starts: seq<nat>, v: View, u: Unit,
      words: seq<nat>, base: nat, d: nat)
    requires 2 <= N < 0x10000 && M >= 1 && Tolerates(N, M) && Carries(line, M, frame) && Ready(N, u)
    requires AllWords(words) && base + 4 * |words| <= TWO32
    requires Schedules(frame, starts, AllBytes(LoadCommands(words, base, |words|)))
    requires var e := EndClock(N, starts, LoadCommands(words, base, |words|));
      Ready(N, UnitAt(N, v, u, Reports(N, line), e))
    ensures var e := EndClock(N, starts, LoadCommands(words, base, |words|));
      var r, n := UnitAt(N, v, u, Reports(N, line), e), UnitAt(N, v, u, Reports(N, line), e + d);
      Ready(N, n) && n.mem == r.mem && n.f.halt == r.f.halt
  {
    hide Carries, Tolerates, Reports, UnitAt, Ready, Seen, AllBytes, Schedules, AllWords, LoadCommands, LastWork,
      Quiet;
    var cs := LoadCommands(words, base, |words|);
    var bytes, a, w, rx := AllBytes(cs), Seen(N, starts, |starts|), LastWork(N, cs), Reports(N, line);
    ReadySized(N, u);
    SilentTail(N, M, line, frame, starts, bytes, v, u, w);
    SilentTail(N, M, line, frame, starts, bytes, v, u, w + d);
    QuietAdd(N, v, UnitAt(N, v, u, rx, a), w, d);
    IdleKeeps(N, v, UnitAt(N, v, u, rx, a + w), d);
  }

  lemma IdleKeeps(N: nat, v: View, u: Unit, n: nat)
    requires Divisor(N) && Ready(N, u)
    ensures var r := Quiet(N, v, u, n); Ready(N, r) && r.mem == u.mem && r.f.halt == u.f.halt
  {
    hide Joined, FsmShape, Sized;
    IdleGap(N, v, u, n);
  }

  lemma HeldInSession(N: nat, M: nat, line: Line, frame: nat -> Option<Bits>, starts: seq<nat>, v: View, u: Unit,
      words: seq<nat>, base: nat, s: nat)
    requires 2 <= N < 0x10000 && M >= 1 && Tolerates(N, M) && Carries(line, M, frame) && Ready(N, u) && u.f.halt
    requires AllWords(words) && base + 4 * |words| <= TWO32
    requires var bytes := AllBytes(LoadCommands(words, base, |words|));
      Schedules(frame, starts, bytes) && LoadTimely(N, Gaps(N, starts))
    ensures UnitAt(N, v, u, Reports(N, line), s).f.halt
  {
    hide Carries, Tolerates, Reports, UnitAt, Ready, Seen, AllBytes, LoadTimely, Gaps, Schedules, AllWords, Loading,
      LoadCommands, Quiet;
    var bytes, rx := AllBytes(LoadCommands(words, base, |words|)), Reports(N, line);
    SameCount(frame, starts, bytes);
    ReadySized(N, u);
    var a := Seen(N, starts, |starts|);
    if s <= a {
      HeldUntil(N, M, line, frame, starts, v, u, words, base, |bytes|, s);
    } else {
      HeldAt(N, M, line, frame, starts, v, u, words, base, |bytes|);
      SilentTail(N, M, line, frame, starts, bytes, v, u, s - a);
      StaysLoading(N, v, UnitAt(N, v, u, rx, a), s - a);
      LoadingHalts(Quiet(N, v, UnitAt(N, v, u, rx, a), s - a).f);
    }
  }

  // ---- Load, then run ---------------------------------------------------------------------------

  /** The words stand in the memory that the run starts from. */
  predicate Stands(m: G.Machine, base: nat, words: seq<nat>) {
    && |m.init.mem| == 0x1000
    && forall i :: 0 <= i < |words| ==> S.WordAt(m.init.mem, S.Place(base, i)) == words[i]
  }

  lemma NotSteering(f: Fsm)
    requires f.phase.CmdIdle?
    ensures !MemValid(f)
  {
  }

  /** Main result: the frames of load_program for any words that fit, on the host's line to
      a board in reset; from any clock after the last write on, the debug unit's FSM may
      resume, halt, step and read on whatever bytes come. The SoC then does what the
      reference core does from a memory whose words are exactly the host's. */
  lemma ProgramRuns(m: G.Machine, ram: C.Ram, c: C.Soc, N: nat, M: nat, H: nat, line: Line, frame: nat -> Option<Bits>,
      starts: seq<nat>, v: View, u: Unit, words: seq<nat>, base: nat, d: nat, fsm: seq<Pins>, ins: seq<C.SocPins>)
    requires AllWords(words) && base + 4 * |words| <= TWO32 && |words| <= RAM_WORDS && u.f.halt
    requires var cs := LoadCommands(words, base, |words|);
      Wired(N, M, H, line, frame, starts, AllBytes(cs), v, u)
      && HostPaced(N, H, OutLine(N, v, u, Reports(N, line)), starts, cs)
    requires I.Lawful(m.dp) && C.RamLaw(m.dp, ram) && R.Supported(m) && C.CodeUntouched(m) && C.DataInRam(m, ram)
    requires S.Addresses(ram) && C.PortsHold(ram, c, false) && c.sys.mem == S.AsMem(u.mem)
    requires var w := UnitAt(N, v, u, Reports(N, line), Released(N, starts, words, base, d));
      S.StartsLoaded(m, c, w) && S.DrivenBy(N, w.f, fsm, ins) && Harm.HarmlessProgram(m)
    ensures Stands(m, base, words)
    ensures var r := S.LoadRun(m.dp, ram, c, N, v, u, Reports(N, line), Released(N, starts, words, base, d));
      && r.sys.mem == m.init.mem && r.sys.core == c.sys.core
      && C.SocRun(m.dp, ram, r, ins).sys == T.SysRun(m.dp, r.sys, C.Envs(m.dp, ram, r, ins))
      && Harm.Agrees(m, r.sys, C.Envs(m.dp, ram, r, ins))
  {
    hide I.Lawful, C.RamLaw, R.Supported, C.CodeUntouched, C.DataInRam, S.Addresses, C.PortsHold,
      Harm.HarmlessProgram, Harm.Agrees, S.AsMem, S.LoadRun, S.DrivenBy, UnitAt, Reports, HostPaced, OutLine, Carries,
      Tolerates, Schedules, Joined, FsmShape, AllBytes, Released, IsLoaded, S.WordAt, S.Place;
    var rx, t := Reports(N, line), Released(N, starts, words, base, d);
    SessionHolds(N, M, H, line, frame, starts, v, u, words, base, d);
    NotSteering(UnitAt(N, v, u, rx, t - 1).f);
    S.HostWords(u.mem, UnitAt(N, v, u, rx, t).mem, base, words);
    S.LoadedState(m.dp, ram, c, N, v, u, rx, t);
    S.LoadedSocRefines(m, ram, c, N, v, u, rx, t, fsm, ins);
  }
}
