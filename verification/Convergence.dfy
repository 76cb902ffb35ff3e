/** The differential test's stopping rule, and why it is right on the pipelined
    core: on zero-latency memory a forward-branching program that ends in a
    self-loop at P settles into pc = P, P+4, P+8, and no earlier stretch of the run
    can be mistaken for that. */
module Convergence {
  import opened Options
  import opened Isa
  import opened Golden
  import opened Pipeline
  import opened Refinement
  import opened Traces
  import opened Progress

  // ---- The stopping rule ------------------------------------------------------------------

  /** The last n samples up to and including sample t repeat with the period. */
  predicate Settled(pcs: nat -> int, period: nat, n: nat, t: nat) {
    && n <= t + 1
    && forall i: nat {:trigger pcs(i)} :: t + 1 - n + period <= i <= t ==> pcs(i) == pcs(i - period)
  }

  /** Smallest of the last n samples. */
  function Least(pcs: nat -> int, n: nat, t: nat): int
    requires 1 <= n <= t + 1
  {
    if n == 1 then pcs(t) else if pcs(t + 1 - n) < Least(pcs, n - 1, t) then pcs(t + 1 - n) else Least(pcs, n - 1, t)
  }

  /** await_pc_convergence: None is the TimeoutError. */
  method AwaitPcConvergence(pcs: nat -> int, stableCycles: nat, timeoutCycles: nat, period: nat)
    returns (r: Option<int>, ghost at: nat)
    requires period >= 1 && stableCycles >= 1
    ensures r.Some? ==>
      && at < timeoutCycles && Settled(pcs, period, period * stableCycles, at) && period <= at + 1
      && r.value == Least(pcs, period, at)
      && forall t: nat :: t < at ==> !Settled(pcs, period, period * stableCycles, t)
    ensures r.None? ==> forall t: nat :: t < timeoutCycles ==> !Settled(pcs, period, period * stableCycles, t)
  {
    hide Settled, Periodic;
    var history: seq<int> := [];
    var windowLen := period * stableCycles;
    AtLeastOne(period, stableCycles);
    at := 0;
    for t := 0 to timeoutCycles
      invariant |history| == t && forall i :: 0 <= i < t ==> history[i] == pcs(i)
      invariant forall u: nat :: u < t ==> !Settled(pcs, period, windowLen, u)
    {
      history := history + [pcs(t)];
      if |history| >= windowLen {
        var window := history[|history| - windowLen..];
        WindowSettled(pcs, period, windowLen, t, window);
        if Periodic(window, period) {
          var least := Min(window[windowLen - period..]);
          LeastIsMin(pcs, period, t, window[windowLen - period..]);
          return Some(least), t;
        }
      } else {
        TooEarly(pcs, period, windowLen, t);
      }
    }
    r := None;
  }

  lemma AtLeastOne(period: nat, stableCycles: nat)
    requires period >= 1 && stableCycles >= 1
    ensures period * stableCycles >= period
  {
    assert period * stableCycles == period + period * (stableCycles - 1);
  }

  lemma TooEarly(pcs: nat -> int, period: nat, n: nat, t: nat)
    requires t + 1 < n
    ensures !Settled(pcs, period, n, t)
  {
  }

  predicate Periodic(window: seq<int>, period: nat) {
    forall i {:trigger window[i]} :: period <= i < |window| ==> window[i] == window[i - period]
  }

  function Min(s: seq<int>): int
    requires s != []
  {
    if |s| == 1 then s[0] else if s[0] < Min(s[1..]) then s[0] else Min(s[1..])
  }

  lemma {:induction false} LeastIsMin(pcs: nat -> int, n: nat, t: nat, s: seq<int>)
    requires 1 <= n <= t + 1 && |s| == n && forall i :: 0 <= i < n ==> s[i] == pcs(t + 1 - n + i)
    ensures Min(s) == Least(pcs, n, t)
    decreases n
  {
    if n > 1 { LeastIsMin(pcs, n - 1, t, s[1..]); }
  }

  lemma WindowSettled(pcs: nat -> int, period: nat, n: nat, t: nat, window: seq<int>)
    requires 1 <= period <= n <= t + 1 && |window| == n
    requires forall i :: 0 <= i < n ==> window[i] == pcs(t + 1 - n + i)
    ensures Periodic(window, period) <==> Settled(pcs, period, n, t)
  {
    if Periodic(window, period) {
      forall i: nat | t + 1 - n + period <= i <= t ensures pcs(i) == pcs(i - period) {
        var k := i - (t + 1 - n);
        assert window[k] == window[k - period];
      }
    }
    if Settled(pcs, period, n, t) {
      forall i | period <= i < n ensures window[i] == window[i - period] {
        var j: nat := t + 1 - n + i;
        assert pcs(j) == pcs(j - period);
      }
    }
  }

  // ---- Zero-latency runs --------------------------------------------------------------------

  /** Both memories answer at once, nothing halts or interrupts. */
  function Ideal(m: Machine, s: Sys): Env {
    Env(Inputs(false, true, m.prog(s.core.pc), true, m.dp.readWord(s.mem, s.core.exmem.result), false), true)
  }

  function SysAt(m: Machine, s: Sys, t: nat): Sys {
    if t == 0 then s else SysClock(m.dp, SysAt(m, s, t - 1), Ideal(m, SysAt(m, s, t - 1)))
  }

  /** Instructions that have left WB before clock t. */
  function Retired(m: Machine, s: Sys, t: nat): nat {
    if t == 0 then 0 else Retired(m, s, t - 1) + if SysAt(m, s, t - 1).core.memwb.valid then 1 else 0
  }

  /** Instructions that have left EX. */
  function Executed(m: Machine, s: Sys, t: nat): nat { ExIx(Retired(m, s, t), SysAt(m, s, t).core) }

  /** On ideal memory IF runs just ahead of ID, and ID just ahead of EX. */
  predicate Packed(dp: Datapath, p: Pipe) {
    && (p.ifid.valid ==> p.pc == dp.plus(p.ifid.pc, 4))
    && (p.idex.valid ==> p.ifid.valid && p.ifid.pc == dp.plus(p.idex.pc, 4))
  }

  lemma PackedKept(dp: Datapath, p: Pipe, i: Inputs)
    requires Packed(dp, p) && Useful(p, i) && !i.timerIrq
    ensures Packed(dp, Clock(dp, p, i))
  {
    hide StepCsrs, StepRegs, StepMemWb, StepExMem, PrivHazard, Pending, ExTaken;
  }

  /** Clocks until EX is occupied. */
  function NextExec(dp: Datapath, p: Pipe): (n: nat)
    ensures n <= 3
  {
    if p.idex.valid then 0
    else if p.ifid.valid then
      var d := StallDepth(dp, p);
      if d > 2 then 3 else 1 + d
    else if p.exmem.valid then 3 else 2
  }

  /** EX is occupied at least once in every four clocks. */
  lemma NextExecStep(dp: Datapath, p: Pipe, i: Inputs)
    requires OperandLaw(dp) && BubblesEmpty(p) && Useful(p, i) && !i.timerIrq
    ensures NextExec(dp, Clock(dp, p, i)) <= if p.idex.valid then 3 else NextExec(dp, p) - 1
  {
    if !p.idex.valid {
      NoFlushWhenEmpty(dp, p, i);
      if !p.ifid.valid {
        EmptyFront(dp, p, i);
      } else if IdStall(dp, p, i) {
        HeldFront(dp, p, i);
      } else {
        assert Clock(dp, p, i).idex.valid by {
          hide StepCsrs, StepRegs, StepMemWb, StepExMem, StallDepth, IdStall, Flush;
        }
      }
    }
    hide StepCsrs, StepRegs, StepMemWb, StepExMem, StallDepth, IdStall, Flush, Clock;
  }

  lemma EmptyFront(dp: Datapath, p: Pipe, i: Inputs)
    requires Useful(p, i) && !Flush(dp, p, i) && !p.idex.valid && !p.ifid.valid
    ensures var q := Clock(dp, p, i);
      !q.idex.valid && q.ifid.valid && StallDepth(dp, q) <= if p.exmem.valid then 1 else 0
  {
    hide StepCsrs, StepRegs, StepPc, Flush;
  }

  lemma HeldFront(dp: Datapath, p: Pipe, i: Inputs)
    requires Useful(p, i) && !i.timerIrq && !p.idex.valid && p.ifid.valid && IdStall(dp, p, i)
    ensures var q := Clock(dp, p, i);
      !q.idex.valid && q.ifid.valid && StallDepth(dp, p) <= 2 && StallDepth(dp, q) + 1 <= StallDepth(dp, p)
  {
    StallStep(dp, p, i);
    hide StepCsrs, StepRegs, StepPc, Flush, StepMemWb, StepExMem;
  }

  // ---- Forward programs -----------------------------------------------------------------------

  /** A program of n instructions at addresses a(0), a(1), ... that only ever goes
      forward, ending in a self-loop at a(n). */
  ghost predicate Forward(m: Machine, n: nat, a: nat -> Word) {
    && m.init.pc == a(0)
    && (forall i: nat :: i <= n + 1 ==> m.dp.plus(a(i), 4) == a(i + 1))
    && (forall i: nat, j: nat :: i < j <= n + 2 ==> (a(i) as int) < (a(j) as int))
    && (forall i: nat, s: Arch {:trigger a(i), m.NextPc(s)} :: i < n && s.pc == a(i) ==>
          exists j: nat :: i < j <= n && m.NextPc(s) == a(j))
    && (forall s: Arch {:trigger m.InstrAt(s)} :: s.pc == a(n) ==> SelfLoop(m, s))
  }

  /** jal x0, loop. */
  predicate SelfLoop(m: Machine, s: Arch) {
    m.InstrAt(s).op.Jal? && !m.InstrAt(s).rs1Valid && !m.InstrAt(s).rs2Valid && m.NextPc(s) == s.pc
  }

  ghost predicate NoCsrs(m: Machine) { forall k: nat :: !IsCsr(m.InstrAt(m.Run(k)).op) }

  /** The setting of the remaining lemmas. */
  ghost predicate Setting(m: Machine, s: Sys, n: nat, a: nat -> Word) {
    Lawful(m.dp) && Supported(m) && Reset(m, s) && NoCsrs(m) && Forward(m, n, a)
  }

  lemma {:induction false} OnPath(m: Machine, n: nat, a: nat -> Word, k: nat)
    requires Forward(m, n, a)
    ensures exists i: nat :: i <= n && m.Run(k).pc == a(i)
  {
    hide Machine.NextPc, Machine.InstrAt, SelfLoop;
    if k > 0 {
      OnPath(m, n, a, k - 1);
      var i: nat :| i <= n && m.Run(k - 1).pc == a(i);
      RunNext(m, k - 1);
      assert m.Run(k).pc == m.NextPc(m.Run(k - 1));
      if i == n { LoopStays(m, n, a, m.Run(k - 1)); }
    } else {
      assert m.Run(0).pc == a(0);
    }
  }

  lemma LoopStays(m: Machine, n: nat, a: nat -> Word, s: Arch)
    requires Forward(m, n, a) && s.pc == a(n)
    ensures SelfLoop(m, s) && m.NextPc(s) == a(n)
  {
    var d := m.InstrAt(s);
    assert SelfLoop(m, s);
  }

  /** Index of the instruction that golden step k executes. */
  ghost function Ix(m: Machine, n: nat, a: nat -> Word, k: nat): (i: nat)
    requires Forward(m, n, a)
    ensures i <= n && m.Run(k).pc == a(i)
  {
    OnPath(m, n, a, k);
    var i: nat :| i <= n && m.Run(k).pc == a(i);
    i
  }

  /** Addresses determine indices. */
  lemma Distinct(m: Machine, n: nat, a: nat -> Word, i: nat, j: nat)
    requires Forward(m, n, a) && i <= n + 2 && j <= n + 2 && a(i) == a(j)
    ensures i == j
  {
    assert i < j ==> (a(i) as int) < (a(j) as int);
    assert j < i ==> (a(j) as int) < (a(i) as int);
  }

  /** One golden step from index i leads to a later index, or stays in the loop. */
  lemma NextIx(m: Machine, n: nat, a: nat -> Word, s: Arch, i: nat, i': nat)
    requires Forward(m, n, a) && i <= n && i' <= n && s.pc == a(i) && m.NextPc(s) == a(i')
    ensures if i < n then i' > i else i' == n
  {
    hide Machine.NextPc, Machine.InstrAt, SelfLoop;
    if i < n {
      var j: nat :| i < j <= n && m.NextPc(s) == a(j);
      Distinct(m, n, a, i', j);
    } else {
      LoopStays(m, n, a, s);
      Distinct(m, n, a, i', n);
    }
  }

  /** The index goes strictly forward until the loop. */
  lemma IxStep(m: Machine, n: nat, a: nat -> Word, k: nat)
    requires Forward(m, n, a)
    ensures if Ix(m, n, a, k) < n then Ix(m, n, a, k + 1) > Ix(m, n, a, k) else Ix(m, n, a, k + 1) == n
  {
    hide Machine.NextPc, Forward, Machine.Run;
    RunNext(m, k);
    NextIx(m, n, a, m.Run(k), Ix(m, n, a, k), Ix(m, n, a, k + 1));
  }

  lemma {:induction false} IxForward(m: Machine, n: nat, a: nat -> Word, k: nat, d: nat)
    requires Forward(m, n, a)
    ensures var i, j := Ix(m, n, a, k), Ix(m, n, a, k + d); j >= i && (j < n ==> j >= i + d)
  {
    hide Forward, Ix, Machine.Run;
    if d > 0 {
      IxForward(m, n, a, k, d - 1);
      IxStep(m, n, a, k + d - 1);
    }
  }

  // ---- Where pc is ----------------------------------------------------------------------------

  ghost predicate Good(m: Machine, s: Sys, t: nat) {
    var c := SysAt(m, s, t);
    Inv(m, LineAt(m, Retired(m, s, t), c.core), c) && Packed(m.dp, c.core) && BubblesEmpty(c.core)
  }

  lemma NoClobber(m: Machine, k: nat, c: Sys)
    requires NoCsrs(m) && Inv(m, LineAt(m, k, c.core), c)
    ensures !Clobber(c.core)
  {
    hide Machine.Run, Machine.InstrAt, FrontHolds, CsrsHold, PrivHolds, MemoryHolds, WbHolds, ExHolds;
  }

  lemma IdealContract(m: Machine, s: Sys)
    ensures Contract(m, s, Ideal(m, s)) && Useful(s.core, Ideal(m, s).pins)
  {
  }

  lemma StartsGood(m: Machine, s: Sys)
    requires Lawful(m.dp) && Reset(m, s)
    ensures Good(m, s, 0)
  {
    ResetRefines(m, s);
  }

  lemma {:induction false} GoodAt(m: Machine, s: Sys, t: nat)
    requires Lawful(m.dp) && Supported(m) && Reset(m, s) && NoCsrs(m)
    ensures Good(m, s, t)
  {
    hide Inv, Packed, BubblesEmpty, Clock, SysClock, Ideal, Clobber, SupportedAt, NoCsrs, Reset, LineAt, NextLine,
      Machine.Run, DecodeLaw, OperandLaw, MemoryLaw, Useful, Contract;
    if t == 0 {
      StartsGood(m, s);
    } else {
      GoodAt(m, s, t - 1);
      GoodStep(m, SysAt(m, s, t - 1), Retired(m, s, t - 1));
    }
  }

  lemma GoodStep(m: Machine, c: Sys, k: nat)
    requires Lawful(m.dp) && Supported(m) && NoCsrs(m)
    requires Inv(m, LineAt(m, k, c.core), c) && Packed(m.dp, c.core) && BubblesEmpty(c.core)
    ensures var d := SysClock(m.dp, c, Ideal(m, c));
      && Inv(m, LineAt(m, k + if c.core.memwb.valid then 1 else 0, d.core), d)
      && Packed(m.dp, d.core) && BubblesEmpty(d.core)
  {
    hide Inv, Packed, BubblesEmpty, Clock, Clobber, SupportedAt, NextLine, Machine.Run, DecodeLaw, OperandLaw,
      MemoryLaw, Contract, NoCsrs;
    var e := Ideal(m, c);
    IdealContract(m, c);
    NoClobber(m, k, c);
    PackedKept(m.dp, c.core, e.pins);
    BubblesKept(m.dp, c.core, e.pins);
    NextLineAt(m, k, c.core, e.pins);
    assert SupportedAt(m, m.Run(k));
    assert SupportedAt(m, m.Run(IdIx(k + if c.core.memwb.valid then 1 else 0, Clock(m.dp, c.core, e.pins))));
    InvKept(m, LineAt(m, k, c.core), c, e);
  }

  /** How far the fetch is ahead of the oldest instruction not yet executed. */
  function Ahead(p: Pipe): (o: nat)
    ensures o <= 2
  {
    if p.idex.valid then 2 else if p.ifid.valid then 1 else 0
  }

  /** pc is Ahead addresses past the next instruction to execute, on the right
      path or not. */
  lemma PcAt(m: Machine, s: Sys, n: nat, a: nat -> Word, t: nat)
    requires Forward(m, n, a) && OperandLaw(m.dp) && Good(m, s, t)
    ensures var p := SysAt(m, s, t).core; p.pc == a(Ix(m, n, a, Executed(m, s, t)) + Ahead(p))
  {
    hide SysAt, Retired, Machine.Run, Machine.NextPc, Machine.InstrAt, CsrsHold, PrivHolds, MemoryHolds, WbHolds,
      MemHolds, Ix, SelfLoop;
    var p, k := SysAt(m, s, t).core, Retired(m, s, t);
    var i := Ix(m, n, a, ExIx(k, p));
    if !p.idex.valid { NoFlushWhenEmpty(m.dp, p, Ideal(m, SysAt(m, s, t)).pins); }
    assert m.dp.plus(a(i), 4) == a(i + 1) && m.dp.plus(a(i + 1), 4) == a(i + 2);
  }

  // ---- Progress of the run ------------------------------------------------------------------------

  lemma ExecutedStep(m: Machine, s: Sys, t: nat)
    ensures Executed(m, s, t + 1) == Executed(m, s, t) + if SysAt(m, s, t).core.idex.valid then 1 else 0
  {
    hide Clock, Ideal;
    var c := SysAt(m, s, t);
    IdealContract(m, c);
    NextValid(m.dp, c.core, Ideal(m, c).pins);
  }

  lemma {:induction false} ExecutesEveryFour(m: Machine, s: Sys, t: nat, d: nat)
    requires Lawful(m.dp) && Supported(m) && Reset(m, s) && NoCsrs(m)
    ensures var x, y := SysAt(m, s, t).core, SysAt(m, s, t + d).core;
      d + NextExec(m.dp, y) <= 4 * (Executed(m, s, t + d) - Executed(m, s, t)) + NextExec(m.dp, x)
  {
    hide Inv, Packed, BubblesEmpty, Clock, NextExec, Executed, Supported, Reset, NoCsrs, LineAt, Ideal, OperandLaw,
      DecodeLaw, MemoryLaw, Useful, Contract;
    if d > 0 {
      ExecutesEveryFour(m, s, t, d - 1);
      var c := SysAt(m, s, t + d - 1);
      GoodAt(m, s, t + d - 1);
      IdealContract(m, c);
      NextExecStep(m.dp, c.core, Ideal(m, c).pins);
      ExecutedStep(m, s, t + d - 1);
      OccupiedNow(m.dp, c.core);
    }
  }

  lemma OccupiedNow(dp: Datapath, p: Pipe)
    ensures p.idex.valid <==> NextExec(dp, p) == 0
  {
  }

  /** The index of the next instruction to execute. */
  ghost function Front(m: Machine, s: Sys, n: nat, a: nat -> Word, t: nat): (i: nat)
    requires Forward(m, n, a)
    ensures i <= n
  {
    Ix(m, n, a, Executed(m, s, t))
  }

  /** In any twelve clocks the front moves on by three, or reaches the loop. */
  lemma FrontAdvances(m: Machine, s: Sys, n: nat, a: nat -> Word, t: nat, d: nat)
    requires Setting(m, s, n, a)
    ensures var i, j := Front(m, s, n, a, t), Front(m, s, n, a, t + d);
      j >= i && (j < n ==> 4 * (j - i) + 3 >= d)
  {
    hide Forward, Ix, Executed, NextExec, Supported, Reset, NoCsrs, Lawful, SysAt, Machine.Run;
    ExecutesEveryFour(m, s, t, d);
    ExecutedGrows(m, s, t, d);
    var e, f := Executed(m, s, t), Executed(m, s, t + d);
    IxForward(m, n, a, e, f - e);
  }

  lemma {:induction false} ExecutedGrows(m: Machine, s: Sys, t: nat, d: nat)
    ensures Executed(m, s, t + d) >= Executed(m, s, t)
  {
    hide Executed, SysAt, Retired, Machine.Run, Clock;
    if d > 0 {
      ExecutedGrows(m, s, t, d - 1);
      ExecutedStep(m, s, t + d - 1);
    }
  }

  /** The jump of the loop is where the fetch says it is. */
  predicate LoopInside(dp: Datapath, p: Pipe) {
    var d := dp.decode(p.ifid.instr);
    && (p.idex.valid ==> p.idex.op.Jal?)
    && (!p.idex.valid && p.ifid.valid ==> d.op.Jal? && !d.rs1Valid && !d.rs2Valid)
  }

  lemma LoopSeen(m: Machine, c: Sys, k: nat, n: nat, a: nat -> Word)
    requires Forward(m, n, a) && OperandLaw(m.dp) && BubblesEmpty(c.core) && Inv(m, LineAt(m, k, c.core), c)
    requires m.Run(ExIx(k, c.core)).pc == a(n)
    ensures LoopInside(m.dp, c.core)
  {
    hide Machine.Run, Machine.NextPc, CsrsHold, PrivHolds, MemoryHolds, WbHolds, MemHolds;
    var p := c.core;
    LoopStays(m, n, a, m.Run(ExIx(k, p)));
    if !p.idex.valid { NoFlushWhenEmpty(m.dp, p, Ideal(m, c).pins); }
  }

  lemma LoopClock(dp: Datapath, p: Pipe, i: Inputs)
    requires OperandLaw(dp) && BubblesEmpty(p) && LoopInside(dp, p) && Useful(p, i) && !i.timerIrq
    ensures Ahead(Clock(dp, p, i)) == (Ahead(p) + 1) % 3
  {
    hide StepCsrs, StepRegs, StepMemWb, StepExMem, Pending;
    if !p.idex.valid { NoFlushWhenEmpty(dp, p, i); }
  }

  /** In the loop the fetch runs 0, 1, 2 ahead and starts again. */
  lemma LoopCycles(m: Machine, s: Sys, n: nat, a: nat -> Word, t: nat)
    requires Setting(m, s, n, a) && Front(m, s, n, a, t) == n
    ensures Front(m, s, n, a, t + 1) == n
    ensures Ahead(SysAt(m, s, t + 1).core) == (Ahead(SysAt(m, s, t).core) + 1) % 3
  {
    hide Ix, Forward, Supported, Reset, NoCsrs, Clock, OperandLaw, DecodeLaw, MemoryLaw, Inv, LineAt, Packed,
      BubblesEmpty, LoopInside, Ideal, Useful, Contract, Ahead, Retired, Machine.Run;
    var c, k := SysAt(m, s, t), Retired(m, s, t);
    FrontAdvances(m, s, n, a, t, 1);
    GoodAt(m, s, t);
    LoopSeen(m, c, k, n, a);
    IdealContract(m, c);
    LoopClock(m.dp, c.core, Ideal(m, c).pins);
    ClockOf(m, s, t);
  }

  lemma ClockOf(m: Machine, s: Sys, t: nat)
    ensures var c := SysAt(m, s, t); SysAt(m, s, t + 1).core == Clock(m.dp, c.core, Ideal(m, c).pins)
  {
    hide Clock, Ideal;
  }

  lemma {:induction false} LoopFrom(m: Machine, s: Sys, n: nat, a: nat -> Word, t: nat, d: nat)
    requires Setting(m, s, n, a) && Front(m, s, n, a, t) == n
    ensures Front(m, s, n, a, t + d) == n
    ensures Ahead(SysAt(m, s, t + d).core) == (Ahead(SysAt(m, s, t).core) + d) % 3
  {
    hide Setting, Front, Ahead, SysAt, Forward;
    if d > 0 {
      LoopFrom(m, s, n, a, t, d - 1);
      LoopCycles(m, s, n, a, t + d - 1);
    }
  }

  // ---- What the test sees -------------------------------------------------------------------------

  function Samples(m: Machine, s: Sys): nat -> int { (t: nat) => SysAt(m, s, t).core.pc as int }

  lemma SampleAt(m: Machine, s: Sys, n: nat, a: nat -> Word, t: nat)
    requires Setting(m, s, n, a)
    ensures Samples(m, s)(t) == Addr(a, Front(m, s, n, a, t) + Ahead(SysAt(m, s, t).core))
  {
    hide Ix, SysAt, Forward, Executed, Supported, Reset, NoCsrs, Ahead, OperandLaw, DecodeLaw, MemoryLaw, Good;
    GoodAt(m, s, t);
    PcAt(m, s, n, a, t);
  }

  const PERIOD: nat := 3
  const STABLE: nat := 5

  /** In the loop the samples are P, P + 4, P + 8 over and over. */
  lemma LoopSamples(m: Machine, s: Sys, n: nat, a: nat -> Word, t: nat)
    requires Setting(m, s, n, a) && Front(m, s, n, a, t) == n
    ensures Samples(m, s)(t + 3) == Samples(m, s)(t)
    ensures Least(Samples(m, s), PERIOD, t + 2) == Addr(a, n)
  {
    hide Setting, Front, Ahead, SysAt, Samples, Forward, LoopAddr, Addr, Least, Retired, Machine.Run;
    var o := Ahead(SysAt(m, s, t).core);
    LoopSample(m, s, n, a, t, 0);
    LoopSample(m, s, n, a, t, 1);
    LoopSample(m, s, n, a, t, 2);
    LoopSample(m, s, n, a, t, 3);
    Increases(m, s, n, a, n, n + 1);
    Increases(m, s, n, a, n + 1, n + 2);
    LeastOfThree(Samples(m, s), t);
    Rotation(a, n, o);
  }

  function Addr(a: nat -> Word, i: nat): int { a(i) as int }

  function LoopAddr(a: nat -> Word, n: nat, o: nat): int { Addr(a, n + o % 3) }

  /** Any three in a row of the loop's addresses have the first as their least. */
  lemma Rotation(a: nat -> Word, n: nat, o: nat)
    requires Addr(a, n) < Addr(a, n + 1) < Addr(a, n + 2)
    ensures var u, v, w := LoopAddr(a, n, o), LoopAddr(a, n, o + 1), LoopAddr(a, n, o + 2);
      (if u <= v && u <= w then u else if v <= w then v else w) == Addr(a, n)
    ensures LoopAddr(a, n, o + 3) == LoopAddr(a, n, o)
  {
    hide Addr;
    assert (o + 3) % 3 == o % 3;
  }

  lemma LoopSample(m: Machine, s: Sys, n: nat, a: nat -> Word, t: nat, d: nat)
    requires Setting(m, s, n, a) && Front(m, s, n, a, t) == n
    ensures Samples(m, s)(t + d) == LoopAddr(a, n, Ahead(SysAt(m, s, t).core) + d)
  {
    hide Setting, Front, Ahead, SysAt, Samples, Forward;
    LoopFrom(m, s, n, a, t, d);
    SampleAt(m, s, n, a, t + d);
  }

  lemma Increases(m: Machine, s: Sys, n: nat, a: nat -> Word, i: nat, j: nat)
    requires Setting(m, s, n, a) && i < j <= n + 2
    ensures Addr(a, i) < Addr(a, j)
  {
  }

  lemma LeastOfThree(pcs: nat -> int, t: nat)
    ensures var x, y, z := pcs(t), pcs(t + 1), pcs(t + 2);
      Least(pcs, 3, t + 2) == if x <= y && x <= z then x else if y <= z then y else z
  {
    assert Least(pcs, 1, t + 2) == pcs(t + 2);
  }

  /** No window before the loop can be mistaken for it: whenever fifteen samples
      have period three, the smallest of the last three is the loop's address. */
  lemma OnlyLoopSettles(m: Machine, s: Sys, n: nat, a: nat -> Word, u: nat)
    requires Setting(m, s, n, a) && Settled(Samples(m, s), PERIOD, PERIOD * STABLE, u)
    ensures Least(Samples(m, s), PERIOD, u) == Addr(a, n)
  {
    hide Front, Ahead, SysAt, Samples, Forward, Lawful, Supported, Reset, NoCsrs, Least, Addr;
    var t, pcs := u - 14, Samples(m, s);
    assert pcs(t + 3) == pcs(t) && pcs(t + 6) == pcs(t + 3) && pcs(t + 9) == pcs(t + 6) && pcs(t + 12) == pcs(t + 9);
    var i, j := Front(m, s, n, a, t), Front(m, s, n, a, t + 12);
    FrontAdvances(m, s, n, a, t, 12);
    SampleAt(m, s, n, a, t);
    SampleAt(m, s, n, a, t + 12);
    if j < n {
      Increases(m, s, n, a, i + Ahead(SysAt(m, s, t).core), j + Ahead(SysAt(m, s, t + 12).core));
      assert false;
    }
    LoopSamples(m, s, n, a, t + 12);
  }

  /** The loop is entered within 4n clocks and recognised fifteen samples later. */
  lemma LoopSettles(m: Machine, s: Sys, n: nat, a: nat -> Word)
    requires Setting(m, s, n, a)
    ensures Settled(Samples(m, s), PERIOD, PERIOD * STABLE, 4 * n + 14)
  {
    hide Front, Ahead, SysAt, Samples, Forward, Lawful, Supported, Reset, NoCsrs;
    var pcs := Samples(m, s);
    FrontAdvances(m, s, n, a, 0, 4 * n);
    forall i: nat | 4 * n + 3 <= i <= 4 * n + 14 ensures pcs(i) == pcs(i - 3) {
      LoopFrom(m, s, n, a, 4 * n, i - 3 - 4 * n);
      LoopSamples(m, s, n, a, i - 3);
    }
  }

  /** Main result: run on ideal memory from reset, a forward program of n
      instructions makes the test return the address of its loop and nothing
      else, within 4n + 15 samples. */
  method AwaitLoop(m: Machine, s: Sys, ghost n: nat, ghost a: nat -> Word, timeoutCycles: nat) returns (r: Option<int>)
    requires Setting(m, s, n, a)
    ensures r.Some? ==> r.value == a(n) as int
    ensures timeoutCycles >= 4 * n + 15 ==> r.Some?
  {
    hide Setting, Samples, Settled, Least;
    ghost var at;
    r, at := AwaitPcConvergence(Samples(m, s), STABLE, timeoutCycles, PERIOD);
    if r.Some? { OnlyLoopSettles(m, s, n, a, at); }
    LoopSettles(m, s, n, a);
  }
}
