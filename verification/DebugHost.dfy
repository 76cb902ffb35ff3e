/** tools/reg_debugger.py: the host's side of the debug link, end to end. */
module DebugHost {
  import opened Options
  import opened Uart
  import opened DebugUart
  import opened DebugUnit
  import opened DebugCommands
  import opened SerialLink

  // ---- struct.pack("<I") and struct.unpack("<I") -----------------------------------------

  function Pack(n: nat): Word
    requires n < TWO32
  {
    var q1 := n / 256;
    var q2 := q1 / 256;
    [n % 256, q1 % 256, q2 % 256, q2 / 256]
  }

  function Unpack(w: Word): (n: nat)
    ensures n < TWO32
  {
    var b0: nat, b1: nat, b2: nat, b3: nat := w[0], w[1], w[2], w[3];
    b0 + 256 * (b1 + 256 * (b2 + 256 * b3))
  }

  lemma UnpackPack(n: nat)
    requires n < TWO32
    ensures Unpack(Pack(n)) == n
  {
  }

  lemma PackUnpack(w: Word)
    ensures Pack(Unpack(w)) == w
  {
    var b2: nat, b3: nat := w[2], w[3];
    var q2: nat := b2 + 256 * b3;
    var q1: nat := w[1] + 256 * q2;
    DigitOf(w[0], q1);
    DigitOf(w[1], q2);
    DigitOf(b2, b3);
  }

  lemma DigitOf(b: Byte, q: nat)
    ensures (b + 256 * q) / 256 == q && (b + 256 * q) % 256 == b
  {
  }

  /** A packed byte address selects the word it lies in, modulo the RAM. */
  lemma PackedIx(n: nat)
    requires n < TWO32
    ensures WordIx(Pack(n)) == n / 4 % RAM_WORDS
  {
    var q, b := n / 256, n % 256;
    Split(q, b);
    assert WordIx(Pack(n)) == b / 4 + 64 * (q % 64);
  }

  lemma Split(q: nat, b: nat)
    requires b < 256
    ensures (256 * q + b) / 4 % RAM_WORDS == b / 4 + 64 * (q % 64)
    ensures q % 256 % 64 == q % 64
  {
    var h, l := q / 64, q % 64;
    assert (256 * q + b) / 4 == 4096 * h + (64 * l + b / 4);
  }

  /** How far word j of memory lies beyond the word at byte address base. */
  function Offset(base: nat, j: nat): (k: nat)
    requires j < RAM_WORDS
    ensures k < RAM_WORDS
  {
    (j + RAM_WORDS - base / 4 % RAM_WORDS) % RAM_WORDS
  }

  function IxOf(base: nat, i: nat): (j: nat)
    ensures j < RAM_WORDS
  {
    (base / 4 + i) % RAM_WORDS
  }

  lemma OffsetInverts(base: nat, i: nat, j: nat)
    requires i < RAM_WORDS && j < RAM_WORDS
    ensures Offset(base, j) == i <==> j == IxOf(base, i)
    ensures IxOf(base, i) == (base + 4 * i) / 4 % RAM_WORDS
  {
    var b := base / 4 % RAM_WORDS;
    assert IxOf(base, i) == if b + i < RAM_WORDS then b + i else b + i - RAM_WORDS;
    assert Offset(base, j) == if j < b then j + RAM_WORDS - b else j - b;
  }

  predicate AllWords(ws: seq<nat>) { forall i :: 0 <= i < |ws| ==> ws[i] < TWO32 }

  /** Memory after words have been written from base on: exactly those words change. */
  predicate IsLoaded(before: seq<Word>, after: seq<Word>, base: nat, words: seq<nat>)
    requires AllWords(words)
  {
    && |before| == |after| == RAM_WORDS
    && forall j :: 0 <= j < RAM_WORDS ==>
         after[j] == if Offset(base, j) < |words| then Pack(words[Offset(base, j)]) else before[j]
  }

  lemma LoadsMore(before: seq<Word>, mid: seq<Word>, base: nat, words: seq<nat>, i: nat)
    requires AllWords(words) && i < |words| <= RAM_WORDS && IsLoaded(before, mid, base, words[..i])
    ensures IsLoaded(before, mid[IxOf(base, i) := Pack(words[i])], base, words[..i + 1])
  {
    hide Pack, Offset, IxOf;
    var after := mid[IxOf(base, i) := Pack(words[i])];
    forall j | 0 <= j < RAM_WORDS
      ensures after[j] == if Offset(base, j) < i + 1 then Pack(words[..i + 1][Offset(base, j)]) else before[j]
    {
      OffsetInverts(base, i, j);
    }
  }

  // ---- The host object -------------------------------------------------------------------

  /** The host with the unit at the far end of its serial port. gap(k, j) is the pause
      before byte j of the k-th command; what the unit hands to its transmitter is at
      the host's disposal, and the byte that ends a read is turn clocks on its way to
      the host and the next command's first byte back to the unit, at least LastByte
      (DebugSession.ToleranceMargin). patience is the port's timeout in clocks: 5
      seconds, where the longest reply takes milliseconds. taken counts the reply bytes
      already read, heard says that the last thing done was a read. */
  class RegDebugger {
    const N: nat
    const v: View
    const gap: (nat, nat) -> nat
    const turn: nat
    const patience: nat
    var unit: Unit
    var writes: nat
    var taken: nat
    var heard: bool

    /** The link is sound; the unit may still be at work on the last command. */
    ghost predicate Linked()
      reads this
    {
      && Divisor(N) && ViewOk(v) && patience >= RecoveryBound(N) && turn >= LastByte(N) && Pauses(N, gap)
      && UnitOk(N, unit) && !Waits(unit.f) && |unit.mem| == RAM_WORDS && Left(N, unit) >= 0
    }

    /** Halt, memory and reply bytes once the unit has finished what it was told. */
    ghost function Outcome(): (w: World)
      requires Linked()
      reads this
    {
      Finish(N, v, unit)
    }

    /** And the host has read every reply, so that little work is left. */
    ghost predicate Valid()
      reads this
    {
      && Linked() && WorldOk(Outcome()) && taken == |unit.sent| == |Outcome().said|
      && Left(N, unit) <= if heard then LastByte(N) else SILENT_WORK
    }

    constructor (N: nat, v: View, gap: (nat, nat) -> nat, turn: nat, patience: nat, mem: seq<Word>)
      requires Divisor(N) && ViewOk(v) && |mem| == RAM_WORDS
      requires patience >= RecoveryBound(N) && turn >= LastByte(N) && Pauses(N, gap)
      ensures Valid() && unit == UnitReset(mem) && Outcome() == World(true, mem, [])
    {
      this.N, this.v, this.gap, this.turn, this.patience := N, v, gap, turn, patience;
      unit, writes, taken, heard := UnitReset(mem), 0, 0, false;
      new;
      FinishKept(N, v, unit, 0);
      NoWait(N, v, unit);
    }

    /** ser.write of one command; it returns with the unit still at work. */
    method Write(c: Command)
      requires Valid() && (OnlyHalted(c) ==> Outcome().halt)
      modifies this`unit, this`writes, this`heard
      ensures Linked() && unit.sent == old(unit.sent) && writes == old(writes) + 1 && !heard
      ensures Outcome() == Effect(v, old(Outcome()), c) && Left(N, unit) == Work(N, c)
      ensures taken == |Outcome().said| ==> Valid()
    {
      hide Feed, Finish, Left, FsmShape, Joined, Encode, HaltAfter, MemAfter, Reply, Work;
      var k, way := writes, if heard then turn else 0;
      var gaps: seq<nat> := seq(|Encode(c)|, j requires 0 <= j => if j == 0 then way + gap(k, 0) else gap(k, j));
      WriteEnds(N, v, unit, c, gaps);
      SilentWork(N, v, Outcome().mem, c);
      unit := Feed(N, v, unit, Encode(c), gaps);
      writes, heard := writes + 1, false;
    }

    /** _read_word: blocks until four bytes have come, or the timeout. */
    method ReadWord() returns (r: Option<nat>)
      requires Linked() && taken <= |unit.sent|
      modifies this`taken, this`unit, this`heard
      ensures Linked() && Outcome() == old(Outcome()) && taken <= |unit.sent|
      ensures r.None? ==> |Outcome().said| < taken + 4 && taken == old(taken)
      ensures r.Some? ==> r.value < TWO32 && taken == old(taken) + 4 <= |Outcome().said|
      ensures r.Some? ==> Pack(r.value) == Outcome().said[old(taken)..taken]
      ensures r.Some? && taken == |Outcome().said| && WorldOk(Outcome()) ==> Valid()
    {
      hide Pack, Unpack, UnitStep, Owed, Left, Joined, FsmShape;
      ghost var u := unit;
      var waited := 0;
      NoWait(N, v, u);
      FinishKept(N, v, u, 0);
      while |unit.sent| - taken < 4 && waited < patience
        invariant taken == old(taken) && waited <= patience && unit == Quiet(N, v, u, waited)
        invariant Linked() && Outcome() == old(Outcome()) && taken <= |unit.sent| && unit.sent <= Outcome().said
        invariant waited >= Left(N, u) ==> unit.sent == Outcome().said
        invariant Owed(unit.f) + |unit.sent| == |Outcome().said|
        decreases patience - waited
      {
        waited := waited + 1;
        FinishKept(N, v, u, waited);
        unit := UnitStep(N, v, unit, None);
        MemSize(N, v, u, waited);
      }
      LeftBounds(N, u);
      if |unit.sent| - taken < 4 {
        return None;
      }
      var bytes: Word := unit.sent[taken..taken + 4];
      PackUnpack(bytes);
      NearEnd(N, unit);
      r := Some(Unpack(bytes));
      taken, heard := taken + 4, true;
    }

    method HaltCore()
      requires Valid()
      modifies this`unit, this`writes, this`heard
      ensures Valid() && Outcome().halt && Outcome().mem == old(Outcome().mem)
    {
      Write(Halt);
    }

    /** What a running core's register shows in passing is not claimed. */
    method ReadReg(idx: int) returns (r: Option<nat>)
      requires Valid()
      modifies this
      ensures Valid() && Outcome().mem == old(Outcome().mem) && Outcome().halt == old(Outcome().halt)
      ensures r.Some? <==> 0 <= idx <= 31
      ensures r.Some? && Outcome().halt ==> r.value == Unpack(v.regs[idx])
    {
      hide Pack, Unpack, Quiet, Left, UnitOk, Owed;
      if idx < 0 || idx > 31 {
        return None;
      }
      Write(Command.ReadReg(idx));
      Tail(old(Outcome().said), v.regs[idx]);
      r := ReadWord();
      UnpackPack(r.value);
    }

    method ReadMem(addr: nat) returns (r: Option<nat>)
      requires Valid() && Outcome().halt && addr < TWO32
      modifies this
      ensures Valid() && Outcome().mem == old(Outcome().mem) && Outcome().halt
      ensures r == Some(Unpack(Outcome().mem[addr / 4 % RAM_WORDS]))
    {
      hide Pack, Unpack, Quiet, Left, UnitOk, Owed, WordIx;
      Write(Command.ReadMem(Pack(addr)));
      PackedIx(addr);
      Tail(old(Outcome().said), Outcome().mem[addr / 4 % RAM_WORDS]);
      r := ReadWord();
      UnpackPack(r.value);
    }

    method WriteMem(addr: nat, data: nat)
      requires Valid() && Outcome().halt && addr < TWO32 && data < TWO32
      modifies this
      ensures Valid() && Outcome().halt
      ensures Outcome().mem == old(Outcome().mem)[addr / 4 % RAM_WORDS := Pack(data)]
    {
      hide Pack, Quiet, Left, UnitOk, Owed, WordIx;
      Write(Command.WriteMem(Pack(addr), Pack(data)));
      PackedIx(addr);
    }

    /** Halts, then writes word by word. */
    method LoadProgram(words: seq<nat>, base: nat)
      requires Valid() && AllWords(words) && base + 4 * |words| <= TWO32 && |words| <= RAM_WORDS
      modifies this
      ensures Valid() && Outcome().halt && IsLoaded(old(Outcome().mem), Outcome().mem, base, words)
    {
      hide Pack, Quiet, Left, UnitOk, Owed, Finish;
      HaltCore();
      for i := 0 to |words|
        invariant Valid() && Outcome().halt
        invariant IsLoaded(old(Outcome().mem), Outcome().mem, base, words[..i])
      {
        LoadsMore(old(Outcome().mem), Outcome().mem, base, words, i);
        OffsetInverts(base, i, 0);
        WriteMem(base + 4 * i, words[i]);
      }
      assert words[..|words|] == words;
    }

    method ReadMemRange(addr: nat, n: nat) returns (r: Option<seq<nat>>)
      requires Valid() && Outcome().halt && addr + 4 * n <= TWO32
      modifies this
      ensures Valid() && Outcome().halt && Outcome().mem == old(Outcome().mem)
      ensures r.Some? && |r.value| == n && forall i :: 0 <= i < n ==> r.value[i] == Unpack(Outcome().mem[IxOf(addr, i)])
    {
      hide Unpack, Quiet, Left, UnitOk, Owed, Finish;
      var words: seq<nat> := [];
      for i := 0 to n
        invariant Valid() && Outcome().halt && Outcome().mem == old(Outcome().mem)
        invariant |words| == i && forall k :: 0 <= k < i ==> words[k] == Unpack(Outcome().mem[IxOf(addr, k)])
      {
        var w := ReadMem(addr + 4 * i);
        if w.None? {
          return None;
        }
        words := words + [w.value];
      }
      r := Some(words);
    }

    /** x0 to x31, then the pc, of a held core. */
    method ReadAll() returns (r: Option<(seq<nat>, nat)>)
      requires Valid()
      modifies this
      ensures Valid() && Outcome().mem == old(Outcome().mem) && Outcome().halt == old(Outcome().halt)
      ensures r.Some? && |r.value.0| == 32
      ensures Outcome().halt ==>
        r.value.1 == Unpack(v.pc) && forall i :: 0 <= i < 32 ==> r.value.0[i] == Unpack(v.regs[i])
    {
      hide Pack, Unpack, Quiet, Left, UnitOk, Owed, Finish, Flatten;
      ghost var before := Outcome().said;
      Write(Command.ReadAll);
      ghost var end := Outcome();
      var regs: seq<nat> := [];
      for i := 0 to 32
        invariant Linked() && Outcome() == end && taken == |before| + 4 * i <= |unit.sent| && |regs| == i
        invariant forall k :: 0 <= k < i ==> regs[k] == Unpack(v.regs[k])
      {
        WordAt(before, Dump(v), i);
        var w := ReadWord();
        if w.None? {
          return None;
        }
        UnpackPack(w.value);
        regs := regs + [w.value];
      }
      WordAt(before, Dump(v), 32);
      var pc := ReadWord();
      if pc.None? {
        return None;
      }
      UnpackPack(pc.value);
      r := Some((regs, pc.value));
    }
  }

  /** The longest work of a command without a reply: STEP's. */
  const SILENT_WORK: nat := 2

  lemma SilentWork(N: nat, v: View, mem: seq<Word>, c: Command)
    requires |mem| == RAM_WORDS && ViewOk(v)
    ensures Reply(v, mem, c) == [] ==> Work(N, c) <= SILENT_WORK
  {
  }

  /** Between a command's bytes the line pauses at most the timeout; before its first
      it may follow on the last command's frame, which takes longer than any silent
      command's work. */
  ghost predicate Pauses(N: nat, gap: (nat, nat) -> nat) {
    && (forall k: nat, j: nat :: j >= 1 ==> gap(k, j) <= N * TIMEOUT_BIT_PERIODS)
    && (forall k: nat :: gap(k, 0) >= SILENT_WORK)
  }

  /** Frames back to back, at any bit period of the host, keep these pauses. */
  lemma BackToBackPauses(N: nat, M: nat, gap: (nat, nat) -> nat)
    requires N >= 2 && M >= 1 && Tolerates(N, M) && forall k: nat, j: nat :: gap(k, j) == PACKET_SIZE * M - 1
    ensures Pauses(N, gap)
  {
  }

  /** A unit that owes no reply byte has at most the last one's time to go. */
  lemma NearEnd(N: nat, u: Unit)
    requires Divisor(N) && UnitOk(N, u) && !Waits(u.f)
    ensures Owed(u.f) == 0 ==> Left(N, u) <= LastByte(N)
  {
    if Owed(u.f) == 0 { OwedNothing(N, u); }
  }

  lemma {:induction false} MemSize(N: nat, v: View, u: Unit, n: nat)
    requires N >= 1 && Sized(u)
    ensures |Quiet(N, v, u, n).mem| == |u.mem|
  {
    hide FsmStep, TxStep, Sized;
    if n > 0 { MemSize(N, v, u, n - 1); }
  }

  /** A command whose first byte comes when the unit has finished ends in its effect. */
  lemma WriteEnds(N: nat, v: View, u: Unit, c: Command, gaps: seq<nat>)
    requires Divisor(N) && ViewOk(v) && UnitOk(N, u) && !Waits(u.f) && |u.mem| == RAM_WORDS && Left(N, u) >= 0
    requires |Finish(N, v, u).said| == |u.sent| && |Finish(N, v, u).mem| == RAM_WORDS
    requires OnlyHalted(c) ==> Finish(N, v, u).halt
    requires |gaps| == |Encode(c)| && InTime(N, gaps[1..]) && gaps[0] >= Left(N, u)
    ensures var w := Feed(N, v, u, Encode(c), gaps);
      && UnitOk(N, w) && !Waits(w.f) && |w.mem| == RAM_WORDS && Left(N, w) == Work(N, c) && w.sent == u.sent
      && Finish(N, v, w) == Effect(v, Finish(N, v, u), c)
  {
    hide Feed, Quiet, Left, Joined, FsmShape, Owed, Encode, Work, Reply, HaltAfter, MemAfter, Sized, InTime;
    var n := Left(N, u);
    var idle := Quiet(N, v, u, n);
    FinishKept(N, v, u, n);
    QuietKept(N, v, u, n);
    LeftBounds(N, idle);
    FeedShift(N, v, u, Encode(c), gaps, n);
    var later := gaps[0 := gaps[0] - n];
    assert later[1..] == gaps[1..];
    CommandRuns(N, v, idle, c, later);
  }

  lemma Tail(s: seq<Byte>, w: Word)
    ensures (s + w)[|s|..|s| + 4] == w
  {
  }

  lemma SliceOfPrefix(s: seq<Byte>, t: seq<Byte>, i: nat, j: nat)
    requires i <= j <= |s|
    ensures (s + t)[i..j] == s[i..j]
  {
  }

  lemma {:induction false} FlattenAt(ws: seq<Word>, i: nat)
    requires i < |ws|
    ensures Flatten(ws)[4 * i..4 * i + 4] == ws[i]
  {
    var n := |ws| - 1;
    assert Flatten(ws) == Flatten(ws[..n]) + ws[n];
    if i < n {
      FlattenAt(ws[..n], i);
      SliceOfPrefix(Flatten(ws[..n]), ws[n], 4 * i, 4 * i + 4);
    }
  }

  lemma WordAt(before: seq<Byte>, ws: seq<Word>, i: nat)
    requires i < |ws|
    ensures var s, k := before + Flatten(ws), |before| + 4 * i; k + 4 <= |s| && s[k..k + 4] == ws[i]
  {
    FlattenAt(ws, i);
    var k := |before| + 4 * i;
    assert (before + Flatten(ws))[k..k + 4] == Flatten(ws)[4 * i..4 * i + 4];
  }

  /** End to end: with frames back to back or further apart, up to the timeout within a
      command, loading a program that fits and reading the same range back returns it,
      and no other word changes. */
  method LoadThenRead(d: RegDebugger, words: seq<nat>, base: nat) returns (back: Option<seq<nat>>)
    requires d.Valid() && AllWords(words) && base + 4 * |words| <= TWO32 && |words| <= RAM_WORDS
    modifies d
    ensures back == Some(words)
    ensures d.Valid() && IsLoaded(old(d.Outcome().mem), d.Outcome().mem, base, words)
  {
    d.LoadProgram(words, base);
    back := d.ReadMemRange(base, |words|);
    forall i | 0 <= i < |words| ensures back.value[i] == words[i] {
      OffsetInverts(base, i, IxOf(base, i));
      UnpackPack(words[i]);
    }
    assert back.value == words;
  }
}
