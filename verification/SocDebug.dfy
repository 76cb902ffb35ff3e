/** The SoC with its debug UART attached: the command FSM is the source of halt and
    of the port B steering, and the debug unit may load the program first. */
module SocDebug {
  import opened Options
  import opened Isa
  import opened Golden
  import opened Pipeline
  import opened Refinement
  import opened Traces
  import opened Harmless
  import opened Soc
  import D = DebugUart
  import U = DebugUnit
  import L = DebugLink
  import H = DebugHost
  import Rv32
  import WordInts
  import B = ByteLanes
  import Conformance

  /** The pins of each clock are those of an FSM that starts in f0 and runs on the
      given inputs, and no WRITE_MEM reaches its write clock. */
  ghost predicate DrivenBy(N: nat, f0: D.Fsm, fsm: seq<D.Pins>, ins: seq<SocPins>)
    requires D.FsmOk(f0)
  {
    && |fsm| == |ins|
    && forall j :: 0 <= j < |ins| ==>
         var f := D.FsmRun(N, f0, fsm[..j]);
         ins[j].halt == f.halt && ins[j].dbgValid == D.MemValid(f) && !D.MemWe(f)
  }

  /** What holds of the FSM in every reachable state. */
  predicate Holding(f: D.Fsm) { D.FsmOk(f) && (D.NeedsHalt(f) ==> f.halt) }

  lemma NextState(N: nat, f0: D.Fsm, fsm: seq<D.Pins>, j: nat)
    requires D.FsmOk(f0) && j < |fsm|
    ensures D.FsmRun(N, f0, fsm[..j + 1]) == D.FsmStep(N, D.FsmRun(N, f0, fsm[..j]), fsm[j])
  {
    hide D.FsmStep;
    assert fsm[..j + 1][..j] == fsm[..j];
  }

  /** The FSM keeps the protocol that the core's refinement relies on, whatever
      bytes it receives. */
  lemma FsmKeepsProtocol(N: nat, f0: D.Fsm, fsm: seq<D.Pins>, ins: seq<SocPins>)
    requires Holding(f0) && DrivenBy(N, f0, fsm, ins)
    ensures DebugProtocol(ins)
  {
    hide D.FsmStep, D.FsmRun;
    forall j | 0 <= j < |ins| && ins[j].dbgValid ensures ins[j].halt && (j + 1 < |ins| ==> ins[j + 1].halt) {
      D.SteeringFrom(N, f0, fsm[..j], fsm[j]);
      if j + 1 < |ins| { NextState(N, f0, fsm, j); }
    }
  }

  /** With a debug UART halting, stepping and reading as it is told, the pipelined
      core on block RAM still does what the golden core does. */
  lemma DebuggedSocRefines(m: Machine, ram: Ram, c: Soc, N: nat, f0: D.Fsm, fsm: seq<D.Pins>, ins: seq<SocPins>)
    requires SocSetup(m, ram, c) && Holding(f0) && DrivenBy(N, f0, fsm, ins) && HarmlessProgram(m)
    ensures SocRun(m.dp, ram, c, ins).sys == SysRun(m.dp, c.sys, Envs(m.dp, ram, c, ins))
    ensures Agrees(m, c.sys, Envs(m.dp, ram, c, ins))
  {
    hide SocSetup, DebugProtocol, SocRun, Agrees, HarmlessProgram, Holding;
    FsmKeepsProtocol(N, f0, fsm, ins);
    SocRefinesGolden(m, ram, c, ins);
  }

  // ---- Loading a program before it runs ---------------------------------------------------------

  /** A word of the core's memory from its four bytes. */
  function AsWord(w: D.Word): Word {
    (w[0] as Word) | ((w[1] as Word) << 8) | ((w[2] as Word) << 16) | ((w[3] as Word) << 24)
  }

  // ---- Bytes and words -----------------------------------------------------------------------------

  function Grow(n: D.Byte): Word { n as Word }

  lemma BackToWord(w: Word, n: D.Byte)
    requires WordInts.Int32(w) == n
    ensures w == Grow(n)
  {
    assert w == (w as int) as Word;
  }

  lemma ByteNumber(n: D.Byte)
    ensures WordInts.Int8(WordInts.ByteOfInt(n)) == n && Grow(n) == B.Widened(WordInts.ByteOfInt(n))
  {
    hide WordInts.Int32, WordInts.Int8, WordInts.Int4, WordInts.Join8, B.Widened, Grow, WordInts.ByteOfInt;
    var h, l := WordInts.Nibbles(n);
    B.WidenedInt(WordInts.ByteOfInt(n));
    BackToWord(B.Widened(WordInts.ByteOfInt(n)), n);
  }

  lemma AsWordIs(w: D.Word)
    ensures AsWord(w) == B.Whole(Grow(w[0]), Grow(w[1]), Grow(w[2]), Grow(w[3]))
  {
  }

  /** A word of four bytes is the number that the host sends as those bytes. */
  lemma AsWordNumber(w: D.Word)
    ensures WordInts.Int32(AsWord(w)) == H.Unpack(w)
  {
    hide WordInts.Int32, WordInts.Int8, B.Widened, B.Whole, AsWord, Grow, WordInts.ByteOfInt;
    AsWordIs(w);
    ByteNumber(w[0]);
    ByteNumber(w[1]);
    ByteNumber(w[2]);
    ByteNumber(w[3]);
    B.WholeValue(WordInts.ByteOfInt(w[0]), WordInts.ByteOfInt(w[1]),
                 WordInts.ByteOfInt(w[2]), WordInts.ByteOfInt(w[3]));
  }

  lemma AsWordPack(n: nat)
    requires n < D.TWO32
    ensures WordInts.Int32(AsWord(H.Pack(n))) == n
  {
    hide AsWord, WordInts.Int32;
    AsWordNumber(H.Pack(n));
    H.UnpackPack(n);
  }

  lemma IndexOfByte(x: nat, w: nat, lane: nat)
    requires 4 * w + lane == x % 0x4000 && lane < 4
    ensures w == x / 4 % 0x1000
  {
  }

  /** The debug unit and the RAM select the same word. */
  lemma SameIndex(a: D.Word)
    ensures Rv32.WordIndex(AsWord(a)) == U.WordIx(a)
  {
    hide AsWord, WordInts.Int32, Rv32.WordIndex, B.LaneOf, U.WordIx, H.Unpack, H.Pack;
    var n := H.Unpack(a);
    AsWordNumber(a);
    B.ByteIndexIs(AsWord(a));
    IndexOfByte(n, Rv32.WordIndex(AsWord(a)), B.LaneOf(AsWord(a)));
    H.PackUnpack(a);
    H.PackedIx(n);
  }

  function AsMem(mem: seq<D.Word>): Mem { seq(|mem|, i requires 0 <= i < |mem| => AsWord(mem[i])) }

  /** The RAM selects the words that the debug unit does. */
  ghost predicate Addresses(ram: Ram) { forall a: D.Word :: ram.index(AsWord(a)) == U.WordIx(a) }

  lemma BoardAddresses()
    ensures Addresses(Conformance.Bram())
  {
    hide AsWord, Rv32.WordIndex, U.WordIx;
    forall a: D.Word ensures Conformance.Bram().index(AsWord(a)) == U.WordIx(a) { SameIndex(a); }
  }

  /** One clock in which unit u holds the core and owns port B. */
  function LoadClock(dp: Datapath, ram: Ram, c: Soc, u: U.Unit): Soc {
    var next := SocClock(dp, ram, c, SocPins(true, D.MemValid(u.f), AsWord(u.f.memAddr), 0));
    var ix := ram.index(AsWord(u.f.memAddr));
    if D.MemWe(u.f) && ix < |c.sys.mem|
    then next.(sys := next.sys.(mem := c.sys.mem[ix := AsWord(u.f.memData)])) else next
  }

  /** The SoC before clock t of a debug session that holds the core. */
  function LoadRun(dp: Datapath, ram: Ram, c: Soc, N: nat, v: U.View, u: U.Unit, rx: L.Arrivals, t: nat): Soc
    requires N >= 1 && U.Sized(u)
  {
    if t == 0 then c
    else LoadClock(dp, ram, LoadRun(dp, ram, c, N, v, u, rx, t - 1), L.UnitAt(N, v, u, rx, t - 1))
  }

  predicate SteersBefore(N: nat, v: U.View, u: U.Unit, rx: L.Arrivals, t: nat)
    requires N >= 1 && U.Sized(u)
  {
    t > 0 && D.MemValid(L.UnitAt(N, v, u, rx, t - 1).f)
  }

  /** A held core with MEM empty stays as it is and stores nothing. */
  lemma HeldCore(dp: Datapath, ram: Ram, c: Soc, i: SocPins)
    requires i.halt && !c.sys.core.exmem.valid
    ensures SocClock(dp, ram, c, i).sys == c.sys
  {
    hide StoreTo;
  }

  lemma UnitWrites(N: nat, v: U.View, u: U.Unit, b: Option<D.Byte>)
    requires N >= 1 && U.Sized(u)
    ensures U.UnitStep(N, v, u, b).mem
      == if D.MemWe(u.f) && U.WordIx(u.f.memAddr) < |u.mem| then u.mem[U.WordIx(u.f.memAddr) := u.f.memData] else u.mem
  {
    hide D.FsmStep, U.WordIx;
  }

  lemma MemOfUpdate(mem: seq<D.Word>, ix: nat, w: D.Word)
    requires ix < |mem|
    ensures AsMem(mem)[ix := AsWord(w)] == AsMem(mem[ix := w])
  {
    hide AsWord;
  }

  lemma LoadStep(dp: Datapath, ram: Ram, c: Soc, dbgBefore: bool, N: nat, v: U.View, u: U.Unit, b: Option<D.Byte>)
    requires RamLaw(dp, ram) && Addresses(ram) && PortsHold(ram, c, dbgBefore) && !c.sys.core.exmem.valid
    requires N >= 1 && U.Sized(u) && |u.mem| == U.RAM_WORDS && c.sys.mem == AsMem(u.mem)
    ensures var r := LoadClock(dp, ram, c, u);
      && r.sys.core == c.sys.core && r.sys.mem == AsMem(U.UnitStep(N, v, u, b).mem)
      && PortsHold(ram, r, D.MemValid(u.f))
  {
    hide AsWord, RamLaw, SocClock, U.UnitStep, U.Sized, D.MemWe, D.MemValid, U.WordIx;
    var i := SocPins(true, D.MemValid(u.f), AsWord(u.f.memAddr), 0);
    HeldCore(dp, ram, c, i);
    PortsKept(dp, ram, c, i, dbgBefore);
    UnitWrites(N, v, u, b);
    MemOfUpdate(u.mem, if U.WordIx(u.f.memAddr) < |u.mem| then U.WordIx(u.f.memAddr) else 0, u.f.memData);
  }

  /** Such a session leaves the core alone and the memory as the unit left it. */
  lemma {:induction false} LoadedState(dp: Datapath, ram: Ram, c: Soc, N: nat, v: U.View, u: U.Unit, rx: L.Arrivals,
      t: nat)
    requires RamLaw(dp, ram) && Addresses(ram) && PortsHold(ram, c, false) && !c.sys.core.exmem.valid
    requires N >= 1 && U.Sized(u) && |u.mem| == U.RAM_WORDS && c.sys.mem == AsMem(u.mem)
    ensures var r, w := LoadRun(dp, ram, c, N, v, u, rx, t), L.UnitAt(N, v, u, rx, t);
      && |w.mem| == U.RAM_WORDS && r.sys.core == c.sys.core && r.sys.mem == AsMem(w.mem)
      && PortsHold(ram, r, SteersBefore(N, v, u, rx, t))
  {
    hide LoadClock, U.UnitStep, RamLaw, Addresses, PortsHold, AsMem, U.Sized;
    if t > 0 {
      LoadedState(dp, ram, c, N, v, u, rx, t - 1);
      var w := L.UnitAt(N, v, u, rx, t - 1);
      LoadStep(dp, ram, LoadRun(dp, ram, c, N, v, u, rx, t - 1), SteersBefore(N, v, u, rx, t - 1), N, v, w, rx(t - 1));
      StepSize(N, v, w, rx(t - 1));
    }
  }

  lemma StepSize(N: nat, v: U.View, u: U.Unit, b: Option<D.Byte>)
    requires N >= 1 && U.Sized(u)
    ensures |U.UnitStep(N, v, u, b).mem| == |u.mem|
  {
    hide D.FsmStep;
  }

  lemma SteeredClock(dp: Datapath, ram: Ram, c: Soc, N: nat, v: U.View, u: U.Unit, b: Option<D.Byte>)
    requires N >= 1 && U.Sized(u) && D.MemValid(u.f)
    ensures LoadClock(dp, ram, c, u).addrB == ram.index(AsWord(u.f.memAddr))
    ensures U.UnitStep(N, v, u, b).ramIx == U.WordIx(u.f.memAddr)
  {
    hide AsWord, D.FsmStep, U.WordIx, Clock;
  }

  /** A read in such a session: what the RAM answers on port B is, as a number, the word
      that the debug unit takes for its answer. */
  lemma SessionRead(dp: Datapath, ram: Ram, c: Soc, N: nat, v: U.View, u: U.Unit, rx: L.Arrivals, t: nat)
    requires RamLaw(dp, ram) && Addresses(ram) && PortsHold(ram, c, false) && !c.sys.core.exmem.valid
    requires N >= 1 && U.Sized(u) && |u.mem| == U.RAM_WORDS && c.sys.mem == AsMem(u.mem)
    requires SteersBefore(N, v, u, rx, t)
    ensures var r, w := LoadRun(dp, ram, c, N, v, u, rx, t), L.UnitAt(N, v, u, rx, t);
      WordInts.Int32(Q(r.sys.mem, r.addrB)) == H.Unpack(U.ReadMem(w.mem, w.ramIx))
  {
    hide RamLaw, PortsHold, U.Sized, AsWord, WordInts.Int32, H.Unpack, U.UnitStep, LoadClock, U.WordIx;
    var w := L.UnitAt(N, v, u, rx, t);
    LoadedState(dp, ram, c, N, v, u, rx, t);
    var before := L.UnitAt(N, v, u, rx, t - 1);
    SteeredClock(dp, ram, LoadRun(dp, ram, c, N, v, u, rx, t - 1), N, v, before, rx(t - 1));
    AsWordNumber(w.mem[w.ramIx]);
  }

  /** The golden core starts from the pipelined core's reset state and the memory that the
      debug unit has left after t clocks. */
  ghost predicate StartsLoaded(m: Machine, c: Soc, w: U.Unit) {
    m.init.mem == AsMem(w.mem) && Reset(m, Sys(c.sys.core, m.init.mem))
  }

  /** Main result for a loaded program. The debug unit holds the core out of reset for t
      clocks and writes what it is told to. Driven by the same FSM from there on, for
      any bytes that write no more memory, the SoC does what the golden core does on the
      loaded memory: the refinement does not depend on how the program came there. */
  lemma LoadedSocRefines(m: Machine, ram: Ram, c: Soc, N: nat, v: U.View, u: U.Unit, rx: L.Arrivals, t: nat,
      fsm: seq<D.Pins>, ins: seq<SocPins>)
    requires Lawful(m.dp) && RamLaw(m.dp, ram) && Supported(m) && CodeUntouched(m) && DataInRam(m, ram)
    requires U.Divisor(N) && U.UnitOk(N, u) && |u.mem| == U.RAM_WORDS && c.sys.mem == AsMem(u.mem)
    requires Addresses(ram) && PortsHold(ram, c, false) && StartsLoaded(m, c, L.UnitAt(N, v, u, rx, t))
    requires forall s: nat :: s < t ==> L.UnitAt(N, v, u, rx, s).f.halt
    requires !SteersBefore(N, v, u, rx, t)
    requires DrivenBy(N, L.UnitAt(N, v, u, rx, t).f, fsm, ins) && HarmlessProgram(m)
    ensures var r := LoadRun(m.dp, ram, c, N, v, u, rx, t);
      && SocRun(m.dp, ram, r, ins).sys == SysRun(m.dp, r.sys, Envs(m.dp, ram, r, ins))
      && Agrees(m, r.sys, Envs(m.dp, ram, r, ins))
  {
    hide Lawful, RamLaw, Addresses, Supported, CodeUntouched, DataInRam, PortsHold, DrivenBy, HarmlessProgram, Agrees,
      AsMem, LoadRun, L.UnitAt, SocRun, SteersBefore;
    var r := LoadRun(m.dp, ram, c, N, v, u, rx, t);
    LoadedState(m.dp, ram, c, N, v, u, rx, t);
    L.UnitAtOk(N, v, u, rx, t);
    DebuggedSocRefines(m, ram, r, N, L.UnitAt(N, v, u, rx, t).f, fsm, ins);
  }

  // ---- The program a host has loaded --------------------------------------------------------------

  /** Word j of a memory, as a number. */
  function WordAt(mem: Mem, j: nat): int
    requires j < |mem|
  {
    WordInts.Int32(mem[j])
  }

  /** The RAM word that takes word i of a program loaded at a byte address. */
  function Place(base: nat, i: nat): nat { (base / 4 + i) % 0x1000 }

  lemma PlaceIs(base: nat, i: nat, j: nat)
    requires i < 0x1000 && j < 0x1000
    ensures H.Offset(base, j) == i <==> j == Place(base, i)
  {
    hide H.Offset;
    H.OffsetInverts(base, i, j);
  }

  /** After load_program the core's memory holds its words, in order from the base address
      on, and everything else as before. */
  lemma HostWords(before: seq<D.Word>, after: seq<D.Word>, base: nat, words: seq<nat>)
    requires H.AllWords(words) && |words| <= 0x1000 && H.IsLoaded(before, after, base, words)
    ensures |AsMem(after)| == |AsMem(before)| == 0x1000
    ensures forall i :: 0 <= i < |words| ==> WordAt(AsMem(after), Place(base, i)) == words[i]
    ensures forall j :: 0 <= j < 0x1000 && (forall i :: 0 <= i < |words| ==> Place(base, i) != j) ==>
      AsMem(after)[j] == AsMem(before)[j]
  {
    hide AsWord, WordInts.Int32, H.Pack, H.Offset;
    forall i | 0 <= i < |words| ensures WordAt(AsMem(after), Place(base, i)) == words[i] {
      PlaceIs(base, i, Place(base, i));
      AsWordPack(words[i]);
    }
    hide Place;
    forall j | 0 <= j < 0x1000 && (forall i :: 0 <= i < |words| ==> Place(base, i) != j)
      ensures AsMem(after)[j] == AsMem(before)[j]
    {
      PlaceIs(base, H.Offset(base, j), j);
    }
  }
}
