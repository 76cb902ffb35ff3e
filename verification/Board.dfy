/** The block RAM and the top level as clocked objects: the pipelined core, the RAM
    with its registered read addresses, and the two address-change registers. */
module Board {
  import opened Isa
  import opened Rv32
  import opened Conformance
  import opened Golden
  import opened Refinement
  import opened Traces
  import opened Harmless
  import opened Soc
  import P = Pipeline
  import B = ByteLanes
  import W = WordInts
  import opened Cores

  /** The composition for the datapath and RAM that are actually on the board. */
  lemma BoardRefinesGolden(m: Machine, c: Soc, ins: seq<SocPins>)
    requires m.dp == Core() && Supported(m) && CodeUntouched(m) && DataInRam(m, Bram())
    requires Reset(m, c.sys) && PortsHold(Bram(), c, false) && DebugProtocol(ins)
    requires HarmlessProgram(m) || NeverHalted(ins)
    ensures SocRun(Core(), Bram(), c, ins).sys == SysRun(Core(), c.sys, Envs(Core(), Bram(), c, ins))
    ensures Agrees(m, c.sys, Envs(Core(), Bram(), c, ins))
  {
    hide Lawful, RamLaw, Supported, CodeUntouched, DataInRam, Reset, PortsHold, DebugProtocol, HarmlessProgram, Envs,
      SocRun, SysRun, Agrees;
    CoreLawful();
    CoreRamLaw();
    SocRefinesGolden(m, Bram(), c, ins);
  }

  // ---- The address map ------------------------------------------------------------------------

  lemma WordOfAddress(x: nat, w: nat, lane: nat)
    requires 4 * w + lane == x % 0x4000 && lane < 4
    ensures w == x / 4 % 0x1000
  {
  }

  lemma LowestIs(a: Word)
    ensures Bram().selected(a) <==> W.Int32(a) < 0x1_0000
  {
    assert Bram().selected(a) == W.Below32(a, 0x1_0000);
    assert W.Int32(0x1_0000) == 0x1_0000;
    hide W.Int32, W.Below32;
    W.Below32Is(a, 0x1_0000);
  }

  /** The RAM answers in the lowest 64 KB, where its 4096 words repeat. */
  lemma RamIs(a: Word)
    ensures Bram().index(a) == W.Int32(a) / 4 % 0x1000
    ensures Bram().selected(a) <==> W.Int32(a) < 0x1_0000
  {
    LowestIs(a);
    hide W.Int32, WordIndex, B.LaneOf;
    B.ByteIndexIs(a);
    W.IntBounds(a);
    WordOfAddress(W.Int32(a), WordIndex(a), B.LaneOf(a));
  }

  /** Beyond it a store leaves the RAM alone, and a load gets what the peripheral says. */
  lemma PeripheralAccess(c: Soc, i: SocPins)
    requires W.Int32(c.sys.core.exmem.result) >= 0x1_0000 && !i.halt && c.sys.core.exmem.valid
    ensures var n := SocClock(Core(), Bram(), c, i).sys;
      && (c.sys.core.exmem.isStore ==> n.mem == c.sys.mem)
      && (IsLoad(c.sys.core.exmem.op) && c.sys.core.exmem.result == c.dmemPrev ==>
            n.core.memwb.wrData == LoadValue(c.sys.core.exmem.op, c.sys.core.exmem.result, i.periphData))
  {
    hide W.Int32, P.StepPc, P.StepIfId, P.StepIdEx, P.StepExMem, P.StepCsrs, P.StepRegs, LoadValue;
    RamIs(c.sys.core.exmem.result);
  }

  /** A clock in which the debug UART reads leaves the RAM alone, and the word at its
      address is on port B in the next. */
  lemma DebugRead(c: Soc, i: SocPins)
    requires i.dbgValid && |c.sys.mem| == 0x1000
    ensures var n := SocClock(Core(), Bram(), c, i);
      n.sys.mem == c.sys.mem && Q(n.sys.mem, n.addrB) == c.sys.mem[W.Int32(i.dbgAddr) / 4 % 0x1000]
  {
    hide W.Int32, P.Clock, CorePins, WordIndex;
    RamIs(i.dbgAddr);
  }

  lemma KeepTwice(w: Word, v: Word, a: Word, b: Word)
    ensures ((w & !a) | (v & a)) & !b == (w & !(a | b)) | (v & a & !b)
  {
  }

  lemma TakeTwice(v: Word, a: Word, b: Word)
    ensures (v & a & !b) | (v & b) == v & (a | b)
  {
  }

  lemma OrAssociates(x: Word, y: Word, z: Word)
    ensures (x | y) | z == x | (y | z)
  {
  }

  /** Setting two sets of bits one after the other sets both. */
  lemma SetTwice(w: Word, v: Word, a: Word, b: Word)
    ensures SetBits(SetBits(w, v, a), v, b) == SetBits(w, v, Both(a, b))
  {
    KeepTwice(w, v, a, b);
    TakeTwice(v, a, b);
    OrAssociates(w & !(a | b), v & a & !b, v & b);
  }

  lemma SetNone(w: Word, v: Word)
    ensures SetBits(w, v, 0) == w
  {
  }

  /** One lane write after the other. */
  function Lanes(w: Word, v: Word, be: bv4): Word {
    var w1 := SetBits(SetBits(w, v, Enabled(On(be, 1), 0xFF)), v, Enabled(On(be, 2), 0xFF00));
    SetBits(SetBits(w1, v, Enabled(On(be, 4), 0xFF_0000)), v, Enabled(On(be, 8), 0xFF00_0000))
  }

  /** Writing the four byte lanes one after the other is the masked write. */
  lemma LanesMerge(w: Word, v: Word, be: bv4)
    ensures Lanes(w, v, be) == Merge(w, v, be)
  {
    hide SetBits, Enabled, Both, On;
    var a, b := Enabled(On(be, 1), 0xFF), Enabled(On(be, 2), 0xFF00);
    var c, d := Enabled(On(be, 4), 0xFF_0000), Enabled(On(be, 8), 0xFF00_0000);
    SetTwice(w, v, a, b);
    SetTwice(SetBits(w, v, Both(a, b)), v, c, d);
    SetTwice(w, v, Both(a, b), Both(c, d));
  }

  /** dp_ram_model with registered addresses. */
  class DpRam {
    const mem: array<Word>
    var addressA: nat
    var addressB: nat

    ghost predicate Valid() { mem.Length == RAM_WORDS }

    constructor (image: array<Word>)
      requires image.Length == RAM_WORDS
      ensures Valid() && mem == image && addressA == 0 && addressB == 0
    {
      mem, addressA, addressB := image, 0, 0;
    }

    method WriteLane(addr: nat, data: Word, on: bool, lane: Word)
      requires Valid() && addr < RAM_WORDS
      modifies mem
      ensures mem[..] == old(mem[..])[addr := SetBits(old(mem[addr]), data, Enabled(on, lane))]
    {
      hide SetBits;
      SetNone(mem[addr], data);
      if on { mem[addr] := SetBits(mem[addr], data, lane); }
    }

    method WriteMasked(addr: nat, data: Word, byteena: bv4)
      requires Valid() && addr < RAM_WORDS
      modifies mem
      ensures mem[..] == old(mem[..])[addr := Merge(old(mem[addr]), data, byteena)]
    {
      hide Merge, SetBits, Enabled, On;
      LanesMerge(mem[addr], data, byteena);
      WriteLane(addr, data, On(byteena, 1), 0xFF);
      WriteLane(addr, data, On(byteena, 2), 0xFF00);
      WriteLane(addr, data, On(byteena, 4), 0xFF_0000);
      WriteLane(addr, data, On(byteena, 8), 0xFF00_0000);
    }

    /** One clock edge; port A never writes on this board. */
    method Clock(newA: nat, newB: nat, wrenB: bool, dataB: Word, byteenaB: bv4)
      requires Valid() && newB < RAM_WORDS
      modifies this, mem
      ensures addressA == newA && addressB == newB
      ensures mem[..] == if wrenB then old(mem[..])[newB := Merge(old(mem[newB]), dataB, byteenaB)] else old(mem[..])
    {
      addressA, addressB := newA, newB;
      if wrenB { WriteMasked(newB, dataB, byteenaB); }
    }
  }

  class SocTop {
    const core: PipelinedCore
    const ram: DpRam
    var imemAddrPrev: Word
    var dmemAddrPrev: Word

    ghost predicate Valid()
      reads this
    {
      core.Valid() && ram.Valid() && core.regfile != ram.mem
    }

    function State(): Soc
      requires Valid()
      reads this, core, core.regfile, ram, ram.mem
    {
      Soc(Sys(core.State(), ram.mem[..]), ram.addressA, ram.addressB, imemAddrPrev, dmemAddrPrev)
    }

    constructor (core: PipelinedCore, ram: DpRam)
      requires core.Valid() && ram.Valid() && core.regfile != ram.mem
      ensures Valid() && this.core == core && this.ram == ram && imemAddrPrev == 0 && dmemAddrPrev == 0
    {
      this.core, this.ram := core, ram;
      imemAddrPrev, dmemAddrPrev := 0, 0;
    }

    /** The store of MEM reaches port B unless the debug UART steers it. */
    method MemoryEdge(i: SocPins)
      requires Valid()
      modifies ram, ram.mem
      ensures Valid() && ram.addressA == WordIndex(core.pc)
      ensures ram.addressB == WordIndex(if i.dbgValid then i.dbgAddr else core.exmem.result)
      ensures var p := core.State();
        ram.mem[..] == if !i.dbgValid && P.DmemWe(p) && Bram().selected(p.exmem.result)
                       then StoreTo(Core(), p, old(ram.mem[..])) else old(ram.mem[..])
    {
      hide WordIndex, Merge, StoreData, StoreMask;
      var x := core.exmem;
      var a := x.result;
      var wren := !i.dbgValid && x.isStore && x.valid && a < 0x1_0000;
      ram.Clock(WordIndex(core.pc), WordIndex(if i.dbgValid then i.dbgAddr else a), wren,
                StoreData(x.src2, a), StoreMask(x.op, a));
    }

    /** One clock edge of the board, with no debug write in it. */
    method Clock(i: SocPins)
      requires Valid()
      modifies this`imemAddrPrev, this`dmemAddrPrev, core, core.regfile, ram, ram.mem
      ensures Valid() && State() == SocClock(Core(), Bram(), old(State()), i)
    {
      hide P.Clock, WordIndex, StoreTo, P.DmemReq, P.DmemWe, Core;
      ghost var c := State();
      var pins := CorePins(Bram(), State(), i);
      var pc, addr := core.pc, core.exmem.result;
      MemoryEdge(i);
      core.Clock(Core(), pins);
      imemAddrPrev, dmemAddrPrev := pc, addr;
    }
  }
}
