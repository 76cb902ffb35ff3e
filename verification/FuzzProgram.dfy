/** What the fuzz generator writes, once assembled, is a program the convergence
    theorem is about. */
module FuzzProgram {
  import opened Isa
  import opened Rv32
  import opened Conformance
  import opened Encoding
  import opened Golden
  import opened Refinement
  import opened Traces
  import opened Convergence
  import Fuzz

  // ---- Operations -----------------------------------------------------------------------------

  function RegisterOp(k: nat): Op {
    match k
    case 0 => Add case 1 => Sub case 2 => And case 3 => Or case 4 => Xor
    case 5 => Sll case 6 => Srl case 7 => Sra case 8 => Slt case _ => Sltu
  }

  function ImmediateOp(k: nat): Op {
    match k
    case 0 => Addi case 1 => Andi case 2 => Ori case _ => Xori
  }

  function ShiftOp(k: nat): Op {
    match k
    case 0 => Slli case 1 => Srli case _ => Srai
  }

  function BranchOp(k: nat): Op {
    match k
    case 0 => Beq case 1 => Bne case 2 => Blt case 3 => Bge case 4 => Bltu case _ => Bgeu
  }

  function OpOfFiller(f: Fuzz.Filler): Op {
    match f
    case AluR(op, _, _, _) => RegisterOp(op)
    case AluI(op, _, _, _) => ImmediateOp(op)
    case ShiftI(op, _, _, _) => ShiftOp(op)
    case Lui(_, _) => Op.Lui
    case Auipc(_, _) => Op.Auipc
    case Sw(_, _) => Op.Sw
    case Lw(_, _) => Op.Lw
  }

  // ---- The assembler's output, instruction by instruction ------------------------------------------

  /** An immediate field that stands for the number x. */
  predicate Denotes(imm: Word, x: int) { imm as int == if x >= 0 then x else x + 0x1_0000_0000 }

  predicate InField(r: Word, x: nat) { r < 0x20 && Field5(r) == x }

  predicate UpperField(imm: Word, x: nat) { LowClear(imm) && (imm >> 12) as int == x }

  /** w is an instruction of the I format. */
  ghost predicate EncodesI(w: Word, op: Op, rd: nat, rs1: nat, imm: Word) {
    exists o, f3, d, a: Word :: Selects(op, o, f3) && o < 0x80 && f3 < 8 && InField(d, rd) && InField(a, rs1)
      && w == EncI(o, d, f3, a, imm)
  }

  ghost predicate EncodesR(w: Word, op: Op, rd: nat, rs1: nat, rs2: nat) {
    exists o, f3, f7, d, a, b: Word :: Selects(op, o, f3) && o < 0x80 && f3 < 8 && f7 < 0x80
      && InField(d, rd) && InField(a, rs1) && InField(b, rs2)
      && (f7 & 0x20 != 0 <==> op.Sub? || op.Sra?) && (f7 & 1 != 0 <==> IsMul(op))
      && w == EncR(o, d, f3, a, b, f7)
  }

  ghost predicate EncodesU(w: Word, op: Op, rd: nat, x: nat) {
    exists o, d, imm: Word :: HasOpcode(o, op) && o < 0x80 && InField(d, rd) && UpperField(imm, x)
      && w == EncU(o, d, imm)
  }

  ghost predicate EncodesS(w: Word, op: Op, rs2: nat, off: nat) {
    exists o, f3, b, imm: Word :: Selects(op, o, f3) && o < 0x80 && f3 < 8 && InField(b, rs2)
      && SignExtended(imm, 0xFFFF_F800) && Denotes(imm, off) && w == EncS(o, f3, 0, b, imm)
  }

  ghost predicate EncodesB(w: Word, op: Op, rs1: nat, rs2: nat, imm: Word) {
    exists o, f3, a, b: Word :: Selects(op, o, f3) && o < 0x80 && f3 < 8 && InField(a, rs1) && InField(b, rs2)
      && w == EncB(o, f3, a, b, imm)
  }

  ghost predicate EncodesFiller(w: Word, f: Fuzz.Filler) {
    var op := OpOfFiller(f);
    match f
    case AluR(_, rd, rs1, rs2) => EncodesR(w, op, rd, rs1, rs2)
    case AluI(_, rd, rs1, simm) =>
      exists imm: Word :: SignExtended(imm, 0xFFFF_F800) && Denotes(imm, simm) && EncodesI(w, op, rd, rs1, imm)
    case ShiftI(_, rd, rs1, shamt) =>
      exists imm: Word :: Denotes(imm, shamt) && imm < 0x20
        && EncodesI(w, op, rd, rs1, if op.Srai? then imm | 0x400 else imm)
    case Lui(rd, x) => EncodesU(w, op, rd, x)
    case Auipc(rd, x) => EncodesU(w, op, rd, x)
    case Sw(rs2, off) => EncodesS(w, op, rs2, off)
    case Lw(rd, off) =>
      exists imm: Word :: SignExtended(imm, 0xFFFF_F800) && Denotes(imm, off) && EncodesI(w, op, rd, 0, imm)
  }

  /** Byte distance of a branch d instructions ahead. */
  function Distance(d: nat): Word { if d == 1 then 4 else if d == 2 then 8 else if d == 3 then 12 else 16 }

  /** w is line l assembled at index i, its label at index t. */
  ghost predicate Encodes(w: Word, l: Fuzz.Line, i: nat, t: nat) {
    match l
    case Plain(f) => EncodesFiller(w, f)
    case Branch(op, rs1, rs2, _) => i < t && EncodesB(w, BranchOp(op), rs1, rs2, Distance(t - i))
    case JumpLoop => exists o: Word :: HasOpcode(o, Jal) && o < 0x80 && w == EncJ(o, 0, 0)
    case _ => false
  }

  /** The index a line's label stands for. */
  function TargetOf(ls: seq<Fuzz.Line>, l: Fuzz.Line): nat {
    if l.Branch? && Fuzz.Defs(ls, l.dest) != [] then Fuzz.Defs(ls, l.dest)[0] else 0
  }

  /** The text assembled at a(0), a(1), ... */
  ghost predicate Assembled(prog: Program, ls: seq<Fuzz.Line>, n: nat, a: nat -> Word)
    requires |Fuzz.Instrs(ls)| == n + 1
  {
    forall i {:trigger a(i)} :: 0 <= i <= n ==>
      Encodes(prog(a(i)), Fuzz.Instrs(ls)[i], i, TargetOf(ls, Fuzz.Instrs(ls)[i]))
  }

  // ---- What the words decode to --------------------------------------------------------------------

  /** Neither jumps, branches, traps nor touches a CSR. */
  predicate Falls(op: Op) {
    !IsBranch(op) && !op.Jal? && !op.Jalr? && !IsTrap(op) && !op.Mret? && !IsCsr(op)
  }

  lemma FillerFalls(f: Fuzz.Filler)
    ensures Falls(OpOfFiller(f)) && !OpOfFiller(f).Undecoded?
  {
  }

  lemma DecodesI(w: Word, op: Op, rd: nat, rs1: nat, imm: Word)
    requires EncodesI(w, op, rd, rs1, imm) && FormatOf(op) == FormI && SignExtended(imm, 0xFFFF_F800)
    requires (op.Slli? || op.Srli? ==> imm & 0x400 == 0) && (op.Srai? ==> imm & 0x400 != 0)
    ensures Decode(w).op == op
  {
    hide Decode, EncI, Field5, Selects, SignExtended, FormatOf;
    var o, f3, d, a: Word :| Selects(op, o, f3) && o < 0x80 && f3 < 8 && InField(d, rd) && InField(a, rs1)
      && w == EncI(o, d, f3, a, imm);
    ImmediateRoundTrip(op, o, d, f3, a, imm);
  }

  lemma DecodesR(w: Word, op: Op, rd: nat, rs1: nat, rs2: nat)
    requires EncodesR(w, op, rd, rs1, rs2) && FormatOf(op) == FormR
    ensures Decode(w).op == op
  {
    hide Decode, EncR, Field5, Selects, FormatOf, IsMul;
    var o, f3, f7, d, a, b: Word :| Selects(op, o, f3) && o < 0x80 && f3 < 8 && f7 < 0x80
      && InField(d, rd) && InField(a, rs1) && InField(b, rs2)
      && (f7 & 0x20 != 0 <==> op.Sub? || op.Sra?) && (f7 & 1 != 0 <==> IsMul(op))
      && w == EncR(o, d, f3, a, b, f7);
    RegisterRoundTrip(op, o, d, f3, a, b, f7);
  }

  lemma DecodesU(w: Word, op: Op, rd: nat, x: nat)
    requires EncodesU(w, op, rd, x) && (op.Lui? || op.Auipc?)
    ensures Decode(w).op == op
  {
    hide Decode, EncU, Field5, LowClear, OpcodeOf;
    var o, d, imm: Word :| HasOpcode(o, op) && o < 0x80 && InField(d, rd) && UpperField(imm, x)
      && w == EncU(o, d, imm);
    UpperRoundTrip(op, o, d, imm);
  }

  lemma DecodesS(w: Word, op: Op, rs2: nat, off: nat)
    requires EncodesS(w, op, rs2, off) && FormatOf(op) == FormS
    ensures Decode(w).op == op
  {
    hide Decode, EncS, Field5, Selects, SignExtended, FormatOf, Denotes;
    var o, f3, b, imm: Word :| Selects(op, o, f3) && o < 0x80 && f3 < 8 && InField(b, rs2)
      && SignExtended(imm, 0xFFFF_F800) && Denotes(imm, off) && w == EncS(o, f3, 0, b, imm);
    StoreRoundTrip(op, o, f3, 0, b, imm);
  }

  lemma DecodesB(w: Word, op: Op, rs1: nat, rs2: nat, imm: Word)
    requires EncodesB(w, op, rs1, rs2, imm) && IsBranch(op) && SignExtended(imm, 0xFFFF_F000) && imm & 1 == 0
    ensures Decode(w).op == op && Decode(w).imm == imm
  {
    hide Decode, EncB, Field5, Selects, SignExtended;
    var o, f3, a, b: Word :| Selects(op, o, f3) && o < 0x80 && f3 < 8 && InField(a, rs1) && InField(b, rs2)
      && w == EncB(o, f3, a, b, imm);
    BranchRoundTrip(op, o, f3, a, b, imm);
  }

  lemma ShiftFits(imm: Word)
    requires imm < 0x20
    ensures SignExtended(imm, 0xFFFF_F800) && imm & 0x400 == 0
    ensures SignExtended(imm | 0x400, 0xFFFF_F800) && (imm | 0x400) & 0x400 != 0
  {
  }

  lemma Formats(f: Fuzz.Filler)
    ensures f.AluR? ==> FormatOf(OpOfFiller(f)) == FormR
    ensures f.AluI? || f.ShiftI? || f.Lw? ==> FormatOf(OpOfFiller(f)) == FormI
    ensures f.Sw? ==> FormatOf(OpOfFiller(f)) == FormS
  {
  }

  lemma FillerDecodes(w: Word, f: Fuzz.Filler)
    requires EncodesFiller(w, f)
    ensures Decode(w).op == OpOfFiller(f)
  {
    hide Decode, EncodesI, EncodesR, EncodesU, EncodesS, SignExtended, FormatOf, Denotes;
    var op := OpOfFiller(f);
    Formats(f);
    match f
    case AluR(_, rd, rs1, rs2) => DecodesR(w, op, rd, rs1, rs2);
    case AluI(_, rd, rs1, simm) =>
      var imm: Word :| SignExtended(imm, 0xFFFF_F800) && Denotes(imm, simm) && EncodesI(w, op, rd, rs1, imm);
      DecodesI(w, op, rd, rs1, imm);
    case ShiftI(_, rd, rs1, shamt) =>
      var imm: Word :| Denotes(imm, shamt) && imm < 0x20
        && EncodesI(w, op, rd, rs1, if op.Srai? then imm | 0x400 else imm);
      ShiftFits(imm);
      DecodesI(w, op, rd, rs1, if op.Srai? then imm | 0x400 else imm);
    case Lui(rd, x) => DecodesU(w, op, rd, x);
    case Auipc(rd, x) => DecodesU(w, op, rd, x);
    case Sw(rs2, off) => DecodesS(w, op, rs2, off);
    case Lw(rd, off) =>
      var imm: Word :| SignExtended(imm, 0xFFFF_F800) && Denotes(imm, off) && EncodesI(w, op, rd, 0, imm);
      DecodesI(w, op, rd, 0, imm);
  }

  lemma DistanceFits(d: nat)
    ensures SignExtended(Distance(d), 0xFFFF_F000) && Distance(d) & 1 == 0
  {
  }

  lemma BranchDecodes(w: Word, k: nat, rs1: nat, rs2: nat, d: nat)
    requires EncodesB(w, BranchOp(k), rs1, rs2, Distance(d))
    ensures IsBranch(Decode(w).op) && Decode(w).imm == Distance(d)
  {
    hide Decode, EncodesB, SignExtended, Distance;
    DistanceFits(d);
    DecodesB(w, BranchOp(k), rs1, rs2, Distance(d));
  }

  lemma ZeroJump(o: Word)
    requires o < 0x80
    ensures Fields(o, 0, 0, 0, 0) && SignExtended(0, 0xFFF0_0000) && (0 as Word) & 1 == 0
  {
  }

  lemma LoopDecodes(w: Word)
    requires exists o: Word :: HasOpcode(o, Jal) && o < 0x80 && w == EncJ(o, 0, 0)
    ensures var d := Decode(w); d.op == Jal && d.imm == 0 && !d.rs1Valid && !d.rs2Valid
  {
    hide Decode, EncJ, SignExtended, OpcodeOf, Fields;
    var o: Word :| HasOpcode(o, Jal) && o < 0x80 && w == EncJ(o, 0, 0);
    ZeroJump(o);
    JumpRoundTrip(o, 0, 0);
  }

  // ---- The assembled program goes forward ---------------------------------------------------------

  /** n + 3 consecutive word addresses, without wrapping. */
  ghost predicate Placed(a: nat -> Word, n: nat) {
    && (forall i: nat :: i <= n + 1 ==> Sum(a(i), 4) == a(i + 1))
    && (forall i: nat, j: nat :: i < j <= n + 2 ==> (a(i) as int) < (a(j) as int))
  }

  lemma AddFour(x: Word, y: Word)
    ensures Sum(Sum(x, y), 4) == Sum(x, y + 4)
  {
  }

  lemma AddNothing(x: Word)
    ensures Sum(x, 0) == x
  {
  }

  /** The address of a label one to four instructions ahead. */
  lemma TargetAddress(a: nat -> Word, n: nat, i: nat, t: nat)
    requires Placed(a, n) && i < t <= n && t <= i + 4
    ensures Sum(a(i), Distance(t - i)) == a(t)
  {
    hide Sum;
    assert Sum(a(i), 4) == a(i + 1);
    if t >= i + 2 {
      AddFour(a(i), 4);
      assert Sum(a(i + 1), 4) == a(i + 2);
    }
    if t >= i + 3 {
      AddFour(a(i), 8);
      assert Sum(a(i + 2), 4) == a(i + 3);
    }
    if t == i + 4 {
      AddFour(a(i), 12);
      assert Sum(a(i + 3), 4) == a(i + 4);
    }
  }

  /** The machine that runs the text at a(0). */
  ghost predicate Loads(m: Machine, ls: seq<Fuzz.Line>, n: nat, a: nat -> Word) {
    && m.dp == Core() && Fuzz.ForwardText(ls, n) && Placed(a, n)
    && Assembled(m.prog, ls, n, a) && m.init.pc == a(0)
  }

  lemma LineAtIndex(m: Machine, ls: seq<Fuzz.Line>, n: nat, a: nat -> Word, i: nat)
    requires Loads(m, ls, n, a) && i <= n
    ensures Encodes(m.prog(a(i)), Fuzz.Instrs(ls)[i], i, TargetOf(ls, Fuzz.Instrs(ls)[i]))
  {
    hide Fuzz.Defs, Encodes, Placed, TargetOf;
    assert m.prog(a(i)) == m.prog(a(i));
  }

  lemma PlainAt(m: Machine, ls: seq<Fuzz.Line>, n: nat, a: nat -> Word, i: nat, s: Arch)
    requires Loads(m, ls, n, a) && i < n && s.pc == a(i) && Fuzz.Instrs(ls)[i].Plain?
    ensures Falls(m.InstrAt(s).op) && m.NextPc(s) == a(i + 1)
  {
    hide Fuzz.Defs, Fuzz.Instrs, Decode, OpOfFiller, EncodesFiller, TargetOf, Assembled, Sum, Machine.NextPc, Core,
      Taken;
    LineAtIndex(m, ls, n, a, i);
    FillerDecodes(m.prog(a(i)), Fuzz.Instrs(ls)[i].ins);
    FillerFalls(Fuzz.Instrs(ls)[i].ins);
    CoreAt(m, s);
    NotTaken(m.InstrAt(s).op, m.Src1(s), m.Src2(s));
  }

  lemma CorePlus(x: Word, y: Word)
    ensures Core().plus(x, y) == Sum(x, y)
  {
    hide Sum, Decode, Taken;
  }

  lemma CoreParts(op: Op, x: Word, y: Word, w: Word)
    ensures Core().plus(x, y) == Sum(x, y) && Core().branch(op, x, y) == Taken(op, x, y)
    ensures Core().decode(w) == Decode(w)
  {
    hide Decode, Taken, Sum;
    CorePlus(x, y);
  }

  lemma CoreAt(m: Machine, s: Arch)
    requires m.dp == Core()
    ensures m.InstrAt(s) == Decode(m.prog(s.pc))
    ensures m.NextPc(s) ==
      var d := m.InstrAt(s);
      if Taken(d.op, m.Src1(s), m.Src2(s)) || d.op.Jal? then Sum(s.pc, d.imm)
      else if d.op.Jalr? then Sum(m.Src1(s), d.imm)
      else if IsTrap(d.op) then CsrRead(s.csrs, MTVEC)
      else if d.op.Mret? then CsrRead(s.csrs, MEPC)
      else Sum(s.pc, 4)
  {
    hide Decode, Taken, Core, Sum, CsrRead;
    var w := m.prog(s.pc);
    var d := Decode(w);
    CoreParts(d.op, m.Src1(s), m.Src2(s), w);
    CoreParts(d.op, s.pc, d.imm, w);
    CoreParts(d.op, m.Src1(s), d.imm, w);
    CoreParts(d.op, s.pc, 4, w);
  }

  lemma NotTaken(op: Op, x: Word, y: Word)
    requires !IsBranch(op)
    ensures !Taken(op, x, y)
  {
  }

  lemma BranchAt(m: Machine, ls: seq<Fuzz.Line>, n: nat, a: nat -> Word, i: nat, s: Arch)
    requires Loads(m, ls, n, a) && i < n && s.pc == a(i) && Fuzz.Instrs(ls)[i].Branch?
    ensures IsBranch(m.InstrAt(s).op)
    ensures var t := TargetOf(ls, Fuzz.Instrs(ls)[i]);
      i < t <= n && (m.NextPc(s) == a(i + 1) || m.NextPc(s) == a(t))
  {
    hide Fuzz.Defs, Fuzz.Instrs, Decode, EncodesB, Assembled, Distance, Taken, BranchOp, Sum, Machine.NextPc, Core;
    LineAtIndex(m, ls, n, a, i);
    var l := Fuzz.Instrs(ls)[i];
    var t := TargetOf(ls, l);
    assert Fuzz.GoesForward(ls, n, i, l.dest);
    BranchDecodes(m.prog(a(i)), l.op, l.rs1, l.rs2, t - i);
    TargetAddress(a, n, i, t);
    CoreAt(m, s);
  }

  lemma LoopAt(m: Machine, ls: seq<Fuzz.Line>, n: nat, a: nat -> Word, s: Arch)
    requires Loads(m, ls, n, a) && s.pc == a(n)
    ensures SelfLoop(m, s)
  {
    hide Fuzz.Defs, Fuzz.Instrs, Decode, EncJ, OpcodeOf, Assembled, Taken, Sum, Machine.NextPc, Core;
    LineAtIndex(m, ls, n, a, n);
    LoopDecodes(m.prog(a(n)));
    CoreAt(m, s);
    AddNothing(s.pc);
  }

  /** Every line before the loop leads to a later one and is no CSR instruction. */
  lemma LineGoesForward(m: Machine, ls: seq<Fuzz.Line>, n: nat, a: nat -> Word, i: nat, s: Arch)
    requires Loads(m, ls, n, a) && i < n && s.pc == a(i)
    ensures exists j: nat :: i < j <= n && m.NextPc(s) == a(j)
    ensures !IsCsr(m.InstrAt(s).op)
  {
    hide Assembled, Placed, Fuzz.Defs, TargetOf, Machine.NextPc, Machine.InstrAt;
    LineAtIndex(m, ls, n, a, i);
    if Fuzz.Instrs(ls)[i].Plain? {
      PlainAt(m, ls, n, a, i, s);
    } else {
      BranchAt(m, ls, n, a, i, s);
    }
  }

  lemma FuzzForward(m: Machine, ls: seq<Fuzz.Line>, n: nat, a: nat -> Word)
    requires Loads(m, ls, n, a)
    ensures Forward(m, n, a)
  {
    hide Assembled, Fuzz.ForwardText, Machine.NextPc, Machine.InstrAt, SelfLoop, Sum, Core;
    forall i: nat | i <= n + 1 ensures m.dp.plus(a(i), 4) == a(i + 1) {
      assert Sum(a(i), 4) == a(i + 1);
      CoreParts(Undecoded, a(i), 4, 0);
    }
    forall i: nat, s: Arch | i < n && s.pc == a(i)
      ensures exists j: nat :: i < j <= n && m.NextPc(s) == a(j)
    {
      LineGoesForward(m, ls, n, a, i, s);
    }
    forall s: Arch | s.pc == a(n) ensures SelfLoop(m, s) { LoopAt(m, ls, n, a, s); }
  }

  /** No step of its run is a CSR instruction, and it stays within its own words. */
  lemma FuzzRuns(m: Machine, ls: seq<Fuzz.Line>, n: nat, a: nat -> Word, k: nat)
    requires Loads(m, ls, n, a)
    ensures !IsCsr(m.InstrAt(m.Run(k)).op) && exists i: nat :: i <= n && m.Run(k).pc == a(i)
  {
    hide Loads, Forward, Machine.Run, Machine.InstrAt;
    FuzzForward(m, ls, n, a);
    OnPath(m, n, a, k);
    var i: nat :| i <= n && m.Run(k).pc == a(i);
    if i < n {
      LineGoesForward(m, ls, n, a, i, m.Run(k));
    } else {
      LoopAt(m, ls, n, a, m.Run(k));
      LoopIsNoCsr(m, m.Run(k));
    }
  }

  lemma LoopIsNoCsr(m: Machine, s: Arch)
    requires SelfLoop(m, s)
    ensures !IsCsr(m.InstrAt(s).op)
  {
  }

  /** Any text of the generator, assembled at word addresses that do not wrap, gives the
      setting of the convergence theorem. */
  lemma FuzzSetting(m: Machine, s: Sys, ls: seq<Fuzz.Line>, n: nat, a: nat -> Word)
    requires Loads(m, ls, n, a) && Reset(m, s) && forall i: nat :: i <= n ==> m.code(a(i))
    ensures Setting(m, s, n, a)
  {
    hide Loads, Forward, Lawful, Machine.Run, Machine.InstrAt, Reset;
    assert Lawful(m.dp) by { CoreIsLawful(m, ls, n, a); }
    FuzzForward(m, ls, n, a);
    forall k: nat ensures SupportedAt(m, m.Run(k)) && !IsCsr(m.InstrAt(m.Run(k)).op) {
      FuzzRuns(m, ls, n, a, k);
      var i: nat :| i <= n && m.Run(k).pc == a(i);
      assert m.code(a(i));
    }
  }

  lemma CoreIsLawful(m: Machine, ls: seq<Fuzz.Line>, n: nat, a: nat -> Word)
    requires Loads(m, ls, n, a)
    ensures Lawful(m.dp)
  {
    hide Lawful;
    CoreLawful();
  }

  /** The differential test on any generated program: assembled and run on ideal memory
      from reset, it returns the address of the program's loop and nothing else. */
  method TestFuzzProgram(rng: Fuzz.Rng, nInstr: nat, nRegs: nat, dmemWords: nat) returns (lines: seq<Fuzz.Line>)
    requires nRegs >= 1 && dmemWords >= 1
    modifies rng
    ensures forall m: Machine, s: Sys, a: nat -> Word {:trigger Loads(m, lines, nInstr, a), Reset(m, s)} ::
      Loads(m, lines, nInstr, a) && Reset(m, s) && (forall i: nat :: i <= nInstr ==> m.code(a(i))) ==>
        Settled(Samples(m, s), PERIOD, PERIOD * STABLE, 4 * nInstr + 14)
        && forall u: nat :: PERIOD <= u + 1 && Settled(Samples(m, s), PERIOD, PERIOD * STABLE, u) ==>
             Least(Samples(m, s), PERIOD, u) == Addr(a, nInstr)
  {
    hide Loads, Reset, Settled, Samples, Least, Addr, Setting, Forward;
    lines := Fuzz.GenerateFuzzProgram(rng, nInstr, nRegs, dmemWords);
    forall m: Machine, s: Sys, a: nat -> Word {:trigger Loads(m, lines, nInstr, a), Reset(m, s)}
      | Loads(m, lines, nInstr, a) && Reset(m, s) && (forall i: nat :: i <= nInstr ==> m.code(a(i)))
      ensures Settled(Samples(m, s), PERIOD, PERIOD * STABLE, 4 * nInstr + 14)
      ensures forall u: nat :: PERIOD <= u + 1 && Settled(Samples(m, s), PERIOD, PERIOD * STABLE, u) ==>
        Least(Samples(m, s), PERIOD, u) == Addr(a, nInstr)
    {
      FuzzSetting(m, s, lines, nInstr, a);
      LoopSettles(m, s, nInstr, a);
      forall u: nat | PERIOD <= u + 1 && Settled(Samples(m, s), PERIOD, PERIOD * STABLE, u)
        ensures Least(Samples(m, s), PERIOD, u) == Addr(a, nInstr)
      {
        OnlyLoopSettles(m, s, nInstr, a, u);
      }
    }
  }
}
