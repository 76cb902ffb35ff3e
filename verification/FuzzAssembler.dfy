/** Every text of the fuzz generator can be assembled: its lines have encodings, so the
    hypothesis that a program is the assembled text can be met. */
module FuzzAssembler {
  import opened Isa
  import opened Rv32
  import opened Conformance
  import opened Encoding
  import opened Golden
  import opened FuzzProgram
  import Fuzz

  // ---- Numbers as bit fields --------------------------------------------------------------------

  lemma Five(x: nat) returns (b: bv5)
    requires x < 32
    ensures b as int == x
  {
    b := x as bv5;
  }

  lemma Six(x: nat) returns (b: bv6)
    requires x < 64
    ensures b as int == x
  {
    b := x as bv6;
  }

  lemma JoinTen(h: bv5, l: bv5)
    ensures (((h as bv10) << 5) | (l as bv10)) as int == 32 * (h as int) + l as int
  {
  }

  lemma JoinEleven(h: bv6, l: bv5)
    ensures (((h as bv11) << 5) | (l as bv11)) as int == 32 * (h as int) + l as int
  {
  }

  lemma JoinTwenty(h: bv10, l: bv10)
    ensures (((h as bv20) << 10) | (l as bv20)) as int == 1024 * (h as int) + l as int
  {
  }

  lemma Ten(x: nat) returns (b: bv10)
    requires x < 1024
    ensures b as int == x
  {
    var h := Five(x / 32);
    var l := Five(x % 32);
    JoinTen(h, l);
    b := ((h as bv10) << 5) | (l as bv10);
  }

  lemma Eleven(x: nat) returns (b: bv11)
    requires x < 2048
    ensures b as int == x
  {
    var h := Six(x / 32);
    var l := Five(x % 32);
    JoinEleven(h, l);
    b := ((h as bv11) << 5) | (l as bv11);
  }

  lemma Twenty(x: nat) returns (b: bv20)
    requires x < 0x10_0000
    ensures b as int == x
  {
    var h := Ten(x / 1024);
    var l := Ten(x % 1024);
    JoinTwenty(h, l);
    b := ((h as bv20) << 10) | (l as bv20);
  }

  // ---- Fields -----------------------------------------------------------------------------------

  lemma FieldOfFive(b: bv5)
    ensures (b as Word) < 0x20 && Field5(b as Word) == b as int && (b as Word) as int == b as int
  {
  }

  lemma RegisterField(x: nat) returns (r: Word)
    requires x < 32
    ensures InField(r, x)
  {
    var b := Five(x);
    FieldOfFive(b);
    r := b as Word;
  }

  lemma ShiftField(x: nat) returns (r: Word)
    requires x < 32
    ensures r < 0x20 && Denotes(r, x)
  {
    var b := Five(x);
    FieldOfFive(b);
    r := b as Word;
  }

  lemma ElevenIsPositive(b: bv11)
    ensures SignExtended(b as Word, 0xFFFF_F800) && (b as Word) as int == b as int
  {
  }

  lemma ElevenIsNegative(b: bv11)
    ensures var w := (b as Word) | 0xFFFF_F800;
      SignExtended(w, 0xFFFF_F800) && w as int == b as int + 0xFFFF_F800
  {
  }

  lemma ImmediateField(x: int) returns (r: Word)
    requires -2048 <= x <= 2047
    ensures SignExtended(r, 0xFFFF_F800) && Denotes(r, x)
  {
    hide SignExtended;
    var b := Eleven(if x >= 0 then x else x + 2048);
    ElevenIsPositive(b);
    ElevenIsNegative(b);
    r := if x >= 0 then b as Word else (b as Word) | 0xFFFF_F800;
  }

  lemma TwentyIsUpper(b: bv20)
    ensures LowClear((b as Word) << 12) && (((b as Word) << 12) >> 12) as int == b as int
  {
    assert ((b as Word) << 12) >> 12 == b as Word;
  }

  lemma UpperImmediateField(x: nat) returns (r: Word)
    requires x <= 0xFFFFF
    ensures UpperField(r, x)
  {
    var b := Twenty(x);
    TwentyIsUpper(b);
    r := (b as Word) << 12;
  }

  // ---- Lines ----------------------------------------------------------------------------------------

  lemma EncodableI(op: Op, rd: nat, rs1: nat, imm: Word) returns (w: Word)
    requires !op.Undecoded? && rd < 32 && rs1 < 32
    ensures EncodesI(w, op, rd, rs1, imm)
  {
    hide Selects, InField, EncI, OpcodeWord, Funct3Word;
    OperationSelected(op);
    var d := RegisterField(rd);
    var a := RegisterField(rs1);
    w := EncI(OpcodeWord(op), d, Funct3Word(op), a, imm);
  }

  lemma Funct7(op: Op) returns (f7: Word)
    requires !IsMul(op)
    ensures f7 < 0x80 && (f7 & 0x20 != 0 <==> op.Sub? || op.Sra?) && (f7 & 1 != 0 <==> IsMul(op))
  {
    f7 := if op.Sub? || op.Sra? then 0x20 else 0;
  }

  lemma EncodableR(op: Op, rd: nat, rs1: nat, rs2: nat) returns (w: Word)
    requires !op.Undecoded? && !IsMul(op) && rd < 32 && rs1 < 32 && rs2 < 32
    ensures EncodesR(w, op, rd, rs1, rs2)
  {
    hide Selects, InField, EncR, OpcodeWord, Funct3Word, IsMul;
    OperationSelected(op);
    var d := RegisterField(rd);
    var a := RegisterField(rs1);
    var b := RegisterField(rs2);
    var f7 := Funct7(op);
    w := EncR(OpcodeWord(op), d, Funct3Word(op), a, b, f7);
  }

  lemma EncodableU(op: Op, rd: nat, x: nat) returns (w: Word)
    requires !op.Undecoded? && rd < 32 && x <= 0xFFFFF
    ensures EncodesU(w, op, rd, x)
  {
    hide InField, UpperField, HasOpcode, EncU, OpcodeWord;
    OpcodeFits(op);
    var d := RegisterField(rd);
    var imm := UpperImmediateField(x);
    w := EncU(OpcodeWord(op), d, imm);
  }

  lemma EncodableS(op: Op, rs2: nat, off: nat) returns (w: Word)
    requires !op.Undecoded? && rs2 < 32 && off < 2048
    ensures EncodesS(w, op, rs2, off)
  {
    hide Selects, InField, EncS, OpcodeWord, Funct3Word, SignExtended, Denotes;
    OperationSelected(op);
    var b := RegisterField(rs2);
    var imm := ImmediateField(off);
    w := EncS(OpcodeWord(op), Funct3Word(op), 0, b, imm);
  }

  lemma EncodableB(op: Op, rs1: nat, rs2: nat, imm: Word) returns (w: Word)
    requires IsBranch(op) && rs1 < 32 && rs2 < 32
    ensures EncodesB(w, op, rs1, rs2, imm)
  {
    hide Selects, InField, EncB, OpcodeWord, Funct3Word;
    OperationSelected(op);
    var a := RegisterField(rs1);
    var b := RegisterField(rs2);
    w := EncB(OpcodeWord(op), Funct3Word(op), a, b, imm);
  }

  lemma FillerDecoded(f: Fuzz.Filler)
    ensures !OpOfFiller(f).Undecoded? && !IsMul(OpOfFiller(f))
  {
  }

  /** The registers and offsets the machine has room for. */
  predicate Room(nRegs: nat, dmemWords: nat) { nRegs < 32 && dmemWords <= 512 }

  lemma FillerEncodable(f: Fuzz.Filler, nRegs: nat, dmemWords: nat) returns (w: Word)
    requires Fuzz.FillerOk(f, nRegs, dmemWords) && Room(nRegs, dmemWords)
    ensures EncodesFiller(w, f)
  {
    hide EncodesI, EncodesR, EncodesU, EncodesS, SignExtended, Denotes, OpOfFiller;
    var op := OpOfFiller(f);
    FillerDecoded(f);
    match f
    case AluR(_, rd, rs1, rs2) => w := EncodableR(op, rd, rs1, rs2);
    case AluI(_, rd, rs1, simm) =>
      var imm := ImmediateField(simm);
      w := EncodableI(op, rd, rs1, imm);
    case ShiftI(_, rd, rs1, shamt) =>
      var imm := ShiftField(shamt);
      w := EncodableI(op, rd, rs1, if op.Srai? then imm | 0x400 else imm);
    case Lui(rd, x) => w := EncodableU(op, rd, x);
    case Auipc(rd, x) => w := EncodableU(op, rd, x);
    case Sw(rs2, off) => w := EncodableS(op, rs2, off);
    case Lw(rd, off) =>
      var imm := ImmediateField(off);
      w := EncodableI(op, rd, 0, imm);
  }

  lemma BranchIsBranch(k: nat)
    ensures IsBranch(BranchOp(k))
  {
  }

  /** Every line of a generated text has an encoding at its index. */
  lemma LineEncodable(ls: seq<Fuzz.Line>, n: nat, nRegs: nat, dmemWords: nat, i: nat) returns (w: Word)
    requires Fuzz.ForwardText(ls, n) && Fuzz.LinesOk(ls, nRegs, dmemWords) && Room(nRegs, dmemWords) && i <= n
    ensures Encodes(w, Fuzz.Instrs(ls)[i], i, TargetOf(ls, Fuzz.Instrs(ls)[i]))
  {
    hide Fuzz.Instrs, Fuzz.Defs, EncodesFiller, EncodesB, EncJ, OpcodeOf, Distance, Fuzz.FillerOk, HasOpcode,
      OpcodeWord;
    Fuzz.InstrsAre(ls, i);
    var l := Fuzz.Instrs(ls)[i];
    assert Fuzz.LineOk(l, nRegs, dmemWords);
    if l.Plain? {
      w := FillerEncodable(l.ins, nRegs, dmemWords);
    } else if l.Branch? {
      assert Fuzz.GoesForward(ls, n, i, l.dest);
      BranchIsBranch(l.op);
      w := EncodableB(BranchOp(l.op), l.rs1, l.rs2, Distance(TargetOf(ls, l) - i));
    } else {
      OpcodeFits(Jal);
      w := EncJ(OpcodeWord(Jal), 0, 0);
    }
  }

  ghost predicate HasEncoding(ls: seq<Fuzz.Line>, i: nat)
    requires i < |Fuzz.Instrs(ls)|
  {
    exists w :: Encodes(w, Fuzz.Instrs(ls)[i], i, TargetOf(ls, Fuzz.Instrs(ls)[i]))
  }

  ghost predicate Encodable(ls: seq<Fuzz.Line>) {
    forall i :: 0 <= i < |Fuzz.Instrs(ls)| ==> HasEncoding(ls, i)
  }

  ghost function WordAt(ls: seq<Fuzz.Line>, i: nat): (w: Word)
    requires i < |Fuzz.Instrs(ls)| && Encodable(ls)
    ensures Encodes(w, Fuzz.Instrs(ls)[i], i, TargetOf(ls, Fuzz.Instrs(ls)[i]))
  {
    assert HasEncoding(ls, i);
    var w :| Encodes(w, Fuzz.Instrs(ls)[i], i, TargetOf(ls, Fuzz.Instrs(ls)[i]));
    w
  }

  function Override(p: Program, at: Word, word: Word): Program { (x: Word) => if x == at then word else p(x) }

  lemma OverrideAt(p: Program, at: Word, word: Word, x: Word)
    ensures Override(p, at, word)(at) == word
    ensures x != at ==> Override(p, at, word)(x) == p(x)
  {
  }

  /** The program with instruction j of the text at a(j), for j < k. */
  ghost function ProgramOf(ls: seq<Fuzz.Line>, a: nat -> Word, k: nat): Program
    requires Encodable(ls) && k <= |Fuzz.Instrs(ls)|
  {
    if k == 0 then _ => 0 else Override(ProgramOf(ls, a, k - 1), a(k - 1), WordAt(ls, k - 1))
  }

  lemma PlacedApart(a: nat -> Word, n: nat, i: nat, j: nat)
    requires Placed(a, n) && i < j <= n + 2
    ensures a(i) != a(j)
  {
    assert (a(i) as int) < (a(j) as int);
  }

  lemma {:induction false} ProgramHas(ls: seq<Fuzz.Line>, n: nat, a: nat -> Word, k: nat, i: nat)
    requires Encodable(ls) && i < k <= |Fuzz.Instrs(ls)| <= n + 1 && Placed(a, n)
    ensures ProgramOf(ls, a, k)(a(i)) == WordAt(ls, i)
  {
    hide Encodable, WordAt, Fuzz.Instrs, Placed, Override, Encodes, TargetOf;
    OverrideAt(ProgramOf(ls, a, k - 1), a(k - 1), WordAt(ls, k - 1), a(i));
    if i < k - 1 {
      PlacedApart(a, n, i, k - 1);
      ProgramHas(ls, n, a, k - 1, i);
    }
  }

  lemma TextEncodable(ls: seq<Fuzz.Line>, n: nat, nRegs: nat, dmemWords: nat)
    requires Fuzz.ForwardText(ls, n) && Fuzz.LinesOk(ls, nRegs, dmemWords) && Room(nRegs, dmemWords)
    ensures Encodable(ls)
  {
    hide Fuzz.Instrs, Fuzz.Defs, Encodes, Fuzz.LinesOk, TargetOf;
    forall i | 0 <= i <= n ensures HasEncoding(ls, i) {
      var w := LineEncodable(ls, n, nRegs, dmemWords, i);
    }
  }

  /** So the generated text has an assembled program, wherever it is placed. */
  lemma TextAssembles(ls: seq<Fuzz.Line>, n: nat, nRegs: nat, dmemWords: nat, a: nat -> Word) returns (prog: Program)
    requires Fuzz.ForwardText(ls, n) && Fuzz.LinesOk(ls, nRegs, dmemWords) && Room(nRegs, dmemWords) && Placed(a, n)
    ensures Assembled(prog, ls, n, a)
  {
    hide Fuzz.Instrs, Fuzz.Defs, Encodes, Fuzz.LinesOk, Placed, TargetOf, Encodable, ProgramOf;
    TextEncodable(ls, n, nRegs, dmemWords);
    prog := ProgramOf(ls, a, n + 1);
    forall i | 0 <= i <= n ensures Encodes(prog(a(i)), Fuzz.Instrs(ls)[i], i, TargetOf(ls, Fuzz.Instrs(ls)[i])) {
      ProgramHas(ls, n, a, n + 1, i);
    }
  }
}
