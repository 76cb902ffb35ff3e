/** The fuzz-program generator of the differential tests, for every behaviour of its
    random source: labels are defined exactly once, and the program only goes
    forward until its trailing loop. */
module Fuzz {
  import opened Options

  datatype Dest = ToLoop | ToLabel(index: nat)

  /** A filler instruction; op picks the mnemonic within its class. */
  datatype Filler =
    | AluR(op: nat, rd: nat, rs1: nat, rs2: nat)
    | AluI(op: nat, rd: nat, rs1: nat, simm: int)
    | ShiftI(op: nat, rd: nat, rs1: nat, shamt: nat)
    | Lui(rd: nat, imm: nat)
    | Auipc(rd: nat, imm: nat)
    | Sw(rs2: nat, off: nat)
    | Lw(rd: nat, off: nat)

  datatype Line =
    | Section | Globl | StartLabel
    | Label(dest: Dest)
    | Plain(ins: Filler)
    | Branch(op: nat, rs1: nat, rs2: nat, dest: Dest)
    | JumpLoop

  // ---- What a program text means ----------------------------------------------------------

  predicate IsInstr(l: Line) { l.Plain? || l.Branch? || l.JumpLoop? }

  function Instrs(ls: seq<Line>): seq<Line> {
    if ls == [] then []
    else Instrs(ls[..|ls| - 1]) + if IsInstr(ls[|ls| - 1]) then [ls[|ls| - 1]] else []
  }

  /** The instruction indices at which a label is defined. */
  function Defs(ls: seq<Line>, d: Dest): seq<nat> {
    if ls == [] then []
    else
      Defs(ls[..|ls| - 1], d) + if ls[|ls| - 1] == Label(d) then [|Instrs(ls[..|ls| - 1])|] else []
  }

  lemma Appended(ls: seq<Line>, l: Line)
    ensures Instrs(ls + [l]) == Instrs(ls) + if IsInstr(l) then [l] else []
    ensures forall d :: Defs(ls + [l], d) == Defs(ls, d) + if l == Label(d) then [|Instrs(ls)|] else []
  {
    assert (ls + [l])[..|ls|] == ls;
  }

  lemma {:induction false} InstrsAre(ls: seq<Line>, i: nat)
    requires i < |Instrs(ls)|
    ensures IsInstr(Instrs(ls)[i])
  {
    var before := ls[..|ls| - 1];
    if i < |Instrs(before)| { InstrsAre(before, i); }
  }

  /** A branch at i goes to a label defined exactly once, at most four ahead. */
  predicate GoesForward(ls: seq<Line>, n: nat, i: nat, d: Dest) {
    && |Defs(ls, d)| == 1 && i < Defs(ls, d)[0] <= n && Defs(ls, d)[0] <= i + 4
    && (Defs(ls, d)[0] == n || Defs(ls, d)[0] >= i + 2)
  }

  /** n instructions and the loop, with every branch forward. */
  ghost predicate ForwardText(ls: seq<Line>, n: nat) {
    && |Instrs(ls)| == n + 1 && Instrs(ls)[n] == JumpLoop && Defs(ls, ToLoop) == [n]
    && (forall i :: 0 <= i < n ==> !Instrs(ls)[i].JumpLoop?)
    && (forall i :: 0 <= i < n && Instrs(ls)[i].Branch? ==> GoesForward(ls, n, i, Instrs(ls)[i].dest))
  }

  /** Where execution goes from instruction i, if it is a branch that is taken. */
  function NextIx(ls: seq<Line>, n: nat, i: nat, taken: bool): (j: nat)
    requires ForwardText(ls, n) && i <= n
    ensures j <= n && if i < n then j > i else j == n
  {
    var l := Instrs(ls)[i];
    if l.JumpLoop? then Defs(ls, ToLoop)[0]
    else if l.Branch? && taken then Defs(ls, l.dest)[0]
    else i + 1
  }

  function Path(ls: seq<Line>, n: nat, taken: nat -> bool, k: nat): (i: nat)
    requires ForwardText(ls, n)
    ensures i <= n
  {
    if k == 0 then 0 else NextIx(ls, n, Path(ls, n, taken, k - 1), taken(k - 1))
  }

  /** Termination: whatever the branches decide, the instruction index strictly
      increases until the loop, which is reached within n steps and never left. */
  lemma {:induction false} ReachesLoop(ls: seq<Line>, n: nat, taken: nat -> bool, k: nat)
    requires ForwardText(ls, n)
    ensures k > 0 && Path(ls, n, taken, k - 1) < n ==> Path(ls, n, taken, k) > Path(ls, n, taken, k - 1)
    ensures Path(ls, n, taken, k) >= k || Path(ls, n, taken, k) == n
    ensures k >= n ==> Path(ls, n, taken, k) == n
  {
    hide ForwardText, NextIx;
    if k > 0 { ReachesLoop(ls, n, taken, k - 1); }
  }

  // ---- The random source --------------------------------------------------------------------

  /** A seeded random.Random: an arbitrary stream of draws. */
  class Rng {
    const draws: nat -> nat
    var drawn: nat

    constructor (draws: nat -> nat) {
      this.draws, drawn := draws, 0;
    }

    /** An index below k. */
    method Below(k: nat) returns (i: nat)
      requires k >= 1
      modifies this
      ensures i < k
    {
      i := draws(drawn) % k;
      drawn := drawn + 1;
    }

    /** random() < p, for some p. */
    method Chance() returns (b: bool)
      modifies this
    {
      b := draws(drawn) % 2 == 0;
      drawn := drawn + 1;
    }

    /** sample(range(n), k): k distinct indices. */
    method Sample(n: nat, k: nat) returns (s: seq<nat>)
      requires k <= n
      modifies this
      ensures |s| == k && (forall i :: 0 <= i < k ==> s[i] < n) && forall i, j :: 0 <= i < j < k ==> s[i] != s[j]
    {
      var pool: seq<nat> := seq(n, i requires 0 <= i => i);
      s := [];
      for c := 0 to k
        invariant |s| == c && |pool| == n - c
        invariant forall i :: 0 <= i < |pool| ==> pool[i] < n
        invariant forall i, j :: 0 <= i < j < |pool| ==> pool[i] != pool[j]
        invariant forall i :: 0 <= i < c ==> s[i] < n
        invariant forall i, j :: 0 <= i < j < c ==> s[i] != s[j]
        invariant forall i, j :: 0 <= i < c && 0 <= j < |pool| ==> s[i] != pool[j]
      {
        var j := Below(n - c);
        var last := |pool| - 1;
        s := s + [pool[j]];
        pool := pool[j := pool[last]][..last];
      }
    }
  }

  // ---- The generator ------------------------------------------------------------------------

  const ALU_R: nat := 10
  const ALU_I: nat := 4
  const SHIFT_I: nat := 3
  const BRANCH_OPS: nat := 6

  /** Registers from the pool, immediates in range, accesses aligned and within the
      data words. */
  predicate FillerOk(f: Filler, nRegs: nat, dmemWords: nat) {
    match f
    case AluR(op, rd, rs1, rs2) => op < ALU_R && 1 <= rd <= nRegs && rs1 <= nRegs && rs2 <= nRegs
    case AluI(op, rd, rs1, simm) => op < ALU_I && 1 <= rd <= nRegs && rs1 <= nRegs && -2048 <= simm <= 2047
    case ShiftI(op, rd, rs1, shamt) => op < SHIFT_I && 1 <= rd <= nRegs && rs1 <= nRegs && shamt < 32
    case Lui(rd, imm) => 1 <= rd <= nRegs && imm <= 0xFFFFF
    case Auipc(rd, imm) => 1 <= rd <= nRegs && imm <= 0xFFFFF
    case Sw(rs2, off) => rs2 <= nRegs && off % 4 == 0 && off / 4 < dmemWords
    case Lw(rd, off) => 1 <= rd <= nRegs && off % 4 == 0 && off / 4 < dmemWords
  }

  predicate LineOk(l: Line, nRegs: nat, dmemWords: nat) {
    match l
    case Plain(f) => FillerOk(f, nRegs, dmemWords)
    case Branch(op, rs1, rs2, _) => op < BRANCH_OPS && rs1 <= nRegs && rs2 <= nRegs
    case _ => true
  }

  ghost predicate LinesOk(ls: seq<Line>, nRegs: nat, dmemWords: nat) {
    forall i :: 0 <= i < |Instrs(ls)| ==> LineOk(Instrs(ls)[i], nRegs, dmemWords)
  }

  function WrittenBy(f: Filler): Option<nat> { if f.Sw? then None else Some(f.rd) }

  /** read_reg: the previous destination, x0, or one of the pool. */
  method ReadReg(rng: Rng, prevRd: Option<nat>, nRegs: nat) returns (r: nat)
    requires nRegs >= 1 && (prevRd.Some? ==> prevRd.value <= nRegs)
    modifies rng
    ensures r <= nRegs
  {
    if prevRd.Some? {
      var reuse := rng.Chance();
      if reuse { return prevRd.value; }
    }
    var zero := rng.Chance();
    if zero { return 0; }
    r := rng.Below(nRegs);
    r := r + 1;
  }

  method MakeFiller(rng: Rng, prevRd: Option<nat>, nRegs: nat, dmemWords: nat) returns (f: Filler)
    requires nRegs >= 1 && dmemWords >= 1 && (prevRd.Some? ==> prevRd.value <= nRegs)
    modifies rng
    ensures FillerOk(f, nRegs, dmemWords)
  {
    var kind := rng.Below(7);
    var rd := rng.Below(nRegs);
    rd := rd + 1;
    if kind == 0 {
      var rs1 := ReadReg(rng, prevRd, nRegs);
      var rs2 := ReadReg(rng, prevRd, nRegs);
      var op := rng.Below(ALU_R);
      f := AluR(op, rd, rs1, rs2);
    } else if kind == 1 {
      var rs1 := ReadReg(rng, prevRd, nRegs);
      var imm: int := rng.Below(4096);
      var op := rng.Below(ALU_I);
      f := AluI(op, rd, rs1, imm - 2048);
    } else if kind == 2 {
      var rs1 := ReadReg(rng, prevRd, nRegs);
      var shamt := rng.Below(32);
      var op := rng.Below(SHIFT_I);
      f := ShiftI(op, rd, rs1, shamt);
    } else if kind == 3 {
      var imm := rng.Below(0x100000);
      f := Lui(rd, imm);
    } else if kind == 4 {
      var imm := rng.Below(0x100000);
      f := Auipc(rd, imm);
    } else if kind == 5 {
      var rs2 := ReadReg(rng, prevRd, nRegs);
      var word := rng.Below(dmemWords);
      f := Sw(rs2, word * 4);
    } else {
      var word := rng.Below(dmemWords);
      f := Lw(rd, word * 4);
    }
  }

  /** First pass: n random instructions. */
  method MakeFillers(rng: Rng, n: nat, nRegs: nat, dmemWords: nat) returns (filler: seq<Filler>)
    requires nRegs >= 1 && dmemWords >= 1
    modifies rng
    ensures |filler| == n && forall i :: 0 <= i < n ==> FillerOk(filler[i], nRegs, dmemWords)
  {
    filler := [];
    var prevRd: Option<nat> := None;
    for k := 0 to n
      invariant |filler| == k && forall i :: 0 <= i < k ==> FillerOk(filler[i], nRegs, dmemWords)
      invariant prevRd.Some? ==> prevRd.value <= nRegs
    {
      var f := MakeFiller(rng, prevRd, nRegs, dmemWords);
      filler := filler + [f];
      prevRd := WrittenBy(f);
    }
  }

  function DestOf(target: nat, n: nat): Dest { if target == n then ToLoop else ToLabel(target) }

  /** Branch targets: forward, clamped to the loop. */
  ghost predicate TargetsOk(targets: map<nat, nat>, n: nat) {
    forall i :: i in targets ==> i < targets[i] <= n && targets[i] <= i + 4 && (targets[i] == n || targets[i] >= i + 2)
  }

  function BranchCount(n: nat): (k: nat)
    ensures k <= n
  {
    if n == 0 then 0 else if n / 6 < 1 then 1 else n / 6
  }

  /** Second pass: which instructions become branches, and where they go. */
  method ChooseTargets(rng: Rng, n: nat) returns (targets: map<nat, nat>)
    modifies rng
    ensures TargetsOk(targets, n) && |targets| == BranchCount(n)
  {
    var picks := rng.Sample(n, BranchCount(n));
    targets := map[];
    for k := 0 to |picks|
      invariant TargetsOk(targets, n) && |targets| == k
      invariant forall i :: i in targets ==> i in picks[..k]
    {
      var skip := rng.Below(3);
      var i, t := picks[k], picks[k] + 2 + skip;
      assert i !in targets;
      targets := targets[i := if t < n then t else n];
    }
  }

  /** The first i instructions are laid out: branches where chosen, and each label
      below j that some branch needs is defined once, at its index. */
  ghost predicate LaidOut(ls: seq<Line>, targets: map<nat, nat>, filler: seq<Filler>, n: nat, i: nat, j: nat) {
    && i <= n == |filler| && |Instrs(ls)| == i
    && (forall k :: 0 <= k < i ==> IsLine(Instrs(ls)[k], targets, filler, n, k))
    && (forall t: nat {:trigger ToLabel(t)} :: Defs(ls, ToLabel(t)) == if t < j && t in targets.Values then [t] else [])
    && Defs(ls, ToLoop) == []
  }

  predicate IsLine(l: Line, targets: map<nat, nat>, filler: seq<Filler>, n: nat, k: nat)
    requires k < |filler|
  {
    if k in targets then l.Branch? && l.dest == DestOf(targets[k], n) else l == Plain(filler[k])
  }

  lemma LayLabel(ls: seq<Line>, targets: map<nat, nat>, filler: seq<Filler>, n: nat, i: nat)
    requires LaidOut(ls, targets, filler, n, i, i)
    ensures LaidOut(if i in targets.Values then ls + [Label(ToLabel(i))] else ls, targets, filler, n, i, i + 1)
  {
    hide IsLine;
    if i in targets.Values {
      var l := Label(ToLabel(i));
      Appended(ls, l);
      forall t: nat ensures Defs(ls + [l], ToLabel(t)) == if t < i + 1 && t in targets.Values then [t] else [] {
        assert Defs(ls + [l], ToLabel(t)) == Defs(ls, ToLabel(t)) + if t == i then [|Instrs(ls)|] else [];
      }
    }
  }

  lemma LayLine(ls: seq<Line>, targets: map<nat, nat>, filler: seq<Filler>, n: nat, i: nat, l: Line)
    requires LaidOut(ls, targets, filler, n, i, i + 1) && i < n && IsLine(l, targets, filler, n, i)
    ensures LaidOut(ls + [l], targets, filler, n, i + 1, i + 1)
  {
    assert IsInstr(l);
    hide IsLine;
    Appended(ls, l);
    forall t: nat ensures Defs(ls + [l], ToLabel(t)) == Defs(ls, ToLabel(t)) {
      assert l != Label(ToLabel(t));
    }
  }

  /** How many of these are branches. */
  function CountBranches(ls: seq<Line>): nat {
    if ls == [] then 0 else CountBranches(ls[..|ls| - 1]) + if ls[|ls| - 1].Branch? then 1 else 0
  }

  function Below(targets: map<nat, nat>, k: nat): set<nat> { set j | j in targets && j < k }

  lemma {:induction false} BranchesAre(ls: seq<Line>, targets: map<nat, nat>, k: nat)
    requires k <= |ls| && forall j :: 0 <= j < k ==> (ls[j].Branch? <==> j in targets)
    ensures CountBranches(ls[..k]) == |Below(targets, k)|
  {
    if k > 0 {
      BranchesAre(ls, targets, k - 1);
      assert ls[..k][..k - 1] == ls[..k - 1];
      assert Below(targets, k) == Below(targets, k - 1) + if k - 1 in targets then {k - 1} else {};
    } else {
      assert Below(targets, 0) == {};
    }
  }

  /** One branch for every target chosen. */
  lemma BranchesLaid(ls: seq<Line>, targets: map<nat, nat>, filler: seq<Filler>, n: nat)
    requires LaidOut(ls, targets, filler, n, n, n) && TargetsOk(targets, n)
    ensures CountBranches(Instrs(ls + [Label(ToLoop)] + [JumpLoop])) == |targets|
  {
    var ins := Instrs(ls);
    Appended(ls, Label(ToLoop));
    Appended(ls + [Label(ToLoop)], JumpLoop);
    assert (ins + [JumpLoop])[..n] == ins == ins[..n];
    forall j | 0 <= j < n ensures ins[j].Branch? <==> j in targets { assert IsLine(ins[j], targets, filler, n, j); }
    BranchesAre(ins, targets, n);
    assert Below(targets, n) == targets.Keys && |targets.Keys| == |targets|;
    assert Instrs(ls + [Label(ToLoop)] + [JumpLoop]) == ins + [JumpLoop];
    assert CountBranches(ins + [JumpLoop]) == CountBranches(ins);
  }

  lemma CloseLoop(ls: seq<Line>, targets: map<nat, nat>, filler: seq<Filler>, n: nat)
    requires LaidOut(ls, targets, filler, n, n, n) && TargetsOk(targets, n)
    ensures ForwardText(ls + [Label(ToLoop)] + [JumpLoop], n)
  {
    var mid := ls + [Label(ToLoop)];
    var all := mid + [JumpLoop];
    Appended(ls, Label(ToLoop));
    Appended(mid, JumpLoop);
    forall i | 0 <= i < n && Instrs(all)[i].Branch? ensures GoesForward(all, n, i, Instrs(all)[i].dest) {
      var d := Instrs(ls)[i].dest;
      assert i in targets;
      assert Defs(all, d) == Defs(mid, d);
      if targets[i] < n {
        assert targets[i] in targets.Values;
        assert Defs(mid, d) == Defs(ls, ToLabel(targets[i])) == [targets[i]];
      }
    }
  }

  lemma Header(targets: map<nat, nat>, filler: seq<Filler>)
    ensures LaidOut([Section, Globl, StartLabel], targets, filler, |filler|, 0, 0)
  {
    Appended([], Section);
    Appended([Section], Globl);
    Appended([Section, Globl], StartLabel);
    assert [] + [Section] == [Section] && [Section] + [Globl] == [Section, Globl];
    assert [Section, Globl] + [StartLabel] == [Section, Globl, StartLabel];
  }

  /** generate_fuzz_program. */
  method GenerateFuzzProgram(rng: Rng, nInstr: nat, nRegs: nat, dmemWords: nat) returns (lines: seq<Line>)
    requires nRegs >= 1 && dmemWords >= 1
    modifies rng
    ensures ForwardText(lines, nInstr) && LinesOk(lines, nRegs, dmemWords)
    ensures CountBranches(Instrs(lines)) == if nInstr == 0 then 0 else if nInstr < 6 then 1 else nInstr / 6
  {
    hide CountBranches, LaidOut, TargetsOk, Instrs, Defs, FillerOk, ForwardText, LinesOk;
    var filler := MakeFillers(rng, nInstr, nRegs, dmemWords);
    var targets := ChooseTargets(rng, nInstr);
    lines := [Section, Globl, StartLabel];
    Header(targets, filler);
    HeaderOk(nRegs, dmemWords);
    var prevRd: Option<nat> := None;
    for i := 0 to nInstr
      invariant LaidOut(lines, targets, filler, nInstr, i, i) && LinesOk(lines, nRegs, dmemWords)
      invariant prevRd.Some? ==> prevRd.value <= nRegs
    {
      LayLabel(lines, targets, filler, nInstr, i);
      if i in targets.Values {
        LinesMore(lines, Label(ToLabel(i)), nRegs, dmemWords);
        lines := lines + [Label(ToLabel(i))];
      }
      if i in targets {
        var rs1 := ReadReg(rng, prevRd, nRegs);
        var rs2 := ReadReg(rng, prevRd, nRegs);
        var op := rng.Below(BRANCH_OPS);
        var line := Branch(op, rs1, rs2, DestOf(targets[i], nInstr));
        LayLine(lines, targets, filler, nInstr, i, line);
        LinesMore(lines, line, nRegs, dmemWords);
        lines := lines + [line];
        prevRd := None;
      } else {
        LayLine(lines, targets, filler, nInstr, i, Plain(filler[i]));
        LinesMore(lines, Plain(filler[i]), nRegs, dmemWords);
        lines := lines + [Plain(filler[i])];
        WritesPool(filler[i], nRegs, dmemWords);
        prevRd := WrittenBy(filler[i]);
      }
    }
    CloseLoop(lines, targets, filler, nInstr);
    BranchesLaid(lines, targets, filler, nInstr);
    LinesMore(lines, Label(ToLoop), nRegs, dmemWords);
    LinesMore(lines + [Label(ToLoop)], JumpLoop, nRegs, dmemWords);
    lines := lines + [Label(ToLoop)] + [JumpLoop];
  }

  lemma WritesPool(f: Filler, nRegs: nat, dmemWords: nat)
    requires FillerOk(f, nRegs, dmemWords)
    ensures WrittenBy(f).Some? ==> WrittenBy(f).value <= nRegs
  {
  }

  lemma LinesMore(ls: seq<Line>, l: Line, nRegs: nat, dmemWords: nat)
    requires LinesOk(ls, nRegs, dmemWords) && LineOk(l, nRegs, dmemWords)
    ensures LinesOk(ls + [l], nRegs, dmemWords)
  {
    hide LineOk, Instrs;
    Appended(ls, l);
  }

  lemma HeaderOk(nRegs: nat, dmemWords: nat)
    ensures LinesOk([Section, Globl, StartLabel], nRegs, dmemWords)
  {
    Header(map[], []);
  }
}
