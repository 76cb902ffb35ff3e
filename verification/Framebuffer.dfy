/** The double-buffered 160x120 monochrome framebuffer: pixel timing, swap control,
    the CPU's draw and peek ports, and scanout. D is CLK_DIV. */
module Framebuffer {

  type Word = s: seq<bool> | |s| == 32 witness Repeat(false, 32)

  function Repeat(b: bool, n: nat): (s: seq<bool>)
    ensures |s| == n && forall i :: 0 <= i < n ==> s[i] == b
  {
    if n == 0 then [] else [b] + Repeat(b, n - 1)
  }

  const ZERO: Word := Repeat(false, 32)

  const H_COUNT_MAX: nat := 800
  const V_COUNT_MAX: nat := 525
  const H_FIRST: nat := 144
  const V_FIRST: nat := 35
  const SCREEN_W: nat := 640
  const SCREEN_H: nat := 480
  const BUF_WORDS: nat := 600

  // ---- The RAM ---------------------------------------------------------------------------

  /** dp_ram_sync_read: contents and the two registered read ports. */
  datatype Ram = Ram(mem: seq<Word>, doutA: Word, doutB: Word)

  predicate RamOk(r: Ram) { |r.mem| == BUF_WORDS }

  /** One clock: both ports read the old contents. */
  function RamStep(r: Ram, weA: bool, addrA: nat, dinA: Word, weB: bool, addrB: nat, dinB: Word): (n: Ram)
    requires RamOk(r) && addrA < BUF_WORDS && addrB < BUF_WORDS
    ensures RamOk(n)
  {
    var m := if weA then r.mem[addrA := dinA] else r.mem;
    Ram(if weB then m[addrB := dinB] else m, r.mem[addrA], r.mem[addrB])
  }

  // ---- Pixel timing ----------------------------------------------------------------------

  datatype Timing = Timing(pixelEn: bool, divCount: nat, h: nat, v: nat)

  predicate TimingOk(D: nat, t: Timing) { D >= 1 && t.divCount < D && t.h < H_COUNT_MAX && t.v < V_COUNT_MAX }

  function TimingStep(D: nat, t: Timing): (n: Timing)
    requires TimingOk(D, t)
    ensures TimingOk(D, n)
  {
    var last := t.divCount == D - 1;
    var h := if !t.pixelEn then t.h else if t.h == H_COUNT_MAX - 1 then 0 else t.h + 1;
    var v := if !t.pixelEn || t.h != H_COUNT_MAX - 1 then t.v else if t.v == V_COUNT_MAX - 1 then 0 else t.v + 1;
    Timing(last, if last then 0 else t.divCount + 1, h, v)
  }

  predicate Active(t: Timing) {
    H_FIRST <= t.h < H_FIRST + SCREEN_W && V_FIRST <= t.v < V_FIRST + SCREEN_H
  }

  predicate FrameStart(t: Timing) { t.h == 0 && t.v == 0 }

  /** Framebuffer column and row under the beam. */
  function FbX(t: Timing): (x: nat)
    ensures x < 160
  {
    if Active(t) then (t.h - H_FIRST) / 4 else 0
  }

  function FbY(t: Timing): (y: nat)
    ensures y < 120
  {
    if Active(t) then (t.v - V_FIRST) / 4 else 0
  }

  /** Row stride is five words. */
  function WordAddr(x: nat, y: nat): nat { y * 5 + x / 32 }

  function ScanAddr(t: Timing): (a: nat)
    ensures a < BUF_WORDS
  {
    WordAddr(FbX(t), FbY(t))
  }

  // ---- Control ---------------------------------------------------------------------------

  /** One clock of the CPU's bus slice. */
  datatype Bus = Bus(sel: bool, addr: bv16, wdata: Word, we: bool, re: bool)

  datatype Control = Control(doubleBuf: bool, front: bool, pending: bool)

  function ControlStep(c: Control, frameStart: bool, b: Bus): Control {
    var ctrl := b.sel && b.we && b.addr == 0;
    var swap := frameStart && c.pending;
    Control(if ctrl then b.wdata[0] else c.doubleBuf,
            if swap then !c.front else c.front,
            if swap then false else c.pending || (ctrl && b.wdata[1] && b.wdata[0]))
  }

  function DrawSel(c: Control): bool { if c.doubleBuf then !c.front else c.front }

  function BufAddr(b: Bus): nat { ((b.addr >> 2) & 0x3FF) as nat }

  function CpuAddr(b: Bus): (a: nat)
    ensures a < BUF_WORDS
  {
    if BufAddr(b) < BUF_WORDS then BufAddr(b) else 0
  }

  predicate IsDrawWrite(b: Bus) { b.sel && b.we && b.addr >> 12 == 1 && BufAddr(b) < BUF_WORDS }

  // ---- The whole peripheral --------------------------------------------------------------

  /** The bus decode, one clock late. */
  datatype Late = Late(sel: bool, re: bool, addr: bv16, drawSel: bool, addrValid: bool)

  datatype Fb = Fb(timing: Timing, ctl: Control, buf0: Ram, buf1: Ram, late: Late, rdata: Word, pixel: bool)

  predicate FbOk(D: nat, s: Fb) { TimingOk(D, s.timing) && RamOk(s.buf0) && RamOk(s.buf1) }

  function Flag(b: bool): Word { [b] + Repeat(false, 31) }

  function ReadMux(s: Fb): Word {
    var l := s.late;
    var draw := if l.drawSel then s.buf1.doutA else s.buf0.doutA;
    var peek := if l.drawSel then s.buf0.doutA else s.buf1.doutA;
    if !l.sel || !l.re then ZERO
    else if l.addr >> 12 == 0 then
      if (l.addr >> 2) & 3 == 0 then Flag(s.ctl.doubleBuf)
      else if (l.addr >> 2) & 3 == 1 then Flag(s.ctl.pending)
      else ZERO
    else if l.addr >> 12 == 1 && l.addrValid then draw
    else if l.addr >> 12 == 2 && l.addrValid then peek
    else ZERO
  }

  function ScanWord(s: Fb): Word { if s.ctl.front then s.buf1.doutB else s.buf0.doutB }

  function FbStep(D: nat, s: Fb, b: Bus): (n: Fb)
    requires FbOk(D, s)
    ensures FbOk(D, n)
  {
    var drawSel := DrawSel(s.ctl);
    Fb(TimingStep(D, s.timing),
       ControlStep(s.ctl, FrameStart(s.timing), b),
       RamStep(s.buf0, IsDrawWrite(b) && !drawSel, CpuAddr(b), b.wdata, false, ScanAddr(s.timing), ZERO),
       RamStep(s.buf1, IsDrawWrite(b) && drawSel, CpuAddr(b), b.wdata, false, ScanAddr(s.timing), ZERO),
       Late(b.sel, b.re, b.addr, drawSel, BufAddr(b) < BUF_WORDS),
       ReadMux(s),
       Active(s.timing) && ScanWord(s)[FbX(s.timing) % 32])
  }

  const TIMING_RESET: Timing := Timing(false, 0, 0, 0)

  /** Reset, with whatever the RAMs hold. */
  predicate IsReset(s: Fb) {
    && s.timing == TIMING_RESET && s.ctl == Control(false, false, false)
    && RamOk(s.buf0) && RamOk(s.buf1)
    && s.late == Late(false, false, 0, false, false) && s.rdata == ZERO && !s.pixel
  }

  /** The peripheral before clock t. */
  function FbAt(D: nat, s: Fb, bus: nat -> Bus, t: nat): (n: Fb)
    requires FbOk(D, s)
    ensures FbOk(D, n)
  {
    if t == 0 then s else FbStep(D, FbAt(D, s, bus, t - 1), bus(t - 1))
  }

  // ---- Timing: the counters in closed form -------------------------------------------------

  /** Clock r of pixel period k; the first follows one clock of reset. */
  function ClockOf(D: nat, k: nat, r: nat): nat { D * k + r + 1 }

  lemma TimingAlone(D: nat, s: Fb, bus: nat -> Bus, t: nat)
    requires FbOk(D, s)
    ensures FbAt(D, s, bus, t + 1).timing == TimingStep(D, FbAt(D, s, bus, t).timing)
  {
    hide FbOk, ReadMux, ScanWord;
  }

  lemma NextClock(D: nat, k: nat, r: nat)
    requires D >= 1 && r < D
    ensures r > 0 ==> ClockOf(D, k, r) == ClockOf(D, k, r - 1) + 1
    ensures k > 0 && r == 0 ==> ClockOf(D, k, r) == ClockOf(D, k - 1, D - 1) + 1
  {
    if k > 0 { assert D * k == D * (k - 1) + D; }
  }

  lemma FirstClock(D: nat)
    ensures ClockOf(D, 0, 0) == 1
  {
  }

  function Place(D: nat, k: nat, r: nat): (t: Timing)
    requires r < D
    ensures TimingOk(D, t)
  {
    Timing(r == D - 1, if r == D - 1 then 0 else r + 1, k % H_COUNT_MAX, k / H_COUNT_MAX % V_COUNT_MAX)
  }

  lemma FirstPlace(D: nat)
    requires D >= 1
    ensures TimingStep(D, TIMING_RESET) == Place(D, 0, 0)
  {
  }

  lemma NextPlace(D: nat, k: nat, r: nat)
    requires r < D && (k > 0 || r > 0)
    ensures TimingStep(D, if r > 0 then Place(D, k, r - 1) else Place(D, k - 1, D - 1)) == Place(D, k, r)
  {
    if r == 0 {
      var q, c := (k - 1) / H_COUNT_MAX, (k - 1) % H_COUNT_MAX;
      assert k == H_COUNT_MAX * q + c + 1;
      assert k / H_COUNT_MAX == if c == H_COUNT_MAX - 1 then q + 1 else q;
    }
  }

  /** The counters divide the period number: columns within lines within frames,
      and pixel_en is high in the last clock of each period. */
  lemma {:induction false} CountersAt(D: nat, s: Fb, bus: nat -> Bus, k: nat, r: nat)
    requires FbOk(D, s) && IsReset(s) && r < D
    ensures FbAt(D, s, bus, ClockOf(D, k, r)).timing == Place(D, k, r)
    decreases k, r
  {
    hide FbAt, FbOk, ClockOf, TimingStep, Place;
    if k == 0 && r == 0 {
      AtReset(D, s, bus);
      FirstClock(D);
      TimingAlone(D, s, bus, 0);
      FirstPlace(D);
    } else {
      var k0, r0 := if r == 0 then k - 1 else k, if r == 0 then D - 1 else r - 1;
      NextClock(D, k, r);
      CountersAt(D, s, bus, k0, r0);
      TimingAlone(D, s, bus, ClockOf(D, k0, r0));
      NextPlace(D, k, r);
    }
  }

  lemma AtReset(D: nat, s: Fb, bus: nat -> Bus)
    requires FbOk(D, s)
    ensures FbAt(D, s, bus, 0) == s
  {
  }

  lemma ClockSteps(D: nat, k: nat, r: nat)
    ensures ClockOf(D, k, r) == ClockOf(D, k, 0) + r && ClockOf(D, k + 1, 0) == ClockOf(D, k, 0) + D
  {
    assert D * (k + 1) == D * k + D;
  }

  /** Every clock after reset lies in some period. */
  lemma PeriodFor(D: nat, t: nat, lo: nat, hi: nat) returns (k: nat, r: nat)
    requires D >= 1 && ClockOf(D, lo, 0) <= t < ClockOf(D, hi, 0)
    ensures r < D && t == ClockOf(D, k, r) && lo <= k < hi
    decreases t
  {
    hide ClockOf;
    k, r := lo, t - ClockOf(D, lo, 0);
    BeforeEnd(D, k, hi, t);
    while r >= D
      invariant lo <= k < hi && t == ClockOf(D, k, 0) + r
      decreases r
    {
      ClockSteps(D, k, 0);
      BeforeEnd(D, k + 1, hi, t);
      k, r := k + 1, r - D;
    }
    ClockSteps(D, k, r);
  }

  lemma BeforeEnd(D: nat, k: nat, hi: nat, t: nat)
    requires ClockOf(D, k, 0) <= t < ClockOf(D, hi, 0)
    ensures k < hi
  {
    if k >= hi { MulUp(D, hi, k); }
  }

  // ---- Tear freedom ------------------------------------------------------------------------

  /** Contents of the buffer being scanned. */
  function Shown(s: Fb): seq<Word> { if s.ctl.front then s.buf1.mem else s.buf0.mem }

  /** In double-buffer mode, outside the frame-start window, no clock changes which
      buffer is scanned or what it holds, whatever the CPU writes. */
  lemma NoTear(D: nat, s: Fb, b: Bus)
    requires FbOk(D, s) && s.ctl.doubleBuf && !FrameStart(s.timing)
    ensures var n := FbStep(D, s, b); n.ctl.front == s.ctl.front && Shown(n) == Shown(s)
  {
  }

  /** Clocks a to b are in double-buffer mode and in no frame-start window. */
  ghost predicate Scanning(D: nat, s: Fb, bus: nat -> Bus, a: nat, b: nat)
    requires FbOk(D, s)
  {
    forall t: nat :: a <= t < b ==> FbAt(D, s, bus, t).ctl.doubleBuf && !FrameStart(FbAt(D, s, bus, t).timing)
  }

  lemma Next(D: nat, s: Fb, bus: nat -> Bus, t: nat)
    requires FbOk(D, s)
    ensures FbAt(D, s, bus, t + 1) == FbStep(D, FbAt(D, s, bus, t), bus(t))
  {
    hide FbOk, FbStep;
  }

  /** One snapshot is shown from window to window. */
  lemma {:induction false} Snapshot(D: nat, s: Fb, bus: nat -> Bus, a: nat, b: nat)
    requires FbOk(D, s) && a <= b && Scanning(D, s, bus, a, b)
    ensures var x, y := FbAt(D, s, bus, a), FbAt(D, s, bus, b); y.ctl.front == x.ctl.front && Shown(y) == Shown(x)
    decreases b - a
  {
    hide FbAt, FbStep, FbOk;
    if a < b {
      Snapshot(D, s, bus, a, b - 1);
      Next(D, s, bus, b - 1);
      NoTear(D, FbAt(D, s, bus, b - 1), bus(b - 1));
    }
  }

  /** Bit x mod 32 of word 5y + x / 32 of a buffer. */
  function PixelOf(mem: seq<Word>, x: nat, y: nat): bool
    requires |mem| == BUF_WORDS && x < 160 && y < 120
  {
    mem[WordAddr(x, y)][x % 32]
  }

  lemma ScanFetch(D: nat, s: Fb, b: Bus)
    requires FbOk(D, s) && !FrameStart(s.timing)
    ensures ScanWord(FbStep(D, s, b)) == Shown(s)[ScanAddr(s.timing)]
  {
    hide ReadMux, TimingStep, ScanAddr, IsDrawWrite, CpuAddr, Active;
  }

  lemma PixelOut(D: nat, s: Fb, b: Bus)
    requires FbOk(D, s)
    ensures FbStep(D, s, b).pixel == (Active(s.timing) && ScanWord(s)[FbX(s.timing) % 32])
  {
    hide ReadMux, TimingStep, ControlStep, RamStep, IsDrawWrite, CpuAddr, Active, ScanWord;
  }

  /** The last two clocks of a period, in either mode: the word is fetched, as it was before
      what the bus writes in that clock, then its bit shown. */
  lemma ScanReads(D: nat, s: Fb, b0: Bus, b1: Bus)
    requires FbOk(D, s) && Active(s.timing) && !s.timing.pixelEn
    ensures FbStep(D, FbStep(D, s, b0), b1).pixel == PixelOf(Shown(s), FbX(s.timing), FbY(s.timing))
  {
    hide FbStep, ScanWord;
    var m := FbStep(D, s, b0);
    ScanFetch(D, s, b0);
    PixelOut(D, m, b1);
    SamePlace(D, s, b0);
  }

  lemma SamePlace(D: nat, s: Fb, b: Bus)
    requires FbOk(D, s) && !s.timing.pixelEn
    ensures var t := FbStep(D, s, b).timing; Active(t) == Active(s.timing) && FbX(t) == FbX(s.timing)
  {
    hide ReadMux, ControlStep, RamStep, ScanWord;
  }

  const FRAME: nat := H_COUNT_MAX * V_COUNT_MAX

  /** The period in which frame f shows screen position (sx, sy). */
  function PeriodOf(f: nat, sx: nat, sy: nat): nat { 800 * (525 * f + 35 + sy) + 144 + sx }

  /** First clock after frame f's start window. */
  function FrameFrom(D: nat, f: nat): nat { ClockOf(D, FRAME * f + 1, 0) }

  lemma PositionOf(f: nat, sx: nat, sy: nat)
    requires sx < SCREEN_W && sy < SCREEN_H
    ensures var k := PeriodOf(f, sx, sy);
      && k % H_COUNT_MAX == H_FIRST + sx && k / H_COUNT_MAX % V_COUNT_MAX == V_FIRST + sy
      && FRAME * f + 1 <= k < FRAME * (f + 1)
  {
    var q := V_COUNT_MAX * f + V_FIRST + sy;
    assert PeriodOf(f, sx, sy) / H_COUNT_MAX == q;
  }

  /** Between one frame's start window and the next frame the beam is elsewhere. */
  lemma NoWindow(D: nat, s: Fb, bus: nat -> Bus, f: nat, t: nat)
    requires FbOk(D, s) && IsReset(s) && FrameFrom(D, f) <= t < ClockOf(D, FRAME * (f + 1), 0)
    ensures !FrameStart(FbAt(D, s, bus, t).timing)
  {
    hide FbAt, ClockOf, IsReset;
    var k, r := PeriodFor(D, t, FRAME * f + 1, FRAME * (f + 1));
    CountersAt(D, s, bus, k, r);
  }

  /** Main result: from reset, under any CPU traffic that keeps double-buffer mode
      from the end of frame f's start window until the position is shown, the pixel
      registered in the last clock of the period of each of the 640 x 480 positions
      is the bit at (sx / 4, sy / 4) of one and the same snapshot of the front
      buffer, taken at the end of the window. */
  lemma FrameIsSnapshot(D: nat, s: Fb, bus: nat -> Bus, f: nat, sx: nat, sy: nat)
    requires D >= 2 && FbOk(D, s) && IsReset(s) && sx < SCREEN_W && sy < SCREEN_H
    requires forall u: nat :: FrameFrom(D, f) <= u <= ClockOf(D, PeriodOf(f, sx, sy), D - 1) ==>
      FbAt(D, s, bus, u).ctl.doubleBuf
    ensures FbAt(D, s, bus, ClockOf(D, PeriodOf(f, sx, sy), D - 1) + 1).pixel
         == PixelOf(Shown(FbAt(D, s, bus, FrameFrom(D, f))), sx / 4, sy / 4)
  {
    hide FbAt, FbOk, FbStep, Shown, ClockOf, PeriodOf, IsReset;
    var k := PeriodOf(f, sx, sy);
    var a, t := FrameFrom(D, f), ClockOf(D, k, D - 2);
    PositionOf(f, sx, sy);
    CountersAt(D, s, bus, k, D - 2);
    Ordered(D, f, k);
    forall u: nat | a <= u < t ensures !FrameStart(FbAt(D, s, bus, u).timing) { NoWindow(D, s, bus, f, u); }
    Snapshot(D, s, bus, a, t);
    ScanReads(D, FbAt(D, s, bus, t), bus(t), bus(t + 1));
    Next(D, s, bus, t);
    Next(D, s, bus, t + 1);
  }

  /** The colour is off in every clock of a period outside the 640 x 480 positions. */
  lemma DarkOutside(D: nat, s: Fb, bus: nat -> Bus, k: nat, r: nat)
    requires FbOk(D, s) && IsReset(s) && r < D
    requires !(144 <= k % 800 < 784 && 35 <= k / 800 % 525 < 515)
    ensures !FbAt(D, s, bus, ClockOf(D, k, r) + 1).pixel
  {
    hide FbAt, FbOk, FbStep, ClockOf, IsReset, ScanWord;
    CountersAt(D, s, bus, k, r);
    Next(D, s, bus, ClockOf(D, k, r));
    PixelOut(D, FbAt(D, s, bus, ClockOf(D, k, r)), bus(ClockOf(D, k, r)));
  }

  lemma Ordered(D: nat, f: nat, k: nat)
    requires D >= 2 && FRAME * f + 1 <= k < FRAME * (f + 1)
    ensures FrameFrom(D, f) <= ClockOf(D, k, D - 2) < ClockOf(D, FRAME * (f + 1), 0)
    ensures ClockOf(D, k, D - 1) == ClockOf(D, k, D - 2) + 1
  {
    MulUp(D, FRAME * f + 1, k);
    MulUp(D, k + 1, FRAME * (f + 1));
    assert D * (k + 1) == D * k + D;
  }

  lemma MulUp(D: nat, x: nat, y: nat)
    requires x <= y
    ensures D * x <= D * y
  {
    assert D * y == D * x + D * (y - x);
  }

  // ---- Bus addresses as numbers ---------------------------------------------------------------

  function Page(a: bv16): bv4 { (a >> 12) as bv4 }
  function WordNo(a: bv16): bv10 { ((a >> 2) & 0x3FF) as bv10 }
  function ByteNo(a: bv16): bv2 { (a & 3) as bv2 }
  function JoinAddr(h: bv4, m: bv10, l: bv2): bv16 { ((h as bv16) << 12) | ((m as bv16) << 2) | (l as bv16) }

  function Offset(a: bv16): int { a as int }
  function PageInt(h: bv4): int { h as int }
  function WordInt(m: bv10): int { m as int }
  function ByteInt(l: bv2): int { l as int }

  lemma JoinAddrInt(h: bv4, m: bv10, l: bv2)
    ensures Offset(JoinAddr(h, m, l)) == 0x1000 * PageInt(h) + 4 * WordInt(m) + ByteInt(l)
  {
  }

  lemma AddrParts(a: bv16)
    ensures a == JoinAddr(Page(a), WordNo(a), ByteNo(a))
  {
  }

  lemma PageValue(a: bv16)
    ensures a >> 12 == 0 <==> PageInt(Page(a)) == 0
    ensures a >> 12 == 1 <==> PageInt(Page(a)) == 1
    ensures a >> 12 == 2 <==> PageInt(Page(a)) == 2
    ensures 0 <= PageInt(Page(a))
  {
  }

  lemma WordValue(b: Bus)
    ensures BufAddr(b) == WordInt(WordNo(b.addr)) < 0x400 && 0 <= ByteInt(ByteNo(b.addr)) < 4
  {
  }

  /** Offset in the peripheral's region, by page and word of the page. */
  lemma AddrIs(b: Bus)
    ensures var a := Offset(b.addr);
      && 0 <= a && BufAddr(b) == a % 0x1000 / 4
      && (b.addr >> 12 == 0 <==> a / 0x1000 == 0)
      && (b.addr >> 12 == 1 <==> a / 0x1000 == 1)
      && (b.addr >> 12 == 2 <==> a / 0x1000 == 2)
  {
    hide Offset, PageInt, WordInt, ByteInt, JoinAddr, Page, WordNo, ByteNo, BufAddr;
    AddrParts(b.addr);
    JoinAddrInt(Page(b.addr), WordNo(b.addr), ByteNo(b.addr));
    PageValue(b.addr);
    WordValue(b);
  }

  // ---- Swaps -------------------------------------------------------------------------------

  /** Contents of the buffer not being scanned. */
  function Back(s: Fb): seq<Word> { if s.ctl.front then s.buf0.mem else s.buf1.mem }

  predicate SwapWrite(b: Bus) { ControlWrite(b) && b.wdata[0] && b.wdata[1] }

  /** A swap request is recorded unless it is written in the very clock in which an
      earlier one is carried out, which drops it. */
  lemma SwapRecorded(D: nat, s: Fb, b: Bus)
    requires FbOk(D, s) && SwapWrite(b)
    ensures FbStep(D, s, b).ctl.pending <==> !(FrameStart(s.timing) && s.ctl.pending)
  {
    hide ReadMux, TimingStep, RamStep, ScanAddr, CpuAddr, ScanWord, FbX, IsDrawWrite;
  }

  /** A write in the 600 words from offset 0x1000 on. */
  predicate Draws(b: Bus) { b.sel && b.we && 0x1000 <= Offset(b.addr) < 0x1000 + 4 * 600 }

  /** The word it is meant for. */
  function DrawWord(b: Bus): (k: nat)
    requires Draws(b)
    ensures k < 600
  {
    (Offset(b.addr) - 0x1000) / 4
  }

  lemma DrawDecode(b: Bus)
    ensures IsDrawWrite(b) == Draws(b) && (Draws(b) ==> CpuAddr(b) == DrawWord(b))
  {
    hide Offset, BufAddr;
    AddrIs(b);
  }

  /** What a bus clock leaves of a buffer it draws into. */
  function Drawn(mem: seq<Word>, b: Bus): seq<Word>
    requires |mem| == BUF_WORDS
  {
    if Draws(b) then mem[DrawWord(b) := b.wdata] else mem
  }

  /** One clock draws one word into one buffer, the back one in double-buffer mode and the
      shown one otherwise, and changes no other word of either. */
  lemma DrawWrites(D: nat, s: Fb, b: Bus)
    requires FbOk(D, s)
    ensures var n := FbStep(D, s, b);
      var second := if s.ctl.doubleBuf then !s.ctl.front else s.ctl.front;
      && n.buf0.mem == (if second then s.buf0.mem else Drawn(s.buf0.mem, b))
      && n.buf1.mem == (if second then Drawn(s.buf1.mem, b) else s.buf1.mem)
  {
    hide ReadMux, TimingStep, ScanAddr, CpuAddr, IsDrawWrite, ScanWord, FbX, ControlStep, Draws, DrawWord;
    DrawDecode(b);
  }

  lemma {:induction false} PendingHeld(D: nat, s: Fb, bus: nat -> Bus, a: nat, b: nat)
    requires FbOk(D, s) && a <= b && FbAt(D, s, bus, a).ctl.pending
    requires forall u: nat :: a <= u < b ==> !FrameStart(FbAt(D, s, bus, u).timing)
    ensures var x, y := FbAt(D, s, bus, a).ctl, FbAt(D, s, bus, b).ctl; y.pending && y.front == x.front
    decreases b - a
  {
    hide FbAt, FbOk, TimingStep, RamStep, ReadMux, ScanWord, ScanAddr, CpuAddr, IsDrawWrite;
    if a < b {
      PendingHeld(D, s, bus, a, b - 1);
      Next(D, s, bus, b - 1);
    }
  }

  /** A pending swap waits for the next frame start, is carried out there exactly
      once, and brings forward all that was drawn into the back buffer, a word
      drawn in that same clock included. */
  lemma SwapHonoured(D: nat, s: Fb, bus: nat -> Bus, a: nat, b: nat)
    requires FbOk(D, s) && a <= b && FbAt(D, s, bus, a).ctl.pending && FbAt(D, s, bus, b).ctl.doubleBuf
    requires forall u: nat :: a <= u < b ==> !FrameStart(FbAt(D, s, bus, u).timing)
    requires FrameStart(FbAt(D, s, bus, b).timing)
    ensures var x, y, n := FbAt(D, s, bus, a), FbAt(D, s, bus, b), FbAt(D, s, bus, b + 1);
      && y.ctl.front == x.ctl.front
      && n.ctl.front == !x.ctl.front && !n.ctl.pending
      && Shown(n) == Drawn(Back(y), bus(b)) && Back(n) == Shown(y)
  {
    hide FbAt, ReadMux, TimingStep, ScanAddr, CpuAddr, IsDrawWrite, ScanWord, FbX, Draws, DrawWord;
    DrawDecode(bus(b));
    PendingHeld(D, s, bus, a, b);
    Next(D, s, bus, b);
  }

  // ---- The CPU's read port -----------------------------------------------------------------

  /** The buffer behind the draw addresses, and the one behind the peek addresses. */
  function DrawMem(s: Fb): seq<Word> { if DrawSel(s.ctl) then s.buf1.mem else s.buf0.mem }

  function PeekMem(s: Fb): seq<Word> { if DrawSel(s.ctl) then s.buf0.mem else s.buf1.mem }

  lemma PeekIsShown(s: Fb)
    ensures s.ctl.doubleBuf ==> PeekMem(s) == Shown(s) && DrawMem(s) == Back(s)
    ensures !s.ctl.doubleBuf ==> DrawMem(s) == Shown(s) && PeekMem(s) == Back(s)
  {
  }

  lemma Latched(D: nat, s: Fb, b: Bus)
    requires FbOk(D, s)
    ensures var n := FbStep(D, s, b);
      && n.late == Late(b.sel, b.re, b.addr, DrawSel(s.ctl), BufAddr(b) < BUF_WORDS)
      && n.buf0.doutA == s.buf0.mem[CpuAddr(b)] && n.buf1.doutA == s.buf1.mem[CpuAddr(b)]
      && n.rdata == ReadMux(s)
  {
    hide ReadMux, TimingStep, ScanAddr, CpuAddr, IsDrawWrite, ScanWord, FbX, ControlStep, BufAddr;
  }

  /** A draw or peek read answers two clocks later with the word of the logical
      buffer at the time it was issued, or zero beyond the buffer, whatever the bus
      does in the second clock. */
  lemma ReadTakesTwo(D: nat, s: Fb, b0: Bus, b1: Bus)
    requires FbOk(D, s) && b0.sel && b0.re && 0x1000 <= Offset(b0.addr) < 0x3000
    ensures var a := Offset(b0.addr);
      var k := a % 0x1000 / 4;
      FbStep(D, FbStep(D, s, b0), b1).rdata
        == if k >= 600 then ZERO else if a < 0x2000 then DrawMem(s)[k] else PeekMem(s)[k]
  {
    hide FbStep, BufAddr, ZERO, Offset;
    AddrIs(b0);
    Latched(D, s, b0);
    Latched(D, FbStep(D, s, b0), b1);
  }

  /** Bit 0 alone. */
  predicate IsFlag(w: Word, b: bool) { forall i :: 0 <= i < 32 ==> w[i] == (i == 0 && b) }

  lemma FlagIs(b: bool)
    ensures IsFlag(Flag(b), b) && IsFlag(ZERO, false)
  {
  }

  /** A read of the control page answers with the mode or the pending swap of the clock
      after, in bit 0; anything not selected or not a read answers zero. */
  lemma ControlReads(D: nat, s: Fb, b0: Bus, b1: Bus)
    requires FbOk(D, s)
    ensures var m, r, a := FbStep(D, s, b0), FbStep(D, FbStep(D, s, b0), b1).rdata, Offset(b0.addr);
      && (b0.sel && b0.re && a < 0x1000 ==>
            IsFlag(r, (a % 16 / 4 == 0 && m.ctl.doubleBuf) || (a % 16 / 4 == 1 && m.ctl.pending)))
      && (!b0.sel || !b0.re || a >= 0x3000 ==> IsFlag(r, false))
  {
    hide FbStep, BufAddr, Offset, Flag, ZERO, IsFlag, CpuAddr;
    FlagIs(FbStep(D, s, b0).ctl.doubleBuf);
    FlagIs(FbStep(D, s, b0).ctl.pending);
    FlagIs(false);
    AddrIs(b0);
    LowBits(b0);
    Latched(D, s, b0);
    Latched(D, FbStep(D, s, b0), b1);
  }

  function RegNo(m: bv10): bv2 { (m & 3) as bv2 }
  function RegHigh(m: bv10): bv8 { (m >> 2) as bv8 }
  function HighInt(h: bv8): int { h as int }
  function JoinReg(h: bv8, l: bv2): bv10 { ((h as bv10) << 2) | (l as bv10) }

  lemma JoinRegInt(h: bv8, l: bv2)
    ensures WordInt(JoinReg(h, l)) == 4 * HighInt(h) + ByteInt(l)
  {
  }

  lemma RegParts(m: bv10)
    ensures m == JoinReg(RegHigh(m), RegNo(m))
  {
  }

  lemma RegValue(b: Bus)
    ensures ((b.addr >> 2) & 3 == 0 <==> ByteInt(RegNo(WordNo(b.addr))) == 0)
    ensures ((b.addr >> 2) & 3 == 1 <==> ByteInt(RegNo(WordNo(b.addr))) == 1)
    ensures 0 <= ByteInt(RegNo(WordNo(b.addr))) < 4
  {
  }

  lemma LowBits(b: Bus)
    ensures ((b.addr >> 2) & 3 == 0 <==> BufAddr(b) % 4 == 0) && ((b.addr >> 2) & 3 == 1 <==> BufAddr(b) % 4 == 1)
  {
    hide WordInt, ByteInt, HighInt, WordNo, ByteNo, RegNo, RegHigh, JoinReg, BufAddr;
    WordValue(b);
    RegParts(WordNo(b.addr));
    JoinRegInt(RegHigh(WordNo(b.addr)), RegNo(WordNo(b.addr)));
    RegValue(b);
  }

  // ---- The mode ---------------------------------------------------------------------------------

  /** A write to VGA_CTRL. */
  predicate ControlWrite(b: Bus) { b.sel && b.we && Offset(b.addr) == 0 }

  /** Only VGA_CTRL's bit 0 changes the mode. */
  lemma ModeStep(D: nat, s: Fb, b: Bus)
    requires FbOk(D, s)
    ensures FbStep(D, s, b).ctl.doubleBuf == if ControlWrite(b) then b.wdata[0] else s.ctl.doubleBuf
  {
    hide ReadMux, TimingStep, RamStep, ScanAddr, CpuAddr, ScanWord, FbX, IsDrawWrite;
  }

  /** Double-buffer mode lasts until a write that clears it. */
  lemma {:induction false} ModeLasts(D: nat, s: Fb, bus: nat -> Bus, a: nat, b: nat)
    requires FbOk(D, s) && a <= b && FbAt(D, s, bus, a).ctl.doubleBuf
    requires forall u: nat :: a <= u < b && ControlWrite(bus(u)) ==> bus(u).wdata[0]
    ensures FbAt(D, s, bus, b).ctl.doubleBuf
    decreases b - a
  {
    hide FbAt, FbOk, FbStep, ControlWrite;
    if a < b {
      ModeLasts(D, s, bus, a, b - 1);
      Next(D, s, bus, b - 1);
      ModeStep(D, FbAt(D, s, bus, b - 1), bus(b - 1));
    }
  }

  // ---- What is drawn is shown ------------------------------------------------------------------------

  /** No write to word k in these clocks. */
  ghost predicate Spares(bus: nat -> Bus, a: nat, b: nat, k: nat) {
    forall u: nat :: a <= u < b && Draws(bus(u)) ==> DrawWord(bus(u)) != k
  }

  lemma BufferSizes(D: nat, s: Fb)
    requires FbOk(D, s)
    ensures |Shown(s)| == |Back(s)| == BUF_WORDS
  {
  }

  lemma BackStep(D: nat, s: Fb, b: Bus)
    requires FbOk(D, s) && s.ctl.doubleBuf && !FrameStart(s.timing)
    ensures Back(FbStep(D, s, b)) == Drawn(Back(s), b)
  {
    hide ReadMux, TimingStep, ScanAddr, CpuAddr, IsDrawWrite, ScanWord, FbX, Draws, DrawWord;
    DrawDecode(b);
  }

  /** A word of the back buffer stays until it is written again or the buffers swap. */
  lemma {:induction false} BackKept(D: nat, s: Fb, bus: nat -> Bus, a: nat, b: nat, k: nat)
    requires FbOk(D, s) && a <= b && k < 600 && Scanning(D, s, bus, a, b) && Spares(bus, a, b, k)
    ensures Back(FbAt(D, s, bus, b))[k] == Back(FbAt(D, s, bus, a))[k]
    decreases b - a
  {
    hide FbAt, FbOk, FbStep, Draws, DrawWord;
    if a < b {
      BackKept(D, s, bus, a, b - 1, k);
      Next(D, s, bus, b - 1);
      BufferSizes(D, FbAt(D, s, bus, b - 1));
      BackStep(D, FbAt(D, s, bus, b - 1), bus(b - 1));
    }
  }

  /** In double-buffer mode, with no swap pending or requested, the shown buffer stays,
      frame start or not. */
  lemma {:induction false} ShownKept(D: nat, s: Fb, bus: nat -> Bus, a: nat, b: nat)
    requires FbOk(D, s) && a <= b && !FbAt(D, s, bus, a).ctl.pending
    requires forall u: nat :: a <= u < b ==> FbAt(D, s, bus, u).ctl.doubleBuf && !SwapWrite(bus(u))
    ensures var x, y := FbAt(D, s, bus, a), FbAt(D, s, bus, b); !y.ctl.pending && Shown(y) == Shown(x)
    decreases b - a
  {
    hide FbAt, FbOk, FbStep, SwapWrite, Shown;
    if a < b {
      ShownKept(D, s, bus, a, b - 1);
      Next(D, s, bus, b - 1);
      ShownStep(D, FbAt(D, s, bus, b - 1), bus(b - 1));
    }
  }

  lemma ShownStep(D: nat, s: Fb, b: Bus)
    requires FbOk(D, s) && s.ctl.doubleBuf && !s.ctl.pending && !SwapWrite(b)
    ensures var n := FbStep(D, s, b); !n.ctl.pending && Shown(n) == Shown(s)
  {
    hide ReadMux, TimingStep, ScanAddr, CpuAddr, IsDrawWrite, ScanWord, FbX;
  }

  /** Word and bit of the pixel at screen position (sx, sy). */
  function PixelWord(sx: nat, sy: nat): nat { 5 * (sy / 4) + sx / 128 }
  function PixelBit(sx: nat): nat { sx / 4 % 32 }

  lemma PixelIs(mem: seq<Word>, sx: nat, sy: nat)
    requires |mem| == BUF_WORDS && sx < SCREEN_W && sy < SCREEN_H
    ensures PixelWord(sx, sy) < 600 && PixelOf(mem, sx / 4, sy / 4) == mem[PixelWord(sx, sy)][PixelBit(sx)]
  {
  }

  /** The clock in which frame f starts, and so a pending swap is carried out. */
  function StartOf(D: nat, f: nat): nat { D * (420000 * f) + 1 }

  lemma StartClock(D: nat, f: nat)
    requires D >= 1
    ensures StartOf(D, f) == ClockOf(D, FRAME * f, 0) && StartOf(D, f) < FrameFrom(D, f)
  {
    var k := FRAME * f;
    assert k == 420000 * f;
    ClockSteps(D, k, 0);
  }

  lemma StartPlace(D: nat, f: nat)
    requires D >= 1
    ensures FrameStart(Place(D, FRAME * f, 0))
  {
    var k := FRAME * f;
    assert k == 800 * (525 * f);
    assert k / 800 == 525 * f;
  }

  lemma StartsFrame(D: nat, s: Fb, bus: nat -> Bus, f: nat)
    requires D >= 1 && FbOk(D, s) && IsReset(s)
    ensures FrameStart(FbAt(D, s, bus, StartOf(D, f)).timing) && StartOf(D, f) < FrameFrom(D, f)
  {
    hide FbAt, FbOk, IsReset, ClockOf, StartOf, FrameFrom, Place, FrameStart;
    StartClock(D, f);
    StartPlace(D, f);
    CountersAt(D, s, bus, FRAME * f, 0);
  }

  /** Main result for drawing: in double-buffer mode a word written at 0x1000 + 4k before
      a swap, and not written again before it, is on the screen in the frame that the
      swap starts: each of its bits is the pixel of the positions it stands for. */
  lemma DrawnIsShown(D: nat, s: Fb, bus: nat -> Bus, f: nat, w: nat, sx: nat, sy: nat)
    requires D >= 2 && FbOk(D, s) && IsReset(s) && sx < SCREEN_W && sy < SCREEN_H && w <= StartOf(D, f)
    requires Draws(bus(w)) && DrawWord(bus(w)) == PixelWord(sx, sy)
    requires Spares(bus, w + 1, StartOf(D, f) + 1, PixelWord(sx, sy))
    requires forall u: nat :: w <= u < StartOf(D, f) ==> !FrameStart(FbAt(D, s, bus, u).timing)
    requires forall u: nat :: w <= u <= ClockOf(D, PeriodOf(f, sx, sy), D - 1) ==> FbAt(D, s, bus, u).ctl.doubleBuf
    requires FbAt(D, s, bus, StartOf(D, f)).ctl.pending
    requires forall u: nat :: StartOf(D, f) < u < FrameFrom(D, f) ==> !SwapWrite(bus(u))
    ensures FbAt(D, s, bus, ClockOf(D, PeriodOf(f, sx, sy), D - 1) + 1).pixel == bus(w).wdata[PixelBit(sx)]
  {
    hide FbAt, FbOk, FbStep, Shown, Back, ClockOf, PeriodOf, IsReset, StartOf, FrameFrom, Draws, DrawWord, SwapWrite,
      PixelWord, PixelBit;
    var b, e, k := StartOf(D, f), FrameFrom(D, f), PixelWord(sx, sy);
    StartsFrame(D, s, bus, f);
    FrameBefore(D, f, sx, sy);
    BroughtForward(D, s, bus, w, b, k);
    SwapHonoured(D, s, bus, b, b);
    ShownKept(D, s, bus, b + 1, e);
    FrameIsSnapshot(D, s, bus, f, sx, sy);
    BufferSizes(D, FbAt(D, s, bus, e));
    PixelIs(Shown(FbAt(D, s, bus, e)), sx, sy);
  }

  /** A word drawn before a swap is in the shown buffer after it. */
  lemma BroughtForward(D: nat, s: Fb, bus: nat -> Bus, w: nat, b: nat, k: nat)
    requires FbOk(D, s) && w <= b && k < 600 && Draws(bus(w)) && DrawWord(bus(w)) == k
    requires Spares(bus, w + 1, b + 1, k) && Scanning(D, s, bus, w, b)
    requires var y := FbAt(D, s, bus, b); y.ctl.doubleBuf && y.ctl.pending && FrameStart(y.timing)
    ensures |Shown(FbAt(D, s, bus, b + 1))| == 600 && Shown(FbAt(D, s, bus, b + 1))[k] == bus(w).wdata
  {
    hide FbAt, FbOk, FbStep, Shown, Back, Draws, DrawWord;
    SwapHonoured(D, s, bus, b, b);
    BufferSizes(D, FbAt(D, s, bus, b));
    BufferSizes(D, FbAt(D, s, bus, b + 1));
    if w < b {
      BufferSizes(D, FbAt(D, s, bus, w));
      BackStep(D, FbAt(D, s, bus, w), bus(w));
      Next(D, s, bus, w);
      BackKept(D, s, bus, w + 1, b, k);
    }
  }

  lemma FrameBefore(D: nat, f: nat, sx: nat, sy: nat)
    requires D >= 2 && sx < SCREEN_W && sy < SCREEN_H
    ensures FrameFrom(D, f) <= ClockOf(D, PeriodOf(f, sx, sy), D - 1)
  {
    hide PeriodOf;
    PositionOf(f, sx, sy);
    Ordered(D, f, PeriodOf(f, sx, sy));
  }

  // ---- As clocked objects ------------------------------------------------------------------

  class SyncRam {
    const mem: array<Word>
    var doutA: Word
    var doutB: Word

    ghost predicate Valid()
      reads this, mem
    {
      mem.Length == BUF_WORDS
    }

    function State(): Ram
      reads this, mem
    {
      Ram(mem[..], doutA, doutB)
    }

    constructor ()
      ensures Valid() && fresh(mem)
    {
      mem := new Word[BUF_WORDS](_ => ZERO);
      doutA, doutB := ZERO, ZERO;
    }

    method Clock(weA: bool, addrA: nat, dinA: Word, weB: bool, addrB: nat, dinB: Word)
      requires Valid() && addrA < BUF_WORDS && addrB < BUF_WORDS
      modifies this, mem
      ensures Valid() && State() == RamStep(old(State()), weA, addrA, dinA, weB, addrB, dinB)
    {
      doutA, doutB := mem[addrA], mem[addrB];
      if weA { mem[addrA] := dinA; }
      if weB { mem[addrB] := dinB; }
    }
  }

  class VgaFramebuffer {
    const D: nat
    const ram0: SyncRam
    const ram1: SyncRam
    var pixelEn: bool
    var divCount: nat
    var h: nat
    var v: nat
    var doubleBuf: bool
    var front: bool
    var pending: bool
    var late: Late
    var rdata: Word
    var pixel: bool

    function TimingNow(): Timing reads this { Timing(pixelEn, divCount, h, v) }

    function ControlNow(): Control reads this { Control(doubleBuf, front, pending) }

    function State(): Fb
      reads this, ram0, ram0.mem, ram1, ram1.mem
    {
      Fb(TimingNow(), ControlNow(), ram0.State(), ram1.State(), late, rdata, pixel)
    }

    ghost predicate Valid()
      reads this, ram0, ram0.mem, ram1, ram1.mem
    {
      && ram0 != ram1 && ram0.mem != ram1.mem
      && ram0.Valid() && ram1.Valid() && TimingOk(D, TimingNow())
    }

    constructor (D: nat)
      requires D >= 1
      ensures Valid() && this.D == D && IsReset(State())
    {
      this.D := D;
      ram0 := new SyncRam();
      ram1 := new SyncRam();
      pixelEn, divCount, h, v := false, 0, 0, 0;
      doubleBuf, front, pending := false, false, false;
      late, rdata, pixel := Late(false, false, 0, false, false), ZERO, false;
    }

    /** Pixel-rate enable and the two counters. */
    method Tick()
      requires TimingOk(D, TimingNow())
      modifies this`pixelEn, this`divCount, this`h, this`v
      ensures TimingNow() == TimingStep(D, old(TimingNow()))
    {
      if pixelEn {
        if h == H_COUNT_MAX - 1 {
          h, v := 0, if v == V_COUNT_MAX - 1 then 0 else v + 1;
        } else {
          h := h + 1;
        }
      }
      if divCount == D - 1 {
        pixelEn, divCount := true, 0;
      } else {
        pixelEn, divCount := false, divCount + 1;
      }
    }

    /** Mode bits, swap request, swap. */
    method Steer(frameStart: bool, b: Bus)
      modifies this`doubleBuf, this`front, this`pending
      ensures ControlNow() == ControlStep(old(ControlNow()), frameStart, b)
    {
      var swap := frameStart && pending;
      if b.sel && b.we && b.addr == 0 {
        doubleBuf := b.wdata[0];
        if b.wdata[1] && b.wdata[0] { pending := true; }
      }
      if swap { front, pending := !front, false; }
    }

    /** Both buffers. */
    method Buffers(b: Bus, scan: nat)
      requires Valid() && scan < BUF_WORDS
      modifies ram0, ram0.mem, ram1, ram1.mem
      ensures Valid()
      ensures var sel, write := DrawSel(ControlNow()), IsDrawWrite(b);
        && ram0.State() == RamStep(old(ram0.State()), write && !sel, CpuAddr(b), b.wdata, false, scan, ZERO)
        && ram1.State() == RamStep(old(ram1.State()), write && sel, CpuAddr(b), b.wdata, false, scan, ZERO)
    {
      hide CpuAddr, BufAddr, RamStep, IsDrawWrite;
      var drawSel := DrawSel(ControlNow());
      ram0.Clock(IsDrawWrite(b) && !drawSel, CpuAddr(b), b.wdata, false, scan, ZERO);
      ram1.Clock(IsDrawWrite(b) && drawSel, CpuAddr(b), b.wdata, false, scan, ZERO);
    }

    /** The read mux, its delayed decode, and the pixel. */
    method Outputs(b: Bus)
      requires Valid()
      modifies this`late, this`rdata, this`pixel
      ensures late == Late(b.sel, b.re, b.addr, DrawSel(ControlNow()), BufAddr(b) < BUF_WORDS)
      ensures rdata == ReadMux(old(State()))
      ensures pixel == (Active(TimingNow()) && ScanWord(old(State()))[FbX(TimingNow()) % 32])
    {
      hide ReadMux, ScanWord, BufAddr, FbX, Active;
      var s := State();
      rdata, pixel := ReadMux(s), Active(s.timing) && ScanWord(s)[FbX(s.timing) % 32];
      late := Late(b.sel, b.re, b.addr, DrawSel(ControlNow()), BufAddr(b) < BUF_WORDS);
    }

    /** One clock edge. */
    method Clock(b: Bus)
      requires Valid()
      modifies this, ram0, ram0.mem, ram1, ram1.mem
      ensures Valid() && State() == FbStep(D, old(State()), b)
    {
      hide ReadMux, ScanWord, TimingStep, ControlStep, ScanAddr, CpuAddr, BufAddr, FbX, Active, RamStep, IsDrawWrite;
      var frameStart := FrameStart(TimingNow());
      Outputs(b);
      Buffers(b, ScanAddr(TimingNow()));
      Steer(frameStart, b);
      Tick();
    }
  }
}
