/** The software bootloader and the host loader it talks to, over an ideal byte
    channel. A pause long enough for the receive timeout ends a burst of bytes. */
module Bootloader {
  import opened Options
  import opened Uart
  import opened DebugUart
  import opened DebugHost
  import opened DebugUnit
  import W = WordInts

  const READY_BYTE: Byte := 0xAA
  const OK_BYTE: Byte := 0xBB
  const ERROR_BYTE: Byte := 0xEE
  const LOAD_ADDRESS: nat := 0x1000
  const RAM_END: nat := 0x4000
  const PROGRAM_WORDS: nat := 0xC00
  const CHUNK: nat := 256

  function XorByte(a: Byte, b: Byte): Byte { ((a as bv8) ^ (b as bv8)) as Byte }

  function Xor(s: seq<Byte>): Byte {
    if s == [] then 0 else XorByte(Xor(s[..|s| - 1]), s[|s| - 1])
  }

  lemma XorMore(s: seq<Byte>, b: Byte)
    ensures Xor(s + [b]) == XorByte(Xor(s), b)
  {
    assert (s + [b])[..|s|] == s;
  }

  // ---- What the checksum is ------------------------------------------------------------------

  /** Bit k of a number. */
  function Bit(b: nat, k: nat): nat { if k == 0 then b % 2 else Bit(b / 2, k - 1) }

  /** How many bytes have bit k set. */
  function Count(s: seq<Byte>, k: nat): nat {
    if s == [] then 0 else Count(s[..|s| - 1], k) + Bit(s[|s| - 1], k)
  }

  function Top(w: bv8): bv7 { (w >> 1) as bv7 }
  function Last(w: bv8): bv1 { (w & 1) as bv1 }
  function JoinLast(h: bv7, l: bv1): bv8 { ((h as bv8) << 1) | (l as bv8) }
  function Int7(h: bv7): int { h as int }
  function Int1(l: bv1): int { l as int }
  function Wide(h: bv7): bv8 { h as bv8 }
  function Xor8(x: bv8, y: bv8): bv8 { x ^ y }
  function Xor7(x: bv7, y: bv7): bv7 { x ^ y }
  function Xor1(x: bv1, y: bv1): bv1 { x ^ y }

  lemma Parts(w: bv8)
    ensures w == JoinLast(Top(w), Last(w))
  {
  }

  lemma JoinLastInt(h: bv7, l: bv1)
    ensures W.Int8(JoinLast(h, l)) == 2 * Int7(h) + Int1(l)
  {
  }

  lemma WideInt(h: bv7)
    ensures W.Int8(Wide(h)) == Int7(h)
  {
  }

  lemma XorParts(x: bv8, y: bv8)
    ensures Xor8(x, y) == JoinLast(Xor7(Top(x), Top(y)), Xor1(Last(x), Last(y)))
    ensures Xor8(Wide(Top(x)), Wide(Top(y))) == Wide(Xor7(Top(x), Top(y)))
  {
  }

  lemma XorLast(x: bv1, y: bv1)
    ensures Int1(Xor1(x, y)) == (Int1(x) + Int1(y)) % 2 && 0 <= Int1(x) <= 1 && 0 <= Int1(y) <= 1
  {
  }

  lemma XorByteIs(a: Byte, b: Byte)
    ensures XorByte(a, b) == W.Int8(Xor8(W.ByteOfInt(a), W.ByteOfInt(b)))
  {
  }

  /** A byte's last bit and the rest of it. */
  lemma ByteParts(n: Byte)
    ensures var w := W.ByteOfInt(n); n == 2 * Int7(Top(w)) + Int1(Last(w)) && W.ByteOfInt(n / 2) == Wide(Top(w))
  {
    hide W.Int8, W.Int4, W.Join8, W.ByteOfInt, Top, Last, JoinLast, Int7, Int1, Wide;
    var w := W.ByteOfInt(n);
    var h, l := W.Nibbles(n);
    Parts(w);
    JoinLastInt(Top(w), Last(w));
    XorLast(Last(w), Last(w));
    WideInt(Top(w));
    W.BackToByte(Wide(Top(w)), n / 2);
  }

  lemma XorStep(a: Byte, b: Byte)
    ensures XorByte(a, b) % 2 == (a % 2 + b % 2) % 2 && XorByte(a, b) / 2 == XorByte(a / 2, b / 2)
  {
    hide XorByte, W.Int8, W.ByteOfInt, Top, Last, JoinLast, Int7, Int1, Wide, Xor8, Xor7, Xor1;
    var x, y := W.ByteOfInt(a), W.ByteOfInt(b);
    ByteParts(a);
    ByteParts(b);
    XorByteIs(a, b);
    XorByteIs(a / 2, b / 2);
    XorParts(x, y);
    JoinLastInt(Xor7(Top(x), Top(y)), Xor1(Last(x), Last(y)));
    WideInt(Xor7(Top(x), Top(y)));
    XorLast(Last(x), Last(y));
  }

  lemma {:induction false} XorBits(a: Byte, b: Byte, k: nat)
    ensures Bit(XorByte(a, b), k) == (Bit(a, k) + Bit(b, k)) % 2
    decreases k
  {
    hide XorByte;
    XorStep(a, b);
    if k > 0 { XorBits(a / 2, b / 2, k - 1); }
  }

  /** The checksum is a parity: bit k of it says whether an odd number of bytes has
      bit k set. */
  lemma {:induction false} ChecksumParity(s: seq<Byte>, k: nat)
    ensures Bit(Xor(s), k) == Count(s, k) % 2
  {
    hide XorByte;
    if s == [] {
      NoBits(k);
    } else {
      var before := s[..|s| - 1];
      ChecksumParity(before, k);
      XorBits(Xor(before), s[|s| - 1], k);
      BitIs(s[|s| - 1], k);
    }
  }

  lemma {:induction false} NoBits(k: nat)
    ensures Bit(0, k) == 0
  {
    if k > 0 { NoBits(k - 1); }
  }

  lemma {:induction false} BitIs(b: nat, k: nat)
    ensures Bit(b, k) <= 1
  {
    if k > 0 { BitIs(b / 2, k - 1); }
  }

  /** Bytes that agree in every bit are equal. */
  lemma {:induction false} BitsTell(a: nat, b: nat, n: nat)
    requires a != b && a < Pow2(n) && b < Pow2(n)
    ensures exists k :: 0 <= k < n && Bit(a, k) != Bit(b, k)
  {
    if a % 2 != b % 2 {
      assert n > 0 && Bit(a, 0) != Bit(b, 0);
    } else {
      BitsTell(a / 2, b / 2, n - 1);
      var k :| 0 <= k < n - 1 && Bit(a / 2, k) != Bit(b / 2, k);
      assert Bit(a, k + 1) != Bit(b, k + 1);
    }
  }

  lemma {:induction false} CountAltered(s: seq<Byte>, i: nat, b: Byte, k: nat)
    requires i < |s|
    ensures Count(s[i := b], k) == Count(s, k) - Bit(s[i], k) + Bit(b, k)
  {
    var n := |s| - 1;
    if i == n {
      assert s[i := b][..n] == s[..n];
    } else {
      CountAltered(s[..n], i, b, k);
      assert s[i := b][..n] == s[..n][i := b];
    }
  }

  /** Altering exactly one byte alters the checksum. */
  lemma OneByteAltered(s: seq<Byte>, i: nat, b: Byte)
    requires i < |s| && b != s[i]
    ensures Xor(s[i := b]) != Xor(s)
  {
    hide Xor, Count, Bit;
    assert Pow2(8) == 256;
    BitsTell(b, s[i], 8);
    var k :| 0 <= k < 8 && Bit(b, k) != Bit(s[i], k);
    CountAltered(s, i, b, k);
    ChecksumParity(s, k);
    ChecksumParity(s[i := b], k);
    BitIs(b, k);
    BitIs(s[i], k);
  }

  // ---- The device, declaratively -----------------------------------------------------------

  /** Overrun: the next store would pass the end of RAM. */
  datatype Outcome = TimedOut | Jumped | Refused | Overrun

  function SizeOf(bs: seq<Byte>): (n: nat)
    requires |bs| >= 4
    ensures n < TWO32
  {
    Unpack(bs[..4])
  }

  predicate Fits(n: nat) { n % 4 == 0 && n <= 4 * PROGRAM_WORDS }

  /** How one handshake ends when it gets the bytes bs and then nothing more. */
  function Verdict(bs: seq<Byte>): Outcome {
    if |bs| < 4 then TimedOut
    else
      var n := SizeOf(bs);
      if Fits(n) then
        if |bs| <= 4 + n then TimedOut else if bs[4 + n] == Xor(bs[4..4 + n]) then Jumped else Refused
      else if |bs| < 8 + 4 * PROGRAM_WORDS then TimedOut
      else Overrun
  }

  function Min(a: nat, b: nat): nat { if a < b then a else b }

  /** Words stored by then. */
  function Stored(bs: seq<Byte>): (k: nat)
    ensures k <= PROGRAM_WORDS && (k > 0 ==> 4 + 4 * k <= |bs|)
  {
    if |bs| < 4 then 0
    else
      var k := Min((|bs| - 4) / 4, PROGRAM_WORDS);
      if Fits(SizeOf(bs)) then Min(k, SizeOf(bs) / 4) else k
  }

  /** Memory with the first k payload words of bs at the load address. */
  function Loaded(before: seq<Word>, bs: seq<Byte>, k: nat): (after: seq<Word>)
    requires |before| == RAM_END / 4 && k <= PROGRAM_WORDS && (k > 0 ==> 4 + 4 * k <= |bs|)
    ensures |after| == |before|
    ensures forall w :: 0 <= w < |after| ==>
      after[w] == if LOAD_ADDRESS / 4 <= w < LOAD_ADDRESS / 4 + k then PayloadWord(bs, w - LOAD_ADDRESS / 4)
                  else before[w]
  {
    if k == 0 then before else Loaded(before, bs, k - 1)[LOAD_ADDRESS / 4 + k - 1 := PayloadWord(bs, k - 1)]
  }

  function PayloadWord(bs: seq<Byte>, j: nat): Word
    requires 8 + 4 * j <= |bs|
  {
    bs[4 + 4 * j..8 + 4 * j]
  }

  function Answer(o: Outcome): seq<Byte> {
    match o
    case Jumped => [OK_BYTE]
    case Refused => [ERROR_BYTE]
    case _ => []
  }

  // ---- The device, as the assembly runs it -------------------------------------------------

  /** Registers x20 to x24, RAM, the bytes still to come and those sent. x22 is a
      32-bit register and wraps. */
  class Bootloader {
    var x20: nat
    var x21: nat
    var x22: nat
    var x23: Byte
    var x24: Word
    const mem: array<Word>
    var rx: seq<Byte>
    var tx: seq<Byte>

    constructor (image: seq<Word>)
      requires |image| == RAM_END / 4
      ensures mem[..] == image && rx == [] && tx == [] && fresh(mem)
    {
      x20, x21, x22, x23, x24, rx, tx := 0, 0, 0, 0, ZERO, [], [];
      mem := new Word[RAM_END / 4](i requires 0 <= i < |image| => image[i]);
      new;
      assert mem[..] == image;
    }

    /** uart_rx_byte: false is the timeout. */
    method RxByte() returns (ok: bool, x10: Byte)
      modifies this`rx
      ensures ok <==> old(rx) != []
      ensures ok ==> x10 == old(rx)[0] && rx == old(rx)[1..]
      ensures !ok ==> rx == []
    {
      if rx == [] {
        return false, 0;
      }
      ok, x10, rx := true, rx[0], rx[1..];
    }

    /** The four size bytes. */
    method RecvSize() returns (ok: bool)
      modifies this`rx, this`x20
      ensures ok <==> |old(rx)| >= 4
      ensures ok ==> x20 == SizeOf(old(rx)) && rx == old(rx)[4..]
      ensures !ok ==> rx == []
    {
      var b0, b1, b2, b3: Byte;
      ok, b0 := RxByte();
      if ok { ok, b1 := RxByte(); }
      if ok { ok, b2 := RxByte(); }
      if ok { ok, b3 := RxByte(); }
      if ok {
        assert [b0, b1, b2, b3] == old(rx)[..4];
        x20 := Unpack([b0, b1, b2, b3]);
      }
    }

    /** One payload byte, folded into the checksum. */
    method RecvByte(i: nat, ghost seen: seq<Byte>) returns (ok: bool)
      requires i < 4 && x23 == Xor(seen)
      modifies this`rx, this`x23, this`x24
      ensures ok <==> old(rx) != []
      ensures ok ==> rx == old(rx)[1..] && x24 == old(x24)[i := old(rx)[0]] && x23 == Xor(seen + [old(rx)[0]])
      ensures !ok ==> rx == []
    {
      var x10: Byte;
      ok, x10 := RxByte();
      if ok {
        x23, x24 := XorByte(x23, x10), x24[i := x10];
        XorMore(seen, x10);
      }
    }

    /** One word of recv_loop, into x24. */
    method RecvWord(ghost seen: seq<Byte>) returns (ok: bool)
      requires x23 == Xor(seen)
      modifies this`rx, this`x23, this`x24
      ensures ok <==> |old(rx)| >= 4
      ensures ok ==> x24 == old(rx)[..4] && rx == old(rx)[4..] && x23 == Xor(seen + x24)
      ensures !ok ==> rx == []
    {
      hide Xor;
      ghost var bs := rx;
      ok := RecvByte(0, seen);
      if ok {
        assert seen + bs[..1] == seen + [bs[0]];
        ok := RecvByte(1, seen + bs[..1]);
      }
      if ok {
        assert seen + bs[..2] == seen + bs[..1] + [bs[1]];
        ok := RecvByte(2, seen + bs[..2]);
      }
      if ok {
        assert seen + bs[..3] == seen + bs[..2] + [bs[2]];
        ok := RecvByte(3, seen + bs[..3]);
      }
      if ok {
        assert x24 == bs[..4];
        assert seen + x24 == seen + bs[..3] + [bs[3]];
      }
    }

    /** The store that ends a pass of recv_loop, and its two counters. */
    method StoreWord(ghost bs: seq<Byte>, ghost before: seq<Word>, ghost j: nat)
      requires mem.Length == RAM_END / 4 == |before| && j < PROGRAM_WORDS && 8 + 4 * j <= |bs|
      requires x21 == LOAD_ADDRESS + 4 * j && x24 == PayloadWord(bs, j) && mem[..] == Loaded(before, bs, j)
      modifies this`x21, this`x22, mem
      ensures x21 == old(x21) + 4 && x22 == Wrap(old(x22) - 4) && mem[..] == Loaded(before, bs, j + 1)
    {
      hide PayloadWord, Wrap;
      mem[x21 / 4] := x24;
      x21 := x21 + 4;
      x22 := Wrap(x22 - 4);
    }

    /** recv_loop: None if it runs to recv_done. */
    method RecvLoop(ghost bs: seq<Byte>, ghost before: seq<Word>) returns (end: Option<Outcome>)
      requires mem.Length == RAM_END / 4 && before == mem[..]
      requires |bs| >= 4 && rx == bs[4..] && x20 == SizeOf(bs) && x21 == LOAD_ADDRESS && x22 == x20 && x23 == 0
      modifies this`x21, this`x22, this`x23, this`x24, this`rx, mem
      ensures mem[..] == Loaded(before, bs, Stored(bs))
      ensures end.None? <==> Fits(x20) && |bs| >= 4 + x20
      ensures end.None? ==> rx == bs[4 + x20..] && x23 == Xor(bs[4..4 + x20])
      ensures end.Some? ==> end.value == Verdict(bs) && (end.value.TimedOut? ==> rx == [])
      ensures end.Some? ==> end.value.TimedOut? || end.value.Overrun?
    {
      hide Xor, SizeOf, Wrap, Stored, Verdict, Loaded, Fits, PayloadWord;
      ghost var j := 0;
      assert bs[4..4] == [];
      XorNone();
      NothingLoaded(before, bs);
      Counter(x20, 0);
      while x22 != 0
        invariant j <= PROGRAM_WORDS && 4 + 4 * j <= |bs| && rx == bs[4 + 4 * j..]
        invariant Fits(x20) ==> 4 * j <= x20
        invariant x21 == LOAD_ADDRESS + 4 * j && x22 == Wrap(x20 - 4 * j)
        invariant x23 == Xor(bs[4..4 + 4 * j])
        invariant mem[..] == Loaded(before, bs, j)
        decreases |rx|
      {
        var ok := RecvWord(bs[4..4 + 4 * j]);
        if !ok {
          StopsShort(bs, j);
          return Some(TimedOut);
        }
        if x21 >= RAM_END {
          RunsOver(bs);
          return Some(Overrun);
        }
        Payload(bs, j);
        Counter(x20, j);
        StoreWord(bs, before, j);
        j := j + 1;
      }
      Counter(x20, j);
      end := None;
      RunsOut(bs, j);
    }

    /** From _start to the jump, the hang, or the timeout that restarts it. */
    method Attempt() returns (o: Outcome)
      requires mem.Length == RAM_END / 4
      modifies this, mem
      ensures o == Verdict(old(rx))
      ensures mem[..] == Loaded(old(mem[..]), old(rx), Stored(old(rx)))
      ensures tx == old(tx) + [READY_BYTE] + Answer(o)
      ensures o.TimedOut? ==> rx == []
      ensures o.Jumped? || o.Refused? ==> rx == old(rx)[5 + SizeOf(old(rx))..]
    {
      hide Xor, SizeOf;
      ghost var bs, before := rx, mem[..];
      tx := tx + [READY_BYTE];
      var ok := RecvSize();
      if !ok {
        return TimedOut;
      }
      x21, x22, x23 := LOAD_ADDRESS, x20, 0;
      var end := RecvLoop(bs, before);
      if end.Some? {
        return end.value;
      }
      var x10: Byte;
      ok, x10 := RxByte();
      if !ok {
        return TimedOut;
      }
      if x10 == x23 {
        tx, o := tx + [OK_BYTE], Jumped;
      } else {
        tx, o := tx + [ERROR_BYTE], Refused;
      }
    }

    /** The bootloader on bursts of bytes, each pause between them long enough to
        restart the handshake. */
    method Boot(bursts: seq<seq<Byte>>) returns (o: Outcome)
      requires mem.Length == RAM_END / 4
      modifies this, mem
      ensures o == BootVerdict(bursts)
      ensures mem[..] == BootMem(old(mem[..]), bursts)
      ensures tx == old(tx) + BootAnswers(bursts)
    {
      hide Verdict, Loaded, Stored, Answer;
      for i := 0 to |bursts|
        invariant BootVerdict(bursts) == BootVerdict(bursts[i..])
        invariant BootMem(old(mem[..]), bursts) == BootMem(mem[..], bursts[i..])
        invariant old(tx) + BootAnswers(bursts) == tx + BootAnswers(bursts[i..])
      {
        rx := bursts[i];
        ghost var before := tx;
        o := Attempt();
        AnswersNext(before, bursts[i..]);
        if o != TimedOut {
          return;
        }
      }
      o := TimedOut;
    }
  }

  // ---- Restarts ----------------------------------------------------------------------------

  /** The first burst that does not time out decides. */
  function BootVerdict(bursts: seq<seq<Byte>>): Outcome {
    if bursts == [] then TimedOut
    else if Verdict(bursts[0]) != TimedOut then Verdict(bursts[0])
    else BootVerdict(bursts[1..])
  }

  function BootMem(mem: seq<Word>, bursts: seq<seq<Byte>>): (r: seq<Word>)
    requires |mem| == RAM_END / 4
    ensures |r| == |mem|
    decreases |bursts|
  {
    if bursts == [] then mem
    else
      var next := Loaded(mem, bursts[0], Stored(bursts[0]));
      if Verdict(bursts[0]) != TimedOut then next else BootMem(next, bursts[1..])
  }

  /** What the bootloader sends: it announces every attempt, and answers the last. */
  function BootAnswers(bursts: seq<seq<Byte>>): seq<Byte> {
    if bursts == [] then []
    else
      [READY_BYTE] + Answer(Verdict(bursts[0]))
      + if Verdict(bursts[0]) != TimedOut then [] else BootAnswers(bursts[1..])
  }

  lemma AnswersNext(before: seq<Byte>, bursts: seq<seq<Byte>>)
    requires bursts != []
    ensures var now := before + [READY_BYTE] + Answer(Verdict(bursts[0]));
      before + BootAnswers(bursts) == now + if Verdict(bursts[0]) != TimedOut then [] else BootAnswers(bursts[1..])
  {
    hide Verdict, Answer;
  }

  /** n attempts announced. */
  function Announced(n: nat): (s: seq<Byte>)
    ensures |s| == n
  {
    seq(n, _ => 0xAA)
  }

  lemma NothingLoaded(before: seq<Word>, bs: seq<Byte>)
    requires |before| == RAM_END / 4
    ensures Loaded(before, bs, 0) == before
  {
  }

  lemma Payload(bs: seq<Byte>, j: nat)
    requires 8 + 4 * j <= |bs|
    ensures PayloadWord(bs, j) == bs[4 + 4 * j..][..4]
    ensures bs[4..4 + 4 * j] + PayloadWord(bs, j) == bs[4..4 + 4 * (j + 1)]
    ensures bs[4 + 4 * j..][4..] == bs[4 + 4 * (j + 1)..]
  {
  }

  /** The counter modulo 2^32 is zero exactly when the size is 4j. */
  lemma Counter(n: nat, j: nat)
    requires n < TWO32 && j <= PROGRAM_WORDS
    ensures Wrap(n - 4 * j) == 0 <==> n == 4 * j
    ensures Wrap(Wrap(n - 4 * j) - 4) == Wrap(n - 4 * (j + 1))
    ensures j == 0 ==> Wrap(n) == n
    ensures Fits(n) && 4 * j <= n && n != 4 * j ==> 4 * (j + 1) <= n
  {
  }

  /** The counter has reached zero. */
  lemma RunsOut(bs: seq<Byte>, j: nat)
    requires |bs| >= 4 && j <= PROGRAM_WORDS && 4 + 4 * j <= |bs| && SizeOf(bs) == 4 * j
    ensures Stored(bs) == j && Fits(SizeOf(bs))
  {
    hide SizeOf;
  }

  lemma XorNone()
    ensures Xor([]) == 0
  {
  }

  /** Fewer than four bytes are left while the counter is not zero. */
  lemma StopsShort(bs: seq<Byte>, j: nat)
    requires |bs| >= 4 && j <= PROGRAM_WORDS && 4 + 4 * j <= |bs| < 8 + 4 * j
    requires Wrap(SizeOf(bs) - 4 * j) != 0 && (Fits(SizeOf(bs)) ==> 4 * j <= SizeOf(bs))
    ensures Stored(bs) == j && Verdict(bs) == TimedOut
    ensures !(Fits(SizeOf(bs)) && |bs| >= 4 + SizeOf(bs))
  {
    hide Xor, SizeOf;
  }

  /** The program area is full and another word has come. */
  lemma RunsOver(bs: seq<Byte>)
    requires |bs| >= 8 + 4 * PROGRAM_WORDS
    requires Wrap(SizeOf(bs) - 4 * PROGRAM_WORDS) != 0 && (Fits(SizeOf(bs)) ==> 4 * PROGRAM_WORDS <= SizeOf(bs))
    ensures Stored(bs) == PROGRAM_WORDS && Verdict(bs) == Overrun && !Fits(SizeOf(bs))
  {
    hide Xor, SizeOf;
  }

  /** A value kept in a 32-bit register. */
  function Wrap(x: int): nat { x % TWO32 }

  // ---- The host ----------------------------------------------------------------------------

  /** Zero bytes up to a multiple of four. */
  function PadToWord(data: seq<Byte>): (p: seq<Byte>)
    ensures |p| % 4 == 0 && |data| <= |p| < |data| + 4 && p[..|data|] == data
    ensures forall i :: |data| <= i < |p| ==> p[i] == 0
  {
    var remainder := |data| % 4;
    if remainder == 0 then data else data + [0, 0, 0][..4 - remainder]
  }

  /** What the host puts on the line: size, padded file, checksum. */
  function Frame(p: seq<Byte>, chk: Byte): seq<Byte>
    requires |p| < TWO32
  {
    Pack(|p|) + p + [chk]
  }

  method Checksum(data: seq<Byte>) returns (result: Byte)
    ensures result == Xor(data)
  {
    result := 0;
    XorNone();
    for i := 0 to |data|
      invariant result == Xor(data[..i])
    {
      assert data[..i + 1] == data[..i] + [data[i]];
      XorMore(data[..i], data[i]);
      result := XorByte(result, data[i]);
    }
    assert data[..|data|] == data;
  }

  /** main's sending order, the file in chunks of 256. */
  method Upload(file: seq<Byte>) returns (wire: seq<Byte>)
    requires |PadToWord(file)| < TWO32
    ensures wire == Frame(PadToWord(file), Xor(PadToWord(file)))
  {
    var data := PadToWord(file);
    var size := |data|;
    var chk := Checksum(data);
    wire := Pack(size);
    var sent := 0;
    while sent < size
      invariant sent <= size && wire == Pack(size) + data[..sent]
    {
      var chunk := data[sent..if sent + CHUNK < size then sent + CHUNK else size];
      assert data[..sent] + chunk == data[..sent + |chunk|];
      wire := wire + chunk;
      sent := sent + |chunk|;
    }
    assert data[..size] == data;
    wire := wire + [chk];
  }

  // ---- Both together -----------------------------------------------------------------------

  /** Byte a of the RAM. */
  function MemByte(mem: seq<Word>, a: nat): Byte
    requires a < 4 * |mem|
  {
    mem[a / 4][a % 4]
  }

  predicate IsProgram(p: seq<Byte>) { |p| % 4 == 0 && |p| <= 0x3000 }

  lemma FrameParts(p: seq<Byte>, chk: Byte)
    requires IsProgram(p)
    ensures var bs := Frame(p, chk);
      && |bs| == 5 + |p| && SizeOf(bs) == |p| && bs[4..4 + |p|] == p && bs[4 + |p|] == chk
  {
    var bs := Frame(p, chk);
    assert bs[..4] == Pack(|p|);
    UnpackPack(|p|);
  }

  /** A framed program is accepted exactly if the checksum sent is the XOR of its
      bytes, and refused otherwise. Either way its bytes lie from 0x1000 on and no
      other word has changed. */
  lemma FrameLoads(p: seq<Byte>, chk: Byte, before: seq<Word>)
    requires IsProgram(p) && |before| == RAM_END / 4
    ensures var bs := Frame(p, chk);
      var after := Loaded(before, bs, Stored(bs));
      && Verdict(bs) == (if chk == Xor(p) then Jumped else Refused)
      && (forall i :: 0 <= i < |p| ==> MemByte(after, LOAD_ADDRESS + i) == p[i])
      && (forall w :: 0 <= w < |after| && !(LOAD_ADDRESS <= 4 * w < LOAD_ADDRESS + |p|) ==> after[w] == before[w])
  {
    hide Xor, Frame, SizeOf, Loaded, PayloadWord, MemByte, Verdict;
    var bs := Frame(p, chk);
    FrameParts(p, chk);
    FrameVerdict(bs, p);
    assert Stored(bs) == |p| / 4;
    forall i | 0 <= i < |p| ensures MemByte(Loaded(before, bs, |p| / 4), LOAD_ADDRESS + i) == p[i] {
      ByteLoaded(before, bs, p, i);
    }
  }

  lemma FrameVerdict(bs: seq<Byte>, p: seq<Byte>)
    requires IsProgram(p) && |bs| == 5 + |p| && SizeOf(bs) == |p| && bs[4..4 + |p|] == p
    ensures Verdict(bs) == if bs[4 + |p|] == Xor(p) then Jumped else Refused
  {
    hide Xor, SizeOf;
  }

  lemma ByteLoaded(before: seq<Word>, bs: seq<Byte>, p: seq<Byte>, i: nat)
    requires |before| == RAM_END / 4 && IsProgram(p) && |bs| == 5 + |p| && bs[4..4 + |p|] == p && i < |p|
    ensures MemByte(Loaded(before, bs, |p| / 4), LOAD_ADDRESS + i) == p[i]
  {
    hide Loaded, PayloadWord;
    var q, r := i / 4, i % 4;
    assert i == 4 * q + r;
    ByteAddress(q, r);
    PayloadByte(bs, p, q, r);
    assert Loaded(before, bs, |p| / 4)[LOAD_ADDRESS / 4 + q] == PayloadWord(bs, q);
  }

  lemma ByteAddress(q: nat, r: nat)
    requires r < 4
    ensures (LOAD_ADDRESS + (4 * q + r)) / 4 == LOAD_ADDRESS / 4 + q
    ensures (LOAD_ADDRESS + (4 * q + r)) % 4 == r
  {
  }

  lemma PayloadByte(bs: seq<Byte>, p: seq<Byte>, q: nat, r: nat)
    requires r < 4 && 8 + 4 * q <= |bs| && 4 * q + r < |p| <= |bs| - 4 && bs[4..4 + |p|] == p
    ensures PayloadWord(bs, q)[r] == p[4 * q + r]
  {
  }

  ghost predicate AllTimeOut(bursts: seq<seq<Byte>>) {
    forall k :: 0 <= k < |bursts| ==> Verdict(bursts[k]).TimedOut?
  }

  /** Attempts that time out only leave traces in the program area, and the next
      burst starts a fresh handshake. */
  lemma {:induction false} AfterRestarts(mem: seq<Word>, noise: seq<seq<Byte>>, last: seq<Byte>)
    requires |mem| == RAM_END / 4 && AllTimeOut(noise)
    ensures BootVerdict(noise + [last]) == Verdict(last)
    ensures BootMem(mem, noise + [last]) == Loaded(BootMem(mem, noise), last, Stored(last))
    ensures BootAnswers(noise + [last]) == Announced(|noise| + 1) + Answer(Verdict(last))
    ensures forall w :: 0 <= w < LOAD_ADDRESS / 4 ==> BootMem(mem, noise)[w] == mem[w]
    decreases |noise|
  {
    hide Verdict, Stored, Answer, Loaded, BootVerdict, BootMem, BootAnswers, Announced;
    var all := noise + [last];
    if noise == [] {
      assert all == [last];
      LastBurst(mem, last);
    } else {
      assert all[1..] == noise[1..] + [last] && all[0] == noise[0];
      TimedOutBurst(mem, all);
      TimedOutBurst(mem, noise);
      AfterRestarts(Loaded(mem, noise[0], Stored(noise[0])), noise[1..], last);
      AnnouncedMore(|noise|);
    }
  }

  lemma LastBurst(mem: seq<Word>, last: seq<Byte>)
    requires |mem| == RAM_END / 4
    ensures BootVerdict([last]) == Verdict(last) && BootMem(mem, []) == mem
    ensures BootMem(mem, [last]) == Loaded(mem, last, Stored(last))
    ensures BootAnswers([last]) == Announced(1) + Answer(Verdict(last))
  {
    hide Verdict, Stored, Loaded;
    assert [last][1..] == [];
    assert Announced(1) == [READY_BYTE];
  }

  lemma TimedOutBurst(mem: seq<Word>, bursts: seq<seq<Byte>>)
    requires |mem| == RAM_END / 4 && bursts != [] && Verdict(bursts[0]) == TimedOut
    ensures BootVerdict(bursts) == BootVerdict(bursts[1..])
    ensures BootMem(mem, bursts) == BootMem(Loaded(mem, bursts[0], Stored(bursts[0])), bursts[1..])
    ensures BootAnswers(bursts) == [READY_BYTE] + BootAnswers(bursts[1..])
  {
    hide Verdict, Stored, Loaded;
  }

  lemma AnnouncedMore(n: nat)
    ensures Announced(n + 1) == [READY_BYTE] + Announced(n)
  {
  }

  /** Main result: whatever failed handshakes come first, any file whose padded size
      fits the program area, sent by the host loader, boots: the bootloader announces
      every attempt, answers OK to this one and nothing to the others, and jumps with
      the padded file at 0x1000 and its own code untouched. */
  method UploadBoots(boot: Bootloader, noise: seq<seq<Byte>>, file: seq<Byte>) returns (o: Outcome)
    requires boot.mem.Length == RAM_END / 4 && IsProgram(PadToWord(file)) && AllTimeOut(noise)
    modifies boot, boot.mem
    ensures o == Jumped
    ensures boot.tx == old(boot.tx) + Announced(|noise| + 1) + [0xBB]
    ensures forall i :: 0 <= i < |PadToWord(file)| ==> MemByte(boot.mem[..], 0x1000 + i) == PadToWord(file)[i]
    ensures forall w :: 0 <= w < 0x400 ==> boot.mem[w] == old(boot.mem[w])
  {
    hide PadToWord, Verdict, Loaded, Stored, Xor, Frame, BootMem, BootVerdict, BootAnswers, Announced, AllTimeOut;
    ghost var before := boot.mem[..];
    var wire := Upload(file);
    AfterRestarts(before, noise, wire);
    FrameLoads(PadToWord(file), Xor(PadToWord(file)), BootMem(before, noise));
    o := boot.Boot(noise + [wire]);
  }

  /** One payload byte altered on the way: the upload is refused, with the error byte and
      no OK, and nothing is run. */
  lemma AlteredUpload(mem: seq<Word>, noise: seq<seq<Byte>>, p: seq<Byte>, i: nat, b: Byte)
    requires |mem| == RAM_END / 4 && AllTimeOut(noise) && IsProgram(p) && i < |p| && b != p[i]
    ensures var wire := Frame(p, Xor(p))[4 + i := b];
      && BootVerdict(noise + [wire]) == Refused
      && BootAnswers(noise + [wire]) == Announced(|noise| + 1) + [0xEE]
  {
    hide Xor, Verdict, Loaded, Stored, BootMem, BootVerdict, BootAnswers, Announced, AllTimeOut, Pack;
    var q := p[i := b];
    assert Frame(p, Xor(p))[4 + i := b] == Frame(q, Xor(p));
    OneByteAltered(p, i, b);
    AfterRestarts(mem, noise, Frame(q, Xor(p)));
    FrameLoads(q, Xor(p), BootMem(mem, noise));
  }
}
