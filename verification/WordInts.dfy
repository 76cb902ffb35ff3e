/** Words as integers: the adder and the comparators of the datapath, four bits at a time. */
module WordInts {
  import opened Isa
  import opened Rv32
  import opened Conformance

  // ---- Digits ---------------------------------------------------------------------------------------

  function Int4(w: bv4): int { w as int }
  function Int5(w: bv5): int { w as int }
  function Int8(w: bv8): int { w as int }
  function Int16(w: bv16): int { w as int }
  function Int32(w: Word): int { w as int }
  function Carry(c: bv1): int { c as int }

  function Join5(c: bv1, l: bv4): bv5 { ((c as bv5) << 4) | (l as bv5) }
  function Join8(h: bv4, l: bv4): bv8 { ((h as bv8) << 4) | (l as bv8) }
  function Join16(h: bv8, l: bv8): bv16 { ((h as bv16) << 8) | (l as bv16) }
  function Join32(h: bv16, l: bv16): Word { ((h as Word) << 16) | (l as Word) }

  lemma Join5Int(c: bv1, l: bv4)
    ensures Int5(Join5(c, l)) == 0x10 * Carry(c) + Int4(l)
  {
  }

  lemma Join8Int(h: bv4, l: bv4)
    ensures Int8(Join8(h, l)) == 0x10 * Int4(h) + Int4(l)
  {
  }

  lemma Join16Int(h: bv8, l: bv8)
    ensures Int16(Join16(h, l)) == 0x100 * Int8(h) + Int8(l)
  {
  }

  lemma Join32Int(h: bv16, l: bv16)
    ensures Int32(Join32(h, l)) == 0x1_0000 * Int16(h) + Int16(l)
  {
  }

  /** The hexadecimal digit that starts at bit sh. */
  function Digit(w: Word, sh: bv6): bv4
    requires sh <= 28
  {
    ((w >> sh) & 0xF) as bv4
  }

  lemma Joined(w: Word)
    ensures w == Join32(Join16(Join8(Digit(w, 28), Digit(w, 24)), Join8(Digit(w, 20), Digit(w, 16))),
                        Join16(Join8(Digit(w, 12), Digit(w, 8)), Join8(Digit(w, 4), Digit(w, 0))))
  {
  }

  lemma Digits(w: Word)
    ensures Int32(w) ==
      0x1000_0000 * Int4(Digit(w, 28)) + 0x100_0000 * Int4(Digit(w, 24)) + 0x10_0000 * Int4(Digit(w, 20))
      + 0x1_0000 * Int4(Digit(w, 16)) + 0x1000 * Int4(Digit(w, 12)) + 0x100 * Int4(Digit(w, 8))
      + 0x10 * Int4(Digit(w, 4)) + Int4(Digit(w, 0))
  {
    hide Int4, Int8, Int16, Int32, Digit, Join8, Join16, Join32;
    Joined(w);
    var b3, b2 := Join8(Digit(w, 28), Digit(w, 24)), Join8(Digit(w, 20), Digit(w, 16));
    var b1, b0 := Join8(Digit(w, 12), Digit(w, 8)), Join8(Digit(w, 4), Digit(w, 0));
    Join32Int(Join16(b3, b2), Join16(b1, b0));
    Join16Int(b3, b2);
    Join16Int(b1, b0);
    Join8Int(Digit(w, 28), Digit(w, 24));
    Join8Int(Digit(w, 20), Digit(w, 16));
    Join8Int(Digit(w, 12), Digit(w, 8));
    Join8Int(Digit(w, 4), Digit(w, 0));
  }

  // ---- The adder -------------------------------------------------------------------------------------

  /** The carry out of every bit, where s is the sum of a and b. */
  function Carries(a: Word, b: Word, s: Word): Word { (a & b) | ((a | b) & !s) }

  /** The carry into bit sh. */
  function CarryIn(a: Word, b: Word, s: Word, sh: bv6): bv1
    requires sh <= 32
  {
    if sh == 0 then 0 else ((Carries(a, b, s) >> (sh - 1)) & 1) as bv1
  }

  function Add4(a: bv4, b: bv4, c: bv1): bv5 { (a as bv5) + (b as bv5) + (c as bv5) }

  lemma Add4Is(a: bv4, b: bv4, c: bv1)
    ensures Int5(Add4(a, b, c)) == Int4(a) + Int4(b) + Carry(c)
  {
  }

  /** One digit of the sum and the carry out of it. */
  predicate DigitAdds(a: Word, b: Word, s: Word, sh: bv6)
    requires sh <= 28
  {
    Add4(Digit(a, sh), Digit(b, sh), CarryIn(a, b, s, sh)) == Join5(CarryIn(a, b, s, sh + 4), Digit(s, sh))
  }

  lemma Digit0Adds(a: Word, b: Word)
    ensures DigitAdds(a, b, a + b, 0)
  {
  }

  lemma Digit4Adds(a: Word, b: Word)
    ensures DigitAdds(a, b, a + b, 4)
  {
  }

  lemma Digit8Adds(a: Word, b: Word)
    ensures DigitAdds(a, b, a + b, 8)
  {
  }

  lemma Digit12Adds(a: Word, b: Word)
    ensures DigitAdds(a, b, a + b, 12)
  {
  }

  lemma Digit16Adds(a: Word, b: Word)
    ensures DigitAdds(a, b, a + b, 16)
  {
  }

  lemma Digit20Adds(a: Word, b: Word)
    ensures DigitAdds(a, b, a + b, 20)
  {
  }

  lemma Digit24Adds(a: Word, b: Word)
    ensures DigitAdds(a, b, a + b, 24)
  {
  }

  lemma Digit28Adds(a: Word, b: Word)
    ensures DigitAdds(a, b, a + b, 28)
  {
  }

  lemma DigitIs(a: Word, b: Word, s: Word, sh: bv6)
    requires sh <= 28 && DigitAdds(a, b, s, sh)
    ensures 0x10 * Carry(CarryIn(a, b, s, sh + 4)) + Int4(Digit(s, sh))
      == Int4(Digit(a, sh)) + Int4(Digit(b, sh)) + Carry(CarryIn(a, b, s, sh))
  {
    hide Digit, CarryIn, Int4, Int5, Carry, Add4, Join5;
    Add4Is(Digit(a, sh), Digit(b, sh), CarryIn(a, b, s, sh));
    Join5Int(CarryIn(a, b, s, sh + 4), Digit(s, sh));
  }

  predicate DigitsAdd(a: Word, b: Word, s: Word) {
    && DigitAdds(a, b, s, 0) && DigitAdds(a, b, s, 4) && DigitAdds(a, b, s, 8) && DigitAdds(a, b, s, 12)
    && DigitAdds(a, b, s, 16) && DigitAdds(a, b, s, 20) && DigitAdds(a, b, s, 24) && DigitAdds(a, b, s, 28)
  }

  lemma SumDigits(a: Word, b: Word)
    ensures DigitsAdd(a, b, Sum(a, b))
  {
    hide DigitAdds;
    Digit0Adds(a, b);
    Digit4Adds(a, b);
    Digit8Adds(a, b);
    Digit12Adds(a, b);
    Digit16Adds(a, b);
    Digit20Adds(a, b);
    Digit24Adds(a, b);
    Digit28Adds(a, b);
  }

  lemma NoCarry(a: Word, b: Word, s: Word)
    ensures Carry(CarryIn(a, b, s, 0)) == 0
  {
  }

  lemma SumCarries(a: Word, b: Word)
    ensures Int32(Sum(a, b)) == Int32(a) + Int32(b) - TWO32 * Carry(CarryIn(a, b, Sum(a, b), 32))
  {
    var s := Sum(a, b);
    hide Digit, CarryIn, Carry, Int4, Int32, DigitAdds, Sum;
    NoCarry(a, b, s);
    SumDigits(a, b);
    DigitIs(a, b, s, 0);
    DigitIs(a, b, s, 4);
    DigitIs(a, b, s, 8);
    DigitIs(a, b, s, 12);
    DigitIs(a, b, s, 16);
    DigitIs(a, b, s, 20);
    DigitIs(a, b, s, 24);
    DigitIs(a, b, s, 28);
    Digits(a);
    Digits(b);
    Digits(s);
  }

  lemma IntBounds(w: Word)
    ensures 0 <= Int32(w) < TWO32
  {
  }

  lemma CarryBounds(c: bv1)
    ensures Carry(c) == 0 || Carry(c) == 1
  {
  }

  /** The adder adds modulo 2^32. */
  lemma SumIsModular(a: Word, b: Word)
    ensures Int32(Sum(a, b)) == (Int32(a) + Int32(b)) % TWO32
  {
    hide Int32, Sum, CarryIn, Carry;
    SumCarries(a, b);
    IntBounds(Sum(a, b));
    CarryBounds(CarryIn(a, b, Sum(a, b), 32));
  }

  lemma TakenBack(a: Word, b: Word)
    ensures Sum(a - b, b) == a
  {
  }

  lemma AddedBack(d: Word, a: Word, b: Word)
    requires Sum(d, b) == a
    ensures Int32(d) == (Int32(a) - Int32(b)) % TWO32
  {
    hide Int32, Sum, CarryIn, Carry;
    SumCarries(d, b);
    IntBounds(d);
    CarryBounds(CarryIn(d, b, a, 32));
  }

  /** Subtraction is modulo 2^32 too. */
  lemma DifferenceIsModular(a: Word, b: Word)
    ensures Int32(a - b) == (Int32(a) - Int32(b)) % TWO32
  {
    hide Int32, Sum;
    TakenBack(a, b);
    AddedBack(a - b, a, b);
  }

  // ---- The comparators -----------------------------------------------------------------------------------

  predicate Below4(a: bv4, b: bv4) { a < b }

  lemma Below4Is(a: bv4, b: bv4)
    ensures Below4(a, b) <==> Int4(a) < Int4(b)
    ensures a == b <==> Int4(a) == Int4(b)
  {
  }

  predicate Below8(a: bv8, b: bv8) { a < b }
  function Hi8(w: bv8): bv4 { (w >> 4) as bv4 }
  function Lo8(w: bv8): bv4 { (w & 0xF) as bv4 }

  lemma Halves8(w: bv8)
    ensures w == Join8(Hi8(w), Lo8(w))
    ensures Int8(w) == 0x10 * Int4(Hi8(w)) + Int4(Lo8(w))
  {
    assert w == Join8(Hi8(w), Lo8(w));
    hide Int8, Int4, Hi8, Lo8, Join8;
    Join8Int(Hi8(w), Lo8(w));
  }

  lemma SameTop8(h: bv4, l: bv4, l': bv4)
    ensures Below8(((h as bv8) << 4) | (l as bv8), ((h as bv8) << 4) | (l' as bv8)) <==> Below4(l, l')
  {
  }

  lemma LessTop8(h: bv4, l: bv4, h': bv4, l': bv4)
    requires Below4(h, h')
    ensures Below8(((h as bv8) << 4) | (l as bv8), ((h' as bv8) << 4) | (l' as bv8))
    ensures !Below8(((h' as bv8) << 4) | (l' as bv8), ((h as bv8) << 4) | (l as bv8))
  {
  }

  lemma SameJoin8(h: bv4, l: bv4, l': bv4)
    ensures Below8(Join8(h, l), Join8(h, l')) <==> Below4(l, l')
  {
    hide Below8, Below4;
    SameTop8(h, l, l');
  }

  lemma LessJoin8(h: bv4, l: bv4, h': bv4, l': bv4)
    requires Below4(h, h')
    ensures Below8(Join8(h, l), Join8(h', l')) && !Below8(Join8(h', l'), Join8(h, l))
  {
    hide Below8, Below4;
    LessTop8(h, l, h', l');
  }

  lemma Bounds4(w: bv4)
    ensures 0 <= Int4(w) < 0x10
  {
  }

  lemma Below8Is(a: bv8, b: bv8)
    ensures Below8(a, b) <==> Int8(a) < Int8(b)
    ensures a == b <==> Int8(a) == Int8(b)
  {
    hide Int8, Int4, Hi8, Lo8, Join8, Below8, Below4;
    var h, l, h', l' := Hi8(a), Lo8(a), Hi8(b), Lo8(b);
    Halves8(a);
    Halves8(b);
    Bounds4(l);
    Bounds4(l');
    Below4Is(h, h');
    Below4Is(h', h);
    Below4Is(l, l');
    if h == h' {
      SameJoin8(h, l, l');
    } else if Below4(h, h') {
      LessJoin8(h, l, h', l');
    } else {
      LessJoin8(h', l', h, l);
    }
  }

  predicate Below16(a: bv16, b: bv16) { a < b }
  function Hi16(w: bv16): bv8 { (w >> 8) as bv8 }
  function Lo16(w: bv16): bv8 { (w & 0xFF) as bv8 }

  lemma Halves16(w: bv16)
    ensures w == Join16(Hi16(w), Lo16(w))
    ensures Int16(w) == 0x100 * Int8(Hi16(w)) + Int8(Lo16(w))
  {
    assert w == Join16(Hi16(w), Lo16(w));
    hide Int16, Int8, Hi16, Lo16, Join16;
    Join16Int(Hi16(w), Lo16(w));
  }

  lemma SameTop16(h: bv8, l: bv8, l': bv8)
    ensures Below16(((h as bv16) << 8) | (l as bv16), ((h as bv16) << 8) | (l' as bv16)) <==> Below8(l, l')
  {
  }

  lemma LessTop16(h: bv8, l: bv8, h': bv8, l': bv8)
    requires Below8(h, h')
    ensures Below16(((h as bv16) << 8) | (l as bv16), ((h' as bv16) << 8) | (l' as bv16))
    ensures !Below16(((h' as bv16) << 8) | (l' as bv16), ((h as bv16) << 8) | (l as bv16))
  {
  }

  lemma SameJoin16(h: bv8, l: bv8, l': bv8)
    ensures Below16(Join16(h, l), Join16(h, l')) <==> Below8(l, l')
  {
    hide Below16, Below8;
    SameTop16(h, l, l');
  }

  lemma LessJoin16(h: bv8, l: bv8, h': bv8, l': bv8)
    requires Below8(h, h')
    ensures Below16(Join16(h, l), Join16(h', l')) && !Below16(Join16(h', l'), Join16(h, l))
  {
    hide Below16, Below8;
    LessTop16(h, l, h', l');
  }

  lemma Bounds8(w: bv8)
    ensures 0 <= Int8(w) < 0x100
  {
  }

  lemma Below16Is(a: bv16, b: bv16)
    ensures Below16(a, b) <==> Int16(a) < Int16(b)
    ensures a == b <==> Int16(a) == Int16(b)
  {
    hide Int16, Int8, Hi16, Lo16, Join16, Below16, Below8;
    var h, l, h', l' := Hi16(a), Lo16(a), Hi16(b), Lo16(b);
    Halves16(a);
    Halves16(b);
    Bounds8(l);
    Bounds8(l');
    Below8Is(h, h');
    Below8Is(h', h);
    Below8Is(l, l');
    if h == h' {
      SameJoin16(h, l, l');
    } else if Below8(h, h') {
      LessJoin16(h, l, h', l');
    } else {
      LessJoin16(h', l', h, l);
    }
  }

  predicate Below32(a: Word, b: Word) { a < b }
  function Hi32(w: Word): bv16 { (w >> 16) as bv16 }
  function Lo32(w: Word): bv16 { (w & 0xFFFF) as bv16 }

  lemma Halves32(w: Word)
    ensures w == Join32(Hi32(w), Lo32(w))
    ensures Int32(w) == 0x1_0000 * Int16(Hi32(w)) + Int16(Lo32(w))
  {
    assert w == Join32(Hi32(w), Lo32(w));
    hide Int32, Int16, Hi32, Lo32, Join32;
    Join32Int(Hi32(w), Lo32(w));
  }

  lemma SameTop32(h: bv16, l: bv16, l': bv16)
    ensures Below32(((h as Word) << 16) | (l as Word), ((h as Word) << 16) | (l' as Word)) <==> Below16(l, l')
  {
  }

  lemma LessTop32(h: bv16, l: bv16, h': bv16, l': bv16)
    requires Below16(h, h')
    ensures Below32(((h as Word) << 16) | (l as Word), ((h' as Word) << 16) | (l' as Word))
    ensures !Below32(((h' as Word) << 16) | (l' as Word), ((h as Word) << 16) | (l as Word))
  {
  }

  lemma SameJoin32(h: bv16, l: bv16, l': bv16)
    ensures Below32(Join32(h, l), Join32(h, l')) <==> Below16(l, l')
  {
    hide Below32, Below16;
    SameTop32(h, l, l');
  }

  lemma LessJoin32(h: bv16, l: bv16, h': bv16, l': bv16)
    requires Below16(h, h')
    ensures Below32(Join32(h, l), Join32(h', l')) && !Below32(Join32(h', l'), Join32(h, l))
  {
    hide Below32, Below16;
    LessTop32(h, l, h', l');
  }

  lemma Bounds16(w: bv16)
    ensures 0 <= Int16(w) < 0x1_0000
  {
  }

  lemma Below32Is(a: Word, b: Word)
    ensures Below32(a, b) <==> Int32(a) < Int32(b)
    ensures a == b <==> Int32(a) == Int32(b)
  {
    hide Int32, Int16, Hi32, Lo32, Join32, Below32, Below16;
    var h, l, h', l' := Hi32(a), Lo32(a), Hi32(b), Lo32(b);
    Halves32(a);
    Halves32(b);
    Bounds16(l);
    Bounds16(l');
    Below16Is(h, h');
    Below16Is(h', h);
    Below16Is(l, l');
    if h == h' {
      SameJoin32(h, l, l');
    } else if Below16(h, h') {
      LessJoin32(h, l, h', l');
    } else {
      LessJoin32(h', l', h, l);
    }
  }

  // ---- The operations on integers ------------------------------------------------------------------------

  /** The word of an integer's low 32 bits. */
  function WordOf(n: int): Word { (n % TWO32) as Word }

  function Plus(a: Word, b: Word): Word { WordOf(Int32(a) + Int32(b)) }

  function Minus(a: Word, b: Word): Word { WordOf(Int32(a) - Int32(b)) }

  lemma WordOfIs(w: Word, n: int)
    requires Int32(w) == n % TWO32
    ensures w == WordOf(n)
  {
    assert w == (w as int) as Word;
  }

  lemma SumIsPlus(a: Word, b: Word)
    ensures Sum(a, b) == Plus(a, b)
  {
    hide Sum, Int32, WordOf;
    SumIsModular(a, b);
    WordOfIs(Sum(a, b), Int32(a) + Int32(b));
  }

  lemma DifferenceIsMinus(a: Word, b: Word)
    ensures a - b == Minus(a, b)
  {
    hide Int32, WordOf;
    DifferenceIsModular(a, b);
    WordOfIs(a - b, Int32(a) - Int32(b));
  }

  lemma UnsignedOrder(a: Word, b: Word)
    ensures a < b <==> Value(a, false) < Value(b, false)
  {
    Below32Is(a, b);
  }

  lemma SignedOrder(a: Word, b: Word)
    ensures SignedLess(a, b) <==> Value(a, true) < Value(b, true)
  {
    hide Neg, SignedLess;
    ComparisonsAreSigned(a, b);
    UnsignedOrder(a, b);
  }

  // ---- Numbers below 256 as bytes ------------------------------------------------------------------

  function ByteOfInt(n: nat): bv8
    requires n < 256
  {
    n as bv8
  }

  lemma Nibble(x: nat) returns (d: bv4)
    requires x < 16
    ensures Int4(d) == x
  {
    d := x as bv4;
  }

  lemma BackToByte(b: bv8, n: nat)
    requires n < 256 && Int8(b) == n
    ensures b == ByteOfInt(n)
  {
    assert b == (b as int) as bv8;
  }

  lemma Nibbles(n: nat) returns (h: bv4, l: bv4)
    requires n < 256
    ensures ByteOfInt(n) == Join8(h, l) && n == 16 * Int4(h) + Int4(l) == Int8(Join8(h, l))
  {
    hide Int4, Int8, Join8, ByteOfInt;
    h := Nibble(n / 16);
    l := Nibble(n % 16);
    Join8Int(h, l);
    BackToByte(Join8(h, l), n);
  }
}
