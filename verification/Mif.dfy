/** Memory initialisation files: bin2mif's printer, the debugger's parser, and the
    image loader built on it. Text is a string of characters; radix names, marker
    words and numerals are matched as the parser matches them. */
module Mif {
  import opened Options
  import opened Uart
  import opened DebugUart
  import opened DebugHost

  // ---- Numerals -----------------------------------------------------------------------------

  datatype Radix = Binary | Octal | Decimal | Hexadecimal

  /** How a file writes numbers: the radix, and the case of its name and of its letters. */
  datatype Style = Style(radix: Radix, lower: bool)

  /** bin2mif's style. */
  const PRINTED: Style := Style(Hexadecimal, false)
  const SIZES: Style := Style(Decimal, false)

  function Base(st: Style): (b: nat)
    ensures 2 <= b <= 16
  {
    match st.radix
    case Binary => 2
    case Octal => 8
    case Decimal => 10
    case Hexadecimal => 16
  }

  /** The radix as the file names it. */
  function Name(st: Style): string {
    match st.radix
    case Binary => if st.lower then "bin" else "BIN"
    case Octal => if st.lower then "oct" else "OCT"
    case Decimal => if st.lower then "dec" else "DEC"
    case Hexadecimal => if st.lower then "hex" else "HEX"
  }

  function DigitChar(d: nat, lower: bool): char
    requires d < 16
  {
    if d < 10 then '0' + d as char else (if lower then 'a' else 'A') + (d - 10) as char
  }

  function DigitValue(c: char): nat {
    if '0' <= c <= '9' then (c - '0') as nat
    else if 'A' <= c <= 'F' then (c - 'A') as nat + 10
    else if 'a' <= c <= 'f' then (c - 'a') as nat + 10
    else 16
  }

  function Digits(n: nat, st: Style): (s: string)
    ensures |s| >= 1
    decreases n
  {
    if n < Base(st) then [DigitChar(n, st.lower)]
    else Digits(n / Base(st), st) + [DigitChar(n % Base(st), st.lower)]
  }

  function Zeros(n: nat): (s: string)
    ensures |s| == n && forall i :: 0 <= i < n ==> s[i] == '0'
  {
    if n == 0 then [] else ['0'] + Zeros(n - 1)
  }

  /** At least width digits. */
  function Numeral(n: nat, st: Style, width: nat): (s: string)
    ensures |s| >= 1
  {
    var d := Digits(n, st);
    if |d| < width then Zeros(width - |d|) + d else d
  }

  /** int(s, base) on digit strings; None is the ValueError. */
  function ParseInt(s: string, base: nat): Option<nat> {
    if s == [] then None
    else if DigitValue(s[|s| - 1]) >= base then None
    else if |s| == 1 then Some(DigitValue(s[0]))
    else
      var high := ParseInt(s[..|s| - 1], base);
      if high.None? then None else Some(base * high.value + DigitValue(s[|s| - 1]))
  }

  lemma DigitRoundTrip(d: nat, lower: bool)
    requires d < 16
    ensures DigitValue(DigitChar(d, lower)) == d
  {
  }

  lemma ParseMore(s: string, st: Style, d: nat)
    requires d < Base(st) && s != [] && ParseInt(s, Base(st)).Some?
    ensures ParseInt(s + [DigitChar(d, st.lower)], Base(st)) == Some(Base(st) * ParseInt(s, Base(st)).value + d)
  {
    DigitRoundTrip(d, st.lower);
    assert (s + [DigitChar(d, st.lower)])[..|s|] == s;
  }

  lemma ParseOne(st: Style, d: nat)
    requires d < Base(st)
    ensures ParseInt([DigitChar(d, st.lower)], Base(st)) == Some(d)
  {
    DigitRoundTrip(d, st.lower);
  }

  lemma {:induction false} ParseDigits(z: nat, st: Style, n: nat)
    ensures ParseInt(Zeros(z) + Digits(n, st), Base(st)) == Some(n)
    decreases n
  {
    hide ParseInt, Zeros, DigitChar, Base;
    var b := Base(st);
    if n >= b {
      ParseDigits(z, st, n / b);
      ParseMore(Zeros(z) + Digits(n / b, st), st, n % b);
      assert Zeros(z) + Digits(n, st) == Zeros(z) + Digits(n / b, st) + [DigitChar(n % b, st.lower)];
    } else if z == 0 {
      ParseOne(st, n);
      assert Zeros(0) + Digits(n, st) == [DigitChar(n, st.lower)];
    } else {
      ParseZeros(z, st);
      ParseMore(Zeros(z), st, n);
    }
  }

  lemma {:induction false} ParseZeros(z: nat, st: Style)
    ensures z > 0 ==> ParseInt(Zeros(z), Base(st)) == Some(0)
  {
    hide Base;
    if z > 1 {
      ParseZeros(z - 1, st);
      assert Zeros(z)[..z - 1] == Zeros(z - 1);
    }
  }

  /** Printing then parsing a number gives it back, in every radix and either case. */
  lemma NumeralRoundTrip(n: nat, st: Style, width: nat)
    ensures ParseInt(Numeral(n, st, width), Base(st)) == Some(n)
  {
    hide ParseInt, Base;
    var d := Digits(n, st);
    ParseDigits(if |d| < width then width - |d| else 0, st, n);
    assert Zeros(0) + d == d;
  }

  predicate IsDigit(c: char, lower: bool) { '0' <= c <= '9' || if lower then 'a' <= c <= 'f' else 'A' <= c <= 'F' }

  lemma DigitIs(d: nat, lower: bool)
    requires d < 16
    ensures IsDigit(DigitChar(d, lower), lower)
  {
  }

  lemma {:induction false} DigitsAreDigits(n: nat, st: Style)
    ensures forall i :: 0 <= i < |Digits(n, st)| ==> IsDigit(Digits(n, st)[i], st.lower)
    decreases n
  {
    hide Base, DigitChar, IsDigit;
    var b := Base(st);
    if n >= b {
      DigitsAreDigits(n / b, st);
      DigitIs(n % b, st.lower);
    } else {
      DigitIs(n, st.lower);
    }
  }

  lemma {:induction false} DigitsAreDecimal(n: nat)
    ensures forall i :: 0 <= i < |Digits(n, SIZES)| ==> '0' <= Digits(n, SIZES)[i] <= '9'
    decreases n
  {
    if n >= 10 { DigitsAreDecimal(n / 10); }
  }

  lemma NumeralDigits(n: nat, st: Style, width: nat)
    ensures forall i :: 0 <= i < |Numeral(n, st, width)| ==> IsDigit(Numeral(n, st, width)[i], st.lower)
  {
    hide Digits;
    DigitsAreDigits(n, st);
  }

  // ---- The printer ----------------------------------------------------------------------------

  const ADDRESS_RADIX: string := "ADDRESS_RADIX"
  const DATA_RADIX: string := "DATA_RADIX"
  const CONTENT: string := "CONTENT BEGIN"
  const END: string := "END;"

  function Sizes(depth: nat, width: nat): string {
    "DEPTH = " + Digits(depth, SIZES) + ";\nWIDTH = " + Digits(width, SIZES) + ";\n"
  }

  /** The rest of a radix line. */
  function Is(st: Style): (s: string)
    ensures |s| == 8
  {
    " = " + Name(st) + ";\n"
  }

  /** One content line without its newline. */
  function Entry(i: nat, w: nat, a: Style, d: Style): (s: string)
    ensures |s| >= 1
  {
    "    " + Numeral(i, a, 4) + " : " + Numeral(w, d, 8) + ";"
  }

  /** Content lines for addresses and their words. */
  function Entries(es: seq<(nat, nat)>, a: Style, d: Style): string {
    if es == [] then "" else Entry(es[0].0, es[0].1, a, d) + "\n" + Entries(es[1..], a, d)
  }

  lemma {:induction false} EntriesMore(es: seq<(nat, nat)>, e: (nat, nat), a: Style, d: Style)
    ensures Entries(es + [e], a, d) == Entries(es, a, d) + Entry(e.0, e.1, a, d) + "\n"
  {
    hide Entry;
    if es == [] {
      assert (es + [e])[1..] == [];
    } else {
      EntriesMore(es[1..], e, a, d);
      assert (es + [e])[1..] == es[1..] + [e];
    }
  }

  /** Words at consecutive addresses from 0. */
  function Numbered(ws: seq<nat>): (es: seq<(nat, nat)>)
    ensures |es| == |ws|
  {
    seq(|ws|, i requires 0 <= i < |ws| => (i, ws[i]))
  }

  /** bin2mif's content lines. */
  function Printed(ws: seq<nat>): string { Entries(Numbered(ws), PRINTED, PRINTED) }

  lemma PrintedMore(ws: seq<nat>, w: nat)
    ensures Printed(ws + [w]) == Printed(ws) + Entry(|ws|, w, PRINTED, PRINTED) + "\n"
  {
    hide Entry, Entries;
    EntriesMore(Numbered(ws), (|ws|, w), PRINTED, PRINTED);
    assert Numbered(ws + [w]) == Numbered(ws) + [(|ws|, w)];
  }

  function Header(depth: nat, width: nat, a: Style, d: Style): string {
    Sizes(depth, width) + ADDRESS_RADIX + Is(a) + DATA_RADIX + Is(d)
  }

  /** A file with addresses in style a and words in style d. */
  function TextIn(depth: nat, width: nat, a: Style, d: Style, es: seq<(nat, nat)>): string {
    Header(depth, width, a, d) + CONTENT + "\n" + Entries(es, a, d) + END + "\n"
  }

  /** bin2mif's file. */
  function Text(depth: nat, width: nat, ws: seq<nat>): string {
    TextIn(depth, width, PRINTED, PRINTED, Numbered(ws))
  }

  /** The little-endian words of a byte string, zero-padded at the end. */
  function WordsOf(data: seq<Byte>): (ws: seq<nat>)
    ensures |ws| == (|data| + 3) / 4
    decreases |data|
  {
    if data == [] then []
    else [Unpack((data + [0, 0, 0])[..4])] + WordsOf(if |data| < 4 then [] else data[4..])
  }

  /** ws padded with zero words up to the depth. */
  function Filled(ws: seq<nat>, depth: nat): seq<nat> {
    ws + seq(if depth > |ws| then depth - |ws| else 0, i => 0)
  }

  lemma ZeroHex()
    ensures Numeral(0, PRINTED, 8) == "00000000"
  {
    assert Zeros(7) == "0000000";
  }

  lemma {:induction false} WordsOfMore(data: seq<Byte>, w: Word)
    requires |data| % 4 == 0
    ensures WordsOf(data + w) == WordsOf(data) + [Unpack(w)]
  {
    hide Unpack;
    var all := data + w;
    if data == [] {
      assert all == w && (w + [0, 0, 0])[..4] == w;
      assert WordsOf(w[4..]) == [];
    } else {
      WordsOfMore(data[4..], w);
      assert all[4..] == data[4..] + w && (all + [0, 0, 0])[..4] == (data + [0, 0, 0])[..4];
    }
  }

  lemma {:induction false} WordsOfPadded(data: seq<Byte>, n: nat)
    requires (|data| + n) % 4 == 0 && n < 4
    ensures WordsOf(data + [0, 0, 0][..n]) == WordsOf(data)
  {
    hide Unpack;
    var all := data + [0, 0, 0][..n];
    if |data| <= 4 {
      if data != [] {
        assert (all + [0, 0, 0])[..4] == (data + [0, 0, 0])[..4];
        assert all[4..] == [];
      }
    } else {
      WordsOfPadded(data[4..], n);
      assert all[4..] == data[4..] + [0, 0, 0][..n];
      assert (all + [0, 0, 0])[..4] == (data + [0, 0, 0])[..4];
    }
  }

  /** bin2mif's padding loop. */
  method PadFile(file: seq<Byte>) returns (data: seq<Byte>)
    ensures |data| % 4 == 0 && WordsOf(data) == WordsOf(file)
  {
    hide WordsOf;
    data := file;
    ghost var n := 0;
    while |data| % 4 != 0
      invariant n <= (4 - |file| % 4) % 4 && data == file + [0, 0, 0][..n]
      decreases 4 - n
    {
      assert [0, 0, 0][..n] + [0] == [0, 0, 0][..n + 1];
      data := data + [0];
      n := n + 1;
    }
    WordsOfPadded(file, n);
  }

  lemma NoWords()
    ensures WordsOf([]) == []
  {
  }

  lemma TakeWord(data: seq<Byte>, i: nat)
    requires i % 4 == 0 && i + 4 <= |data|
    ensures WordsOf(data[..i + 4]) == WordsOf(data[..i]) + [Unpack(data[i..i + 4])]
  {
    hide WordsOf, Unpack;
    WordsOfMore(data[..i], data[i..i + 4]);
    assert data[..i + 4] == data[..i] + data[i..i + 4];
  }

  /** Pad and unpack. */
  method ReadWords(file: seq<Byte>) returns (words: seq<nat>)
    ensures words == WordsOf(file)
  {
    hide Unpack, WordsOf;
    NoWords();
    var data := PadFile(file);
    words := [];
    var i := 0;
    while i < |data|
      invariant i <= |data| && i % 4 == 0 && words == WordsOf(data[..i])
    {
      TakeWord(data, i);
      words := words + [Unpack(data[i..i + 4])];
      i := i + 4;
    }
    assert data[..i] == data;
  }

  /** The content lines: the words, then zeros up to the depth. */
  method PrintEntries(words: seq<nat>, depth: nat) returns (f: string)
    ensures f == Printed(Filled(words, depth))
  {
    hide Entry, Numeral;
    f := "";
    for k := 0 to |words|
      invariant f == Printed(words[..k])
    {
      PrintedMore(words[..k], words[k]);
      assert words[..k + 1] == words[..k] + [words[k]];
      f := f + Entry(k, words[k], PRINTED, PRINTED) + "\n";
    }
    assert words[..|words|] == words == Filled(words, |words|);
    hide Printed;
    for k := |words| to if depth > |words| then depth else |words|
      invariant f == Printed(Filled(words, k))
    {
      PrintedMore(Filled(words, k), 0);
      assert Filled(words, k + 1) == Filled(words, k) + [0];
      ZeroEntry(k);
      f := f + ("    " + Numeral(k, PRINTED, 4) + " : 00000000;\n");
    }
    assert depth <= |words| ==> Filled(words, depth) == words;
  }

  /** bin2mif. */
  method Bin2Mif(file: seq<Byte>, depth: nat, width: nat) returns (f: string)
    ensures f == Text(depth, width, Filled(WordsOf(file), depth))
  {
    hide Is, Sizes, Entries, Filled, WordsOf, Numbered;
    PrintedRadix();
    var words := ReadWords(file);
    var entries := PrintEntries(words, depth);
    f := Sizes(depth, width) + ADDRESS_RADIX + " = HEX;\n" + DATA_RADIX + " = HEX;\n" + CONTENT + "\n" + entries
      + END + "\n";
  }

  lemma ZeroEntry(k: nat)
    ensures "    " + Numeral(k, PRINTED, 4) + " : 00000000;\n" == Entry(k, 0, PRINTED, PRINTED) + "\n"
  {
    hide Numeral;
    ZeroHex();
  }

  // ---- Text handling ----------------------------------------------------------------------------

  predicate IsSpace(c: char) { c == ' ' || c == '\t' || c == '\n' || c == '\r' }

  predicate IsWordChar(c: char) { 'a' <= c <= 'z' || 'A' <= c <= 'Z' || '0' <= c <= '9' || c == '_' }

  function Upper(c: char): char { if 'a' <= c <= 'z' then 'A' + (c - 'a') else c }

  predicate At(s: string, key: string, i: nat) { i + |key| <= |s| && s[i..i + |key|] == key }

  /** First place at or after i where key stands, or |s|. */
  function Find(s: string, key: string, i: nat): (j: nat)
    requires i <= |s| && |key| > 0
    ensures i <= j <= |s| && (j < |s| ==> At(s, key, j))
    decreases |s| - i
  {
    if i == |s| || At(s, key, i) then i else Find(s, key, i + 1)
  }

  lemma {:induction false} FindIs(s: string, key: string, i: nat, k: nat)
    requires |key| > 0 && i <= k && At(s, key, k) && forall j: nat :: i <= j < k ==> !At(s, key, j)
    ensures Find(s, key, i) == k
    decreases k - i
  {
    if i < k { FindIs(s, key, i + 1, k); }
  }

  function LStrip(s: string): string { if s != [] && IsSpace(s[0]) then LStrip(s[1..]) else s }

  function RStrip(s: string): string { if s != [] && IsSpace(s[|s| - 1]) then RStrip(s[..|s| - 1]) else s }

  function Strip(s: string): string { RStrip(LStrip(s)) }

  function DropSemicolons(s: string): string {
    if s != [] && s[|s| - 1] == ';' then DropSemicolons(s[..|s| - 1]) else s
  }

  function IndexOf(s: string, c: char): (i: nat)
    ensures i <= |s| && (i < |s| ==> s[i] == c) && forall j :: 0 <= j < i ==> s[j] != c
  {
    if s == [] || s[0] == c then 0 else 1 + IndexOf(s[1..], c)
  }

  function SplitLines(s: string): seq<string>
    decreases |s|
  {
    var i := IndexOf(s, '\n');
    if s == [] then [] else if i == |s| then [s] else [s[..i]] + SplitLines(s[i + 1..])
  }

  // ---- The parser -------------------------------------------------------------------------------

  predicate AtI(s: string, key: string, i: nat) {
    i + |key| <= |s| && forall k {:trigger key[k]} :: 0 <= k < |key| ==> Upper(s[i + k]) == key[k]
  }

  function SkipSpaces(s: string, i: nat): (j: nat)
    requires i <= |s|
    ensures i <= j <= |s|
    decreases |s| - i
  {
    if i < |s| && IsSpace(s[i]) then SkipSpaces(s, i + 1) else i
  }

  function WordAt(s: string, i: nat): string
    requires i <= |s|
    decreases |s| - i
  {
    if i < |s| && IsWordChar(s[i]) then [Upper(s[i])] + WordAt(s, i + 1) else []
  }

  /** The name after "key =" wherever that first stands, any case, any spacing; empty
      if it stands nowhere. */
  function RadixName(s: string, key: string, i: nat): string
    requires i <= |s|
    decreases |s| - i
  {
    if i == |s| then []
    else
      var rest := RadixName(s, key, i + 1);
      if !AtI(s, key, i) then rest
      else
        var j := SkipSpaces(s, i + |key|);
        if j == |s| || s[j] != '=' then rest
        else
          var name := WordAt(s, SkipSpaces(s, j + 1));
          if name == [] then rest else name
  }

  function BaseOf(name: string): (b: nat)
    ensures 2 <= b <= 16
  {
    if name == "DEC" then 10 else if name == "BIN" then 2 else if name == "OCT" then 8 else 16
  }

  /** The dictionary of words by address; size is one more than its largest key. */
  datatype Table = Table(words: map<nat, nat>, size: nat)

  function Put(t: Table, addr: nat, data: nat): Table {
    Table(t.words[addr := data], if t.size > addr then t.size else addr + 1)
  }

  function Listed(t: Table): (ws: seq<nat>)
    ensures |ws| == t.size
  {
    seq(t.size, i => if i in t.words then t.words[i] else 0)
  }

  /** One line of the content block: skipped, entered, or a ValueError. */
  function OnLine(t: Table, line: string, addrBase: nat, dataBase: nat): Option<Table> {
    var s := DropSemicolons(Strip(line));
    var colon := IndexOf(s, ':');
    if colon == |s| then Some(t)
    else
      var addr, data := ParseInt(Strip(s[..colon]), addrBase), ParseInt(Strip(s[colon + 1..]), dataBase);
      if addr.None? || data.None? then None else Some(Put(t, addr.value, data.value))
  }

  function OnLines(t: Table, lines: seq<string>, addrBase: nat, dataBase: nat): Option<Table>
    decreases |lines|
  {
    if lines == [] then Some(t)
    else
      var u := OnLine(t, lines[0], addrBase, dataBase);
      if u.None? then None else OnLines(u.value, lines[1..], addrBase, dataBase)
  }

  /** The block between the markers. */
  function Content(text: string): string {
    var start := Find(text, CONTENT, 0);
    var body := if start == |text| then text else text[start + |CONTENT|..];
    body[..Find(body, END, 0)]
  }

  const EMPTY: Table := Table(map[], 0)

  function Parsed(text: string): Option<seq<nat>> {
    var t := OnLines(EMPTY, SplitLines(Content(text)), BaseOf(RadixName(text, ADDRESS_RADIX, 0)),
                     BaseOf(RadixName(text, DATA_RADIX, 0)));
    if t.None? then None else Some(Listed(t.value))
  }

  method ParseMif(text: string) returns (r: Option<seq<nat>>)
    ensures r == Parsed(text)
  {
    hide OnLine, RadixName, Content, SplitLines;
    var addrBase, dataBase := BaseOf(RadixName(text, ADDRESS_RADIX, 0)), BaseOf(RadixName(text, DATA_RADIX, 0));
    var lines := SplitLines(Content(text));
    var wordsByAddr := EMPTY;
    for i := 0 to |lines|
      invariant OnLines(EMPTY, lines, addrBase, dataBase) == OnLines(wordsByAddr, lines[i..], addrBase, dataBase)
    {
      var next := OnLine(wordsByAddr, lines[i], addrBase, dataBase);
      if next.None? {
        return None;
      }
      wordsByAddr := next.value;
    }
    r := Some(Listed(wordsByAddr));
  }

  // ---- Round trip -------------------------------------------------------------------------------

  lemma StripSpace(s: string)
    ensures LStrip(" " + s) == LStrip(s) && RStrip(s + " ") == RStrip(s)
  {
    assert (" " + s)[1..] == s && (s + " ")[..|s|] == s;
  }

  lemma StripNone(s: string)
    requires s != [] && !IsSpace(s[0]) && !IsSpace(s[|s| - 1])
    ensures Strip(s) == s
  {
  }

  lemma StripSides(s: string)
    requires s != [] && !IsSpace(s[0]) && !IsSpace(s[|s| - 1])
    ensures Strip(" " + s) == s && Strip(s + " ") == s
  {
    StripSpace(s);
    assert LStrip(s + " ") == s + " ";
  }

  function Spaces(n: nat): string { if n == 0 then "" else " " + Spaces(n - 1) }

  lemma {:induction false} StripMany(n: nat, s: string)
    ensures LStrip(Spaces(n) + s) == LStrip(s)
  {
    if n > 0 {
      StripMany(n - 1, s);
      StripSpace(Spaces(n - 1) + s);
      assert Spaces(n) + s == " " + (Spaces(n - 1) + s);
    } else {
      assert Spaces(0) + s == s;
    }
  }

  /** What is left of a content line after stripping. */
  function Fields(i: nat, w: nat, a: Style, d: Style): (s: string)
    ensures |s| > 0
  {
    Numeral(i, a, 4) + " : " + Numeral(w, d, 8)
  }

  lemma EntryStripped(i: nat, w: nat, a: Style, d: Style)
    ensures DropSemicolons(Strip(Entry(i, w, a, d))) == Fields(i, w, a, d)
  {
    hide Numeral, LStrip, RStrip;
    NumeralDigits(i, a, 4);
    NumeralDigits(w, d, 8);
    var s := Fields(i, w, a, d);
    assert Spaces(4) == "    ";
    assert Entry(i, w, a, d) == Spaces(4) + (s + ";");
    StripMany(4, s + ";");
    StripNone(s + ";");
    assert (s + ";")[..|s|] == s;
  }

  /** A line is parsed as the entry it was written for. */
  lemma EntryParsed(t: Table, i: nat, w: nat, a: Style, d: Style)
    ensures OnLine(t, Entry(i, w, a, d), Base(a), Base(d)) == Some(Put(t, i, w))
  {
    hide Numeral, ParseInt, Strip, Entry, DropSemicolons, Base;
    var x, y, s := Numeral(i, a, 4), Numeral(w, d, 8), Fields(i, w, a, d);
    EntryStripped(i, w, a, d);
    NumeralDigits(i, a, 4);
    NumeralDigits(w, d, 8);
    NumeralRoundTrip(i, a, 4);
    NumeralRoundTrip(w, d, 8);
    assert s[|x| + 1] == ':';
    assert s[..|x| + 1] == x + " " && s[|x| + 2..] == " " + y;
    StripSides(x);
    StripSides(y);
  }

  lemma EntryChars(i: nat, w: nat, a: Style, d: Style)
    ensures forall k :: 0 <= k < |Entry(i, w, a, d)| ==> Entry(i, w, a, d)[k] != '\n' && Entry(i, w, a, d)[k] != 'N'
  {
    hide Numeral;
    NumeralDigits(i, a, 4);
    NumeralDigits(w, d, 8);
  }

  lemma SplitOne(line: string, rest: string)
    requires forall k :: 0 <= k < |line| ==> line[k] != '\n'
    ensures SplitLines(line + "\n" + rest) == [line] + SplitLines(rest)
  {
    var s := line + "\n" + rest;
    assert s[|line|] == '\n' && s[..|line|] == line && s[|line| + 1..] == rest;
  }

  /** The dictionary after the entries, in order. */
  function PutAll(t: Table, es: seq<(nat, nat)>): Table
    decreases |es|
  {
    if es == [] then t else PutAll(Put(t, es[0].0, es[0].1), es[1..])
  }

  /** Parsing content lines enters them all. */
  lemma {:induction false} EntriesParsed(t: Table, es: seq<(nat, nat)>, a: Style, d: Style)
    ensures OnLines(t, SplitLines(Entries(es, a, d)), Base(a), Base(d)) == Some(PutAll(t, es))
    decreases |es|
  {
    hide Entry, OnLine, Put, Base;
    if es != [] {
      var line, rest := Entry(es[0].0, es[0].1, a, d), Entries(es[1..], a, d);
      EntryChars(es[0].0, es[0].1, a, d);
      SplitOne(line, rest);
      EntryParsed(t, es[0].0, es[0].1, a, d);
      EntriesParsed(Put(t, es[0].0, es[0].1), es[1..], a, d);
      var lines := SplitLines(Entries(es, a, d));
      assert lines[1..] == SplitLines(rest);
    }
  }

  /** No marker word begins in this text. */
  ghost predicate Plain(s: string) {
    && (forall k :: 0 <= k < |s| ==> s[k] != 'A' && s[k] != 'a' && s[k] != 'C')
    && s != [] && s[|s| - 1] == '\n'
  }

  lemma SizesPlain(depth: nat, width: nat)
    ensures Plain(Sizes(depth, width))
  {
    hide Digits;
    DigitsAreDecimal(depth);
    DigitsAreDecimal(width);
  }

  lemma {:induction false} SkipTo(s: string, key: string, i: nat, k: nat)
    requires i <= k < |s| && forall j: nat :: i <= j < k ==> !AtI(s, key, j)
    ensures RadixName(s, key, i) == RadixName(s, key, k)
    decreases k - i
  {
    hide AtI;
    if i < k { SkipTo(s, key, i + 1, k); }
  }

  predicate IsLetter(c: char) { 'a' <= c <= 'z' || 'A' <= c <= 'Z' }

  lemma NameText(s: string, e: nat)
    requires e + 7 <= |s| && s[e] == ' ' && s[e + 1] == '=' && s[e + 2] == ' ' && s[e + 6] == ';'
    requires IsLetter(s[e + 3]) && IsLetter(s[e + 4]) && IsLetter(s[e + 5])
    ensures SkipSpaces(s, e) == e + 1 && SkipSpaces(s, e + 2) == e + 3
    ensures WordAt(s, e + 3) == [Upper(s[e + 3]), Upper(s[e + 4]), Upper(s[e + 5])]
  {
    assert SkipSpaces(s, e + 1) == e + 1 && SkipSpaces(s, e + 3) == e + 3;
    assert WordAt(s, e + 6) == [];
    assert WordAt(s, e + 5) == [Upper(s[e + 5])];
    assert WordAt(s, e + 4) == [Upper(s[e + 4]), Upper(s[e + 5])];
  }

  lemma NameLetters(st: Style)
    ensures var n := Name(st); IsLetter(n[0]) && IsLetter(n[1]) && IsLetter(n[2])
    ensures var n := Name(st); BaseOf([Upper(n[0]), Upper(n[1]), Upper(n[2])]) == Base(st)
  {
  }

  lemma KeyHere(pre: string, key: string, rest: string)
    requires forall k :: 0 <= k < |key| ==> Upper(key[k]) == key[k]
    ensures AtI(pre + key + rest, key, |pre|)
  {
    var s := pre + key + rest;
    forall k | 0 <= k < |key| ensures Upper(s[|pre| + k]) == key[k] {
      assert s[|pre| + k] == key[k];
    }
  }

  lemma IsChars(st: Style)
    ensures var m, n := Is(st), Name(st);
      m[0] == ' ' && m[1] == '=' && m[2] == ' ' && m[3] == n[0] && m[4] == n[1] && m[5] == n[2] && m[6] == ';'
      && m[7] == '\n'
  {
  }

  /** The radix right where its line begins. */
  lemma NameHere(pre: string, key: string, st: Style, rest: string)
    requires forall k :: 0 <= k < |key| ==> Upper(key[k]) == key[k]
    ensures BaseOf(RadixName(pre + key + Is(st) + rest, key, |pre|)) == Base(st)
  {
    hide AtI, SkipSpaces, WordAt, Is, Name, Base, BaseOf, IsLetter, Upper;
    var m := Is(st);
    var s, e := pre + key + m + rest, |pre| + |key|;
    assert s == pre + key + (m + rest);
    KeyHere(pre, key, m + rest);
    assert s[e] == m[0] && s[e + 1] == m[1] && s[e + 2] == m[2] && s[e + 3] == m[3];
    assert s[e + 4] == m[4] && s[e + 5] == m[5] && s[e + 6] == m[6];
    IsChars(st);
    NameLetters(st);
    NameText(s, e);
  }

  lemma UpperKeys()
    ensures forall k :: 0 <= k < |ADDRESS_RADIX| ==> Upper(ADDRESS_RADIX[k]) == ADDRESS_RADIX[k]
    ensures forall k :: 0 <= k < |DATA_RADIX| ==> Upper(DATA_RADIX[k]) == DATA_RADIX[k]
  {
  }

  lemma AddressRadix(pre: string, a: Style, rest: string)
    requires Plain(pre)
    ensures BaseOf(RadixName(pre + ADDRESS_RADIX + Is(a) + rest, ADDRESS_RADIX, 0)) == Base(a)
  {
    hide Is, Base, BaseOf;
    var s := pre + ADDRESS_RADIX + Is(a) + rest;
    UpperKeys();
    NameHere(pre, ADDRESS_RADIX, a, rest);
    forall j: nat | j < |pre| ensures !AtI(s, ADDRESS_RADIX, j) {
      assert s[j + 0] == pre[j];
      assert ADDRESS_RADIX[0] == 'A';
    }
    SkipTo(s, ADDRESS_RADIX, 0, |pre|);
  }

  /** No D is followed by an A in an address radix line. */
  lemma NoDataPair(st: Style)
    ensures var m := ADDRESS_RADIX + Is(st);
      forall j :: 0 <= j < |m| - 1 ==> !(Upper(m[j]) == 'D' && Upper(m[j + 1]) == 'A')
  {
  }

  /** No C is followed by an O in a radix line. */
  lemma NoContentPair(st: Style)
    ensures var m := ADDRESS_RADIX + Is(st); forall j :: 0 <= j < |m| - 1 ==> !(m[j] == 'C' && m[j + 1] == 'O')
    ensures var m := DATA_RADIX + Is(st); forall j :: 0 <= j < |m| - 1 ==> !(m[j] == 'C' && m[j + 1] == 'O')
  {
  }

  lemma AtIChars(s: string, key: string, j: nat)
    requires |key| >= 2 && AtI(s, key, j)
    ensures j + 1 < |s| && Upper(s[j]) == key[0] && Upper(s[j + 1]) == key[1]
  {
    assert Upper(s[j + 0]) == key[0];
  }

  lemma AtChars(s: string, key: string, j: nat)
    requires |key| >= 2 && At(s, key, j)
    ensures s[j] == key[0] && s[j + 1] == key[1]
  {
    assert s[j..j + |key|][0] == s[j] && s[j..j + |key|][1] == s[j + 1];
  }

  lemma NoDataBefore(pre: string, a: Style, rest: string, j: nat)
    requires Plain(pre) && j < |pre + ADDRESS_RADIX + Is(a)|
    ensures var s := pre + (ADDRESS_RADIX + Is(a)) + rest;
      j + 1 < |s| ==> !(Upper(s[j]) == 'D' && Upper(s[j + 1]) == 'A')
  {
    hide Is;
    var m := ADDRESS_RADIX + Is(a);
    NoDataPair(a);
    IsChars(a);
    assert m[|m| - 1] == '\n';
    if j >= |pre| { assert (pre + m)[j] == m[j - |pre|]; }
  }

  lemma DataRadix(pre: string, a: Style, d: Style, rest: string)
    requires Plain(pre)
    ensures BaseOf(RadixName(pre + ADDRESS_RADIX + Is(a) + (DATA_RADIX + Is(d) + rest), DATA_RADIX, 0)) == Base(d)
  {
    hide Is, Base, BaseOf, Plain;
    var m := ADDRESS_RADIX + Is(a);
    var s := pre + m + DATA_RADIX + Is(d) + rest;
    assert pre + ADDRESS_RADIX + Is(a) + (DATA_RADIX + Is(d) + rest) == s == pre + m + (DATA_RADIX + Is(d) + rest);
    UpperKeys();
    NameHere(pre + m, DATA_RADIX, d, rest);
    NoDataStart(pre, a, DATA_RADIX + Is(d) + rest);
    SkipTo(s, DATA_RADIX, 0, |pre + m|);
  }

  lemma NoDataStart(pre: string, a: Style, tail: string)
    requires Plain(pre)
    ensures var m := ADDRESS_RADIX + Is(a); forall j: nat :: j < |pre + m| ==> !AtI(pre + m + tail, DATA_RADIX, j)
  {
    var m := ADDRESS_RADIX + Is(a);
    var s := pre + m + tail;
    hide AtI, Plain, Is;
    forall j: nat | j < |pre + m| ensures !AtI(s, DATA_RADIX, j) {
      NoDataBefore(pre, a, tail, j);
      if AtI(s, DATA_RADIX, j) { AtIChars(s, DATA_RADIX, j); }
    }
  }

  /** The pair starts in neither part and not across them. */
  predicate PairFree(s: string) {
    && s != [] && s[|s| - 1] == '\n'
    && forall j :: 0 <= j < |s| - 1 ==> !(s[j] == 'C' && s[j + 1] == 'O')
  }

  lemma PairFreeMore(s: string, t: string)
    requires PairFree(s) && PairFree(t)
    ensures PairFree(s + t)
  {
    var u := s + t;
    forall j | 0 <= j < |u| - 1 ensures !(u[j] == 'C' && u[j + 1] == 'O') {
      if j >= |s| { assert u[j] == t[j - |s|] && u[j + 1] == t[j + 1 - |s|]; }
    }
  }

  lemma HeaderPairFree(pre: string, a: Style, d: Style)
    requires Plain(pre)
    ensures PairFree(pre + ADDRESS_RADIX + Is(a) + DATA_RADIX + Is(d))
  {
    hide Is;
    NoContentPair(a);
    NoContentPair(d);
    IsChars(a);
    IsChars(d);
    var m, n := ADDRESS_RADIX + Is(a), DATA_RADIX + Is(d);
    assert m[|m| - 1] == Is(a)[7] && n[|n| - 1] == Is(d)[7];
    PairFreeMore(pre, m);
    PairFreeMore(pre + m, n);
    assert pre + ADDRESS_RADIX + Is(a) + DATA_RADIX + Is(d) == pre + m + n;
  }

  lemma ContentHere(head: string, rest: string)
    requires PairFree(head)
    ensures Find(head + CONTENT + rest, CONTENT, 0) == |head|
  {
    var s := head + CONTENT + rest;
    forall j: nat | j < |head| ensures !At(s, CONTENT, j) {
      assert s[j] == head[j] && (j + 1 < |head| ==> s[j + 1] == head[j + 1]);
      if At(s, CONTENT, j) { AtChars(s, CONTENT, j); }
    }
    assert At(s, CONTENT, |head|);
    FindIs(s, CONTENT, 0, |head|);
  }

  lemma {:induction false} EntriesChars(es: seq<(nat, nat)>, a: Style, d: Style)
    ensures var s := Entries(es, a, d);
      && (forall k :: 0 <= k < |s| ==> s[k] != 'N')
      && (es != [] ==> s != [] && s[|s| - 1] == '\n')
  {
    hide Entry;
    if es != [] {
      EntriesChars(es[1..], a, d);
      EntryChars(es[0].0, es[0].1, a, d);
    }
  }

  lemma EndHere(es: seq<(nat, nat)>, a: Style, d: Style, rest: string)
    ensures var block := "\n" + Entries(es, a, d); Find(block + END + rest, END, 0) == |block|
  {
    hide Entries;
    var block := "\n" + Entries(es, a, d);
    var s := block + END + rest;
    EntriesChars(es, a, d);
    if es == [] { EntriesNone(a, d); }
    forall j: nat | j < |block| ensures !At(s, END, j) {
      assert s[j] == block[j] && (j + 1 < |block| ==> s[j + 1] == block[j + 1]);
      if At(s, END, j) { AtChars(s, END, j); }
    }
    assert At(s, END, |block|);
    FindIs(s, END, 0, |block|);
  }

  lemma EntriesNone(a: Style, d: Style)
    ensures Entries([], a, d) == ""
  {
  }

  lemma ContentOfText(depth: nat, width: nat, a: Style, d: Style, es: seq<(nat, nat)>)
    ensures Content(TextIn(depth, width, a, d, es)) == "\n" + Entries(es, a, d)
  {
    hide Sizes, Entries, Find, Is, PairFree;
    var head := Header(depth, width, a, d);
    var block, rest := "\n" + Entries(es, a, d), "\n";
    SizesPlain(depth, width);
    HeaderPairFree(Sizes(depth, width), a, d);
    assert TextIn(depth, width, a, d, es) == head + CONTENT + (block + END + rest);
    ContentHere(head, block + END + rest);
    EndHere(es, a, d, rest);
    assert (head + CONTENT + (block + END + rest))[|head| + |CONTENT|..] == block + END + rest;
  }

  lemma RadixesOfText(depth: nat, width: nat, a: Style, d: Style, es: seq<(nat, nat)>)
    ensures BaseOf(RadixName(TextIn(depth, width, a, d, es), ADDRESS_RADIX, 0)) == Base(a)
    ensures BaseOf(RadixName(TextIn(depth, width, a, d, es), DATA_RADIX, 0)) == Base(d)
  {
    hide Sizes, Entries, RadixName, Is, Base, BaseOf;
    var pre := Sizes(depth, width);
    var tail := CONTENT + "\n" + Entries(es, a, d) + END + "\n";
    SizesPlain(depth, width);
    assert TextIn(depth, width, a, d, es) == pre + ADDRESS_RADIX + Is(a) + (DATA_RADIX + Is(d) + tail);
    AddressRadix(pre, a, DATA_RADIX + Is(d) + tail);
    DataRadix(pre, a, d, tail);
  }

  lemma TextParsed(depth: nat, width: nat, a: Style, d: Style, es: seq<(nat, nat)>)
    ensures Parsed(TextIn(depth, width, a, d, es)) == Some(Listed(PutAll(EMPTY, es)))
  {
    hide RadixName, Content, TextIn, Entries, OnLine, Base, BaseOf;
    ContentOfText(depth, width, a, d, es);
    RadixesOfText(depth, width, a, d, es);
    var entries := Entries(es, a, d);
    SplitOne("", entries);
    assert "" + "\n" + entries == "\n" + entries;
    BlankLine(EMPTY, Base(a), Base(d));
    EntriesParsed(EMPTY, es, a, d);
    var lines := SplitLines(Content(TextIn(depth, width, a, d, es)));
    assert lines[1..] == SplitLines(entries);
  }

  lemma BlankLine(t: Table, addrBase: nat, dataBase: nat)
    ensures OnLine(t, "", addrBase, dataBase) == Some(t)
  {
  }

  /** Entry k is the last one at its address. */
  ghost predicate Last(es: seq<(nat, nat)>, k: nat)
    requires k < |es|
  {
    forall j :: k < j < |es| ==> es[j].0 != es[k].0
  }

  ghost predicate Names(es: seq<(nat, nat)>, addr: nat) { exists k :: 0 <= k < |es| && es[k].0 == addr }

  /** What a list of entries, in any order, means: the last word at each address it
      names, 0 at the others below the highest. */
  ghost predicate Means(es: seq<(nat, nat)>, ws: seq<nat>) {
    && (forall k :: 0 <= k < |es| ==> es[k].0 < |ws|)
    && (ws != [] ==> Names(es, |ws| - 1))
    && (forall k :: 0 <= k < |es| && Last(es, k) ==> ws[es[k].0] == es[k].1)
    && (forall j :: 0 <= j < |ws| && !Names(es, j) ==> ws[j] == 0)
  }

  lemma {:induction false} PutAllMore(t: Table, es: seq<(nat, nat)>, e: (nat, nat))
    ensures PutAll(t, es + [e]) == Put(PutAll(t, es), e.0, e.1)
    decreases |es|
  {
    hide Put;
    if es == [] {
      assert (es + [e])[1..] == [];
    } else {
      PutAllMore(Put(t, es[0].0, es[0].1), es[1..], e);
      assert (es + [e])[1..] == es[1..] + [e];
    }
  }

  lemma NamesMore(es: seq<(nat, nat)>, e: (nat, nat), x: nat)
    ensures Names(es + [e], x) <==> Names(es, x) || x == e.0
  {
    var f := es + [e];
    if Names(es, x) {
      var k :| 0 <= k < |es| && es[k].0 == x;
      assert f[k].0 == x;
    }
    assert f[|es|].0 == e.0;
  }

  lemma LastMore(es: seq<(nat, nat)>, e: (nat, nat), k: nat)
    requires k < |es| && Last(es + [e], k)
    ensures Last(es, k) && es[k].0 != e.0
  {
    var f := es + [e];
    assert f[|es|] == e && f[k] == es[k];
    forall j | k < j < |es| ensures es[j].0 != es[k].0 { assert f[j] == es[j]; }
  }

  /** The dictionary has the last word of each address. */
  ghost predicate Tabled(es: seq<(nat, nat)>, t: Table) {
    && (forall x :: x in t.words <==> Names(es, x))
    && (forall k :: 0 <= k < |es| && Last(es, k) ==> es[k].0 in t.words && t.words[es[k].0] == es[k].1)
    && (forall k :: 0 <= k < |es| ==> es[k].0 < t.size)
    && (t.size > 0 ==> Names(es, t.size - 1))
  }

  lemma TabledMore(t: Table, es: seq<(nat, nat)>, e: (nat, nat))
    requires Tabled(es, t)
    ensures Tabled(es + [e], Put(t, e.0, e.1))
  {
    hide Names, Last;
    var f, u := es + [e], Put(t, e.0, e.1);
    forall x ensures x in u.words <==> Names(f, x) { NamesMore(es, e, x); }
    forall k | 0 <= k < |f| && Last(f, k) ensures f[k].0 in u.words && u.words[f[k].0] == f[k].1 {
      if k < |es| { LastMore(es, e, k); }
    }
    if u.size > 0 { NamesMore(es, e, u.size - 1); }
  }

  lemma {:induction false} PutAllTabled(es: seq<(nat, nat)>)
    ensures Tabled(es, PutAll(EMPTY, es))
    decreases |es|
  {
    hide Put, Tabled;
    if es == [] {
      NothingTabled();
    } else {
      var before, e := es[..|es| - 1], es[|es| - 1];
      PutAllTabled(before);
      PutAllMore(EMPTY, before, e);
      TabledMore(PutAll(EMPTY, before), before, e);
      assert es == before + [e];
    }
  }

  lemma NothingTabled()
    ensures Tabled([], EMPTY)
  {
  }

  lemma ListMeans(es: seq<(nat, nat)>, t: Table)
    requires Tabled(es, t)
    ensures Means(es, Listed(t))
  {
    hide Names, Last;
  }

  /** Parsing a file gives what its entries mean, whatever its depth, the radixes it names,
      the case of the names and digits, and the order of its lines. */
  lemma FileParsed(depth: nat, width: nat, a: Style, d: Style, es: seq<(nat, nat)>)
    ensures var r := Parsed(TextIn(depth, width, a, d, es)); r.Some? && Means(es, r.value)
  {
    hide Parsed, TextIn, Means, Tabled, PutAll, Listed;
    TextParsed(depth, width, a, d, es);
    PutAllTabled(es);
    ListMeans(es, PutAll(EMPTY, es));
  }

  lemma NumberedMeans(ws: seq<nat>, r: seq<nat>)
    requires Means(Numbered(ws), r)
    ensures r == ws
  {
    var es := Numbered(ws);
    forall k | 0 <= k < |es| ensures k < |r| && r[k] == ws[k] { assert es[k] == (k, ws[k]) && Last(es, k); }
    if r != [] {
      var k :| 0 <= k < |es| && es[k].0 == |r| - 1;
      assert es[k].0 == k;
    }
    if ws != [] { assert es[|ws| - 1].0 == |ws| - 1; }
  }

  /** Parsing what the printer printed gives the words back, whatever the depth. */
  lemma TextRoundTrip(depth: nat, width: nat, ws: seq<nat>)
    ensures Parsed(Text(depth, width, ws)) == Some(ws)
  {
    hide Parsed, TextIn, Means;
    FileParsed(depth, width, PRINTED, PRINTED, Numbered(ws));
    NumberedMeans(ws, Parsed(Text(depth, width, ws)).value);
  }

  // ---- The image loader ---------------------------------------------------------------------------

  function Trimmed(ws: seq<nat>): (t: seq<nat>)
    ensures t <= ws && (t != [] ==> t[|t| - 1] != 0) && forall i :: |t| <= i < |ws| ==> ws[i] == 0
  {
    if ws != [] && ws[|ws| - 1] == 0 then Trimmed(ws[..|ws| - 1]) else ws
  }

  /** The popping loop. */
  method TrimZeros(ws: seq<nat>) returns (words: seq<nat>)
    ensures words == Trimmed(ws)
  {
    words := ws;
    while words != [] && words[|words| - 1] == 0
      invariant Trimmed(ws) == Trimmed(words)
    {
      words := words[..|words| - 1];
    }
  }

  /** load_words_from_file on a MIF and on a raw binary. */
  method LoadMif(text: string) returns (r: Option<seq<nat>>)
    ensures r == match Parsed(text) case None => None case Some(ws) => Some(Trimmed(ws))
  {
    r := ParseMif(text);
    if r.Some? {
      var words := TrimZeros(r.value);
      r := Some(words);
    }
  }

  method LoadRaw(file: seq<Byte>) returns (words: seq<nat>)
    ensures words == Trimmed(WordsOf(file))
  {
    words := ReadWords(file);
    words := TrimZeros(words);
  }

  lemma {:induction false} TrimFilled(ws: seq<nat>, depth: nat)
    ensures Trimmed(Filled(ws, depth)) == Trimmed(ws)
    decreases depth
  {
    var f := Filled(ws, depth);
    if depth > |ws| {
      TrimFilled(ws, depth - 1);
      assert f[..|f| - 1] == Filled(ws, depth - 1);
    } else {
      assert f == ws;
    }
  }

  /** Main result: for every byte string and depth, parsing bin2mif's output gives
      the zero-padded little-endian words followed by zeros up to the depth, and
      both branches of the loader return the same trimmed list. */
  method BothBranchesAgree(file: seq<Byte>, depth: nat, width: nat) returns (mif: Option<seq<nat>>, raw: seq<nat>)
    ensures Parsed(Text(depth, width, Filled(WordsOf(file), depth))) == Some(Filled(WordsOf(file), depth))
    ensures mif == Some(raw) && raw == Trimmed(WordsOf(file))
  {
    hide Parsed, Text, Trimmed, Filled, WordsOf;
    var f := Bin2Mif(file, depth, width);
    TextRoundTrip(depth, width, Filled(WordsOf(file), depth));
    TrimFilled(WordsOf(file), depth);
    mif := LoadMif(f);
    raw := LoadRaw(file);
  }

  // ---- The layout of the file ----------------------------------------------------------------------

  lemma PrintedRadix()
    ensures Is(PRINTED) == " = HEX;\n"
  {
  }

  lemma AddressLine()
    ensures ADDRESS_RADIX + " = HEX;\n" == "ADDRESS_RADIX = HEX;\n"
  {
  }

  lemma DataLine()
    ensures DATA_RADIX + " = HEX;\n" == "DATA_RADIX = HEX;\n"
  {
  }

  lemma Grouped(s: string, a: string, i: string, d: string, c: string, n: string, e: string, x: string)
    ensures s + a + i + d + i + c + n + e + x + n == s + (a + i) + (d + i) + (c + n) + e + (x + n)
  {
    assert a + i + d + i + c + n == (a + i) + (d + i) + (c + n);
  }

  /** The file names its depth and width in decimal and both radixes as hexadecimal, in
      this order, before the content. */
  lemma Layout(depth: nat, width: nat, ws: seq<nat>) returns (d: string, w: string, content: string)
    ensures Text(depth, width, ws)
      == "DEPTH = " + d + ";\nWIDTH = " + w + ";\n" + "ADDRESS_RADIX = HEX;\n" + "DATA_RADIX = HEX;\n"
         + "CONTENT BEGIN\n" + content + "END;\n"
    ensures ParseInt(d, 10) == Some(depth) && ParseInt(w, 10) == Some(width)
  {
    hide Is, Digits, Entries, ParseInt;
    NumeralRoundTrip(depth, SIZES, 0);
    NumeralRoundTrip(width, SIZES, 0);
    PrintedRadix();
    AddressLine();
    DataLine();
    d, w, content := Digits(depth, SIZES), Digits(width, SIZES), Printed(ws);
    assert CONTENT + "\n" == "CONTENT BEGIN\n" && END + "\n" == "END;\n";
    Grouped(Sizes(depth, width), ADDRESS_RADIX, " = HEX;\n", DATA_RADIX, CONTENT, "\n", content, END);
  }

  lemma {:induction false} DigitCount(n: nat, k: nat)
    requires k >= 1 && n < Power16(k)
    ensures |Digits(n, PRINTED)| <= k
    decreases k
  {
    if n >= 16 { DigitCount(n / 16, k - 1); }
  }

  function Power16(k: nat): nat { if k == 0 then 1 else 16 * Power16(k - 1) }

  /** A printed content line in columns: four upper-case digits of address, eight of data. */
  lemma Columns(i: nat, w: nat)
    requires i < 0x1_0000 && w < 0x1_0000_0000
    ensures var e := Entry(i, w, PRINTED, PRINTED);
      && |e| == 20 && e[..4] == "    " && e[8..11] == " : " && e[19] == ';'
      && ParseInt(e[4..8], 16) == Some(i) && ParseInt(e[11..19], 16) == Some(w)
      && forall k :: 4 <= k < 8 || 11 <= k < 19 ==> '0' <= e[k] <= '9' || 'A' <= e[k] <= 'F'
  {
    assert Power16(4) == 0x1_0000;
    assert Power16(8) == 0x1_0000_0000 by { assert Power16(6) == 0x100_0000; }
    DigitCount(i, 4);
    DigitCount(w, 8);
    NumeralWidth(i, 4);
    NumeralWidth(w, 8);
    NumeralRoundTrip(i, PRINTED, 4);
    NumeralRoundTrip(w, PRINTED, 8);
    NumeralDigits(i, PRINTED, 4);
    NumeralDigits(w, PRINTED, 8);
    hide Numeral, ParseInt;
    var e := Entry(i, w, PRINTED, PRINTED);
    assert e[4..8] == Numeral(i, PRINTED, 4) && e[11..19] == Numeral(w, PRINTED, 8);
  }

  lemma NumeralWidth(n: nat, width: nat)
    requires |Digits(n, PRINTED)| <= width
    ensures |Numeral(n, PRINTED, width)| == width
  {
  }
}
