/** Object files as text: Assembler::stringify, the toolchain's reader (BinaryParser and Linker::addFile), and the
    machine's loader and instruction fetch (VM::load, VM::tick). */
module ObjectText {
  import opened Words
  import opened Longs
  import SymbolTable
  import Instructions

  // ----- printing -----

  type Digit = x: int | 0 <= x < 16

  function HexDigit(d: Digit): char { "0123456789abcdef"[d] }

  function ByteText(b: Byte): (s: string)
    ensures |s| == 2
  { [HexDigit(b / 16), HexDigit(b % 16)] }

  function BytesText(bs: seq<Byte>): (s: string)
    ensures |s| == 2 * |bs|
  { if bs == [] then "" else BytesText(bs[..|bs| - 1]) + ByteText(bs[|bs| - 1]) }

  // A word's bytes in memory order, two digits each.
  function Line(w: Long): (s: string)
    ensures |s| == 16
  { BytesText(Split(w, 8)) }

  function Text(ws: seq<Long>): string
  { if ws == [] then "" else if |ws| == 1 then Line(ws[0]) else Line(ws[0]) + "\n" + Text(ws[1..]) }

  lemma {:induction false} TextAppend(ws: seq<Long>, w: Long)
    ensures Text(ws + [w]) == if ws == [] then Line(w) else Text(ws) + "\n" + Line(w)
  {
    hide Line;
    if ws == [] {
      assert ws + [w] == [w];
    } else {
      assert (ws + [w])[1..] == ws[1..] + [w];
      TextAppend(ws[1..], w);
      if |ws| > 1 {
        assert Line(ws[0]) + "\n" + (Text(ws[1..]) + "\n" + Line(w)) == Line(ws[0]) + "\n" + Text(ws[1..]) + "\n" + Line(w);
      }
    }
  }

  method PrintLine(w: Long) returns (s: string)
    ensures s == Line(w)
  {
    s := "";
    ghost var bs := Split(w, 8);
    for i := 0 to 8
      invariant s == BytesText(bs[..i])
    {
      assert bs[..i + 1][..i] == bs[..i];
      s := s + ByteText(ByteOf(w, i));
    }
    assert bs[..8] == bs;
  }

  /** Printed words are lines of sixteen digits with a newline between them. */
  lemma {:induction false} TextLayout(ws: seq<Long>, i: nat)
    requires i < |ws|
    ensures |Text(ws)| == 17 * |ws| - 1 && Text(ws)[17 * i..17 * i + 16] == Line(ws[i])
    ensures i + 1 < |ws| ==> Text(ws)[17 * i + 16] == '\n'
  {
    hide Line;
    if |ws| > 1 {
      var rest := Text(ws[1..]);
      TextLayout(ws[1..], if i > 0 then i - 1 else 0);
      assert Text(ws) == Line(ws[0]) + "\n" + rest;
      assert Text(ws)[17..] == rest;
      if i > 0 { assert Text(ws)[17 * i..17 * i + 16] == rest[17 * (i - 1)..17 * (i - 1) + 16]; }
    }
  }

  lemma {:induction false} NoText()
    ensures Text([]) == ""
  {}

  /** Assembler::stringify. */
  method Stringify(longs: seq<Long>) returns (text: string)
    ensures text == Text(longs)
  {
    hide Line, Text;
    text := "";
    NoText();
    for i := 0 to |longs|
      invariant text == Text(longs[..i])
    {
      if i > 0 { text := text + "\n"; }
      var line := PrintLine(longs[i]);
      TextAppend(longs[..i], longs[i]);
      assert longs[..i + 1] == longs[..i] + [longs[i]];
      text := text + line;
    }
    assert longs[..|longs|] == longs;
  }

  // ----- reading -----

  function DigitOf(c: char): Option<Digit>
  {
    if '0' <= c <= '9' then Some(c as int - '0' as int)
    else if 'a' <= c <= 'f' then Some(c as int - 'a' as int + 10)
    else if 'A' <= c <= 'F' then Some(c as int - 'A' as int + 10)
    else None
  }

  // Hexadecimal digits to a number, most significant first; None at anything else.
  function HexValue(s: string): Option<nat>
  {
    if s == "" then Some(0) else
    var high, low := HexValue(s[..|s| - 1]), DigitOf(s[|s| - 1]);
    if high.None? || low.None? then None else Some(16 * high.value + low.value)
  }

  predicate IsSpace(c: char) { c == ' ' || '\t' <= c <= '\r' }

  function SkipSpaces(s: string): (r: string)
    ensures |r| <= |s|
  { if s != "" && IsSpace(s[0]) then SkipSpaces(s[1..]) else s }

  predicate HasSign(s: string) { s != "" && (s[0] == '-' || s[0] == '+') }

  // A "0x" counts as a prefix only if a digit follows.
  function DropPrefix(s: string): string
  { if |s| > 2 && s[0] == '0' && (s[1] == 'x' || s[1] == 'X') && DigitOf(s[2]).Some? then s[2..] else s }

  // parseUlong(line, 16), with what std::stoul takes: spaces, a sign, a prefix, then digits to the end of the line. More
  // than 64 bits is out of range, and a minus negates modulo 2^64.
  function ParseUlong(line: string): Result<Long>
  {
    var t := SkipSpaces(line);
    var digits := DropPrefix(if HasSign(t) then t[1..] else t);
    var n := HexValue(digits);
    if digits == "" || n.None? || n.value >= TWO64 then Err(BadLine)
    else if HasSign(t) && t[0] == '-' then Ok(Minus(0, n.value))
    else Ok(n.value)
  }

  function LineEnd(s: string): (n: nat)
    ensures n <= |s| && '\n' !in s[..n]
    ensures n < |s| ==> s[n] == '\n'
  {
    if s == "" || s[0] == '\n' then 0 else
    var n := 1 + LineEnd(s[1..]);
    assert s[..n] == [s[0]] + s[1..][..n - 1];
    n
  }

  // The lines std::getline yields.
  function SplitLines(s: string): seq<string>
    decreases |s|
  {
    if s == "" then [] else
    var n := LineEnd(s);
    [s[..n]] + if n == |s| then [] else SplitLines(s[n + 1..])
  }

  // Each line parsed and byte-swapped.
  function ReadWords(lines: seq<string>): Result<seq<Long>>
  {
    if lines == [] then Ok([]) else
    var n := |lines| - 1;
    match ReadWords(lines[..n])
    case Err(e) => Err(e)
    case Ok(ws) =>
      match ParseUlong(lines[n])
      case Err(e) => Err(e)
      case Ok(w) => Ok(ws + [SwapEndian(w)])
  }

  function AfterLine(s: string): string
  { if LineEnd(s) == |s| then "" else s[LineEnd(s) + 1..] }

  lemma {:induction false} SplitFirst(s: string)
    requires s != ""
    ensures SplitLines(s) == [s[..LineEnd(s)]] + SplitLines(AfterLine(s)) && |AfterLine(s)| < |s|
  {}

  /** BinaryParser's constructor and Linker::addFile. */
  method ReadObject(text: string) returns (r: Result<seq<Long>>)
    ensures ReadWords(SplitLines(text)).Ok? ==> r == ReadWords(SplitLines(text))
    ensures ReadWords(SplitLines(text)).Err? ==> r.Err?
  {
    hide ParseUlong, SwapEndian, AfterLine, SplitLines, ReadWords, LineEnd;
    var raw := [];
    var rest := text;
    ghost var lines: seq<string> := [];
    assert [] + SplitLines(text) == SplitLines(text);
    NoLines();
    while rest != ""
      invariant lines + SplitLines(rest) == SplitLines(text)
      invariant ReadWords(lines) == Ok(raw)
      decreases |rest|
    {
      var line := rest[..LineEnd(rest)];
      var word := ParseUlong(line);
      ReadNext(lines, line);
      SplitFirst(rest);
      ConcatAssoc(lines, [line], SplitLines(AfterLine(rest)));
      if word.Err? {
        ReadError(lines + [line], SplitLines(AfterLine(rest)));
        return Err(word.error);
      }
      raw := raw + [SwapEndian(word.value)];
      lines := lines + [line];
      rest := AfterLine(rest);
    }
    assert lines + [] == lines;
    r := Ok(raw);
  }

  lemma {:induction false} NoLines()
    ensures SplitLines("") == [] && ReadWords([]) == Ok([])
  {}

  lemma {:induction false} ReadNext(lines: seq<string>, line: string)
    requires ReadWords(lines).Ok?
    ensures ReadWords(lines + [line]) == match ParseUlong(line)
      case Err(e) => Err(e)
      case Ok(w) => Ok(ReadWords(lines).value + [SwapEndian(w)])
  { hide ParseUlong, SwapEndian; assert (lines + [line])[..|lines|] == lines; }

  lemma {:induction false} ReadError(a: seq<string>, b: seq<string>)
    requires ReadWords(a).Err?
    ensures ReadWords(a + b).Err?
    decreases |b|
  {
    hide ParseUlong, SwapEndian;
    if b == [] {
      assert a + b == a;
    } else {
      var n := |b| - 1;
      assert (a + b)[..|a + b| - 1] == a + b[..n];
      ReadError(a, b[..n]);
    }
  }

  // ----- the round trip -----

  lemma {:induction false} DigitBack(d: Digit)
    ensures DigitOf(HexDigit(d)) == Some(d) && HexDigit(d) != '\n'
  {}

  lemma {:induction false} TwoDigits(s: string, b: Byte)
    requires HexValue(s).Some?
    ensures HexValue(s + ByteText(b)) == Some(256 * HexValue(s).value + b)
  {
    hide HexDigit;
    var t := ByteText(b);
    DigitBack(b / 16);
    DigitBack(b % 16);
    var high := s + [t[0]];
    assert high[..|s|] == s && (s + t)[..|s| + 1] == high;
    assert HexValue(high) == Some(16 * HexValue(s).value + b / 16);
  }

  // Reading a word's text gives its bytes in reverse order.
  lemma {:induction false} BytesBack(bs: seq<Byte>)
    ensures HexValue(BytesText(bs)) == Some(Join(Reverse(bs)))
    ensures '\n' !in BytesText(bs) && forall c :: c in BytesText(bs) ==> DigitOf(c).Some?
  {
    hide HexValue, HexDigit, DigitOf;
    if bs == [] {
      assert HexValue("") == Some(0) by { EmptyValue(); }
      assert Reverse(bs) == [];
    } else {
      var n := |bs| - 1;
      BytesBack(bs[..n]);
      TwoDigits(BytesText(bs[..n]), bs[n]);
      DigitBack(bs[n] / 16);
      DigitBack(bs[n] % 16);
      assert Reverse(bs) == [bs[n]] + Reverse(bs[..n]);
      assert ([bs[n]] + Reverse(bs[..n]))[1..] == Reverse(bs[..n]);
    }
  }

  lemma {:induction false} EmptyValue()
    ensures HexValue("") == Some(0)
  {}

  lemma {:induction false} LineBack(w: Long)
    ensures ParseUlong(Line(w)) == Ok(SwapEndian(w)) && '\n' !in Line(w)
  {
    hide HexValue, BytesText;
    BytesBack(Split(w, 8));
    PlainDigits(Line(w));
  }

  // A line of digits has nothing to drop.
  lemma {:induction false} PlainDigits(s: string)
    requires s != "" && forall c :: c in s ==> DigitOf(c).Some?
    ensures SkipSpaces(s) == s && !HasSign(s) && DropPrefix(s) == s
  {
    assert s[0] in s;
    if |s| > 2 { assert s[1] in s; }
  }

  lemma {:induction false} LinesBack(ws: seq<Long>)
    ensures SplitLines(Text(ws)) == seq(|ws|, i requires 0 <= i < |ws| => Line(ws[i]))
  {
    hide *;
    if ws == [] {
      NoText();
      NoLines();
    } else {
      FirstOfText(ws);
      if |ws| > 1 { LinesBack(ws[1..]); }
    }
  }

  lemma {:induction false} FirstOfText(ws: seq<Long>)
    requires ws != []
    ensures SplitLines(Text(ws)) == [Line(ws[0])] + if |ws| == 1 then [] else SplitLines(Text(ws[1..]))
  {
    hide Line, LineEnd;
    LineBack(ws[0]);
    var line, rest := Line(ws[0]), if |ws| == 1 then "" else "\n" + Text(ws[1..]);
    assert Text(ws) == line + rest by { if |ws| > 1 { ConcatAssoc(line, "\n", Text(ws[1..])); } }
    FirstLine(line, rest);
    if |ws| > 1 { assert Text(ws)[17..] == Text(ws[1..]); }
  }

  lemma {:induction false} FirstLine(line: string, rest: string)
    requires '\n' !in line && (rest == "" || rest[0] == '\n')
    ensures LineEnd(line + rest) == |line| && (line + rest)[..|line|] == line
  {
    if line != "" {
      assert (line + rest)[1..] == line[1..] + rest;
      FirstLine(line[1..], rest);
    }
  }

  /** Printing words and reading them back is the identity. */
  lemma {:induction false} TextRoundTrip(ws: seq<Long>)
    ensures ReadWords(SplitLines(Text(ws))) == Ok(ws)
  {
    LinesBack(ws);
    WordsBack(ws);
  }

  lemma {:induction false} WordsBack(ws: seq<Long>)
    ensures ReadWords(seq(|ws|, i requires 0 <= i < |ws| => Line(ws[i]))) == Ok(ws)
  {
    hide Line, ParseUlong, SwapEndian;
    if ws != [] {
      var n := |ws| - 1;
      var lines := seq(|ws|, i requires 0 <= i < |ws| => Line(ws[i]));
      assert lines[..n] == seq(n, i requires 0 <= i < n => Line(ws[..n][i]));
      WordsBack(ws[..n]);
      LineBack(ws[n]);
      SwapEndianInvolution(ws[n]);
      assert lines[n] == Line(ws[n]) && ws == ws[..n] + [ws[n]];
      assert ReadWords(lines) == Ok(ws[..n] + [SwapEndian(SwapEndian(ws[n]))]);
    }
  }

  // ----- loading into the machine -----

  // strtoul has to use up all sixteen characters of each line; a line of the wrong shape or past the end throws.
  predicate Loadable(lines: seq<string>, size: nat)
  { (forall i :: 0 <= i < |lines| ==> |lines[i]| == 16 && ParseUlong(lines[i]).Ok?) && 8 * |lines| <= size }

  // setWord(address, word, Big): memory[address + 7 - i] = byte i.
  method SetWordBig(memory: seq<Byte>, address: nat, word: Long) returns (r: seq<Byte>)
    requires address + 8 <= |memory|
    ensures r == Splice(memory, address, Reverse(Split(word, 8)))
  {
    r := memory;
    ghost var bs := Reverse(Split(word, 8));
    for i := 0 to 8
      invariant |r| == |memory|
      invariant forall k :: 0 <= k < |r| ==> r[k] == if address + 8 - i <= k < address + 8 then bs[k - address] else memory[k]
    {
      r := r[address + 7 - i := ByteOf(word, i)];
    }
  }

  function LineBytes(line: string): (b: seq<Byte>)
    ensures |b| == 8
  { if ParseUlong(line).Ok? then Reverse(Split(ParseUlong(line).value, 8)) else Repeat(0, 8) }

  function LinesBytes(lines: seq<string>): (b: seq<Byte>)
    ensures |b| == 8 * |lines|
  { if lines == [] then [] else LinesBytes(lines[..|lines| - 1]) + LineBytes(lines[|lines| - 1]) }

  // One line more, good or bad.
  lemma {:induction false} LoadableNext(lines: seq<string>, i: nat, size: nat)
    requires i < |lines| && Loadable(lines[..i], size)
    ensures Loadable(lines[..i + 1], size) <==> |lines[i]| == 16 && ParseUlong(lines[i]).Ok? && 8 * i + 8 <= size
    ensures !Loadable(lines[..i + 1], size) ==> !Loadable(lines, size)
  {
    hide ParseUlong;
    var longer := lines[..i + 1];
    assert forall j :: 0 <= j < i ==> longer[j] == lines[..i][j];
    assert longer[i] == lines[i];
    assert forall j :: 0 <= j <= i ==> longer[j] == lines[j];
  }

  lemma {:induction false} LinesBytesNext(lines: seq<string>, i: nat)
    requires i < |lines|
    ensures LinesBytes(lines[..i + 1]) == LinesBytes(lines[..i]) + LineBytes(lines[i])
  { hide LineBytes; assert lines[..i + 1][..i] == lines[..i]; }

  /** VM::load over the lines of a file. */
  method LoadLines(lines: seq<string>, size: nat) returns (r: Result<seq<Byte>>)
    ensures r.Ok? <==> Loadable(lines, size)
    ensures r.Ok? ==> r.value == LinesBytes(lines) + Repeat(0, size - 8 * |lines|)
  {
    hide ParseUlong, Reverse, Loadable, LinesBytes, Splice;
    var memory := Repeat(0, size);
    NothingLoaded(lines, size);
    for i := 0 to |lines|
      invariant |memory| == size && Loadable(lines[..i], size) && 8 * i <= size
      invariant memory == LinesBytes(lines[..i]) + Repeat(0, size - 8 * i)
    {
      var word := ParseUlong(lines[i]);
      LoadableNext(lines, i, size);
      if word.Err? || |lines[i]| != 16 { return Err(BadLine); }
      if 8 * i + 8 > size { return Err(OutOfRange); }
      memory := SetWordBig(memory, 8 * i, word.value);
      LinesBytesNext(lines, i);
      LoadNext(LinesBytes(lines[..i]), LineBytes(lines[i]), size - 8 * i);
    }
    assert lines[..|lines|] == lines;
    r := Ok(memory);
  }

  lemma {:induction false} NothingLoaded(lines: seq<string>, size: nat)
    ensures Loadable(lines[..0], size) && LinesBytes(lines[..0]) + Repeat(0, size) == Repeat(0, size)
  {}

  lemma {:induction false} LoadNext(done: seq<Byte>, line: seq<Byte>, left: nat)
    requires |line| == 8 <= left
    ensures Splice(done + Repeat(0, left), |done|, line) == done + line + Repeat(0, left - 8)
  {}

  lemma {:induction false} LineBytesBack(w: Long)
    ensures LineBytes(Line(w)) == Split(w, 8)
  {
    hide Line, ParseUlong;
    LineBack(w);
    SwapEndianInvolution(w);
    assert Reverse(Reverse(Split(w, 8))) == Split(w, 8);
  }

  lemma {:induction false} FlattenLast(ws: seq<Long>)
    requires ws != []
    ensures Flatten(ws) == Flatten(ws[..|ws| - 1]) + Split(ws[|ws| - 1], 8)
  {
    var n := |ws| - 1;
    FlattenConcat(ws[..n], [ws[n]]);
    FlattenWord([ws[n]], 0);
    assert ws == ws[..n] + [ws[n]];
    assert Flatten([ws[n]])[0..8] == Flatten([ws[n]]);
  }

  /** Loading the printed words puts their bytes in memory, in order, over zeros. */
  lemma {:induction false} LoadPrinted(ws: seq<Long>, size: nat)
    requires 8 * |ws| <= size
    ensures Loadable(SplitLines(Text(ws)), size)
    ensures LinesBytes(SplitLines(Text(ws))) == Flatten(ws)
  {
    hide Line, ParseUlong, LineBytes, Flatten;
    LinesBack(ws);
    forall i | 0 <= i < |ws| ensures ParseUlong(Line(ws[i])).Ok? { LineBack(ws[i]); }
    FlattenLines(ws);
  }

  lemma {:induction false} FlattenLines(ws: seq<Long>)
    ensures LinesBytes(seq(|ws|, i requires 0 <= i < |ws| => Line(ws[i]))) == Flatten(ws)
  {
    hide Line, LineBytes;
    if ws != [] {
      var n := |ws| - 1;
      var lines := seq(|ws|, i requires 0 <= i < |ws| => Line(ws[i]));
      assert lines[..n] == seq(n, i requires 0 <= i < n => Line(ws[..n][i]));
      FlattenLines(ws[..n]);
      LineBytesBack(ws[n]);
      FlattenLast(ws);
    }
  }

  // ----- fetching -----

  // getWord(address, Big)
  method GetWordBig(memory: seq<Byte>, address: nat) returns (w: Long)
    requires address + 8 <= |memory|
    ensures w == Join(Reverse(memory[address..address + 8]))
  {
    ghost var bs := memory[address..address + 8];
    var out: nat := 0;
    ShlZero(64);
    assert Reverse(bs[..0]) == [];
    for i := 0 to 8
      invariant out == Shl(Join(Reverse(bs[..i])), 8 * (8 - i))
    {
      BigNext(bs, i);
      out := BitOr(out, Shl(memory[address + i], 8 * (7 - i)));
    }
    assert bs[..8] == bs;
    Join8Bound(Reverse(bs));
    w := out;
  }

  lemma {:induction false} BigNext(bs: seq<Byte>, i: nat)
    requires i < |bs| == 8
    ensures BitOr(Shl(Join(Reverse(bs[..i])), 8 * (8 - i)), Shl(bs[i], 8 * (7 - i)))
      == Shl(Join(Reverse(bs[..i + 1])), 8 * (7 - i))
  {
    var x, b, k := Join(Reverse(bs[..i])), bs[i], 8 * (7 - i);
    ShlAdd(x, k, 8);
    Shl8(1);
    Shl8(x);
    ShlPositive(k);
    OrShift(0, k, Shl(x, 8), b);
    SymbolTable.OrCommutes(Shl(x, 8), b);
    OrDisjoint(b, 8, x);
    assert Reverse(bs[..i + 1]) == [b] + Reverse(bs[..i]);
    assert ([b] + Reverse(bs[..i]))[1..] == Reverse(bs[..i]);
  }

  lemma {:induction false} ShlPositive(k: nat)
    ensures Shl(1, k) > 0
  { if k > 0 { ShlPositive(k - 1); } }

  /** VM::tick's fetch and Operations::execute's swap. */
  method FetchInstruction(memory: seq<Byte>, address: nat) returns (instruction: Long)
    requires address + 8 <= |memory|
    ensures Split(instruction, 8) == memory[address..address + 8]
  {
    var big := GetWordBig(memory, address);
    ghost var bs := memory[address..address + 8];
    SplitJoin(Reverse(bs));
    instruction := SwapEndian(big);
    SplitJoin(Reverse(Reverse(bs)));
    assert Reverse(Reverse(bs)) == bs;
  }

  lemma {:induction false} PrefixSlice(a: seq<Byte>, b: seq<Byte>, i: nat, j: nat)
    requires i <= j <= |a|
    ensures (a + b)[i..j] == a[i..j]
  {}

  /** From object text to execution: print any words, load them into a machine with room for them, and fetch any
      one: the bytes there are exactly those of the assembled word, so the fetch returns that word, and decoding an
      instruction's word gives back its fields exactly when the machine files its opcode under its format. */
  lemma {:induction false} FetchesWhatWasAssembled(ws: seq<Long>, size: nat, k: nat, fetched: Long, i: Instructions.Instruction)
    requires 8 * |ws| <= size && k < |ws| && ws[k] == Instructions.Encode(i)
    requires var memory := LinesBytes(SplitLines(Text(ws))) + Repeat(0, size - 8 * |ws|);
      8 * k + 8 <= |memory| ==> Split(fetched, 8) == memory[8 * k..8 * k + 8]
    ensures fetched == ws[k]
    ensures Instructions.VmDecode(fetched) == Ok(i) <==> Instructions.VmTyped(i)
  {
    hide SplitLines, Text, Flatten, LinesBytes, Loadable, Repeat, Split, Fits, Instructions.Encode, Instructions.VmDecode,
      Instructions.VmTyped;
    LoadPrinted(ws, size);
    FlattenWord(ws, k);
    PrefixSlice(Flatten(ws), Repeat(0, size - 8 * |ws|), 8 * k, 8 * k + 8);
    Fits8(fetched);
    Fits8(ws[k]);
    SplitInjective(fetched, ws[k], 8);
    Instructions.InstructionRoundTrip(i);
  }
}
