/** What stands in an object file, byte by byte and number by number. */
module WireFormats {
  import opened Words
  import opened Longs
  import opened SymbolTable
  import opened SymbolMerge
  import opened SymbolReader
  import opened LabelText
  import opened DebugData
  import opened Arithmetic
  import opened Instructions
  import opened RelocationPass
  import LinkImage
  import SymbolLoader
  import ObjectText
  import R = Relocation

  // ----- labels -----

  // An earlier byte of the same word is above 127, so that its sign covers this one.
  predicate Covered(name: seq<Byte>, x: nat)
  { exists i :: 0 <= i < |name| && i < x && i / 8 == x / 8 && name[i] >= 128 }

  function LabelByte(name: seq<Byte>, x: nat): Byte
  { if Covered(name, x) then 255 else if x < |name| then name[x] else 0 }

  /** A label takes one word for each eight bytes or part of eight, the lowest byte first. A byte above 127 turns every
      byte above it in its word into 255. */
  lemma {:induction false} LabelWords(name: seq<Byte>)
    ensures |Chunks(name, true)| == (|name| + 7) / 8
    ensures forall x :: 0 <= x < 8 * |Chunks(name, true)| ==> Flatten(Chunks(name, true))[x] == LabelByte(name, x)
    decreases |name|
  {
    hide Packed, ChunkWord, Flatten, LabelByte;
    if name != [] {
      var n := if |name| < 8 then |name| else 8;
      var head, tail := name[..n], name[n..];
      var first, rest := [ChunkWord(head, true)], Chunks(tail, true);
      LabelWords(tail);
      FlattenConcat(first, rest);
      SymbolLoader.PackedBytes(head);
      assert Chunks(name, true) == first + rest;
      forall x | 0 <= x < 8 * |first + rest| ensures Flatten(first + rest)[x] == LabelByte(name, x) {
        if x < 8 { HeadByte(name, n, x); } else { TailByte(name, x); }
      }
    }
  }

  lemma {:induction false} HeadByte(name: seq<Byte>, n: nat, x: nat)
    requires name != [] && n == (if |name| < 8 then |name| else 8) && x < 8
    ensures Packed(name[..n], true)[x] == LabelByte(name, x)
  {
    var head := name[..n];
    if HighBefore(head, x, true) {
      var i :| 0 <= i < |head| && i < x && head[i] >= 128;
      assert name[i] >= 128 && i / 8 == x / 8;
    }
    if Covered(name, x) {
      var i :| 0 <= i < |name| && i < x && i / 8 == x / 8 && name[i] >= 128;
      assert head[i] >= 128;
    }
  }

  lemma {:induction false} TailByte(name: seq<Byte>, x: nat)
    requires |name| >= 8 && x >= 8
    ensures LabelByte(name[8..], x - 8) == LabelByte(name, x)
  {
    var tail := name[8..];
    if Covered(tail, x - 8) {
      var i :| 0 <= i < |tail| && i < x - 8 && i / 8 == (x - 8) / 8 && tail[i] >= 128;
      assert name[i + 8] >= 128 && (i + 8) / 8 == x / 8;
    }
    if Covered(name, x) {
      var i :| 0 <= i < |name| && i < x && i / 8 == x / 8 && name[i] >= 128;
      assert tail[i - 8] >= 128 && (i - 8) / 8 == (x - 8) / 8;
    }
  }

  // ----- symbols -----

  /** A symbol's first word has the id in its upper half, the type in the next quarter and the label's words in the last;
      its second word is the address, and then comes the label. */
  lemma {:induction false} SymbolWords(e: SymbolEntry)
    requires e.name != []
    ensures var ws := EncodeEntry(e);
      && |ws| == 2 + (|e.name| + 7) / 8
      && ws[0] == 0x1_0000_0000 * e.id + 0x1_0000 * e.kind + (|e.name| + 7) / 8 % 0x1_0000 && ws[1] == e.address
      && forall x :: 0 <= x < 8 * ((|e.name| + 7) / 8) ==> Flatten(ws[2..])[x] == LabelByte(e.name, x)
  {
    hide Flatten, LinkerHeader, Chunks, LabelByte;
    HeaderFields(e.id, NameWords(e.name), e.kind);
    LabelWords(e.name);
    WordsOf(|e.name|);
    assert EncodeEntry(e)[2..] == Chunks(e.name, true);
  }

  lemma {:induction false} WordsOf(n: nat)
    ensures UpDiv(n, 8) == (n + 7) / 8
  {}

  /** A length of 2^15 or more is read as negative, and refused. */
  lemma {:induction false} LongLabelRefused(raw: seq<Long>, i: nat, hash: Hash)
    requires i + 1 < |raw| && raw[i] % 0x1_0000 >= 0x8000
    ensures ReadEntry(raw, i, hash) == Err(LengthError)
  {}

  /** Otherwise an entry is read exactly if its words are there and its label hashes to its id. */
  lemma {:induction false} EntryReadable(raw: seq<Long>, i: nat, hash: Hash)
    requires i + 1 < |raw| && raw[i] % 0x1_0000 < 0x8000
    ensures var stop := i + 2 + raw[i] % 0x1_0000;
      ReadEntry(raw, i, hash).Ok? <==> stop <= |raw| && hash(Text(raw[i + 2..stop])) == raw[i] / 0x1_0000_0000
  { hide Text; }

  /** The machine's reader stops at a label that is too long or ends at memory's end. */
  lemma {:induction false} LoadedIf(memory: seq<Byte>, i: nat)
    requires i + 16 < |memory|
    ensures var words := Four(memory[i], memory[i + 1], 0, 0);
      SymbolLoader.LoadAt(memory, i).Some? <==> words < 0x8000 && i + 16 + 8 * words < |memory|
  {
    JoinTwo(memory[i..i + 2]);
    hide Join, SymbolLoader.StringAt;
  }

  /** The reader drops a word's zero bytes from the low end, and then as many bytes again; it takes what is left up to a
      zero byte. */
  lemma {:induction false} LabelRead(w: Long, r: nat)
    requires r <= 8 && (forall k :: 0 <= k < r ==> w / Power(k) % 256 == 0) && (r < 8 ==> w / Power(r) % 256 != 0)
    ensures w != 0 ==> r < 8
    ensures WordText(w) == if w == 0 || 2 * r >= 8 then [] else UntilNul(Split(w, 8)[2 * r..])
  {
    hide UntilNul, Power, ByteOf;
    var bs := Split(w, 8);
    forall k: nat | k < 8 ensures bs[k] == w / Power(k) % 256 { ByteIs(w, k); }
    if w == 0 {
      ZeroText();
    } else {
      if r == 8 { AllZero(bs); Fits8(w); JoinSplit(w, 8); }
      LowZerosAre(bs, r);
      var shifted := bs[r..] + Repeat(0, r);
      if 2 * r <= 8 {
        assert shifted[r..] == bs[2 * r..] + Repeat(0, r);
        TrailingZeros(bs[2 * r..], r);
      } else {
        assert shifted[r..] == Repeat(0, 8 - r);
        UntilNulZeros(8 - r);
      }
      if 2 * r == 8 { assert bs[2 * r..] == []; EmptyText(); }
    }
  }

  lemma {:induction false} EmptyText()
    ensures UntilNul([]) == []
  {}

  lemma {:induction false} ZeroText()
    ensures WordText(0) == []
  {
    hide UntilNul;
    var bs := Split(0, 8);
    assert bs[0] == ByteOf(0, 0) == 0;
    assert (bs[0..] + Repeat(0, 0))[0..] == bs;
    NulFirst(bs);
  }

  lemma {:induction false} NulFirst(bs: seq<Byte>)
    requires bs != [] && bs[0] == 0
    ensures UntilNul(bs) == []
  {}

  lemma {:induction false} AllZero(bs: seq<Byte>)
    requires |bs| == 8 && forall k :: 0 <= k < 8 ==> bs[k] == 0
    ensures Join(bs) == 0
  { assert bs == Repeat(0, 8); JoinRepeat(8); }

  lemma {:induction false} LowZerosAre(bs: seq<Byte>, r: nat)
    requires r < |bs| && bs[r] != 0 && forall k :: 0 <= k < r ==> bs[k] == 0
    ensures LowZeros(bs) == r
  { if r > 0 { LowZerosAre(bs[1..], r - 1); } }

  lemma {:induction false} TrailingZeros(bs: seq<Byte>, r: nat)
    ensures UntilNul(bs + Repeat(0, r)) == UntilNul(bs)
  {
    if bs == [] {
      assert bs + Repeat(0, r) == Repeat(0, r);
      UntilNulZeros(r);
    } else {
      assert (bs + Repeat(0, r))[1..] == bs[1..] + Repeat(0, r);
      TrailingZeros(bs[1..], r);
    }
  }

  /** The first entry of a name keeps it, in both readers. */
  lemma {:induction false} FirstKeeps(table: seq<SymbolEntry>, k: Label)
    requires k in IndexMap(table)
    ensures forall i :: 0 <= i < IndexMap(table)[k] ==> table[i].name != k
  {
    hide IndexMap;
    if table == [] {
      NoIndices();
      assert false;
    } else {
      var last := |table| - 1;
      var init := table[..last];
      assert table == init + [table[last]];
      IndexMapNext(init, table[last]);
      if k in IndexMap(init) {
        FirstKeeps(init, k);
      } else {
        forall i | 0 <= i < last ensures table[i].name != k { assert init[i] == table[i] && init[i].name in IndexMap(init); }
      }
    }
  }

  lemma {:induction false} FirstLoaded(entries: seq<SymbolLoader.Loaded>, i: nat)
    requires i < |entries| && forall j :: 0 <= j < i ==> entries[j].name != entries[i].name
    ensures entries[i].name in SymbolLoader.TableOf(entries) && SymbolLoader.TableOf(entries)[entries[i].name] == entries[i]
  {
    hide SymbolLoader.TableOf;
    var n := |entries| - 1;
    LoadedNext(entries);
    if i < n {
      FirstLoaded(entries[..n], i);
    } else {
      assert entries[n].name !in SymbolLoader.TableOf(entries[..n]);
    }
  }

  lemma {:induction false} LoadedNext(entries: seq<SymbolLoader.Loaded>)
    requires entries != []
    ensures var n := |entries| - 1; var m := SymbolLoader.TableOf(entries[..n]);
      SymbolLoader.TableOf(entries) == if entries[n].name in m then m else m[entries[n].name := entries[n]]
  {}

  // ----- symbol types -----

  /** Types 0, 1 and 2 are unknown, 3 is data and 4 code: how each is rebased, when two collide, and what each does to a
      relocation. Any other type stops the link where it is referred to. */
  lemma {:induction false} RebasedByType(e: SymbolEntry, codeBase: Long, dataBase: Long)
    ensures Rebase(e, codeBase, dataBase)
      == e.(address := (e.address + if e.kind == 4 then codeBase else if e.kind == 3 then dataBase else 0) % TWO64)
  {}

  lemma {:induction false} KnownTypes(kind: Kind)
    ensures IsUnknown(kind) <==> kind <= 2
    ensures IsDefined(kind) <==> kind == 3 || kind == 4
  {}

  /** An entry already in the table gives way to a subunit's exactly if its own type is unknown and the other's is not. */
  lemma {:induction false} WinnerByType(first: SymbolEntry, second: SymbolEntry)
    ensures Winner(first, second) == if first.kind <= 2 && second.kind > 2 then second else first
  {}

  lemma {:induction false} EffectByType(e: R.Entry, c: Context)
    requires 0 <= e.index < |c.symbols|
    ensures var s := c.symbols[e.index];
      EffectOf(e, c) == if s.kind <= 2 then Ok(Skip)
                        else if s.kind == 3 then Ok(Patch(e.isData, e.site, e.kind, (s.address + e.offset + c.dataOffset) % TWO64))
                        else if s.kind == 4 then Ok(Patch(e.isData, e.site, e.kind, (s.address + e.offset + c.codeOffset) % TWO64))
                        else Err(BadSymbolType)
  {
    var s := c.symbols[e.index];
    SumOfThree(s.address, e.offset, c.dataOffset);
    SumOfThree(s.address, e.offset, c.codeOffset);
    hide Plus;
  }

  lemma {:induction false} SumOfThree(a: Long, b: Long, c: Long)
    ensures Plus(Plus(a, b), c) == (a + b + c) % TWO64
  {
    var q := (a + b) / TWO64;
    assert a + b == Plus(a, b) + TWO64 * q;
    WrapTurns(Plus(a, b) + c, q);
  }

  /** A link without `.end` gets an entry for it: those four characters, no type, no address yet. */
  lemma {:induction false} EndLabel(c: LinkImage.Combined, hash: Hash)
    requires [46, 101, 110, 100] !in c.indices
    ensures var end: Label := [46, 101, 110, 100];
      LinkImage.EndedSymbols(c, hash) == c.symbols + [SymbolEntry(hash(end), 0, 0, end)]
      && LinkImage.EndedIndices(c) == c.indices[end := |c.symbols|]
  {}

  // ----- relocations -----

  /** A relocation is three words: section, type and symbol in the first, then the addend, then the site. */
  lemma {:induction false} RelocationWords(e: R.Entry)
    ensures R.Encode(e) == [(if e.isData then 1 else 0) + 2 * e.kind + 8 * (e.index % 0x2000_0000_0000_0000), e.offset, e.site]
  { R.HeaderValue(e); hide R.HeaderOf; }

  // ----- debug data -----

  // Bytes p to p + n of b are x's lowest, in order.
  predicate Spells(b: seq<Byte>, p: nat, n: nat, x: nat)
  { p + n <= |b| && forall k :: 0 <= k < n ==> b[p + k] == x / Power(k) % 256 }

  lemma {:induction false} SplitSpells(b: seq<Byte>, p: nat, n: nat, x: nat)
    requires p + n <= |b| && b[p..p + n] == Split(x, n)
    ensures Spells(b, p, n, x)
  {
    hide Power, ByteOf;
    forall k: nat | k < n ensures b[p + k] == x / Power(k) % 256 {
      ByteIs(x, k);
      assert b[p..p + n][k] == b[p + k];
    }
  }

  /** A location is 24 bytes: type 3, three bytes of file index, four of line, three of column, one of count, four of
      function index, eight of address. */
  lemma {:induction false} LocationBytes(e: DebugEntry)
    requires e.Location?
    ensures var b := Flatten(EncodeDebug([e]));
      |b| == 24 && b[0] == 3 && Spells(b, 1, 3, e.file) && Spells(b, 4, 4, e.line) && Spells(b, 8, 3, e.column)
      && b[11] == e.count && Spells(b, 12, 4, e.func) && Spells(b, 16, 8, e.address)
  {
    hide Flatten, Split, Spells;
    OneEntry(e);
    var b := EntryBytes(e);
    assert Flatten(EntryWords(e))[..24] == b;
    assert Flatten(EntryWords(e)) == b;
    LocationParts(e);
    SplitSpells(b, 1, 3, e.file); SplitSpells(b, 4, 4, e.line); SplitSpells(b, 8, 3, e.column);
    SplitSpells(b, 12, 4, e.func); SplitSpells(b, 16, 8, e.address);
  }

  lemma {:induction false} LocationParts(e: DebugEntry)
    requires e.Location?
    ensures var b := EntryBytes(e);
      |b| == 24 && b[0] == 3 && b[1..4] == Split(e.file, 3) && b[4..8] == Split(e.line, 4) && b[8..11] == Split(e.column, 3)
      && b[11] == e.count && b[12..16] == Split(e.func, 4) && b[16..24] == Split(e.address, 8)
  { hide ByteOf; }

  lemma {:induction false} OneEntry(e: DebugEntry)
    ensures EncodeDebug([e]) == EntryWords(e)
  {
    hide EntryWords;
    assert [e][1..] == [];
    assert EntryWords(e) + [] == EntryWords(e);
  }

  /** A filename (type 1) or function name (type 2) has three bytes of length and its characters, and zeros up to a whole
      word. */
  lemma {:induction false} NameBytes(e: DebugEntry)
    requires e.Filename? || e.FunctionName?
    ensures var b, n := Flatten(EncodeDebug([e])), |e.text|;
      && |b| == 8 * ((n + 11) / 8) && b[0] == (if e.Filename? then 1 else 2) && Spells(b, 1, 3, n) && b[4..4 + n] == e.text
      && forall x :: 4 + n <= x < |b| ==> b[x] == 0
  {
    hide Flatten, Split, Spells, Chunks;
    OneEntry(e);
    var b, own, n := Flatten(EntryWords(e)), EntryBytes(e), |e.text|;
    NameParts(e);
    ChunksBytes(own);
    assert b == own + Repeat(0, 8 * UpDiv(|own|, 8) - |own|);
    WordsOf(|own|);
    assert b[1..4] == own[1..4];
    SplitSpells(b, 1, 3, n);
  }

  lemma {:induction false} NameParts(e: DebugEntry)
    requires e.Filename? || e.FunctionName?
    ensures var b, n := EntryBytes(e), |e.text|;
      |b| == 4 + n && b[0] == (if e.Filename? then 1 else 2) && b[1..4] == Split(n, 3) && b[4..] == e.text
  { hide ByteOf; }

  /** Other types are refused. */
  lemma {:induction false} OtherDebugTypes(image: seq<Byte>, p: nat)
    requires p + 8 <= |image| && (image[p] == 0 || image[p] > 3)
    ensures EntryAt(image, p) == Err(BadDebugType)
  {}

  // ----- instructions -----

  /** The opcodes of each format; the machine does not decode opcode 12 or 44 to 47. */
  lemma {:induction false} OpcodeFormats(op: Opcode)
    ensures IsRType(op) <==> op in {1, 2, 12, 14, 17, 18, 31, 48, 50, 56, 61, 65, 66, 68}
    ensures IsJType(op) <==> op in {15, 16, 44, 45, 46, 47}
    ensures IsIType(op) <==> 1 <= op <= 68 && !IsRType(op) && !IsJType(op)
    ensures IsVmRType(op) <==> IsRType(op) && op != 12
    ensures IsVmJType(op) <==> op == 15 || op == 16
  {}

  /** An instruction's fields in its word. */
  lemma {:induction false} InstructionWord(i: Instruction)
    ensures Encode(i) == match i
      case Nop => 0
      case R(op, rs, rt, rd, funct, cond, flags) =>
        funct + 0x1000 * flags + 0x4000 * cond + 0x8000_0000 * rd + 0x40_0000_0000 * rs + 0x2000_0000_0000 * rt
        + 0x10_0000_0000_0000 * op
      case I(op, rs, rd, imm, cond, flags) =>
        imm + 0x1_0000_0000 * rd + 0x80_0000_0000 * rs + 0x4000_0000_0000 * flags + 0x1_0000_0000_0000 * cond
        + 0x10_0000_0000_0000 * op
      case J(op, rs, link, imm, cond, flags) =>
        imm + 0x1_0000_0000 * flags + 0x4_0000_0000 * cond + (if link then 0x1000_0000_0000 else 0) + 0x2000_0000_0000 * rs
        + 0x10_0000_0000_0000 * op
  {
    hide CompileR, CompileI, CompileJ;
    match i
    case Nop =>
    case R(op, rs, rt, rd, funct, cond, flags) => SumR(op, rs, rt, rd, funct, flags, cond);
    case I(op, rs, rd, imm, cond, flags) => SumI(op, rs, rd, imm, flags, cond);
    case J(op, rs, link, imm, cond, flags) => SumJ(op, rs, imm, link, flags, cond);
  }

  // ----- object text -----

  /** Byte j of a word is printed as its digits 2j and 2j + 1, in lower case, the higher one first. */
  lemma {:induction false} LineDigits(w: Long, j: nat)
    requires j < 8
    ensures var b, s := w / Power(j) % 256, ObjectText.Line(w);
      |s| == 16 && s[2 * j] == "0123456789abcdef"[b / 16] && s[2 * j + 1] == "0123456789abcdef"[b % 16]
  {
    hide Power, ByteOf, ObjectText.BytesText;
    ByteIs(w, j);
    BytesDigits(Split(w, 8), j);
  }

  lemma {:induction false} BytesDigits(bs: seq<Byte>, j: nat)
    requires j < |bs|
    ensures var s := ObjectText.BytesText(bs);
      s[2 * j] == "0123456789abcdef"[bs[j] / 16] && s[2 * j + 1] == "0123456789abcdef"[bs[j] % 16]
  {
    var n := |bs| - 1;
    if j < n { BytesDigits(bs[..n], j); }
  }

  /** The sixteen digits, in either case, and nothing else. */
  lemma {:induction false} DigitValues(c: char, d: ObjectText.Digit)
    ensures ObjectText.DigitOf(c) == Some(d) <==> c == "0123456789abcdef"[d] || c == "0123456789ABCDEF"[d]
  {}

  // The value of a character that is a digit.
  function DigitAt(s: string, i: nat): int
    requires i < |s|
  { if ObjectText.DigitOf(s[i]).Some? then ObjectText.DigitOf(s[i]).value else 0 }

  predicate AllDigits(s: string) { forall i :: 0 <= i < |s| ==> ObjectText.DigitOf(s[i]).Some? }

  function Pair(s: string, j: nat): Byte
    requires 2 * j + 1 < |s|
  { (16 * DigitAt(s, 2 * j) + DigitAt(s, 2 * j + 1)) % 256 }

  function Pairs(s: string): (b: seq<Byte>)
    ensures |b| == |s| / 2
  { seq(|s| / 2, j requires 0 <= j < |s| / 2 => Pair(s, j)) }

  lemma {:induction false} PairsValue(s: string)
    requires |s| % 2 == 0 && AllDigits(s)
    ensures ObjectText.HexValue(s) == Some(Join(Reverse(Pairs(s))))
    decreases |s|
  {
    hide ObjectText.DigitOf, ObjectText.HexValue, Join, Pair;
    if s == "" {
      assert Reverse(Pairs(s)) == [];
      NoDigits();
    } else {
      var init := s[..|s| - 2];
      PairsValue(init);
      TwoMore(s);
      LastPair(s);
    }
  }

  lemma {:induction false} NoDigits()
    ensures ObjectText.HexValue("") == Some(0) && Join([]) == 0
  {}

  lemma {:induction false} TwoMore(s: string)
    requires |s| >= 2 && |s| % 2 == 0 && AllDigits(s) && ObjectText.HexValue(s[..|s| - 2]).Some?
    ensures ObjectText.HexValue(s) == Some(256 * ObjectText.HexValue(s[..|s| - 2]).value + Pair(s, |s| / 2 - 1))
  {
    hide ObjectText.DigitOf, ObjectText.HexValue;
    var t, init := s[..|s| - 1], s[..|s| - 2];
    assert t[..|t| - 1] == init && DigitAt(t, |t| - 1) == DigitAt(s, |s| - 2);
    OneMore(t);
    OneMore(s);
    hide DigitAt, AllDigits;
    PairIs(s, |s| / 2 - 1);
    assert 2 * (|s| / 2 - 1) == |s| - 2;
  }

  lemma {:induction false} OneMore(s: string)
    requires s != "" && AllDigits(s) && ObjectText.HexValue(s[..|s| - 1]).Some?
    ensures ObjectText.HexValue(s) == Some(16 * ObjectText.HexValue(s[..|s| - 1]).value + DigitAt(s, |s| - 1))
  { hide ObjectText.DigitOf; assert ObjectText.DigitOf(s[|s| - 1]).Some?; }

  lemma {:induction false} LastPair(s: string)
    requires |s| >= 2 && |s| % 2 == 0
    ensures Join(Reverse(Pairs(s))) == Pair(s, |s| / 2 - 1) + 256 * Join(Reverse(Pairs(s[..|s| - 2])))
  {
    hide ObjectText.DigitOf;
    var n := |s| / 2 - 1;
    var init := s[..|s| - 2];
    assert forall j :: 0 <= j < n ==> Pair(s, j) == Pair(init, j);
    hide Join, Pair;
    var b := Reverse(Pairs(s));
    assert b[1..] == Reverse(Pairs(init));
    JoinNext(b);
  }

  /** A line of sixteen digits puts sixteen times its even digits plus its odd ones in memory, from left to right. */
  lemma {:induction false} LineInMemory(line: string, j: nat)
    requires |line| == 16 && AllDigits(line) && j < 8
    ensures ObjectText.LineBytes(line)[j] == 16 * DigitAt(line, 2 * j) + DigitAt(line, 2 * j + 1)
  {
    hide ObjectText.HexValue, Join, Pair;
    PairsValue(line);
    var b := Pairs(line);
    Plainly(line);
    Join8Bound(Reverse(b));
    SplitJoin(Reverse(b));
    assert Reverse(Reverse(b)) == b;
    assert ObjectText.LineBytes(line) == b;
    PairIs(line, j);
  }

  lemma {:induction false} PairIs(s: string, j: nat)
    requires 2 * j + 1 < |s|
    ensures Pair(s, j) == 16 * DigitAt(s, 2 * j) + DigitAt(s, 2 * j + 1)
  { hide ObjectText.DigitOf; }

  lemma {:induction false} Plainly(s: string)
    requires s != "" && AllDigits(s)
    ensures ObjectText.SkipSpaces(s) == s && !ObjectText.HasSign(s) && ObjectText.DropPrefix(s) == s
  {
    forall c | c in s ensures ObjectText.DigitOf(c).Some? { var i :| 0 <= i < |s| && s[i] == c; }
    hide ObjectText.DigitOf, AllDigits;
    ObjectText.PlainDigits(s);
  }

  /** A line of digits is its number, if that fits 64 bits; a sign, spaces in front and "0x" count for what std::stoul
      makes of them. */
  lemma {:induction false} DigitLine(s: string)
    requires s != "" && AllDigits(s)
    ensures ObjectText.HexValue(s).Some? && ObjectText.HexValue(s).value < TWO64 ==>
      ObjectText.ParseUlong(s) == Ok(ObjectText.HexValue(s).value)
    ensures ObjectText.HexValue(s).Some? && ObjectText.HexValue(s).value >= TWO64 ==> ObjectText.ParseUlong(s) == Err(BadLine)
  {
    Plainly(s);
    hide AllDigits, ObjectText.SkipSpaces, ObjectText.HasSign, ObjectText.DropPrefix, ObjectText.HexValue;
  }

  lemma {:induction false} SignedLine(s: string, sign: char)
    requires s != "" && AllDigits(s) && (sign == '+' || sign == '-')
    ensures ObjectText.ParseUlong([sign] + s) == match ObjectText.ParseUlong(s)
      case Ok(n) => Ok(if sign == '+' then n else (TWO64 - n) % TWO64)
      case Err(_) => Err(BadLine)
  {
    Plainly(s);
    var t := [sign] + s;
    assert t[1..] == s;
    SignFirst(t);
    hide AllDigits, ObjectText.SkipSpaces, ObjectText.HasSign, ObjectText.DropPrefix, ObjectText.HexValue, Minus;
    if ObjectText.ParseUlong(s).Ok? { Negated(ObjectText.ParseUlong(s).value); }
  }

  lemma {:induction false} SignFirst(t: string)
    requires t != "" && (t[0] == '+' || t[0] == '-')
    ensures ObjectText.SkipSpaces(t) == t && ObjectText.HasSign(t)
  {}

  lemma {:induction false} Negated(n: Long)
    ensures Minus(0, n) == (TWO64 - n) % TWO64
  {}

  lemma {:induction false} SpacedLine(s: string, space: char)
    requires space == ' ' || 9 <= space as int <= 13
    ensures ObjectText.ParseUlong([space] + s) == ObjectText.ParseUlong(s)
  {
    assert ([space] + s)[1..] == s;
    assert ObjectText.SkipSpaces([space] + s) == ObjectText.SkipSpaces(s);
    hide ObjectText.SkipSpaces, ObjectText.HexValue, ObjectText.DropPrefix;
  }

  lemma {:induction false} PrefixedLine(s: string, x: char)
    requires s != "" && AllDigits(s) && (x == 'x' || x == 'X')
    ensures ObjectText.ParseUlong(['0', x] + s) == ObjectText.ParseUlong(s)
  {
    Plainly(s);
    var t := ['0', x] + s;
    assert t[2..] == s && t[2] == s[0];
    assert ObjectText.DigitOf(s[0]).Some?;
    hide ObjectText.HexValue, ObjectText.DigitOf;
    assert ObjectText.SkipSpaces(t) == t && !ObjectText.HasSign(t) && ObjectText.DropPrefix(t) == s;
  }
}
