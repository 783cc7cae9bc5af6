/** BinaryParser::extractSymbols and the symbol-table round trip. */
module SymbolReader {
  import opened Words
  import opened Longs
  import opened SymbolTable
  import opened LabelText

  // `const short length = raw[i] & 0xffff`
  function ShortLength(header: Long): int
  { if header % 0x1_0000 < 0x8000 then header % 0x1_0000 else header % 0x1_0000 - 0x1_0000 }

  function HeaderKind(header: Long): Kind { header / 0x1_0000 % 0x1_0000 }

  function HeaderId(header: Long): Id { header / 0x1_0000_0000 }

  // The entry at position i and where the next one starts. A negative length is more than std::string will reserve, and
  // reading past the vector is an error here.
  function ReadEntry(raw: seq<Long>, i: nat, hash: Hash): (r: Result<(SymbolEntry, nat)>)
  {
    if i + 1 >= |raw| then Err(OutOfRange) else
    if ShortLength(raw[i]) < 0 then Err(LengthError) else
    var stop := i + 2 + ShortLength(raw[i]);
    if stop > |raw| then Err(OutOfRange) else
    var name := Text(raw[i + 2..stop]);
    if hash(name) != HeaderId(raw[i]) then Err(BadSymbolId) else
    Ok((SymbolEntry(HeaderId(raw[i]), raw[i + 1], HeaderKind(raw[i]), name), stop))
  }

  // The entries from position i, at most `left` of them.
  function ReadTable(raw: seq<Long>, i: nat, end: nat, left: nat, hash: Hash): Result<seq<SymbolEntry>>
    decreases left
  {
    if i >= end || left == 0 then Ok([]) else
    match ReadEntry(raw, i, hash)
    case Err(e) => Err(e)
    case Ok((entry, next)) =>
      match ReadTable(raw, next, end, left - 1, hash)
      case Err(e) => Err(e)
      case Ok(rest) => Ok([entry] + rest)
  }

  // symbolIndices.try_emplace: the first entry of a name keeps it.
  function IndexMap(table: seq<SymbolEntry>): (m: map<Label, nat>)
    ensures forall k :: k in m ==> m[k] < |table| && table[m[k]].name == k
    ensures forall i :: 0 <= i < |table| ==> table[i].name in m
  {
    if table == [] then map[] else
    var last := |table| - 1;
    var m := IndexMap(table[..last]);
    if table[last].name in m then m else m[table[last].name := last]
  }

  predicate Distinct(table: seq<SymbolEntry>)
  { forall i, j :: 0 <= i < j < |table| ==> table[i].name != table[j].name }

  // ----- the loops -----

  lemma {:induction false} ShiftByte(w: Long)
    ensures Split(w / 256, 8) == Split(w, 8)[1..] + [0]
  {
    Fits8(w);
    SplitTail(w, 8);
    SplitTop(w / 256, 7);
  }

  lemma {:induction false} SplitTop(w: nat, n: nat)
    requires Fits(w, n)
    ensures Split(w, n + 1) == Split(w, n) + [0]
  {
    SplitTail(w, n + 1);
    if n > 0 {
      SplitTail(w, n);
      SplitTop(w / 256, n - 1);
    } else {
      assert Split(0, 1) == [0];
    }
  }

  // The bytes left after dropping `removed` low zeros, and what the reader has yet to drop.
  ghost predicate Dropping(w: Long, piece: Long, removed: nat)
  {
    && removed <= 8
    && Split(piece, 8) == Split(w, 8)[removed..] + Repeat(0, removed)
    && LowZeros(Split(w, 8)) == removed + LowZeros(Split(w, 8)[removed..])
  }

  lemma {:induction false} DropZero(w: Long, piece: Long, removed: nat)
    requires Dropping(w, piece, removed) && piece != 0 && piece % 256 == 0
    ensures removed < 8 && Dropping(w, piece / 256, removed + 1)
  {
    var bs := Split(w, 8);
    assert ByteOf(piece, 0) == 0 == Split(piece, 8)[0];
    if removed == 8 {
      assert Split(piece, 8) == Repeat(0, 8);
      JoinRepeat(8); Fits8(piece); JoinSplit(piece, 8);
      assert false;
    } else {
      ShiftByte(piece);
      assert bs[removed..][0] == 0;
      assert bs[removed..][1..] == bs[removed + 1..];
      assert Split(piece / 256, 8) == bs[removed + 1..] + Repeat(0, removed + 1);
    }
  }

  lemma {:induction false} DropDone(w: Long, piece: Long, removed: nat)
    requires Dropping(w, piece, removed)
    requires if w == 0 then removed == 0 else piece != 0 && piece % 256 != 0
    ensures WordText(w) == UntilNul(Split(piece, 8)[removed..])
  {
    assert ByteOf(piece, 0) == Split(piece, 8)[0] == piece % 256;
    if w != 0 && removed < 8 { assert Split(w, 8)[removed..][0] != 0; }
  }

  lemma {:induction false} UntilNulStep(bs: seq<Byte>, i: nat)
    requires i < |bs|
    ensures UntilNul(bs[i..]) == if bs[i] == 0 then [] else [bs[i]] + UntilNul(bs[i + 1..])
  { assert bs[i..][1..] == bs[i + 1..]; }

  lemma {:induction false} UntilNulEnd(bs: seq<Byte>, text: seq<Byte>)
    ensures text + UntilNul(bs[|bs|..]) == text
  {}

  /** The two inner loops of extractSymbols. */
  method ReadWord(w: Long) returns (text: seq<Byte>)
    ensures text == WordText(w)
  {
    var piece, removed := w, 0;
    DropStart(w);
    while piece != 0 && piece % 256 == 0
      invariant Dropping(w, piece, removed)
      invariant if w == 0 then removed == 0 else piece != 0
      decreases piece
    {
      DropZero(w, piece, removed);
      piece, removed := piece / 256, removed + 1;
    }
    DropDone(w, piece, removed);
    text := ReadBytes(piece, removed);
  }

  method ReadBytes(piece: Long, removed: nat) returns (text: seq<Byte>)
    requires removed <= 8
    ensures text == UntilNul(Split(piece, 8)[removed..])
  {
    hide ByteOf, UntilNul;
    text := [];
    var offset := removed;
    ghost var bs := Split(piece, 8);
    assert text + UntilNul(bs[removed..]) == UntilNul(bs[removed..]);
    while offset < 8
      invariant removed <= offset <= 8
      invariant text + UntilNul(bs[offset..]) == UntilNul(bs[removed..])
    {
      var ch := ByteOf(piece, offset);
      ReadStep(bs, removed, offset, text);
      if ch == 0 { return; }
      text := text + [ch];
      offset := offset + 1;
    }
    UntilNulEnd(bs, text);
  }

  lemma {:induction false} ReadStep(bs: seq<Byte>, removed: nat, offset: nat, text: seq<Byte>)
    requires removed <= offset < |bs|
    requires text + UntilNul(bs[offset..]) == UntilNul(bs[removed..])
    ensures if bs[offset] == 0 then text == UntilNul(bs[removed..])
      else text + [bs[offset]] + UntilNul(bs[offset + 1..]) == UntilNul(bs[removed..])
  {
    UntilNulStep(bs, offset);
    hide UntilNul;
    ConcatAssoc(text, [bs[offset]], UntilNul(bs[offset + 1..]));
  }

  lemma {:induction false} DropStart(w: Long)
    ensures Dropping(w, w, 0)
  { assert Split(w, 8)[0..] + Repeat(0, 0) == Split(w, 8) && Split(w, 8)[0..] == Split(w, 8); }

  lemma {:induction false} TextAppend(ws: seq<Long>, w: Long)
    ensures Text(ws + [w]) == Text(ws) + WordText(w)
  {
    hide WordText;
    if ws == [] {
      assert ws + [w] == [w] && Text([w]) == WordText(w) + Text([]);
    } else {
      assert (ws + [w])[1..] == ws[1..] + [w];
      TextAppend(ws[1..], w);
    }
  }

  method ReadName(words: seq<Long>) returns (name: seq<Byte>)
    ensures name == Text(words)
  {
    hide WordText;
    name := [];
    for index := 0 to |words|
      invariant name == Text(words[..index])
    {
      var piece := ReadWord(words[index]);
      assert words[..index + 1] == words[..index] + [words[index]];
      TextAppend(words[..index], words[index]);
      name := name + piece;
    }
    assert words[..|words|] == words;
  }

  /** One turn of the outer loop: the entry at i and the position after it. */
  method ExtractEntry(raw: seq<Long>, i: nat, hash: Hash) returns (r: Result<(SymbolEntry, nat)>)
    ensures r == ReadEntry(raw, i, hash)
  {
    hide Text;
    if i + 1 >= |raw| { return Err(OutOfRange); }
    var length := ShortLength(raw[i]);
    if length < 0 { return Err(LengthError); }
    var stop := i + 2 + length;
    if stop > |raw| { return Err(OutOfRange); }
    var name := ReadName(raw[i + 2..stop]);
    if hash(name) != HeaderId(raw[i]) { return Err(BadSymbolId); }
    r := Ok((SymbolEntry(HeaderId(raw[i]), raw[i + 1], HeaderKind(raw[i]), name), stop));
  }

  lemma {:induction false} TableStep(raw: seq<Long>, i: nat, end: nat, left: nat, hash: Hash)
    requires i < end && left > 0
    ensures ReadTable(raw, i, end, left, hash) == match ReadEntry(raw, i, hash)
      case Err(e) => Err(e)
      case Ok((entry, next)) => Prepend([entry], ReadTable(raw, next, end, left - 1, hash))
  { hide ReadEntry; }

  lemma {:induction false} TableEnd(raw: seq<Long>, i: nat, end: nat, left: nat, hash: Hash)
    requires i >= end || left == 0
    ensures ReadTable(raw, i, end, left, hash) == Ok([])
  {}

  lemma {:induction false} IndexMapNext(table: seq<SymbolEntry>, e: SymbolEntry)
    ensures IndexMap(table + [e]) == if e.name in IndexMap(table) then IndexMap(table) else IndexMap(table)[e.name := |table|]
  { assert (table + [e])[..|table|] == table; }

  lemma {:induction false} NoIndices()
    ensures IndexMap([]) == map[]
  {}

  /** BinaryParser::extractSymbols over the words [start, end) of raw. */
  method ExtractSymbols(raw: seq<Long>, start: nat, end: nat, hash: Hash)
    returns (r: Result<seq<SymbolEntry>>, indices: map<Label, nat>)
    ensures r == ReadTable(raw, start, end, MAX_SYMBOLS, hash)
    ensures r.Ok? ==> indices == IndexMap(r.value)
  {
    hide ReadEntry, ReadTable, IndexMap;
    var symbols := [];
    indices := map[];
    NoIndices();
    var i: nat, j: nat := start, 0;
    PrependEnds([], ReadTable(raw, start, end, MAX_SYMBOLS, hash));
    while i < end && j < MAX_SYMBOLS
      invariant j <= MAX_SYMBOLS
      invariant indices == IndexMap(symbols)
      invariant ReadTable(raw, start, end, MAX_SYMBOLS, hash)
        == Prepend(symbols, ReadTable(raw, i, end, MAX_SYMBOLS - j, hash))
      decreases MAX_SYMBOLS - j
    {
      TableStep(raw, i, end, MAX_SYMBOLS - j, hash);
      var step := ExtractEntry(raw, i, hash);
      if step.Err? { return Err(step.error), indices; }
      var (entry, next) := step.value;
      PrependStep(symbols, entry, ReadTable(raw, next, end, MAX_SYMBOLS - j - 1, hash));
      IndexMapNext(symbols, entry);
      if entry.name !in indices { indices := indices[entry.name := |symbols|]; }
      symbols := symbols + [entry];
      i, j := next, j + 1;
    }
    TableEnd(raw, i, end, MAX_SYMBOLS - j, hash);
    PrependEnds(symbols, Ok([]));
    r := Ok(symbols);
  }

  // ----- the round trip -----

  /** What an entry needs to survive: a label the words can carry, a word count that fits the signed
      16-bit field, and the id its label hashes to. */
  predicate Faithful(e: SymbolEntry, hash: Hash)
  { Carried(e.name) && NameWords(e.name) < 0x8000 && hash(e.name) == e.id }

  lemma {:induction false} HeaderRoundTrip(id: Id, words: nat, kind: Kind)
    ensures LinkerHeader(id, words, kind) < TWO64
    ensures var h := LinkerHeader(id, words, kind);
      HeaderId(h) == id && HeaderKind(h) == kind && h % 0x1_0000 == words % 0x1_0000
  {
    HeaderFields(id, words, kind);
    FieldsOf(id, kind, words % 0x1_0000, LinkerHeader(id, words, kind));
  }

  lemma {:induction false} FieldsOf(id: Id, kind: Kind, w: nat, h: Long)
    requires w < 0x1_0000 && h == 0x1_0000_0000 * id + 0x1_0000 * kind + w
    ensures HeaderId(h) == id && HeaderKind(h) == kind && h % 0x1_0000 == w
  { assert h / 0x1_0000 == 0x1_0000 * id + kind; }

  lemma {:induction false} TextLength(ws: seq<Long>)
    ensures |Text(ws)| <= 8 * |ws|
  { if ws != [] { TextLength(ws[1..]); } }

  // Reading one encoded entry, wherever it sits.
  lemma {:induction false} ReadEncoded(raw: seq<Long>, i: nat, e: SymbolEntry, hash: Hash)
    requires e.name != []
    requires i + |EncodeEntry(e)| <= |raw| && raw[i..i + |EncodeEntry(e)|] == EncodeEntry(e)
    ensures Faithful(e, hash) ==> ReadEntry(raw, i, hash) == Ok((e, i + |EncodeEntry(e)|))
    ensures ReadEntry(raw, i, hash).Ok? && ReadEntry(raw, i, hash).value.0 == e ==> Faithful(e, hash)
  {
    hide Text, LongsOf, Carried, LinkerHeader;
    var code, words := EncodeEntry(e), NameWords(e.name);
    EncodedParts(e);
    assert raw[i] == code[0] && raw[i + 1] == code[1];
    LabelRoundTrip(e.name);
    var stop := i + 2 + ShortLength(raw[i]);
    if words < 0x8000 {
      assert ShortLength(raw[i]) == words;
      assert stop == i + |code|;
      assert raw[i + 2..stop] == code[2..];
    } else if ShortLength(raw[i]) >= 0 && stop <= |raw| {
      TextLength(raw[i + 2..stop]);
    }
  }

  lemma {:induction false} EncodedParts(e: SymbolEntry)
    requires e.name != []
    ensures var code := EncodeEntry(e);
      && |code| == 2 + NameWords(e.name)
      && HeaderId(code[0]) == e.id && HeaderKind(code[0]) == e.kind && code[0] % 0x1_0000 == NameWords(e.name) % 0x1_0000
      && code[1] == e.address && code[2..] == LongsOf(e.name, true)
  {
    LongsCount(e.name, true);
    HeaderRoundTrip(e.id, NameWords(e.name), e.kind);
  }

  lemma {:induction false} EncodeTableCons(table: seq<SymbolEntry>)
    requires table != []
    ensures EncodeTable(table) == EncodeEntry(table[0]) + EncodeTable(table[1..])
    ensures |EncodeEntry(table[0])| >= 2
  {}

  /** Reading back an encoded table gives the same entries exactly when every entry is faithful and the
      table is within the reader's cap. */
  lemma {:induction false} TableRoundTrip(raw: seq<Long>, start: nat, table: seq<SymbolEntry>, left: nat, hash: Hash)
    requires Labelled(table)
    requires start + |EncodeTable(table)| <= |raw|
    requires raw[start..start + |EncodeTable(table)|] == EncodeTable(table)
    ensures ReadTable(raw, start, start + |EncodeTable(table)|, left, hash) == Ok(table)
      <==> (forall e :: e in table ==> Faithful(e, hash)) && |table| <= left
    decreases |table|
  {
    hide ReadEntry, EncodeEntry;
    if table != [] && left > 0 {
      EncodeTableCons(table);
      var first, rest := table[0], table[1..];
      var n, end := |EncodeEntry(first)|, start + |EncodeTable(table)|;
      assert raw[start..end][..n] == raw[start..start + n];
      assert raw[start..end][n..] == raw[start + n..end];
      ReadEncoded(raw, start, first, hash);
      TableRoundTrip(raw, start + n, rest, left - 1, hash);
      RestMatches(raw, start, end, left, hash, first, rest, start + n);
      assert table == [first] + rest;
    }
  }

  lemma {:induction false} RestMatches(raw: seq<Long>, i: nat, end: nat, left: nat, hash: Hash,
                    first: SymbolEntry, rest: seq<SymbolEntry>, next: nat)
    requires i < end && left > 0
    requires Faithful(first, hash) ==> ReadEntry(raw, i, hash) == Ok((first, next))
    requires ReadEntry(raw, i, hash).Ok? && ReadEntry(raw, i, hash).value.0 == first ==> Faithful(first, hash)
    ensures ReadTable(raw, i, end, left, hash) == Ok([first] + rest)
      <==> Faithful(first, hash) && ReadTable(raw, next, end, left - 1, hash) == Ok(rest)
  {
    var r := ReadTable(raw, i, end, left, hash);
    if r == Ok([first] + rest) {
      var (entry, n) := ReadEntry(raw, i, hash).value;
      var tail := ReadTable(raw, n, end, left - 1, hash);
      assert ([entry] + tail.value)[0] == entry;
      assert ([entry] + tail.value)[1..] == tail.value && ([first] + rest)[1..] == rest;
    }
  }

  /** The index map of a table with distinct labels is the inverse of the table's labels. */
  lemma {:induction false} IndexMapExact(table: seq<SymbolEntry>)
    requires Distinct(table)
    ensures forall i :: 0 <= i < |table| ==> table[i].name in IndexMap(table) && IndexMap(table)[table[i].name] == i
  {
    forall i | 0 <= i < |table| ensures IndexMap(table)[table[i].name] == i {
      var k := IndexMap(table)[table[i].name];
      assert table[k].name == table[i].name;
    }
  }
}
