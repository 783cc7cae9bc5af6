/** The linked image read back: its header, its sections, and the unit the binary parser finds in it. */
module ImageLayout {
  import opened Words
  import opened SymbolTable
  import opened SymbolReader
  import opened LabelText
  import opened SymbolMerge
  import opened DebugData
  import opened BinaryParser
  import opened LinkImage
  import R = Relocation
  import P = RelocationPass

  // The six sections are addressable in 64 bits.
  predicate Addressable(p: Pieces)
    requires p.meta != []
  { p.meta[0] + 8 * (|p.code| + |p.data| + |p.table| + |p.debug| + |p.relocs|) < TWO64 }

  // Pieces under the header link() writes over a metadata block whose own offset is right.
  predicate Headed(p: Pieces)
  {
    && |p.meta| >= 7 && p.meta[0] / 8 == |p.meta| && Addressable(p)
    && p.meta == Header(p.meta, |p.code|, |p.data|, |p.table|, |p.debug|, |p.relocs|)
  }

  // Where each section starts, in words.
  function Start(p: Pieces, k: nat): nat
    requires k <= 6
  {
    if k == 0 then 0
    else if k == 1 then |p.meta|
    else if k == 2 then |p.meta| + |p.code|
    else if k == 3 then |p.meta| + |p.code| + |p.data|
    else if k == 4 then |p.meta| + |p.code| + |p.data| + |p.table|
    else if k == 5 then |p.meta| + |p.code| + |p.data| + |p.table| + |p.debug|
    else |p.meta| + |p.code| + |p.data| + |p.table| + |p.debug| + |p.relocs|
  }

  lemma {:induction false} PrefixSums(p: Pieces)
    requires Headed(p)
    ensures var m, r := p.meta, p.meta[0] % 8;
      && m[0] == r + 8 * Start(p, 1) && m[1] == r + 8 * Start(p, 2) && m[2] == r + 8 * Start(p, 3)
      && m[3] == r + 8 * Start(p, 4) && m[4] == r + 8 * Start(p, 5) && m[5] == r + 8 * Start(p, 6)
  {
    hide Wrap;
    var m := p.meta[0];
    NoWrap(m + 8 * |p.code|);
    NoWrap(m + 8 * |p.code| + 8 * |p.data|);
    NoWrap(m + 8 * |p.code| + 8 * |p.data| + 8 * |p.table|);
    NoWrap(m + 8 * |p.code| + 8 * |p.data| + 8 * |p.table| + 8 * |p.debug|);
    NoWrap(m + 8 * |p.code| + 8 * |p.data| + 8 * |p.table| + 8 * |p.debug| + 8 * |p.relocs|);
  }

  /** Slicing the image at its own header offsets gives back exactly the sections that were concatenated. */
  lemma {:induction false} ImageSections(p: Pieces)
    requires Headed(p)
    ensures var raw := Joined(p);
      && |raw| == Start(p, 6) && Layout(raw) && (forall k :: 0 <= k < 6 ==> raw[k] == p.meta[k])
      && raw[0] / 8 == Start(p, 1) && raw[1] / 8 == Start(p, 2) && raw[2] / 8 == Start(p, 3)
      && raw[3] / 8 == Start(p, 4) && raw[4] / 8 == Start(p, 5) && raw[5] / 8 == Start(p, 6)
    ensures var raw := Joined(p);
      && raw[..Start(p, 1)] == p.meta && raw[Start(p, 1)..Start(p, 2)] == p.code && raw[Start(p, 2)..Start(p, 3)] == p.data
      && raw[Start(p, 3)..Start(p, 4)] == p.table && raw[Start(p, 4)..Start(p, 5)] == p.debug
      && raw[Start(p, 5)..Start(p, 6)] == p.relocs
  {
    PrefixSums(p);
    JoinedSlices(p);
    hide Joined;
    var raw := Joined(p);
    assert forall k :: 0 <= k < 6 ==> raw[k] == raw[..Start(p, 1)][k];
  }

  lemma {:induction false} JoinedSlices(p: Pieces)
    ensures var raw := Joined(p);
      && |raw| == Start(p, 6)
      && raw[..Start(p, 1)] == p.meta && raw[Start(p, 1)..Start(p, 2)] == p.code && raw[Start(p, 2)..Start(p, 3)] == p.data
      && raw[Start(p, 3)..Start(p, 4)] == p.table && raw[Start(p, 4)..Start(p, 5)] == p.debug
      && raw[Start(p, 5)..Start(p, 6)] == p.relocs
  {
    hide Joined, Start;
    StartsAdd(p);
    HeadSlices(p);
    CutTwo(Joined(p), Start(p, 3), p.table, p.debug, p.relocs);
    assert Joined(p)[Start(p, 5)..Start(p, 6)] == Joined(p)[Start(p, 5)..];
  }

  lemma {:induction false} HeadSlices(p: Pieces)
    ensures var raw := Joined(p);
      && Start(p, 3) <= |raw|
      && raw[..Start(p, 1)] == p.meta && raw[Start(p, 1)..Start(p, 2)] == p.code && raw[Start(p, 2)..Start(p, 3)] == p.data
      && raw[Start(p, 3)..] == p.table + (p.debug + p.relocs)
  {
    hide Joined, Start;
    StartsAdd(p);
    JoinedTail(p);
    CutThree(Joined(p), 0, p.meta, p.code, p.data, p.table + (p.debug + p.relocs));
    assert Joined(p)[..Start(p, 1)] == Joined(p)[0..Start(p, 1)];
  }

  lemma {:induction false} StartsAdd(p: Pieces)
    ensures Start(p, 1) == |p.meta| && Start(p, 2) == Start(p, 1) + |p.code| && Start(p, 3) == Start(p, 2) + |p.data|
    ensures Start(p, 4) == Start(p, 3) + |p.table| && Start(p, 5) == Start(p, 4) + |p.debug|
    ensures Start(p, 6) == Start(p, 5) + |p.relocs|
  {}

  lemma {:induction false} CutTwo(raw: seq<Long>, n: nat, a: seq<Long>, b: seq<Long>, c: seq<Long>)
    requires n <= |raw| && raw[n..] == a + (b + c)
    ensures |raw| == n + |a| + |b| + |c|
    ensures raw[n..n + |a|] == a && raw[n + |a|..n + |a| + |b|] == b && raw[n + |a| + |b|..] == c
  {
    Cut(raw, n, a, b + c);
    Cut(raw, n + |a|, b, c);
  }

  lemma {:induction false} CutThree(raw: seq<Long>, n: nat, a: seq<Long>, b: seq<Long>, c: seq<Long>, d: seq<Long>)
    requires n <= |raw| && raw[n..] == a + (b + (c + d))
    ensures |raw| == n + |a| + |b| + |c| + |d|
    ensures raw[n..n + |a|] == a && raw[n + |a|..n + |a| + |b|] == b
    ensures raw[n + |a| + |b|..n + |a| + |b| + |c|] == c && raw[n + |a| + |b| + |c|..] == d
  {
    Cut(raw, n, a, b + (c + d));
    Cut(raw, n + |a|, b, c + d);
    Cut(raw, n + |a| + |b|, c, d);
  }

  lemma {:induction false} JoinedTail(p: Pieces)
    ensures Joined(p)[0..] == p.meta + (p.code + (p.data + (p.table + (p.debug + p.relocs))))
  {}

  // The next section of what is left from position n on.
  lemma {:induction false} Cut(raw: seq<Long>, n: nat, a: seq<Long>, b: seq<Long>)
    requires n <= |raw| && raw[n..] == a + b
    ensures |raw| == n + |a| + |b| && raw[n..n + |a|] == a && raw[n + |a|..] == b
  {
    assert raw[n..][..|a|] == raw[n..n + |a|];
    assert raw[n..][|a|..] == raw[n + |a|..];
  }

  /** `.end` is the start of the relocation section exactly when the main unit's metadata length is whole words. */
  lemma {:induction false} EndIsRelocationStart(meta: seq<Long>, c: Combined, hash: Hash)
    requires |meta| >= 7 && meta[0] / 8 == |meta| && Pointing(c.symbols, c.indices) && Closable(meta, c, hash)
    requires Addressable(PiecesOf(meta, c, hash))
    ensures var p := PiecesOf(meta, c, hash);
      && Headed(p) && END in EndedIndices(c) && EndedIndices(c)[END] < |FinalSymbols(meta, c, hash)|
      && (FinalSymbols(meta, c, hash)[EndedIndices(c)[END]].address == p.meta[4] <==> meta[0] % 8 == 0)
  {
    hide EncodeTable, EncodeDebug, R.EncodeAll, PatchedSections, FinalRelocs, FinalSymbols, EndedSymbols, EndedIndices, Wrap, Closable, Pointing;
    var p := PiecesOf(meta, c, hash);
    HeaderAgain(meta, |p.code|, |p.data|, |p.table|, |p.debug|, |p.relocs|);
    PrefixSums(p);
    FinalTableSize(meta, c, hash);
    EndedPoints(c, hash);
    EndEntry(meta, c, hash);
    EndSum(meta, c, hash);
  }

  lemma {:induction false} EndSum(meta: seq<Long>, c: Combined, hash: Hash)
    requires meta != [] && Pointing(c.symbols, c.indices) && Closable(meta, c, hash)
    requires 8 * (|meta| + |EncodeTable(EndedSymbols(c, hash))| + |c.code| + |c.data| + |EncodeDebug(c.debug)|) < TWO64
    ensures EndAddress(meta, c, hash)
      == 8 * (|meta| + |EncodeTable(EndedSymbols(c, hash))| + |c.code| + |c.data| + |EncodeDebug(c.debug)|)
  {
    hide EncodeTable, EncodeDebug, EndedSymbols, Wrap, Closable, Pointing;
    NoWrap(8 * (|meta| + |EncodeTable(EndedSymbols(c, hash))| + |c.code| + |c.data| + |EncodeDebug(c.debug)|));
  }

  lemma {:induction false} EndEntry(meta: seq<Long>, c: Combined, hash: Hash)
    requires Pointing(c.symbols, c.indices)
    ensures END in EndedIndices(c) && EndedIndices(c)[END] < |FinalSymbols(meta, c, hash)|
    ensures FinalSymbols(meta, c, hash)[EndedIndices(c)[END]].address == EndAddress(meta, c, hash)
  { EndedPoints(c, hash); hide EndAddress; }

  lemma {:induction false} HeaderAgain(meta: seq<Long>, code: nat, data: nat, table: nat, debug: nat, relocs: nat)
    requires |meta| >= 6
    ensures var r := Header(meta, code, data, table, debug, relocs); Header(r, code, data, table, debug, relocs) == r
  {}

  // What the image holds.
  function LinkedUnit(meta: seq<Long>, c: Combined, hash: Hash): Unit
    requires Pointing(c.symbols, c.indices) && |meta| >= 6 && Closable(meta, c, hash)
  {
    var p := PiecesOf(meta, c, hash);
    Unit(p.meta, p.code, p.data, |p.table|, FinalSymbols(meta, c, hash), c.debug, R.Forget(FinalRelocs(meta, c, hash)),
         p.meta[0], Minus(p.meta[1], p.meta[0]), Minus(p.meta[2], p.meta[1]))
  }

  predicate AllFaithful(symbols: seq<SymbolEntry>, hash: Hash)
  { (forall e :: e in symbols ==> Faithful(e, hash)) && |symbols| <= MAX_SYMBOLS }

  // What the image format demands of the combined unit.
  predicate Representable(u: Unit, hash: Hash)
    requires |u.meta| >= 7
  {
    && AllFaithful(u.symbols, hash) && AllInRange(u.debug) && CodeParses(u.code) && ThreeStrings(u.meta[7..])
  }

  // Three decoders, each over its own section.
  lemma {:induction false} ReadSections(raw: seq<Long>, symbols: seq<SymbolEntry>, debug: seq<DebugEntry>, relocs: seq<R.Entry>,
      table: nat, debugStart: nat, relocStart: nat, end: nat, hash: Hash)
    requires Labelled(symbols) && Writable(debug)
    requires table <= debugStart <= relocStart <= end <= |raw|
    requires raw[table..debugStart] == EncodeTable(symbols) && raw[debugStart..relocStart] == EncodeDebug(debug)
    requires raw[relocStart..end] == R.EncodeAll(relocs)
    ensures ReadTable(raw, table, debugStart, MAX_SYMBOLS, hash) == Ok(symbols) <==> AllFaithful(symbols, hash)
    ensures ReadDebug(Flatten(raw), 8 * debugStart, 8 * relocStart) == Ok(debug) <==> AllInRange(debug)
    ensures R.DecodeAll(raw[relocStart..end]) == Ok(R.Forget(relocs))
  {
    hide EncodeTable, EncodeDebug, R.EncodeAll, Faithful, AllInRange, ReadTable, ReadDebug, Flatten, Writable, R.Forget, R.DecodeAll;
    assert |EncodeTable(symbols)| == debugStart - table && |EncodeDebug(debug)| == relocStart - debugStart;
    TableRoundTrip(raw, table, symbols, MAX_SYMBOLS, hash);
    FlattenSlice(raw, debugStart, relocStart);
    assert |Flatten(raw)| == 8 * |raw|;
    DebugRoundTrip(Flatten(raw), 8 * debugStart, debug);
    R.RelocationRoundTrip(relocs);
  }

  lemma {:induction false} PiecesHeaded(meta: seq<Long>, c: Combined, hash: Hash)
    requires |meta| >= 7 && meta[0] / 8 == |meta| && Pointing(c.symbols, c.indices) && Closable(meta, c, hash)
    requires Addressable(PiecesOf(meta, c, hash))
    ensures Headed(PiecesOf(meta, c, hash))
    ensures Labelled(FinalSymbols(meta, c, hash)) && Writable(c.debug)
  {
    hide EncodeTable, EncodeDebug, R.EncodeAll, PatchedSections, FinalRelocs, FinalSymbols, EndedSymbols, Wrap, Pointing, P.Relocatable, Writable, Labelled;
    var p := PiecesOf(meta, c, hash);
    HeaderAgain(meta, |p.code|, |p.data|, |p.table|, |p.debug|, |p.relocs|);
    ClosedTable(meta, c, hash);
  }

  lemma {:induction false} ParsedAs(raw: seq<Long>, hash: Hash, u: Unit)
    requires Layout(raw) && |u.meta| >= 7
    requires var code, data, table, debug, reloc, end := raw[0] / 8, raw[1] / 8, raw[2] / 8, raw[3] / 8, raw[4] / 8, raw[5] / 8;
      && u.meta == raw[..code] && u.code == raw[code..data] && u.data == raw[data..table] && u.symbolWords == debug - table
      && u.metaBytes == raw[0] && u.codeBytes == Minus(raw[1], raw[0]) && u.dataBytes == Minus(raw[2], raw[1])
      && R.DecodeAll(raw[reloc..end]) == Ok(u.relocs)
    ensures var table, debug, reloc := raw[2] / 8, raw[3] / 8, raw[4] / 8;
      ParseUnit(raw, hash) == Ok(u)
      <==> ReadTable(raw, table, debug, MAX_SYMBOLS, hash) == Ok(u.symbols)
           && ReadDebug(Flatten(raw), 8 * debug, 8 * reloc) == Ok(u.debug)
           && CodeParses(u.code) && ThreeStrings(u.meta[7..])
  {
    hide ReadTable, ReadDebug, Flatten, CodeParses, ThreeStrings, R.DecodeAll, Minus;
    assert raw[..raw[0] / 8][7..] == raw[7..raw[0] / 8];
  }

  /** The binary parser reads the linked image back as exactly the combined unit, with its sections patched and
      its relocations resolved, precisely when the format can represent that unit. */
  lemma {:induction false} ImageRoundTrip(meta: seq<Long>, c: Combined, hash: Hash)
    requires |meta| >= 7 && meta[0] / 8 == |meta| && Pointing(c.symbols, c.indices) && Closable(meta, c, hash)
    requires Addressable(PiecesOf(meta, c, hash))
    ensures |LinkedUnit(meta, c, hash).meta| >= 7
    ensures ParseUnit(Joined(PiecesOf(meta, c, hash)), hash) == Ok(LinkedUnit(meta, c, hash))
      <==> Representable(LinkedUnit(meta, c, hash), hash)
  {
    hide EncodeTable, EncodeDebug, R.EncodeAll, PatchedSections, FinalRelocs, FinalSymbols, EndedSymbols, Wrap, Pointing,
      Joined, Start, Faithful, AllInRange, ReadTable, ReadDebug, Flatten, R.Forget, R.DecodeAll, Layout, Closable,
      ParseUnit, CodeParses, ThreeStrings, Minus;
    var p := PiecesOf(meta, c, hash);
    PiecesHeaded(meta, c, hash);
    ImageSections(p);
    StartsAdd(p);
    ReadSections(Joined(p), FinalSymbols(meta, c, hash), c.debug, FinalRelocs(meta, c, hash),
                 Start(p, 3), Start(p, 4), Start(p, 5), Start(p, 6), hash);
    ParsedAs(Joined(p), hash, LinkedUnit(meta, c, hash));
  }

  // ----- the format's limits, in numbers -----

  // A label that survives: short enough, hashing to its id, with no NUL, and no byte above 127 inside a word unless a byte
  // 255 follows.
  predicate Survives(e: SymbolEntry, hash: Hash)
  { |e.name| <= 262136 && hash(e.name) == e.id && forall i :: 0 <= i < |e.name| ==> ByteSurvives(e.name, i) }

  predicate ByteSurvives(name: Label, i: nat)
    requires i < |name|
  { name[i] != 0 && (name[i] < 128 || i % 8 == 7 || (i + 1 < |name| && name[i + 1] == 255)) }

  // A debug entry that survives.
  predicate EntrySurvives(e: DebugEntry)
  {
    match e
    case Location(file, _, column, _, _, _) => file < 16777216 && column < 16777216
    case _ => |e.text| < 16777216
  }

  lemma {:induction false} SurvivesIs(e: SymbolEntry, hash: Hash)
    ensures Faithful(e, hash) <==> Survives(e, hash)
  {
    assert NameWords(e.name) < 0x8000 <==> |e.name| <= 262136;
    assert forall i :: 0 <= i < |e.name| ==> CarriedAt(e.name, i) == ByteSurvives(e.name, i);
  }

  /** The same round trip in numbers: up to 1,000,000 symbols, each of whose labels survives in at most 262,136 bytes; file
      indices, columns and string lengths below 2^24; instructions of known formats; three terminators. */
  lemma {:induction false} ImageSurvives(meta: seq<Long>, c: Combined, hash: Hash)
    requires |meta| >= 7 && meta[0] / 8 == |meta| && Pointing(c.symbols, c.indices) && Closable(meta, c, hash)
    requires Addressable(PiecesOf(meta, c, hash))
    ensures |LinkedUnit(meta, c, hash).meta| >= 7
    ensures var u := LinkedUnit(meta, c, hash);
      ParseUnit(Joined(PiecesOf(meta, c, hash)), hash) == Ok(u)
      <==> |u.symbols| <= 1_000_000 && (forall i :: 0 <= i < |u.symbols| ==> Survives(u.symbols[i], hash))
           && (forall i :: 0 <= i < |u.debug| ==> EntrySurvives(u.debug[i])) && CodeParses(u.code)
           && exists p: nat, q: nat, r: nat :: Terminators(Flatten(u.meta[7..]), p, q, r)
  {
    hide LinkedUnit, ParseUnit, Joined, PiecesOf, Closable, Addressable, Pointing, CodeParses, ThreeStrings, Terminators, Flatten;
    ImageRoundTrip(meta, c, hash);
    var u := LinkedUnit(meta, c, hash);
    ThreeTerminators(u.meta[7..]);
    SymbolsSurvive(u.symbols, hash);
    DebugSurvives(u.debug);
  }

  lemma {:induction false} SymbolsSurvive(symbols: seq<SymbolEntry>, hash: Hash)
    ensures AllFaithful(symbols, hash)
      <==> |symbols| <= 1_000_000 && forall i :: 0 <= i < |symbols| ==> Survives(symbols[i], hash)
  {
    hide Survives, Faithful;
    forall e ensures Faithful(e, hash) <==> Survives(e, hash) { SurvivesIs(e, hash); }
  }

  lemma {:induction false} DebugSurvives(es: seq<DebugEntry>)
    ensures AllInRange(es) <==> forall i :: 0 <= i < |es| ==> EntrySurvives(es[i])
  {
    hide InRange, EntrySurvives;
    forall e ensures InRange(e) <==> EntrySurvives(e) { EntrySurvivesIs(e); }
  }

  lemma {:induction false} EntrySurvivesIs(e: DebugEntry)
    ensures InRange(e) <==> EntrySurvives(e)
  {}
}
