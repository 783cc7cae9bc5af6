/** wasmc/src/wasm/Linker.cpp: Linker::link. */
module Linker {
  import opened Words
  import opened SymbolTable
  import opened SymbolReader
  import opened SymbolMerge
  import opened DebugData
  import opened DebugMerge
  import opened BinaryParser
  import opened LinkModel
  import opened LinkSymbols
  import opened LinkImage
  import opened LinkOutcome
  import opened RelocationPass
  import R = Relocation
  import ObjectText

  // A file that does not parse has no unit; link() never gets past it.
  function UnitOf(raw: seq<Long>, hash: Hash): Unit
  {
    match ParseUnit(raw, hash)
    case Ok(u) => u
    case Err(_) => Unit([], [], [], 0, [], [], [], 0, 0, 0)
  }

  function UnitsOf(files: seq<seq<Long>>, hash: Hash): (us: seq<Unit>)
    ensures |us| == |files|
  { seq(|files|, i requires 0 <= i < |files| => UnitOf(files[i], hash)) }

  predicate AllParse(files: seq<seq<Long>>, hash: Hash)
  { forall i :: 0 <= i < |files| ==> ParseUnit(files[i], hash).Ok? }

  // The subunit's relocations with `.end` erased from their indices, moved and named.
  method MoveRelocations(ghost u: Unit, dropped: seq<R.Entry>, subtable: seq<SymbolEntry>, codeBase: Long, dataBase: Long)
    returns (r: Result<seq<R.Entry>>)
    requires |subtable| == |TableDrop(u.symbols, EndMap(u))|
    requires forall i :: 0 <= i < |subtable| ==> subtable[i].name == TableDrop(u.symbols, EndMap(u))[i].name
    requires |dropped| == |u.relocs| && forall i :: 0 <= i < |dropped| ==> dropped[i] == RelocDrop(EndMap(u), u.relocs[i])
    ensures r.Ok? <==> RelocsNamed(u)
    ensures r.Ok? ==> r.value == MoveRelocs(u, codeBase, dataBase)
  {
    hide TableDrop, EndMap, RelocDrop, Plus;
    var out := [];
    for i := 0 to |dropped|
      invariant |out| == i
      invariant forall j :: 0 <= j < i ==> RelocNamed(u, u.relocs[j]) && out[j] == MoveReloc(u, u.relocs[j], codeBase, dataBase)
    {
      var entry := dropped[i];
      entry := entry.(site := Plus(entry.site, if entry.isData then dataBase else codeBase));
      if !(0 <= entry.index < |subtable|) {
        assert !RelocNamed(u, u.relocs[i]);
        return Err(OutOfRange);
      }
      entry := entry.(name := Some(subtable[entry.index].name));
      out := out + [entry];
    }
    r := Ok(out);
  }

  /** Linker::encodeRelocationData. */
  method EncodeRelocationData(relocs: seq<R.Entry>) returns (out: seq<Long>)
    ensures out == R.EncodeAll(relocs)
  {
    hide R.Encode;
    out := [];
    for i := 0 to |relocs|
      invariant out == R.EncodeAll(relocs[..i])
    {
      assert relocs[..i + 1] == relocs[..i] + [relocs[i]];
      EncodeAppend(relocs[..i], relocs[i]);
      out := out + R.Encode(relocs[i]);
    }
    assert relocs[..|relocs|] == relocs;
  }

  lemma {:induction false} EncodeAppend(es: seq<R.Entry>, e: R.Entry)
    ensures R.EncodeAll(es + [e]) == R.EncodeAll(es) + R.Encode(e)
  {
    hide R.Encode;
    if es == [] {
      assert es + [e] == [e] && [e][1..] == [];
    } else {
      assert (es + [e])[1..] == es[1..] + [e];
      EncodeAppend(es[1..], e);
    }
  }

  // The symbols after one turn.
  lemma {:induction false} SymbolsTurn(us: seq<Unit>, n: nat, cs0: seq<SymbolEntry>, ci0: map<Label, nat>,
      st: seq<SymbolEntry>, cs: seq<SymbolEntry>, ci: map<Label, nat>)
    requires 1 <= n < |us| && Pointing(cs0, ci0)
    requires var u := us[n]; var m := EndMap(u); var t, d := TableDrop(u.symbols, m), MapDrop(u.symbols, m);
      && Pointing(t, d) && !Collides(ci0, d, cs0, t)
      && SymbolMerge.Rebased(t, d, CodeBase(us, n), DataBase(us, n), st)
      && Pointing(st, d) && Merging(cs0, ci0, st, d, d.Keys, cs, ci)
    requires AllDistinct(us) ==> SymbolsMerged(us, n, cs0, ci0)
    ensures Pointing(cs, ci)
    ensures AllDistinct(us) ==> SymbolsMerged(us, n + 1, cs, ci)
  {
    hide TableDrop, MapDrop, EndMap, SymbolMerge.Rebased, CodeBase, DataBase, SymbolsMerged, Collides, SubTable, Pointing, Distinct;
    var m := EndMap(us[n]);
    var t, d := TableDrop(us[n].symbols, m), MapDrop(us[n].symbols, m);
    MergingPoints(cs0, ci0, st, d, d.Keys, cs, ci);
    hide Merging;
    if AllDistinct(us) {
      SubTableOf(us, n, st);
      CollisionAfterRebase(ci0, d, cs0, t, CodeBase(us, n), DataBase(us, n), st);
      MergedStep(us, n, cs0, ci0, st, d, cs, ci);
    }
  }

  lemma {:induction false} GatheredTurn(us: seq<Unit>, n: nat, cs0: seq<SymbolEntry>, ci0: map<Label, nat>,
      st: seq<SymbolEntry>, cs: seq<SymbolEntry>, ci: map<Label, nat>)
    requires 1 <= n < |us| && Pointing(cs0, ci0) && Gathered(us, n, cs0, ci0)
    requires var u := us[n]; var m := EndMap(u); var t, d := TableDrop(u.symbols, m), MapDrop(u.symbols, m);
      && Pointing(t, d) && SymbolMerge.Rebased(t, d, CodeBase(us, n), DataBase(us, n), st)
      && Pointing(st, d) && Merging(cs0, ci0, st, d, d.Keys, cs, ci) && Drawn(cs0, st, d, d.Keys, cs)
    ensures Gathered(us, n + 1, cs, ci)
  {
    hide TableDrop, MapDrop, EndMap, SymbolMerge.Rebased, CodeBase, DataBase, Pointing, Merging, Drawn, Gathered, SubSource;
    SubSourceOf(us, n, st);
    GatheredStep(us, n, cs0, ci0, st, MapDrop(us[n].symbols, EndMap(us[n])), cs, ci);
  }

  lemma {:induction false} RebasedNames(table: seq<SymbolEntry>, m: map<Label, nat>, codeBase: Long, dataBase: Long, r: seq<SymbolEntry>)
    requires SymbolMerge.Rebased(table, m, codeBase, dataBase, r)
    ensures |r| == |table| && forall i :: 0 <= i < |r| ==> r[i].name == table[i].name
  {}

  lemma {:induction false} SomeRebasing(table: seq<SymbolEntry>, m: map<Label, nat>, codeBase: Long, dataBase: Long)
    returns (r: seq<SymbolEntry>)
    requires Pointing(table, m)
    ensures SymbolMerge.Rebased(table, m, codeBase, dataBase, r)
  { r := seq(|table|, i requires 0 <= i < |table| => Rebase(table[i], codeBase, dataBase)); }

  lemma {:induction false} CollisionTurn(us: seq<Unit>, n: nat, cs0: seq<SymbolEntry>, ci0: map<Label, nat>)
    requires 1 <= n < |us| && AllDistinct(us) && SymbolsMerged(us, n, cs0, ci0)
    requires var u := us[n]; var m := EndMap(u); var t, d := TableDrop(u.symbols, m), MapDrop(u.symbols, m);
      Pointing(t, d) && Collides(ci0, d, cs0, t)
    ensures !Unique(us, n + 1)
  {
    hide TableDrop, MapDrop, EndMap, SymbolMerge.Rebased, CodeBase, DataBase, Collides, SubTable, Pointing, Distinct, Complete, Sound, Agree;
    var m := EndMap(us[n]);
    var t, d := TableDrop(us[n].symbols, m), MapDrop(us[n].symbols, m);
    AgreePoints(cs0, ci0);
    var st := SomeRebasing(t, d, CodeBase(us, n), DataBase(us, n));
    SubTableOf(us, n, st);
    CollisionAfterRebase(ci0, d, cs0, t, CodeBase(us, n), DataBase(us, n), st);
    CollisionMeans(us, n, cs0, ci0, st, d);
  }

  // The rest of the combined state after one turn.
  lemma {:induction false} StateTurn(us: seq<Unit>, n: nat, c: Combined, r: Combined)
    requires 1 <= n < |us| && CombinedAfter(us, n, c) && RelocsNamed(us[n])
    requires Pointing(r.symbols, r.indices) && (AllDistinct(us) ==> SymbolsMerged(us, n + 1, r.symbols, r.indices))
    requires Gathered(us, n + 1, r.symbols, r.indices)
    requires r.code == c.code + us[n].code && r.data == c.data + us[n].data
    requires r.codeLength == Plus(c.codeLength, us[n].codeBytes) && r.dataLength == Plus(c.dataLength, us[n].dataBytes)
    requires r.debug == Spliced(c.debug, c.strings, Move(us[n].debug, Delta(us, n), c.strings))
    requires r.strings == c.strings + |Strings(us[n].debug)|
    requires r.relocs == c.relocs + MoveRelocs(us[n], c.codeLength, c.dataLength)
    ensures CombinedAfter(us, n + 1, r)
  {
    hide Pointing, SymbolsMerged, Gathered, Spliced, Move, MoveRelocs, Delta, Plus, RelocsNamed, Strings;
    NamedNext(us, n);
  }

  lemma {:induction false} NamedNext(us: seq<Unit>, n: nat)
    requires 1 <= n < |us| && AllNamed(us, n) && RelocsNamed(us[n])
    ensures AllNamed(us, n + 1)
    ensures RelocsAfter(us, n + 1) == RelocsAfter(us, n) + MoveRelocs(us[n], CodeBase(us, n), DataBase(us, n))
  { hide RelocsNamed, MoveRelocs; }

  lemma {:induction false} CombinedParts(us: seq<Unit>, n: nat, c: Combined)
    requires 1 <= n < |us| && CombinedAfter(us, n, c)
    ensures Pointing(c.symbols, c.indices) && c.strings <= |c.debug|
    ensures c.codeLength == CodeBase(us, n) && c.dataLength == DataBase(us, n)
    ensures AllDistinct(us) ==> SymbolsMerged(us, n, c.symbols, c.indices)
    ensures Gathered(us, n, c.symbols, c.indices)
  {}

  /** One turn of link()'s loop. */
  method MergeUnit(p: Parser, mainMeta: Long, c: Combined, ghost us: seq<Unit>, ghost n: nat) returns (r: Result<Combined>)
    requires 1 <= n < |us| && p.Holds(us[n]) && mainMeta == us[0].metaBytes
    requires CombinedAfter(us, n, c)
    ensures r.Ok? ==> CombinedAfter(us, n + 1, r.value)
    ensures r == Err(Collision) && AllDistinct(us) ==> !Unique(us, n + 1)
    ensures r.Err? ==> r.error == Collision || !RelocsNamed(us[n])
  {
    hide TableDrop, MapDrop, SymbolMerge.Rebased, CodeBase, DataBase, SymbolsMerged, Gathered, Collides, Pointing, Merging,
      Drawn, CombinedAfter, AllDistinct, Spliced, Move, Strings, MoveRelocs, RelocDrop, RelocsNamed, Plus, Minus, Unique, IndexMap;
    ghost var m := EndMap(us[n]);
    CombinedParts(us, n, c);
    DropPointing(us[n].symbols, m);
    var subtable, subindices, subrelocation := EraseEnd(p.symbols, p.symbolIndices, p.relocationData);
    var collision := DetectSymbolCollisions(c.indices, subindices, c.symbols, subtable);
    if collision {
      if AllDistinct(us) { CollisionTurn(us, n, c.symbols, c.indices); }
      return Err(Collision);
    }
    var delta := Plus(Minus(mainMeta, p.raw[0]), c.codeLength);
    var rebased := RebaseSymbols(subtable, subindices, c.codeLength, c.dataLength);
    RebasedNames(subtable, subindices, c.codeLength, c.dataLength, rebased);
    var debug, strings := MergeDebug(c.debug, c.strings, p.debugData, delta);
    var moved := MoveRelocations(us[n], subrelocation, rebased, c.codeLength, c.dataLength);
    if moved.Err? { return Err(OutOfRange); }
    SubPointing(us, n, rebased);
    var symbols, indices := MergeSymbols(c.symbols, c.indices, rebased, subindices);
    SymbolsTurn(us, n, c.symbols, c.indices, rebased, symbols, indices);
    GatheredTurn(us, n, c.symbols, c.indices, rebased, symbols, indices);
    var next := Combined(symbols, indices, c.code + p.rawCode, c.data + p.rawData, debug, c.relocs + moved.value,
      Plus(c.codeLength, Minus(p.raw[1], p.raw[0])), Plus(c.dataLength, Minus(p.raw[2], p.raw[1])), strings);
    StateTurn(us, n, c, next);
    r := Ok(next);
  }

  lemma {:induction false} CombinedPoints(us: seq<Unit>, c: Combined)
    requires us != [] && CombinedAfter(us, |us|, c)
    ensures Pointing(c.symbols, c.indices)
  {}

  lemma {:induction false} EmptyFile(hash: Hash)
    ensures ParseUnit([], hash).Err?
  {}

  /** What a successful link has written: every file parsed, and the image of their combination. */
  ghost predicate LinkedFrom(files: seq<seq<Long>>, hash: Hash, c: Combined, linked: seq<Long>)
  {
    && files != [] && AllParse(files, hash)
    && var us := UnitsOf(files, hash);
       CombinedAfter(us, |us|, c) && |us[0].meta| >= 6 && Closable(us[0].meta, c, hash)
       && linked == Joined(PiecesOf(us[0].meta, c, hash))
  }

  lemma {:induction false} DecodedUnnamed(ws: seq<Long>)
    requires R.DecodeAll(ws).Ok?
    ensures forall i :: 0 <= i < |R.DecodeAll(ws).value| ==> R.DecodeAll(ws).value[i].name.None?
  { if ws != [] { DecodedUnnamed(ws[3..]); } }

  lemma {:induction false} ParsedUnnamed(raw: seq<Long>, hash: Hash)
    requires ParseUnit(raw, hash).Ok?
    ensures var rs := ParseUnit(raw, hash).value.relocs; forall i :: 0 <= i < |rs| ==> rs[i].name.None?
  {
    hide ReadTable, CodeParses, ThreeStrings, Minus, R.DecodeAll;
    DecodedUnnamed(raw[raw[4] / 8..raw[5] / 8]);
  }

  lemma {:induction false} ParsedWritable(raw: seq<Long>, hash: Hash)
    requires ParseUnit(raw, hash).Ok?
    ensures Writable(ParseUnit(raw, hash).value.debug)
  {
    hide ReadTable, CodeParses, ThreeStrings, Minus, R.DecodeAll, ReadDebug, Flatten;
    ReadWritable(Flatten(raw), 8 * (raw[3] / 8), 8 * (raw[4] / 8));
  }

  lemma {:induction false} UnitsAsParsed(files: seq<seq<Long>>, hash: Hash)
    requires files != [] && AllParse(files, hash)
    ensures AsParsed(UnitsOf(files, hash))
  {
    hide ParseUnit, Writable;
    var us := UnitsOf(files, hash);
    forall j: nat | j < |us| ensures Writable(us[j].debug) {
      UnitAt(files, hash, j);
      ParsedWritable(files[j], hash);
    }
    UnitAt(files, hash, 0);
    UnitShape(files[0], hash);
    ParsedUnnamed(files[0], hash);
  }

  lemma {:induction false} StateStart(us: seq<Unit>, c: Combined)
    requires us != []
    requires var u := us[0]; c == Combined(u.symbols, IndexMap(u.symbols), u.code, u.data, u.debug, u.relocs,
                                           u.codeBytes, u.dataBytes, |Strings(u.debug)|)
    ensures CombinedAfter(us, 1, c)
  {
    hide Strings, SymbolsMerged, Pointing, Distinct, Gathered;
    var u := us[0];
    IndexMapAgrees(u.symbols);
    GatheredStart(us);
    if AllDistinct(us) { MergedStart(us); }
    StartParts(us);
  }

  lemma {:induction false} StartParts(us: seq<Unit>)
    requires us != []
    ensures AllCode(us, 1) == us[0].code && AllData(us, 1) == us[0].data && AllStrings(us, 1) == Strings(us[0].debug)
    ensures CodeBase(us, 1) == us[0].codeBytes && DataBase(us, 1) == us[0].dataBytes
  {
    assert AllCode(us, 0) == [] && AllData(us, 0) == [] && AllStrings(us, 0) == [];
    assert CodeBase(us, 0) == 0 && DataBase(us, 0) == 0;
  }

  lemma {:induction false} UnitShape(raw: seq<Long>, hash: Hash)
    requires ParseUnit(raw, hash).Ok?
    ensures var u := ParseUnit(raw, hash).value;
      |u.meta| == u.metaBytes / 8 >= 7 && u.meta[0] == u.metaBytes && u.meta <= raw
  { hide ThreeStrings, CodeParses, ReadTable, ReadDebug, R.DecodeAll, Minus; }

  lemma {:induction false} NotUnique(us: seq<Unit>, n: nat)
    requires n <= |us| && !Unique(us, n)
    ensures !Unique(us, |us|)
  {}

  lemma {:induction false} NotLinkOk(us: seq<Unit>, n: nat)
    requires 1 <= n < |us|
    ensures !RelocsNamed(us[n]) || !Unique(us, |us|) ==> !LinkOk(us)
  {
    hide RelocsNamed, Unique, GoodReferences;
    if GoodReferences(us) { GoodNamed(us, n); }
  }

  lemma {:induction false} CombinedUnique(us: seq<Unit>, c: Combined)
    requires us != [] && CombinedAfter(us, |us|, c) && AllDistinct(us)
    ensures Unique(us, |us|)
  {
    MergedParts(us, c);
    hide Complete, Sound, MainFirst, Agree, Gathered, CombinedAfter;
  }

  // What is left to fail after the last turn.
  lemma {:induction false} ClosesExactly(files: seq<seq<Long>>, hash: Hash, c: Combined)
    requires files != [] && var us := UnitsOf(files, hash); CombinedAfter(us, |us|, c) && us[0].meta != []
    ensures var us := UnitsOf(files, hash);
      Pointing(c.symbols, c.indices) && (AllParse(files, hash) && Regular(us) ==> (Closable(us[0].meta, c, hash) <==> LinkOk(us)))
  {
    hide CombinedAfter, Closable, UnitsOf, ParseUnit, AsParsed, GoodReferences, AllNonEmpty, Unique;
    var us := UnitsOf(files, hash);
    CombinedPoints(us, c);
    if AllParse(files, hash) && Regular(us) {
      UnitsAsParsed(files, hash);
      ClosableExactly(us, c, hash);
      CombinedUnique(us, c);
    }
  }

  // The `.end` entry, added if missing, gets the address just past the debug section.
  method CloseSymbols(c: Combined, hash: Hash, meta: seq<Long>, debugWords: nat)
    returns (r: Result<(seq<SymbolEntry>, map<Label, nat>, seq<Long>)>)
    requires Pointing(c.symbols, c.indices) && debugWords == |EncodeDebug(c.debug)|
    ensures r.Ok? <==> Labelled(EndedSymbols(c, hash))
    ensures r.Ok? ==> var (symbols, indices, table) := r.value;
      symbols == FinalSymbols(meta, c, hash) && indices == EndedIndices(c) && table == EncodeTable(symbols)
  {
    hide Pointing, Labelled, EncodeTable, EncodeDebug;
    EndedPoints(c, hash);
    var symbols, indices := c.symbols, c.indices;
    if END !in indices {
      indices := indices[END := |symbols|];
      symbols := symbols + [SymbolEntry(hash(END), 0, UNKNOWN, END)];
    }
    var sized := EncodeSymbolTable(symbols);
    if sized.Err? { return Err(sized.error); }
    EndInside(symbols, indices);
    var end := indices[END];
    var address := Wrap(8 * (|meta| + |sized.value| + |c.code| + |c.data| + debugWords));
    symbols := symbols[end := symbols[end].(address := address)];
    ClosedTable(meta, c, hash);
    var table := EncodeSymbolTable(symbols);
    r := Ok((symbols, indices, table.value));
  }

  lemma {:induction false} EndInside(symbols: seq<SymbolEntry>, indices: map<Label, nat>)
    requires Pointing(symbols, indices) && END in indices
    ensures indices[END] < |symbols|
  {}

  /** link() after its loop. */
  method Close(meta0: seq<Long>, c: Combined, hash: Hash) returns (r: Result<seq<Long>>)
    requires Pointing(c.symbols, c.indices) && |meta0| >= 6
    ensures r.Ok? <==> Closable(meta0, c, hash)
    ensures r.Ok? ==> r.value == Joined(PiecesOf(meta0, c, hash))
  {
    hide Pointing, Relocatable, Labelled, RelocationPass.Resolved, ApplyEffects, Effects, EncodeTable, EncodeDebug,
      FinalSymbols, EndedIndices, EndedSymbols, Wrap, Writable, R.EncodeAll;
    var debug := EncodeDebugData(c.debug);
    if debug.Err? { return Err(debug.error); }
    var closed := CloseSymbols(c, hash, meta0, |debug.value|);
    if closed.Err? { return Err(closed.error); }
    var (symbols, indices, table) := closed.value;
    var meta := meta0;
    meta := meta[1 := Wrap(meta[0] + 8 * |c.code|)];
    meta := meta[2 := Wrap(meta[1] + 8 * |c.data|)];
    meta := meta[3 := Wrap(meta[2] + 8 * |table|)];
    meta := meta[4 := Wrap(meta[3] + 8 * |debug.value|)];
    var pass := ApplyRelocation(c.relocs, Context(symbols, indices, meta[1], meta[0]), Sections(c.code, c.data));
    if pass.Err? { return Err(pass.error); }
    var (relocation, sections) := pass.value;
    var relocs := EncodeRelocationData(relocation);
    meta := meta[5 := Wrap(meta[4] + 8 * |relocs|)];
    assert meta == Header(meta0, |c.code|, |c.data|, |table|, |debug.value|, |relocs|);
    r := Ok(meta + (sections.code + (sections.data + (table + (debug.value + relocs)))));
  }

  lemma {:induction false} UnitAt(files: seq<seq<Long>>, hash: Hash, i: nat)
    requires i < |files| && ParseUnit(files[i], hash).Ok?
    ensures UnitsOf(files, hash)[i] == ParseUnit(files[i], hash).value
  { hide ParseUnit; }

  class Linker {
    const hash: Hash
    var mainUnit: seq<Long>
    var subunits: seq<seq<Long>>
    var linked: seq<Long>

    constructor (hash: Hash)
      ensures this.hash == hash && mainUnit == [] && subunits == [] && linked == []
    { this.hash := hash; mainUnit, subunits, linked := [], [], []; }

    // Files in link order.
    function Files(): (fs: seq<seq<Long>>)
      reads this
    { [mainUnit] + subunits }

    method Combine() returns (r: Result<Combined>, meta: seq<Long>)
      ensures var us := UnitsOf(Files(), hash);
        && (r.Ok? ==> AllParse(Files(), hash) && meta == us[0].meta && |meta| >= 7 && CombinedAfter(us, |us|, r.value))
        && (r == Err(Collision) && AllDistinct(us) ==> !Unique(us, |us|))
        && (r.Err? && AllParse(Files(), hash) && AllDistinct(us) ==> !LinkOk(us))
    {
      hide CombinedAfter, AllDistinct, Unique, RelocsNamed, IndexMap, Minus, ParseUnit, UnitsOf, Strings, LinkOk;
      ghost var files, us := Files(), UnitsOf(Files(), hash);
      meta := [];
      var main := new Parser(mainUnit, hash);
      var failed := main.Parse();
      assert files[0] == mainUnit;
      if failed.Some? { return Err(BadMeta), meta; }
      UnitShape(mainUnit, hash);
      UnitAt(files, hash, 0);
      meta := main.rawMeta;
      var strings := CountStringTypes(main.debugData);
      var c := Combined(main.symbols, main.symbolIndices, main.rawCode, main.rawData, main.debugData, main.relocationData,
        Minus(main.raw[1], main.raw[0]), Minus(main.raw[2], main.raw[1]), strings);
      StateStart(us, c);
      for i := 0 to |subunits|
        invariant CombinedAfter(us, i + 1, c)
        invariant forall j :: 0 <= j <= i ==> ParseUnit(files[j], hash).Ok?
      {
        var parser := new Parser(subunits[i], hash);
        failed := parser.Parse();
        assert files[i + 1] == subunits[i];
        if failed.Some? { return Err(BadMeta), meta; }
        UnitAt(files, hash, i + 1);
        var step := MergeUnit(parser, meta[0], c, us, i + 1);
        if step.Err? {
          if step.error == Collision && AllDistinct(us) { NotUnique(us, i + 2); }
          NotLinkOk(us, i + 1);
          return step, meta;
        }
        c := step.value;
      }
      r := Ok(c);
    }

    /** Linker::link. A link that succeeds has written the image of the combined units and returns it as text; one that
        fails leaves what was written before. Files link exactly when they all parse, no label is defined twice or empty,
        and every reference is good. */
    method Link() returns (r: Result<string>)
      modifies `linked
      ensures r.Ok? ==> r.value == ObjectText.Text(linked)
      ensures r.Ok? ==> exists c :: LinkedFrom(Files(), hash, c, linked)
      ensures r.Err? ==> linked == old(linked)
      ensures var us := UnitsOf(Files(), hash);
        r == Err(Collision) && AllDistinct(us) ==> !Unique(us, |us|)
      ensures var us := UnitsOf(Files(), hash); Regular(us) ==> (r.Ok? <==> AllParse(Files(), hash) && LinkOk(us))
    {
      hide CombinedAfter, Unique, RelocsNamed, Joined, PiecesOf, Pointing, UnitsOf, ParseUnit, Closable, ObjectText.Text, LinkOk,
        AllDistinct;
      if mainUnit == [] {
        assert Files()[0] == [];
        EmptyFile(hash);
        return Err(OutOfRange);
      }
      var combined, meta := Combine();
      if combined.Err? { return Err(combined.error); }
      var c := combined.value;
      ClosesExactly(Files(), hash, c);
      var image := Close(meta, c, hash);
      if image.Err? { return Err(Unknown); }
      var text := ObjectText.Stringify(image.value);
      linked := image.value;
      assert LinkedFrom(Files(), hash, c, linked);
      r := Ok(text);
    }
  }
}
