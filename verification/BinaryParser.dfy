/** wasmc/src/wasm/BinaryParser.cpp: an object file's words split into sections and decoded. */
module BinaryParser {
  import opened Words
  import opened SymbolTable
  import SymbolReader
  import opened DebugData
  import DebugReaders
  import R = Relocation
  import Instructions

  // What parse() leaves in the parser's fields. Lengths are the header's differences, in bytes.
  datatype Unit = Unit(meta: seq<Long>, code: seq<Long>, data: seq<Long>, symbolWords: nat,
                       symbols: seq<SymbolEntry>, debug: seq<DebugEntry>, relocs: seq<R.Entry>,
                       metaBytes: Long, codeBytes: Long, dataBytes: Long)

  function Count(bs: seq<Byte>, b: Byte): nat
  { if bs == [] then 0 else (if bs[0] == b then 1 else 0) + Count(bs[1..], b) }

  // The name, version and author strings must each be terminated.
  predicate ThreeStrings(ws: seq<Long>) { Count(Flatten(ws), 0) >= 3 }

  predicate CodeParses(ws: seq<Long>)
  { forall i :: 0 <= i < |ws| ==> Instructions.Parse(ws[i]).Ok? }

  // The six header offsets lie in order inside the vector, and the metadata reaches past the seventh word.
  predicate Layout(raw: seq<Long>)
  {
    && |raw| >= 6 && 7 <= raw[0] / 8
    && raw[0] / 8 <= raw[1] / 8 <= raw[2] / 8 <= raw[3] / 8 <= raw[4] / 8 <= raw[5] / 8 <= |raw|
  }

  // The unit a file decodes to. An offset outside the vector counts as a failure.
  function ParseUnit(raw: seq<Long>, hash: Hash): Result<Unit>
  {
    if !Layout(raw) then Err(OutOfRange) else
    var code, data, table, debug, reloc, end := raw[0] / 8, raw[1] / 8, raw[2] / 8, raw[3] / 8, raw[4] / 8, raw[5] / 8;
    var symbols := SymbolReader.ReadTable(raw, table, debug, MAX_SYMBOLS, hash);
    var entries := ReadDebug(Flatten(raw), 8 * debug, 8 * reloc);
    var relocs := R.DecodeAll(raw[reloc..end]);
    if !ThreeStrings(raw[7..code]) then Err(BadMeta)
    else if !CodeParses(raw[code..data]) then Err(Unknown)
    else if symbols.Err? then Err(symbols.error)
    else if entries.Err? then Err(entries.error)
    else if relocs.Err? then Err(relocs.error)
    else Ok(Unit(raw[..code], raw[code..data], raw[data..table], debug - table, symbols.value, entries.value, relocs.value,
                 raw[0], Minus(raw[1], raw[0]), Minus(raw[2], raw[1])))
  }

  class Parser {
    const raw: seq<Long>
    const hash: Hash
    var rawMeta: seq<Long>
    var rawCode: seq<Long>
    var rawData: seq<Long>
    var rawSymbols: seq<Long>
    var rawDebugData: seq<Long>
    var rawRelocation: seq<Long>
    var symbols: seq<SymbolEntry>
    var symbolIndices: map<Label, nat>
    var debugData: seq<DebugEntry>
    var relocationData: seq<R.Entry>

    constructor (raw: seq<Long>, hash: Hash)
      ensures this.raw == raw && this.hash == hash
    {
      this.raw, this.hash := raw, hash;
      rawMeta, rawCode, rawData, rawSymbols, rawDebugData, rawRelocation := [], [], [], [], [], [];
      symbols, symbolIndices, debugData, relocationData := [], map[], [], [];
    }

    ghost predicate Holds(u: Unit)
      reads this
    {
      && |raw| >= 6 && u.metaBytes == raw[0] && u.codeBytes == Minus(raw[1], raw[0]) && u.dataBytes == Minus(raw[2], raw[1])
      && rawMeta == u.meta && rawCode == u.code && rawData == u.data && |rawSymbols| == u.symbolWords
      && symbols == u.symbols && symbolIndices == SymbolReader.IndexMap(u.symbols)
      && debugData == u.debug && relocationData == u.relocs
    }

    /** BinaryParser::parse: fails exactly when ParseUnit does, and otherwise leaves the fields holding that unit. */
    method Parse() returns (error: Option<Error>)
      modifies this
      ensures error.None? <==> ParseUnit(raw, hash).Ok?
      ensures error.None? ==> Holds(ParseUnit(raw, hash).value)
    {
      hide ThreeStrings, CodeParses, Flatten, SymbolReader.ReadTable, ReadDebug, R.DecodeAll, SymbolReader.IndexMap, Minus;
      if |raw| < 6 { return Some(OutOfRange); }
      var code, data, table, debug, reloc, end := raw[0] / 8, raw[1] / 8, raw[2] / 8, raw[3] / 8, raw[4] / 8, raw[5] / 8;
      if code > |raw| || code < 7 { return Some(OutOfRange); }
      rawMeta := raw[..code];
      var strings := CheckStrings(raw[7..code]);
      if !strings { return Some(BadMeta); }
      if !(table <= debug <= |raw|) { return Some(OutOfRange); }
      rawSymbols := raw[table..debug];
      var entries, indices := SymbolReader.ExtractSymbols(raw, table, debug, hash);
      if entries.Err? { return Some(entries.error); }
      symbols, symbolIndices := entries.value, indices;
      if !(code <= data <= |raw|) { return Some(OutOfRange); }
      rawCode := raw[code..data];
      var known := CheckCode(rawCode);
      if !known { return Some(Unknown); }
      if !(data <= table) { return Some(OutOfRange); }
      rawData := raw[data..table];
      if !(debug <= reloc <= end <= |raw|) { return Some(OutOfRange); }
      error := ParseTail(debug, reloc, end);
    }

    method ParseTail(debug: nat, reloc: nat, end: nat) returns (error: Option<Error>)
      requires debug <= reloc <= end <= |raw|
      modifies `rawDebugData, `rawRelocation, `debugData, `relocationData
      ensures error.None? <==> ReadDebug(Flatten(raw), 8 * debug, 8 * reloc).Ok? && R.DecodeAll(raw[reloc..end]).Ok?
      ensures error.None? ==> ReadDebug(Flatten(raw), 8 * debug, 8 * reloc) == Ok(debugData)
      ensures error.None? ==> R.DecodeAll(raw[reloc..end]) == Ok(relocationData)
    {
      hide Flatten, ReadDebug, R.DecodeAll;
      rawDebugData := raw[debug..reloc];
      var locations := DebugReaders.GetDebugData(raw, debug, reloc);
      if locations.Err? { return Some(locations.error); }
      debugData := locations.value;
      rawRelocation := raw[reloc..end];
      var relocs := GetRelocationData(rawRelocation);
      if relocs.Err? { return Some(relocs.error); }
      relocationData := relocs.value;
      error := None;
    }
  }

  lemma {:induction false} CountStep(bs: seq<Byte>, b: Byte, i: nat)
    requires i < |bs|
    ensures Count(bs[..i + 1], b) == Count(bs[..i], b) + (if bs[i] == b then 1 else 0)
  {
    if i > 0 {
      assert bs[..i + 1][1..] == bs[1..][..i] && bs[..i][1..] == bs[1..][..i - 1];
      CountStep(bs[1..], b, i - 1);
    } else {
      assert bs[..1][1..] == [];
    }
  }

  lemma {:induction false} CountFrom(bs: seq<Byte>, b: Byte, p: nat)
    requires p < |bs| && bs[p] == b
    ensures Count(bs, b) >= 1 + Count(bs[p + 1..], b)
  {
    if p > 0 {
      assert bs[1..][p..] == bs[p + 1..];
      CountFrom(bs[1..], b, p - 1);
    }
  }

  lemma {:induction false} CountFirst(bs: seq<Byte>, b: Byte) returns (p: nat)
    requires Count(bs, b) > 0
    ensures p < |bs| && bs[p] == b && Count(bs[p + 1..], b) == Count(bs, b) - 1
  {
    if bs[0] == b {
      p := 0;
    } else {
      p := CountFirst(bs[1..], b);
      p := p + 1;
      assert bs[1..][p..] == bs[p + 1..];
    }
  }

  // Three zero bytes, in order.
  predicate Terminators(bs: seq<Byte>, p: nat, q: nat, r: nat)
  { p < q < r < |bs| && bs[p] == 0 && bs[q] == 0 && bs[r] == 0 }

  /** The strings are terminated exactly when three bytes are zero. */
  lemma {:induction false} ThreeTerminators(ws: seq<Long>)
    ensures ThreeStrings(ws) <==> exists p: nat, q: nat, r: nat :: Terminators(Flatten(ws), p, q, r)
  {
    hide Flatten, Count, Terminators;
    var bs := Flatten(ws);
    if Count(bs, 0) >= 3 { var p, q, r := FindThree(bs); }
    if exists p: nat, q: nat, r: nat :: Terminators(bs, p, q, r) {
      var p: nat, q: nat, r: nat :| Terminators(bs, p, q, r);
      CountThree(bs, p, q, r);
    }
  }

  lemma {:induction false} FindThree(bs: seq<Byte>) returns (p: nat, q: nat, r: nat)
    requires Count(bs, 0) >= 3
    ensures Terminators(bs, p, q, r)
  {
    hide Count;
    p := CountFirst(bs, 0);
    var rest := bs[p + 1..];
    var j := CountFirst(rest, 0);
    var k := CountFirst(rest[j + 1..], 0);
    q, r := p + 1 + j, p + 1 + j + 1 + k;
    assert rest[j] == bs[q] && rest[j + 1..][k] == rest[j + 1 + k] == bs[r];
  }

  lemma {:induction false} CountThree(bs: seq<Byte>, p: nat, q: nat, r: nat)
    requires Terminators(bs, p, q, r)
    ensures Count(bs, 0) >= 3
  {
    hide Count;
    CountFrom(bs, 0, p);
    CountFrom(bs[p + 1..], 0, q - p - 1);
    assert bs[p + 1..][q - p - 1 + 1..] == bs[q + 1..];
    CountFrom(bs[q + 1..], 0, r - q - 1);
  }

  // The three searches for a terminator in the name-version-author string.
  method CheckStrings(ws: seq<Long>) returns (found: bool)
    ensures found == ThreeStrings(ws)
  {
    var text := Flatten(ws);
    var zeros := 0;
    for i := 0 to |text|
      invariant zeros == Count(text[..i], 0)
    {
      CountStep(text, 0, i);
      if text[i] == 0 { zeros := zeros + 1; }
    }
    assert text[..|text|] == text;
    found := zeros >= 3;
  }

  method CheckCode(code: seq<Long>) returns (known: bool)
    ensures known == CodeParses(code)
  {
    hide Instructions.Parse;
    for i := 0 to |code|
      invariant forall j :: 0 <= j < i ==> Instructions.Parse(code[j]).Ok?
    {
      var instruction := Instructions.Parse(code[i]);
      if instruction.Err? { return false; }
    }
    known := true;
  }

  lemma {:induction false} DecodeStep(ws: seq<Long>, out: seq<R.Entry>)
    requires |ws| >= 3
    ensures Prepend(out, R.DecodeAll(ws)) == Prepend(out + [R.Decode(ws[0], ws[1], ws[2])], R.DecodeAll(ws[3..]))
  {
    hide R.Decode;
    if R.DecodeAll(ws[3..]).Ok? { ConcatAssoc(out, [R.Decode(ws[0], ws[1], ws[2])], R.DecodeAll(ws[3..]).value); }
  }

  method GetRelocationData(words: seq<Long>) returns (r: Result<seq<R.Entry>>)
    ensures r == R.DecodeAll(words)
  {
    hide R.Decode;
    var out, i := [], 0;
    assert R.DecodeAll(words) == Prepend(out, R.DecodeAll(words[0..])) by {
      assert words[0..] == words;
      if R.DecodeAll(words).Ok? { assert [] + R.DecodeAll(words).value == R.DecodeAll(words).value; }
    }
    while i < |words|
      invariant i <= |words|
      invariant R.DecodeAll(words) == Prepend(out, R.DecodeAll(words[i..]))
    {
      if i + 2 >= |words| { return Err(OutOfRange); }
      DecodeStep(words[i..], out);
      assert words[i..][3..] == words[i + 3..];
      out := out + [R.Decode(words[i], words[i + 1], words[i + 2])];
      i := i + 3;
    }
    assert out + [] == out;
    r := Ok(out);
  }
}
