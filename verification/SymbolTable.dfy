/** Symbol tables: the linker's and the assembler's encoders (wasmc/src/wasm/Linker.cpp,
    wasmc/src/wasm/SymbolTable.cpp) and the binary parser's decoder (wasmc/src/wasm/BinaryParser.cpp). */
module SymbolTable {
  import opened Words
  import opened Longs

  const MAX_SYMBOLS: nat := 1_000_000

  // SymbolEnum. A decoded type is any 16-bit number.
  type Kind = x: int | 0 <= x < 0x1_0000
  const UNKNOWN: Kind := 0
  const UNKNOWN_DATA: Kind := 1
  const UNKNOWN_CODE: Kind := 2
  const DATA: Kind := 3
  const CODE: Kind := 4

  type Id = x: int | 0 <= x < 0x1_0000_0000
  type Label = seq<Byte>

  // Assembler::encodeSymbol, part of a SHA-256 digest, left uninterpreted.
  type Hash = Label -> Id

  datatype SymbolEntry = SymbolEntry(id: Id, address: Long, kind: Kind, name: Label)

  predicate IsUnknown(kind: Kind)
  { kind == UNKNOWN || kind == UNKNOWN_CODE || kind == UNKNOWN_DATA }

  predicate IsDefined(kind: Kind) { kind == CODE || kind == DATA }

  // ----- entry headers -----

  lemma {:induction false} OrCommutes(a: nat, b: nat)
    ensures BitOr(a, b) == BitOr(b, a)
    decreases a + b
  { if a > 0 && b > 0 { OrCommutes(a / 2, b / 2); } }

  // (uint64_t(id) << 32) | (words & 0xffff) | (size_t(type) << 16), as the linker writes it
  function LinkerHeader(id: Id, words: nat, kind: Kind): nat
  { BitOr(BitOr(Shl(id, 32), words % 0x1_0000), Shl(kind, 16)) }

  // (uint64_t(id) << 32) | (uint32_t(type) << 16) | uint16_t(words), as the assembler writes it
  function AssemblerHeader(id: Id, words: nat, kind: Kind): nat
  { BitOr(BitOr(Shl(id, 32), Shl(kind, 16)), words % 0x1_0000) }

  // The three fields do not overlap.
  lemma {:induction false} HeaderFields(id: Id, words: nat, kind: Kind)
    ensures LinkerHeader(id, words, kind) == 0x1_0000_0000 * id + 0x1_0000 * kind + words % 0x1_0000
    ensures AssemblerHeader(id, words, kind) == LinkerHeader(id, words, kind) < TWO64
  {
    var w := words % 0x1_0000;
    Shl16(1); Shl32(1); Shl32(id); Shl16(kind); Shl16(id); ShlAdd(id, 16, 16); Shl16(Shl(id, 16));
    OrDisjoint(w, 32, id);
    OrCommutes(Shl(id, 32), w);
    LinkerOr(id, w, kind);
    AssemblerOr(id, w, kind);
  }

  lemma {:induction false} LinkerOr(id: Id, w: nat, kind: Kind)
    requires w < 0x1_0000
    ensures BitOr(w + Shl(id, 32), Shl(kind, 16)) == w + 0x1_0000 * (kind + 0x1_0000 * id)
  {
    Shl16(1); Shl16(id); ShlAdd(id, 16, 16);
    var high := Shl(id, 16);
    OrShift(w, 16, high, kind);
    OrCommutes(high, kind);
    OrDisjoint(kind, 16, id);
    Shl16(BitOr(high, kind));
  }

  lemma {:induction false} AssemblerOr(id: Id, w: nat, kind: Kind)
    requires w < 0x1_0000
    ensures BitOr(BitOr(Shl(id, 32), Shl(kind, 16)), w) == w + 0x1_0000 * (kind + 0x1_0000 * id)
  {
    Shl32(1); Shl16(1); Shl16(kind); Shl32(id);
    OrCommutes(Shl(id, 32), Shl(kind, 16));
    OrDisjoint(Shl(kind, 16), 32, id);
    var upper := kind + 0x1_0000 * id;
    Shl16(upper);
    OrCommutes(Shl(upper, 16), w);
    OrDisjoint(w, 16, upper);
  }

  function NameWords(name: Label): nat { UpDiv(|name|, 8) }

  function EncodeEntry(e: SymbolEntry): seq<Long>
  {
    HeaderFields(e.id, NameWords(e.name), e.kind);
    [LinkerHeader(e.id, NameWords(e.name), e.kind), e.address] + LongsOf(e.name, true)
  }

  function EncodeTable(table: seq<SymbolEntry>): seq<Long>
  { if table == [] then [] else EncodeEntry(table[0]) + EncodeTable(table[1..]) }

  predicate Labelled(table: seq<SymbolEntry>) { forall e :: e in table ==> e.name != [] }

  lemma {:induction false} EncodeTableAppend(table: seq<SymbolEntry>, e: SymbolEntry)
    ensures EncodeTable(table + [e]) == EncodeTable(table) + EncodeEntry(e)
  {
    if table == [] {
      assert table + [e] == [e];
    } else {
      assert (table + [e])[1..] == table[1..] + [e];
      EncodeTableAppend(table[1..], e);
    }
  }

  /** Linker::encodeSymbolTable. */
  method EncodeSymbolTable(table: seq<SymbolEntry>) returns (r: Result<seq<Long>>)
    ensures r == if Labelled(table) then Ok(EncodeTable(table)) else Err(MissingLabel)
  {
    var out := [];
    for i := 0 to |table|
      invariant Labelled(table[..i]) && out == EncodeTable(table[..i])
    {
      var entry := table[i];
      if entry.name == [] {
        return Err(MissingLabel);
      }
      assert table[..i + 1] == table[..i] + [entry];
      EncodeTableAppend(table[..i], entry);
      HeaderFields(entry.id, NameWords(entry.name), entry.kind);
      var pieces := GetLongs(entry.name, true);
      out := out + ([LinkerHeader(entry.id, NameWords(entry.name), entry.kind), entry.address] + pieces);
    }
    assert table[..|table|] == table;
    r := Ok(out);
  }
}
