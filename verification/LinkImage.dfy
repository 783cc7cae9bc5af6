/** The end of Linker::link: closing the table with `.end`, the header, the relocation pass and the image. */
module LinkImage {
  import opened Words
  import opened SymbolTable
  import opened SymbolMerge
  import opened DebugData
  import opened RelocationPass
  import R = Relocation

  // link()'s combined vectors, index map and running totals.
  datatype Combined = Combined(symbols: seq<SymbolEntry>, indices: map<Label, nat>, code: seq<Long>, data: seq<Long>,
                               debug: seq<DebugEntry>, relocs: seq<R.Entry>,
                               codeLength: Long, dataLength: Long, strings: nat)

  // ----- `.end` -----

  function EndedSymbols(c: Combined, hash: Hash): seq<SymbolEntry>
  { if END in c.indices then c.symbols else c.symbols + [SymbolEntry(hash(END), 0, UNKNOWN, END)] }

  function EndedIndices(c: Combined): map<Label, nat>
  { if END in c.indices then c.indices else c.indices[END := |c.symbols|] }

  lemma {:induction false} EndedPoints(c: Combined, hash: Hash)
    requires Pointing(c.symbols, c.indices)
    ensures Pointing(EndedSymbols(c, hash), EndedIndices(c)) && END in EndedIndices(c)
    ensures Agree(c.symbols, c.indices) ==> Agree(EndedSymbols(c, hash), EndedIndices(c))
  {}

  function EndAddress(meta: seq<Long>, c: Combined, hash: Hash): Long
  {
    Wrap(8 * (|meta| + |EncodeTable(EndedSymbols(c, hash))| + |c.code| + |c.data| + |EncodeDebug(c.debug)|))
  }

  function FinalSymbols(meta: seq<Long>, c: Combined, hash: Hash): (r: seq<SymbolEntry>)
    requires Pointing(c.symbols, c.indices)
    ensures |r| == |EndedSymbols(c, hash)|
    ensures forall i :: 0 <= i < |r| ==> r[i].name == EndedSymbols(c, hash)[i].name && r[i].kind == EndedSymbols(c, hash)[i].kind
  {
    EndedPoints(c, hash);
    var i, s := EndedIndices(c)[END], EndedSymbols(c, hash);
    s[i := s[i].(address := EndAddress(meta, c, hash))]
  }

  lemma {:induction false} FinalAgrees(meta: seq<Long>, c: Combined, hash: Hash)
    requires Agree(c.symbols, c.indices)
    ensures Agree(FinalSymbols(meta, c, hash), EndedIndices(c))
  { hide EndedIndices, EndedSymbols, EndAddress; EndedPoints(c, hash); }

  lemma {:induction false} ClosedTable(meta: seq<Long>, c: Combined, hash: Hash)
    requires Pointing(c.symbols, c.indices)
    ensures Labelled(FinalSymbols(meta, c, hash)) <==> Labelled(EndedSymbols(c, hash))
  {
    hide EndedSymbols;
    var s, e := FinalSymbols(meta, c, hash), EndedSymbols(c, hash);
    assert Labelled(s) <==> forall i :: 0 <= i < |s| ==> s[i].name != [];
    assert Labelled(e) <==> forall i :: 0 <= i < |e| ==> e[i].name != [];
  }

  // An entry other than `.end` is as it was combined.
  lemma {:induction false} FinalEntry(meta: seq<Long>, c: Combined, hash: Hash, k: Label)
    requires Pointing(c.symbols, c.indices) && k in c.indices && k != END
    ensures k in EndedIndices(c) && EndedIndices(c)[k] == c.indices[k] < |FinalSymbols(meta, c, hash)|
    ensures FinalSymbols(meta, c, hash)[c.indices[k]] == c.symbols[c.indices[k]]
  { hide EndAddress; EndedPoints(c, hash); }

  // ----- sizes -----

  lemma {:induction false} EntryWordCount(e: SymbolEntry, address: Long)
    ensures |EncodeEntry(e.(address := address))| == |EncodeEntry(e)|
  {}

  // A table's size does not depend on its addresses.
  lemma {:induction false} TableSize(s: seq<SymbolEntry>, i: nat, address: Long)
    requires i < |s|
    ensures |EncodeTable(s[i := s[i].(address := address)])| == |EncodeTable(s)|
  {
    hide EncodeEntry;
    EntryWordCount(s[i], address);
    var r := s[i := s[i].(address := address)];
    if i > 0 {
      assert r[1..] == s[1..][i - 1 := s[1..][i - 1].(address := address)];
      TableSize(s[1..], i - 1, address);
    } else {
      assert r[1..] == s[1..];
    }
  }

  lemma {:induction false} FinalTableSize(meta: seq<Long>, c: Combined, hash: Hash)
    requires Pointing(c.symbols, c.indices)
    ensures |EncodeTable(FinalSymbols(meta, c, hash))| == |EncodeTable(EndedSymbols(c, hash))|
  {
    EndedPoints(c, hash);
    TableSize(EndedSymbols(c, hash), EndedIndices(c)[END], EndAddress(meta, c, hash));
  }

  // ----- the image -----

  // meta.at(1) .. meta.at(5), each the one before plus a section's bytes.
  function Header(meta: seq<Long>, code: nat, data: nat, table: nat, debug: nat, relocs: nat): (r: seq<Long>)
    requires |meta| >= 6
    ensures |r| == |meta| && r[0] == meta[0]
    ensures r[1] == Wrap(meta[0] + 8 * code) && r[2] == Wrap(r[1] + 8 * data) && r[3] == Wrap(r[2] + 8 * table)
    ensures r[4] == Wrap(r[3] + 8 * debug) && r[5] == Wrap(r[4] + 8 * relocs)
    ensures forall i :: 6 <= i < |meta| ==> r[i] == meta[i]
  {
    var m1 := Wrap(meta[0] + 8 * code);
    var m2 := Wrap(m1 + 8 * data);
    var m3 := Wrap(m2 + 8 * table);
    var m4 := Wrap(m3 + 8 * debug);
    meta[1 := m1][2 := m2][3 := m3][4 := m4][5 := Wrap(m4 + 8 * relocs)]
  }

  function PassContext(meta: seq<Long>, c: Combined, hash: Hash): Context
    requires Pointing(c.symbols, c.indices) && meta != []
  { Context(FinalSymbols(meta, c, hash), EndedIndices(c), Wrap(meta[0] + 8 * |c.code|), meta[0]) }

  // Nothing in the closing steps throws.
  predicate Closable(meta: seq<Long>, c: Combined, hash: Hash)
    requires Pointing(c.symbols, c.indices) && meta != []
  {
    && Labelled(EndedSymbols(c, hash)) && Writable(c.debug)
    && Relocatable(c.relocs, PassContext(meta, c, hash), |c.code|, |c.data|)
  }

  function PatchedSections(meta: seq<Long>, c: Combined, hash: Hash): (r: Sections)
    requires Pointing(c.symbols, c.indices) && meta != [] && Closable(meta, c, hash)
    ensures |r.code| == |c.code| && |r.data| == |c.data|
  {
    ApplyEffects(Effects(c.relocs, PassContext(meta, c, hash), |c.code|, |c.data|), Sections(c.code, c.data))
  }

  function FinalRelocs(meta: seq<Long>, c: Combined, hash: Hash): (r: seq<R.Entry>)
    requires Pointing(c.symbols, c.indices) && meta != [] && Closable(meta, c, hash)
    ensures |r| == |c.relocs|
  { Resolved(c.relocs, PassContext(meta, c, hash), |c.code|, |c.data|) }

  datatype Pieces = Pieces(meta: seq<Long>, code: seq<Long>, data: seq<Long>, table: seq<Long>, debug: seq<Long>, relocs: seq<Long>)

  function Joined(p: Pieces): seq<Long> { p.meta + (p.code + (p.data + (p.table + (p.debug + p.relocs)))) }

  function PiecesOf(meta: seq<Long>, c: Combined, hash: Hash): Pieces
    requires Pointing(c.symbols, c.indices) && |meta| >= 6 && Closable(meta, c, hash)
  {
    var sections := PatchedSections(meta, c, hash);
    var table, debug, relocs :=
      EncodeTable(FinalSymbols(meta, c, hash)), EncodeDebug(c.debug), R.EncodeAll(FinalRelocs(meta, c, hash));
    Pieces(Header(meta, |c.code|, |c.data|, |table|, |debug|, |relocs|), sections.code, sections.data, table, debug, relocs)
  }
}
