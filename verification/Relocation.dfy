/** Relocation entries (wasmc/src/wasm/Types.cpp) and the patch they make (Linker::applyRelocation). */
module Relocation {
  import opened Words
  import opened Longs
  import opened SymbolTable
  import opened Arithmetic

  // RelocationType, a two-bit field.
  type PatchKind = x: int | 0 <= x < 4
  const FULL: PatchKind := 0
  const INVALID: PatchKind := 1
  const LOWER4: PatchKind := 2
  const UPPER4: PatchKind := 3

  // symbolIndex, a signed 61-bit field; -1 means no symbol.
  type SymbolIndex = x: int | -0x1000_0000_0000_0000 <= x < 0x1000_0000_0000_0000

  datatype Entry = Entry(isData: bool, kind: PatchKind, index: SymbolIndex, offset: Long, site: Long,
                         name: Option<Label>)

  // ----- encoding -----

  const INDEX_SPAN: int := 0x2000_0000_0000_0000

  // Long(isData) | ((Long(type) & 3) << 1) | (symbolIndex << 3)
  function HeaderOf(e: Entry): nat
  { BitOr(BitOr(if e.isData then 1 else 0, Shl(e.kind, 1)), Shl(e.index % INDEX_SPAN, 3)) }

  lemma {:induction false} HeaderValue(e: Entry)
    ensures HeaderOf(e) == (if e.isData then 1 else 0) + 2 * e.kind + 8 * (e.index % INDEX_SPAN) < TWO64
  {
    var d, i := if e.isData then 1 else 0, e.index % INDEX_SPAN;
    assert Shl(e.kind, 1) == 2 * Shl(e.kind, 0);
    assert Shl(1, 1) == 2 * Shl(1, 0) && Shl(1, 3) == 2 * Shl(1, 2) == 4 * Shl(1, 1);
    assert Shl(i, 3) == 2 * Shl(i, 2) == 4 * Shl(i, 1) == 8 * Shl(i, 0);
    OrDisjoint(d, 1, e.kind);
    OrDisjoint(d + 2 * e.kind, 3, i);
  }

  function Encode(e: Entry): seq<Long>
  {
    HeaderValue(e);
    [HeaderOf(e), e.offset, e.site]
  }

  // RelocationData(first, second, third)
  function Decode(first: Long, second: Long, third: Long): Entry
  {
    var index := first / 8;
    Entry(first % 2 == 1, first / 2 % 4, if index < INDEX_SPAN / 2 then index else index - INDEX_SPAN,
          second, third, None)
  }

  function EncodeAll(es: seq<Entry>): (r: seq<Long>)
    ensures |r| == 3 * |es|
  { if es == [] then [] else Encode(es[0]) + EncodeAll(es[1..]) }

  // BinaryParser::getRelocationData: three words an entry; a ragged end is read past the vector.
  function DecodeAll(ws: seq<Long>): Result<seq<Entry>>
  {
    if ws == [] then Ok([]) else
    if |ws| < 3 then Err(OutOfRange) else
    match DecodeAll(ws[3..])
    case Err(e) => Err(e)
    case Ok(rest) => Ok([Decode(ws[0], ws[1], ws[2])] + rest)
  }

  // What the encoding forgets: the interned label.
  function Forget(es: seq<Entry>): (r: seq<Entry>)
    ensures |r| == |es|
  { seq(|es|, i requires 0 <= i < |es| => es[i].(name := None)) }

  lemma {:induction false} EntryRoundTrip(e: Entry)
    ensures Decode(Encode(e)[0], Encode(e)[1], Encode(e)[2]) == e.(name := None)
  {
    HeaderValue(e);
    var h := HeaderOf(e);
    assert h % 2 == if e.isData then 1 else 0;
    assert h / 2 == e.kind + 4 * (e.index % INDEX_SPAN);
    assert h / 8 == e.index % INDEX_SPAN;
  }

  lemma {:induction false} RelocationRoundTrip(es: seq<Entry>)
    ensures DecodeAll(EncodeAll(es)) == Ok(Forget(es))
  {
    if es != [] {
      hide Encode, Decode;
      EntryRoundTrip(es[0]);
      RelocationRoundTrip(es[1..]);
      var first := Encode(es[0]);
      assert EncodeAll(es)[..3] == first;
      assert EncodeAll(es)[3..] == EncodeAll(es[1..]);
      assert Forget(es) == [es[0].(name := None)] + Forget(es[1..]);
    }
  }

  // ----- patching -----

  // The bytes a relocation writes: eight, the low four or the high four of the value.
  function PatchBytes(kind: PatchKind, value: Long): (b: seq<Byte>)
    requires kind != INVALID
    ensures |b| == Width(kind)
  { if kind == FULL then Split(value, 8) else if kind == UPPER4 then Split(value, 8)[4..] else Split(value, 8)[..4] }

  function Width(kind: PatchKind): nat { if kind == FULL then 8 else 4 }

  // The word at the site exists and, off a word boundary, so does the next.
  predicate SiteInside(words: nat, site: nat)
  { if site % 8 == 0 then site / 8 < words else site / 8 + 1 < words }

  // The words whose bytes these are.
  function Unflatten(bytes: seq<Byte>): (ws: seq<Long>)
    requires |bytes| % 8 == 0
    ensures Flatten(ws) == bytes
  {
    ChunksBytes(bytes);
    assert bytes + Repeat(0, 0) == bytes;
    Chunks(bytes, false)
  }

  lemma {:induction false} SiteFits(words: nat, site: nat, kind: PatchKind)
    requires SiteInside(words, site)
    ensures site + Width(kind) <= 8 * words
  {}

  // The number a relocation of type 0, 2 or 3 leaves at its site: the value, its lower half or its upper half.
  predicate Shows(bytes: seq<Byte>, site: nat, kind: int, value: Long)
  {
    if kind == 0 then Reads(bytes, site, 8, value)
    else if kind == 2 then Reads(bytes, site, 4, value % 0x1_0000_0000)
    else kind == 3 && Reads(bytes, site, 4, value / 0x1_0000_0000)
  }

  // The patched bytes are that number's.
  lemma {:induction false} PatchShows(bytes: seq<Byte>, site: nat, kind: PatchKind, value: Long)
    requires kind != 1 && site + Width(kind) <= |bytes| && bytes[site..site + Width(kind)] == PatchBytes(kind, value)
    ensures Shows(bytes, site, kind, value) && Width(kind) == if kind == 0 then 8 else 4
  {
    hide Split, Four;
    var s := Split(value, 8);
    ValueHalves(value);
    if kind == 0 { SliceReads8(bytes, site, s); }
    else if kind == 2 { SliceReads4(bytes, site, s[..4]); }
    else { SliceReads4(bytes, site, s[4..]); }
  }

  lemma {:induction false} ValueHalves(value: Long)
    ensures var s := Split(value, 8);
      && value % 0x1_0000_0000 == Four(s[0], s[1], s[2], s[3]) && value / 0x1_0000_0000 == Four(s[4], s[5], s[6], s[7])
      && value == Four(s[0], s[1], s[2], s[3]) + 0x1_0000_0000 * Four(s[4], s[5], s[6], s[7])
  {
    hide Split, Join, Fits, Four;
    var s := Split(value, 8);
    Fits8(value);
    JoinSplit(value, 8);
    JoinEight(s);
    FourBound(s[0], s[1], s[2], s[3]);
    TwoHalves(value, Four(s[0], s[1], s[2], s[3]), Four(s[4], s[5], s[6], s[7]));
  }

  lemma {:induction false} TwoHalves(value: int, low: int, high: int)
    requires value == low + 0x1_0000_0000 * high && 0 <= low < 0x1_0000_0000
    ensures value % 0x1_0000_0000 == low && value / 0x1_0000_0000 == high
  {}

  lemma {:induction false} FourBound(a: Byte, b: Byte, c: Byte, d: Byte)
    ensures 0 <= Four(a, b, c, d) < 0x1_0000_0000
  {}

  lemma {:induction false} SliceReads4(bytes: seq<Byte>, site: nat, b: seq<Byte>)
    requires |b| == 4 && site + 4 <= |bytes| && bytes[site..site + 4] == b
    ensures Four(b[0], b[1], b[2], b[3]) >= 0 && Reads(bytes, site, 4, Four(b[0], b[1], b[2], b[3]))
  {
    FourBound(b[0], b[1], b[2], b[3]);
    hide Four;
  }

  lemma {:induction false} SliceReads8(bytes: seq<Byte>, site: nat, b: seq<Byte>)
    requires |b| == 8 && site + 8 <= |bytes| && bytes[site..site + 8] == b
    ensures var n := Four(b[0], b[1], b[2], b[3]) + 0x1_0000_0000 * Four(b[4], b[5], b[6], b[7]); n >= 0 && Reads(bytes, site, 8, n)
  {
    FourBound(b[0], b[1], b[2], b[3]);
    FourBound(b[4], b[5], b[6], b[7]);
    hide Four;
  }

  function PatchedBytes(ws: seq<Long>, site: nat, kind: PatchKind, value: Long): (r: seq<Byte>)
    requires SiteInside(|ws|, site) && kind != INVALID
    ensures |r| == 8 * |ws|
  {
    SiteFits(|ws|, site, kind);
    Splice(Flatten(ws), site, PatchBytes(kind, value))
  }

  /** The word vector after a patch, defined by its bytes alone. */
  function Patched(ws: seq<Long>, site: nat, kind: PatchKind, value: Long): (r: seq<Long>)
    requires SiteInside(|ws|, site) && kind != INVALID
    ensures Flatten(r) == PatchedBytes(ws, site, kind, value) && |r| == |ws|
  { Unflatten(PatchedBytes(ws, site, kind, value)) }

  lemma {:induction false} PatchUnique(ws: seq<Long>, site: nat, kind: PatchKind, value: Long, r: seq<Long>)
    requires SiteInside(|ws|, site) && kind != INVALID
    requires Flatten(r) == PatchedBytes(ws, site, kind, value)
    ensures r == Patched(ws, site, kind, value)
  { FlattenInjective(r, Patched(ws, site, kind, value)); }

  // Replacing words i, i+1, ... replaces their bytes.
  lemma {:induction false} ReplaceWords(ws: seq<Long>, i: nat, fill: seq<Long>)
    requires i + |fill| <= |ws|
    ensures Flatten(ws[..i] + fill + ws[i + |fill|..]) == Splice(Flatten(ws), 8 * i, Flatten(fill))
  {}

  lemma {:induction false} SpliceInside(s: seq<Byte>, i: nat, n: nat, at: nat, b: seq<Byte>)
    requires i + n <= |s| && at + |b| <= n
    ensures Splice(s, i, Splice(s[i..i + n], at, b)) == Splice(s, i + at, b)
  {}

  // The patched bytes of the words around the site give the patched vector.
  lemma {:induction false} PatchWindow(ws: seq<Long>, site: nat, kind: PatchKind, value: Long, n: nat, fill: seq<Long>)
    requires SiteInside(|ws|, site) && kind != INVALID
    requires |fill| == n && site / 8 + n <= |ws| && site % 8 + Width(kind) <= 8 * n
    requires Flatten(fill) == Splice(Flatten(ws[site / 8..site / 8 + n]), site % 8, PatchBytes(kind, value))
    ensures ws[..site / 8] + fill + ws[site / 8 + n..] == Patched(ws, site, kind, value)
  {
    hide Flatten, Splice, PatchBytes, Patched;
    var i, at := site / 8, site % 8;
    ReplaceWords(ws, i, fill);
    FlattenSlice(ws, i, i + n);
    assert Flatten(ws)[8 * i..8 * i + 8 * n] == Flatten(ws[i..i + n]);
    SpliceInside(Flatten(ws), 8 * i, 8 * n, at, PatchBytes(kind, value));
    assert 8 * i + at == site;
    PatchUnique(ws, site, kind, value, ws[..i] + fill + ws[i + n..]);
  }

  // bytes[i + at] = uint8_t(value >> (8 * (skip + i))) for i below count
  method Overwrite(bytes: seq<Byte>, at: nat, value: Long, skip: nat, count: nat) returns (r: seq<Byte>)
    requires at + count <= |bytes| && skip + count <= 8
    ensures r == Splice(bytes, at, Split(value, 8)[skip..skip + count])
  {
    ghost var b := Split(value, 8)[skip..skip + count];
    r := bytes;
    for i := 0 to count
      invariant |r| == |bytes|
      invariant forall k :: 0 <= k < |r| ==> r[k] == if at <= k < at + i then b[k - at] else bytes[k]
    {
      r := r[i + at := ByteOf(value, skip + i)];
    }
  }

  method OverwriteKind(bytes: seq<Byte>, at: nat, kind: PatchKind, value: Long) returns (r: seq<Byte>)
    requires kind != INVALID && at + Width(kind) <= |bytes|
    ensures r == Splice(bytes, at, PatchBytes(kind, value))
  {
    if kind == FULL {
      r := Overwrite(bytes, at, value, 0, 8);
      assert Split(value, 8)[0..8] == Split(value, 8);
    } else if kind == LOWER4 {
      r := Overwrite(bytes, at, value, 0, 4);
    } else {
      r := Overwrite(bytes, at, value, 4, 4);
    }
  }

  lemma {:induction false} LongsOfBytes(bytes: seq<Byte>)
    requires bytes != [] && |bytes| % 8 == 0
    ensures |LongsOf(bytes, false)| == |bytes| / 8 && Flatten(LongsOf(bytes, false)) == bytes
  {
    ChunksBytes(bytes);
    assert bytes + Repeat(0, 0) == bytes;
  }

  lemma {:induction false} TwoWords(ws: seq<Long>, i: nat)
    requires i + 1 < |ws|
    ensures GetBytes(ws[i]) + GetBytes(ws[i + 1]) == Flatten(ws[i..i + 2])
  {
    var two := ws[i..i + 2];
    FlattenWord(two, 0);
    FlattenWord(two, 1);
    assert Flatten(two) == Flatten(two)[0..8] + Flatten(two)[8..16];
  }

  lemma {:induction false} OneWord(ws: seq<Long>, i: nat)
    requires i < |ws|
    ensures GetBytes(ws[i]) == Flatten(ws[i..i + 1])
  {
    FlattenWord(ws[i..i + 1], 0);
    assert Flatten(ws[i..i + 1]) == Flatten(ws[i..i + 1])[0..8];
  }

  /** The body of applyRelocation's loop from `auto &longs = ...` on: rewrite one or two words. */
  method PatchSite(longs: seq<Long>, site: Long, kind: PatchKind, value: Long) returns (r: Result<seq<Long>>)
    ensures r == if !SiteInside(|longs|, site) then Err(OutOfRange)
                 else if kind == INVALID then Err(BadRelocation)
                 else Ok(Patched(longs, site, kind, value))
    ensures r.Ok? ==> kind != 1 && |r.value| == |longs| && Shows(Flatten(r.value), site, kind, value)
    ensures r.Ok? ==> forall x :: 0 <= x < 8 * |longs| && !(site <= x < site + (if kind == 0 then 8 else 4)) ==>
      Flatten(r.value)[x] == Flatten(longs)[x]
  {
    if SiteInside(|longs|, site) && kind != INVALID { PatchedShows(longs, site, kind, value); }
    hide Shows, Splice, PatchBytes, PatchedBytes, Patched, LongsOf, GetBytes, Flatten;
    if !SiteInside(|longs|, site) { return Err(OutOfRange); }
    if kind == INVALID { return Err(BadRelocation); }
    if site % 8 != 0 {
      var bytes := GetBytes(longs[site / 8]) + GetBytes(longs[site / 8 + 1]);
      TwoWords(longs, site / 8);
      var patched := PatchBytesOf(longs, bytes, site, kind, value, 2);
      r := Ok(patched);
    } else if kind == FULL {
      WholeWord(longs, site, value);
      r := Ok(longs[site / 8 := value]);
    } else {
      var bytes := GetBytes(longs[site / 8]);
      OneWord(longs, site / 8);
      var patched := PatchBytesOf(longs, bytes, site, kind, value, 1);
      r := Ok(patched);
    }
  }

  // The one or two words around the site, as bytes, patched and put back.
  method PatchBytesOf(longs: seq<Long>, window: seq<Byte>, site: Long, kind: PatchKind, value: Long, n: nat)
    returns (patched: seq<Long>)
    requires SiteInside(|longs|, site) && kind != INVALID
    requires 1 <= n && site / 8 + n <= |longs| && site % 8 + Width(kind) <= 8 * n
    requires window == Flatten(longs[site / 8..site / 8 + n])
    ensures patched == Patched(longs, site, kind, value)
  {
    hide Flatten, PatchBytes, Patched, LongsOf;
    var i := site / 8;
    var bytes := OverwriteKind(window, site % 8, kind, value);
    LongsOfBytes(bytes);
    var adjusted := GetLongs(bytes, false);
    PatchWindow(longs, site, kind, value, n, adjusted);
    patched := longs[..i] + adjusted + longs[i + n..];
  }

  lemma {:induction false} WholeWord(longs: seq<Long>, site: Long, value: Long)
    requires site % 8 == 0 && site / 8 < |longs|
    ensures longs[site / 8 := value] == Patched(longs, site, FULL, value)
  {
    var i := site / 8;
    OneWord([value], 0);
    assert [value][0..1] == [value];
    assert Flatten([value]) == Splice(Flatten(longs[i..i + 1]), 0, Split(value, 8));
    PatchWindow(longs, site, FULL, value, 1, [value]);
    assert longs[i := value] == longs[..i] + [value] + longs[i + 1..];
  }

  lemma {:induction false} PatchedShows(ws: seq<Long>, site: nat, kind: PatchKind, value: Long)
    requires SiteInside(|ws|, site) && kind != INVALID
    ensures kind != 1 && Shows(Flatten(Patched(ws, site, kind, value)), site, kind, value)
    ensures forall x :: 0 <= x < 8 * |ws| && !(site <= x < site + (if kind == 0 then 8 else 4)) ==>
      Flatten(Patched(ws, site, kind, value))[x] == Flatten(ws)[x]
  {
    hide Flatten, PatchBytes, Shows;
    SiteFits(|ws|, site, kind);
    var after := Flatten(Patched(ws, site, kind, value));
    assert after[site..site + Width(kind)] == PatchBytes(kind, value);
    PatchShows(after, site, kind, value);
  }
}
