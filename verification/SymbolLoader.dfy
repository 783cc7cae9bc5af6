/** VM::loadSymbols: the machine's own reader of the symbol table, which walks bytes. */
module SymbolLoader {
  import opened Words
  import opened Longs
  import opened SymbolTable
  import opened LabelText
  import SymbolReader

  // What one turn of the loop stores: the name, and Symbol(hash, location, type).
  datatype Loaded = Loaded(name: Label, hash: Id, location: Long, kind: Kind)

  function LoadedOf(e: SymbolEntry): Loaded { Loaded(e.name, e.id, e.address, e.kind) }

  // getString(address, max): up to max bytes, stopping at a NUL or the end of memory.
  function StringAt(memory: seq<Byte>, address: nat, max: nat): seq<Byte>
    requires address <= |memory|
  { UntilNul(memory[address..if address + max <= |memory| then address + max else |memory|]) }

  function Number(bytes: seq<Byte>): (n: nat)
    requires |bytes| <= 8
    ensures Fits(n, |bytes|)
  { SplitJoin(bytes); Join(bytes) }

  // The entry at byte i and the position after it; None where the loop stops short.
  function LoadAt(memory: seq<Byte>, i: nat): (r: Option<(Loaded, nat)>)
    requires i + 16 < |memory|
    ensures r.Some? ==> r.value.1 >= i + 16
  {
    var length := Number(memory[i..i + 2]);
    if length >= 0x8000 || |memory| <= i + 16 + 8 * length then None else
    Fits4(Number(memory[i + 4..i + 8]));
    Fits8(Number(memory[i + 8..i + 16]));
    TwoBytes(Number(memory[i + 2..i + 4]));
    Some((Loaded(StringAt(memory, i + 16, 8 * length), Number(memory[i + 4..i + 8]), Number(memory[i + 8..i + 16]),
                 Number(memory[i + 2..i + 4])), i + 16 + 8 * length))
  }

  lemma {:induction false} TwoBytes(n: nat)
    ensures Fits(n, 2) <==> n < 0x1_0000
  { assert Fits(n, 2) == Fits(n / 256, 1) == Fits(n / 256 / 256, 0); }

  function LoadFrom(memory: seq<Byte>, i: nat, end: nat): seq<Loaded>
    decreases if i < |memory| then |memory| - i else 0
  {
    if i >= end || i + 16 >= |memory| then [] else
    match LoadAt(memory, i)
    case None => []
    case Some((entry, next)) => [entry] + LoadFrom(memory, next, end)
  }

  // symbolTable.emplace: the first entry of a name keeps it.
  function TableOf(entries: seq<Loaded>): (m: map<Label, Loaded>)
    ensures forall k :: k in m ==> m[k] in entries && m[k].name == k
    ensures forall e :: e in entries ==> e.name in m
  {
    if entries == [] then map[] else
    var n := |entries| - 1;
    var m := TableOf(entries[..n]);
    if entries[n].name in m then m else m[entries[n].name := entries[n]]
  }

  /** VM::loadSymbols, on entries whose length field is not negative. */
  method LoadSymbols(memory: seq<Byte>, symbolsOffset: nat, debugOffset: nat) returns (table: map<Label, Loaded>)
    ensures table == TableOf(LoadFrom(memory, symbolsOffset, debugOffset))
  {
    hide LoadAt;
    ghost var entries: seq<Loaded> := [];
    table := map[];
    var i := symbolsOffset;
    assert [] + LoadFrom(memory, i, debugOffset) == LoadFrom(memory, i, debugOffset);
    while i < debugOffset && i + 16 < |memory|
      invariant entries + LoadFrom(memory, i, debugOffset) == LoadFrom(memory, symbolsOffset, debugOffset)
      invariant table == TableOf(entries)
      decreases if i < |memory| then |memory| - i else 0
    {
      var next := LoadAt(memory, i);
      if next.None? {
        assert entries + [] == entries;
        return;
      }
      var (entry, after) := next.value;
      ConcatAssoc(entries, [entry], LoadFrom(memory, after, debugOffset));
      assert (entries + [entry])[..|entries|] == entries;
      if entry.name !in table { table := table[entry.name := entry]; }
      entries := entries + [entry];
      i := after;
    }
    assert entries + [] == entries;
  }

  // ----- the same labels as the toolchain's reader -----

  lemma {:induction false} UntilNulAppend(a: seq<Byte>, b: seq<Byte>)
    ensures UntilNul(a + b) == if 0 in a then UntilNul(a) else a + UntilNul(b)
  {
    if a == [] {
      assert a + b == b;
    } else {
      var c := a[1..];
      assert a == [a[0]] + c && (a + b)[1..] == c + b && (a + b)[0] == a[0];
      UntilNulAppend(c, b);
      if a[0] != 0 {
        assert UntilNul(a + b) == [a[0]] + UntilNul(c + b) && UntilNul(a) == [a[0]] + UntilNul(c);
        ConcatAssoc([a[0]], c, UntilNul(b));
      }
    }
  }

  // Of a NUL-free label's words, the bytes up to the first NUL are the text the toolchain reads.
  lemma {:induction false} SameText(name: seq<Byte>)
    requires name != [] && 0 !in name
    ensures UntilNul(Flatten(Chunks(name, true))) == Text(Chunks(name, true))
  {
    hide UntilNul, Packed, WordText, ChunkWord, Flatten;
    var n := if |name| < 8 then |name| else 8;
    var head, tail := name[..n], name[n..];
    var w := ChunkWord(head, true);
    assert Chunks(name, true) == [w] + Chunks(tail, true);
    assert ([w] + Chunks(tail, true))[1..] == Chunks(tail, true);
    assert Text(Chunks(name, true)) == WordText(w) + Text(Chunks(tail, true));
    WordTextPacked(head, true);
    PackedBytes(head);
    FlattenConcat([w], Chunks(tail, true));
    UntilNulAppend(Packed(head, true), Flatten(Chunks(tail, true)));
    if tail == [] {
      LastWord(head);
    } else {
      NoNulPacked(head);
      UntilNulAppend(Packed(head, true), []);
      assert Packed(head, true) + [] == Packed(head, true);
      EmptyUntilNul();
      assert Packed(head, true) + UntilNul([]) == Packed(head, true);
      SameText(tail);
    }
  }

  lemma {:induction false} EmptyUntilNul()
    ensures UntilNul([]) == []
  {}

  lemma {:induction false} LastWord(head: seq<Byte>)
    requires 0 < |head| <= 8 && 0 !in head
    ensures Chunks([], true) == [] && Flatten([]) == [] && Text([]) == []
    ensures UntilNul(Packed(head, true) + []) == UntilNul(Packed(head, true)) + []
  { assert Packed(head, true) + [] == Packed(head, true); assert UntilNul(Packed(head, true)) + [] == UntilNul(Packed(head, true)); }

  lemma {:induction false} NoNulPacked(head: seq<Byte>)
    requires |head| == 8 && 0 !in head
    ensures 0 !in Packed(head, true)
  {}

  lemma {:induction false} PackedBytes(head: seq<Byte>)
    requires |head| <= 8
    ensures Flatten([ChunkWord(head, true)]) == Packed(head, true)
  {
    hide Packed;
    var w := ChunkWord(head, true);
    SplitJoin(Packed(head, true));
    FlattenWord([w], 0);
    assert Flatten([w]) == Flatten([w])[0..8];
  }

  /** The machine reads a label back exactly when the toolchain does: when the format can carry it. */
  lemma {:induction false} LoadedLabel(name: seq<Byte>)
    requires name != []
    ensures UntilNul(Flatten(LongsOf(name, true))) == name <==> Carried(name)
  {
    LabelRoundTrip(name);
    if 0 in name {
      var i :| 0 <= i < |name| && name[i] == 0;
      assert !CarriedAt(name, i);
    } else {
      SameText(name);
    }
  }

  // ----- the round trip -----

  // The header's bytes: length, type, hash; then the address.
  lemma {:induction false} HeaderBytes(e: SymbolEntry)
    requires e.name != []
    ensures var b := Flatten(EncodeEntry(e));
      && |b| == 16 + 8 * NameWords(e.name)
      && Number(b[0..2]) == NameWords(e.name) % 0x1_0000 && Number(b[2..4]) == e.kind && Number(b[4..8]) == e.id
      && Number(b[8..16]) == e.address && b[16..] == Flatten(LongsOf(e.name, true))
  {
    hide LinkerHeader;
    SymbolReader.EncodedParts(e);
    var ws := EncodeEntry(e);
    HeaderFields(e.id, NameWords(e.name), e.kind);
    FlattenWord(ws, 0);
    FlattenWord(ws, 1);
    var b := Flatten(ws);
    FlattenTail(ws);
    assert b[8 * 0..8 * 0 + 8] == b[0..8] && b[8 * 1..8 * 1 + 8] == b[8..16];
    FieldsOfHeader(ws[0], b[0..8]);
    assert b[0..8][..2] == b[0..2] && b[0..8][2..4] == b[2..4] && b[0..8][4..] == b[4..8];
  }

  lemma {:induction false} FlattenTail(ws: seq<Long>)
    requires |ws| >= 2
    ensures Flatten(ws)[16..] == Flatten(ws[2..])
  {
    FlattenConcat(ws[..2], ws[2..]);
    assert ws == ws[..2] + ws[2..];
  }

  lemma {:induction false} FieldsOfHeader(h: Long, b: seq<Byte>)
    requires |b| == 8 && Join(b) == h
    ensures Join(b[..2]) == h % 0x1_0000 && Join(b[2..4]) == h / 0x1_0000 % 0x1_0000 && Join(b[4..]) == h / 0x1_0000_0000
  {
    JoinAppend(b[..2], b[2..]); JoinBound(b[..2]); Shl16(Join(b[2..])); Shl16(1);
    assert b[..2] + b[2..] == b;
    var c := b[2..];
    JoinAppend(c[..2], c[2..]); JoinBound(c[..2]); Shl16(Join(c[2..]));
    assert c[..2] + c[2..] == c && c[..2] == b[2..4] && c[2..] == b[4..];
    ThreeFields(h, Join(b[..2]), Join(b[2..4]), Join(b[4..]));
  }

  lemma {:induction false} ThreeFields(h: nat, low: nat, middle: nat, high: nat)
    requires h == low + 0x1_0000 * (middle + 0x1_0000 * high) && low < 0x1_0000 && middle < 0x1_0000
    ensures h % 0x1_0000 == low && h / 0x1_0000 % 0x1_0000 == middle && h / 0x1_0000_0000 == high
  {}

  // What an entry needs for the machine to read it.
  predicate Loadable(e: SymbolEntry) { Carried(e.name) && NameWords(e.name) < 0x8000 }

  lemma {:induction false} LoadEncoded(memory: seq<Byte>, i: nat, e: SymbolEntry)
    requires e.name != [] && i + |Flatten(EncodeEntry(e))| < |memory|
    requires memory[i..i + |Flatten(EncodeEntry(e))|] == Flatten(EncodeEntry(e))
    ensures i + 16 < |memory|
    ensures Loadable(e) ==> LoadAt(memory, i) == Some((LoadedOf(e), i + |Flatten(EncodeEntry(e))|))
    ensures LoadAt(memory, i).Some? && LoadAt(memory, i).value.0 == LoadedOf(e) ==> Loadable(e)
  {
    hide Flatten, EncodeEntry, UntilNul, Carried, LongsOf, LoadAt;
    HeaderBytes(e);
    EntryFields(memory, i, e);
    LoadedLabel(e.name);
    if Loadable(e) {
      LoadGood(memory, i, e);
    } else if LoadAt(memory, i).Some? && LoadAt(memory, i).value.0 == LoadedOf(e) {
      LoadedShort(memory, i);
      NameNeedsWords(e.name);
      LoadGood(memory, i, e);
    }
  }

  // The entry's fields where the machine looks for them.
  lemma {:induction false} EntryFields(memory: seq<Byte>, i: nat, e: SymbolEntry)
    requires e.name != [] && i + |Flatten(EncodeEntry(e))| < |memory|
    requires memory[i..i + |Flatten(EncodeEntry(e))|] == Flatten(EncodeEntry(e))
    ensures |Flatten(EncodeEntry(e))| == 16 + 8 * NameWords(e.name) && i + 16 < |memory|
    ensures Number(memory[i..i + 2]) == NameWords(e.name) % 0x1_0000 && Number(memory[i + 2..i + 4]) == e.kind
    ensures Number(memory[i + 4..i + 8]) == e.id && Number(memory[i + 8..i + 16]) == e.address
    ensures memory[i + 16..i + 16 + 8 * NameWords(e.name)] == Flatten(LongsOf(e.name, true))
  {
    hide Flatten, EncodeEntry, LongsOf;
    var b := Flatten(EncodeEntry(e));
    HeaderBytes(e);
    var n := |b|;
    SliceSlice(memory, i, i + n, 0, 2);
    SliceSlice(memory, i, i + n, 2, 4);
    SliceSlice(memory, i, i + n, 4, 8);
    SliceSlice(memory, i, i + n, 8, 16);
    SliceSlice(memory, i, i + n, 16, n);
    assert b[16..n] == b[16..];
  }

  // With a length that fits its field, what is loaded is the entry, under the label's bytes.
  lemma {:induction false} LoadGood(memory: seq<Byte>, i: nat, e: SymbolEntry)
    requires e.name != [] && NameWords(e.name) < 0x8000 && i + |Flatten(EncodeEntry(e))| < |memory|
    requires memory[i..i + |Flatten(EncodeEntry(e))|] == Flatten(EncodeEntry(e))
    ensures i + 16 < |memory|
    ensures LoadAt(memory, i) == Some((LoadedOf(e).(name := UntilNul(Flatten(LongsOf(e.name, true)))), i + |Flatten(EncodeEntry(e))|))
  {
    hide Flatten, EncodeEntry, UntilNul, LongsOf;
    EntryFields(memory, i, e);
  }

  lemma {:induction false} LoadedShort(memory: seq<Byte>, i: nat)
    requires i + 16 < |memory| && LoadAt(memory, i).Some?
    ensures |LoadAt(memory, i).value.0.name| <= 8 * Number(memory[i..i + 2]) && Number(memory[i..i + 2]) < 0x8000
  {}

  lemma {:induction false} NameNeedsWords(name: Label)
    requires |name| <= 8 * (NameWords(name) % 0x1_0000) && NameWords(name) % 0x1_0000 < 0x8000
    ensures NameWords(name) < 0x8000
  {}

  /** The machine reads an encoded table back as its entries, in order, exactly when every label is one the format can
      carry in fewer than 2^15 words. */
  lemma {:induction false} LoadRoundTrip(memory: seq<Byte>, i: nat, table: seq<SymbolEntry>)
    requires Labelled(table) && i + 8 * |EncodeTable(table)| < |memory|
    requires memory[i..i + 8 * |EncodeTable(table)|] == Flatten(EncodeTable(table))
    ensures LoadFrom(memory, i, i + 8 * |EncodeTable(table)|) == seq(|table|, k requires 0 <= k < |table| => LoadedOf(table[k]))
      <==> forall e :: e in table ==> Loadable(e)
    decreases |table|
  {
    hide LoadAt, EncodeEntry, Flatten, Loadable;
    if table != [] {
      SymbolReader.EncodeTableCons(table);
      var first, rest := table[0], table[1..];
      var a, b := EncodeEntry(first), EncodeTable(rest);
      var n, end := 8 * |a|, i + 8 * |EncodeTable(table)|;
      FlattenConcat(a, b);
      ConcatSlices(Flatten(a), Flatten(b));
      assert |Flatten(a)| == n && |Flatten(b)| == 8 * |b|;
      SliceSlice(memory, i, end, 0, n);
      SliceSlice(memory, i, end, n, n + 8 * |b|);
      LoadEncoded(memory, i, first);
      LoadRoundTrip(memory, i + n, rest);
      LoadCons(memory, i, end, table, i + n);
      assert table == [first] + rest;
    }
  }

  lemma {:induction false} LoadCons(memory: seq<Byte>, i: nat, end: nat, table: seq<SymbolEntry>, next: nat)
    requires table != [] && i < end && i + 16 < |memory|
    requires Loadable(table[0]) ==> LoadAt(memory, i) == Some((LoadedOf(table[0]), next))
    requires LoadAt(memory, i).Some? && LoadAt(memory, i).value.0 == LoadedOf(table[0]) ==> Loadable(table[0])
    ensures LoadFrom(memory, i, end) == seq(|table|, k requires 0 <= k < |table| => LoadedOf(table[k]))
      <==> Loadable(table[0])
           && LoadFrom(memory, next, end) == seq(|table[1..]|, k requires 0 <= k < |table[1..]| => LoadedOf(table[1..][k]))
  {
    hide LoadAt, Loadable;
    var all := seq(|table|, k requires 0 <= k < |table| => LoadedOf(table[k]));
    var rest := seq(|table[1..]|, k requires 0 <= k < |table[1..]| => LoadedOf(table[1..][k]));
    assert all == [LoadedOf(table[0])] + rest;
    if LoadAt(memory, i).Some? {
      var (entry, after) := LoadAt(memory, i).value;
      var tail := LoadFrom(memory, after, end);
      assert LoadFrom(memory, i, end) == [entry] + tail;
      assert ([entry] + tail)[0] == entry && ([entry] + tail)[1..] == tail;
      assert all[0] == LoadedOf(table[0]) && all[1..] == rest;
    }
  }
}
