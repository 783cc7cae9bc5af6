/** Debug entries: Linker::encodeDebugData and BinaryParser::getDebugData. */
module DebugData {
  import opened Words
  import opened Longs

  type UInt32 = x: int | 0 <= x < 0x1_0000_0000

  datatype DebugEntry =
    | Filename(text: seq<Byte>)
    | FunctionName(text: seq<Byte>)
    | Location(file: UInt32, line: UInt32, column: UInt32, func: UInt32, count: Byte, address: Long)

  predicate IsString(e: DebugEntry) { e.Filename? || e.FunctionName? }

  // A string entry whose length does not fit three bytes is refused.
  predicate Writable(es: seq<DebugEntry>)
  { forall i :: 0 <= i < |es| ==> IsString(es[i]) ==> |es[i].text| <= 0xffffff }

  function TypeByte(e: DebugEntry): Byte
  { if e.Filename? then 1 else if e.FunctionName? then 2 else 3 }

  // The unpadded bytes of an entry; over-wide indices and columns lose their top byte.
  function EntryBytes(e: DebugEntry): (b: seq<Byte>)
    ensures b != [] && b[0] == TypeByte(e)
    ensures |b| == if IsString(e) then 4 + |e.text| else 24
  {
    [TypeByte(e)] +
    match e
    case Location(file, line, column, func, count, address) =>
      Split(file, 3) + Split(line, 4) + Split(column, 3) + [count] + Split(func, 4) + Split(address, 8)
    case _ => Split(|e.text|, 3) + e.text
  }

  function EntryWords(e: DebugEntry): (ws: seq<Long>)
    ensures |ws| == UpDiv(|EntryBytes(e)|, 8) > 0
    ensures Flatten(ws)[..|EntryBytes(e)|] == EntryBytes(e)
  {
    ChunksBytes(EntryBytes(e));
    LongsOf(EntryBytes(e), false)
  }

  function EncodeDebug(es: seq<DebugEntry>): seq<Long>
  { if es == [] then [] else EntryWords(es[0]) + EncodeDebug(es[1..]) }

  lemma {:induction false} EncodeDebugAppend(es: seq<DebugEntry>, fs: seq<DebugEntry>)
    ensures EncodeDebug(es + fs) == EncodeDebug(es) + EncodeDebug(fs)
  {
    hide EntryWords;
    if es == [] {
      assert es + fs == fs;
    } else {
      assert (es + fs)[1..] == es[1..] + fs;
      EncodeDebugAppend(es[1..], fs);
    }
  }

  // `add(number, byte_count)`
  method AddNumber(bytes: seq<Byte>, number: nat, count: nat) returns (r: seq<Byte>)
    ensures r == bytes + Split(number, count)
  {
    r := bytes;
    for i := 0 to count
      invariant r == bytes + Split(number, count)[..i]
    {
      r := r + [ByteOf(number, i)];
    }
  }

  method BytesOf(e: DebugEntry) returns (bytes: seq<Byte>)
    ensures bytes == EntryBytes(e)
  {
    hide Split;
    bytes := [TypeByte(e)];
    if e.Location? {
      bytes := AddNumber(bytes, e.file, 3);
      bytes := AddNumber(bytes, e.line, 4);
      bytes := AddNumber(bytes, e.column, 3);
      bytes := bytes + [e.count];
      bytes := AddNumber(bytes, e.func, 4);
      bytes := AddNumber(bytes, e.address, 8);
    } else {
      bytes := AddNumber(bytes, |e.text|, 3);
      bytes := bytes + e.text;
    }
  }

  /** Linker::encodeDebugData. */
  method EncodeDebugData(debug: seq<DebugEntry>) returns (r: Result<seq<Long>>)
    ensures r == if Writable(debug) then Ok(EncodeDebug(debug)) else Err(NameTooLong)
  {
    hide EntryBytes, LongsOf;
    var out := [];
    for i := 0 to |debug|
      invariant Writable(debug[..i]) && out == EncodeDebug(debug[..i])
    {
      var entry := debug[i];
      if IsString(entry) && 0xffffff < |entry.text| { return Err(NameTooLong); }
      var bytes := BytesOf(entry);
      var pieces := GetLongs(bytes, false);
      EncodeNext(debug, i);
      out := out + pieces;
    }
    assert debug[..|debug|] == debug;
    r := Ok(out);
  }

  lemma {:induction false} EncodeNext(debug: seq<DebugEntry>, i: nat)
    requires i < |debug|
    ensures EncodeDebug(debug[..i + 1]) == EncodeDebug(debug[..i]) + LongsOf(EntryBytes(debug[i]), false)
  {
    var e := debug[i];
    assert debug[..i + 1] == debug[..i] + [e];
    EncodeDebugAppend(debug[..i], [e]);
    assert [e][1..] == [] && EncodeDebug([e]) == EntryWords(e) + [];
  }

  // ----- reading -----

  function StringSpan(length: nat): nat { 8 * UpDiv(4 + length, 8) }

  // The entry whose first byte is at p and the position of the next, over any byte image.
  function EntryAt(image: seq<Byte>, p: nat): (r: Result<(DebugEntry, nat)>)
    ensures r.Ok? ==> r.value.1 > p
  {
    if p + 8 > |image| then Err(OutOfRange) else
    var kind := image[p];
    if kind == 1 || kind == 2 then
      var length := Join(image[p + 1..p + 4]);
      if p + 4 + length > |image| then Err(OutOfRange) else
      var text := image[p + 4..p + 4 + length];
      Ok((if kind == 1 then Filename(text) else FunctionName(text), p + StringSpan(length)))
    else if kind == 3 then
      if p + 24 > |image| then Err(OutOfRange) else Ok((LocationAt(image, p), p + 24))
    else Err(BadDebugType)
  }

  function Field(image: seq<Byte>, p: nat, n: nat): (r: nat)
    requires p + n <= |image| && n <= 4
    ensures r < TWO32
  {
    var b := image[p..p + n];
    SplitJoin(b); FitsMore(Join(b), n, 4); Fits4(Join(b));
    Join(b)
  }

  function LocationAt(image: seq<Byte>, p: nat): DebugEntry
    requires p + 24 <= |image|
  {
    Join8Bound(image[p + 16..p + 24]);
    Location(Field(image, p + 1, 3), Field(image, p + 4, 4), Field(image, p + 8, 3), Field(image, p + 12, 4),
             image[p + 11], Join(image[p + 16..p + 24]))
  }

  function ReadDebug(image: seq<Byte>, p: nat, end: nat): Result<seq<DebugEntry>>
    decreases if p < end then end - p else 0
  {
    if p >= end then Ok([]) else
    match EntryAt(image, p)
    case Err(e) => Err(e)
    case Ok((entry, next)) =>
      match ReadDebug(image, next, end)
      case Err(e) => Err(e)
      case Ok(rest) => Ok([entry] + rest)
  }

  // ----- the round trip -----

  /** Fields that fit the three bytes the format gives them. */
  predicate InRange(e: DebugEntry)
  { if IsString(e) then |e.text| <= 0xffffff else e.file <= 0xffffff && e.column <= 0xffffff }

  predicate AllInRange(es: seq<DebugEntry>) { forall i :: 0 <= i < |es| ==> InRange(es[i]) }

  lemma {:induction false} ConsInRange(es: seq<DebugEntry>)
    requires es != []
    ensures AllInRange(es) <==> InRange(es[0]) && AllInRange(es[1..])
    ensures Writable(es) ==> Writable(es[1..]) && (IsString(es[0]) ==> |es[0].text| <= 0xffffff)
  {
    hide InRange;
    var rest := es[1..];
    assert forall i :: 0 <= i < |rest| ==> rest[i] == es[i + 1];
    if InRange(es[0]) && AllInRange(rest) {
      forall i | 0 <= i < |es| ensures InRange(es[i]) { if i > 0 { assert es[i] == rest[i - 1]; } }
    }
    if AllInRange(es) {
      forall i | 0 <= i < |rest| ensures InRange(rest[i]) { assert InRange(es[i + 1]); }
    }
  }

  lemma {:induction false} Join3(w: nat)
    ensures Join(Split(w, 3)) == w <==> w <= 0xffffff
  {
    SplitTail(w, 3);
    var a := w / 256; var b := a / 256;
    assert Fits(w, 3) == Fits(a, 2) == Fits(b, 1) == Fits(b / 256, 0);
    if w <= 0xffffff {
      JoinSplit(w, 3);
    } else {
      SplitJoin(Split(w, 3));
    }
  }

  lemma {:induction false} FieldWhole(image: seq<Byte>, p: nat, w: nat, n: nat)
    requires p + n <= |image| && image[p..p + n] == Split(w, n)
    ensures n == 3 ==> (Field(image, p, n) == w <==> w <= 0xffffff)
    ensures n == 4 && w < TWO32 ==> Field(image, p, n) == w
    ensures n == 8 && w < TWO64 ==> Join(image[p..p + n]) == w
  {
    if n == 3 { Join3(w); }
    if n == 4 && w < TWO32 { Fits4(w); JoinSplit(w, 4); }
    if n == 8 && w < TWO64 { Fits8(w); JoinSplit(w, 8); }
  }

  lemma {:induction false} LocationSlices(image: seq<Byte>, p: nat, e: DebugEntry)
    requires e.Location? && p + 24 <= |image| && image[p..p + 24] == EntryBytes(e)
    ensures image[p + 1..p + 4] == Split(e.file, 3) && image[p + 4..p + 8] == Split(e.line, 4)
    ensures image[p + 8..p + 11] == Split(e.column, 3) && image[p + 11] == e.count
    ensures image[p + 12..p + 16] == Split(e.func, 4) && image[p + 16..p + 24] == Split(e.address, 8)
  {
    hide Split;
    var b := EntryBytes(e);
    SliceSlice(image, p, p + 24, 1, 4);
    SliceSlice(image, p, p + 24, 4, 8);
    SliceSlice(image, p, p + 24, 8, 11);
    SliceSlice(image, p, p + 24, 12, 16);
    SliceSlice(image, p, p + 24, 16, 24);
    assert b[1..4] == Split(e.file, 3) && b[4..8] == Split(e.line, 4) && b[8..11] == Split(e.column, 3);
    assert b[12..16] == Split(e.func, 4) && b[16..24] == Split(e.address, 8);
    assert image[p + 11] == b[11];
  }

  lemma {:induction false} LocationReads(image: seq<Byte>, p: nat, e: DebugEntry)
    requires e.Location? && p + 24 <= |image| && image[p..p + 24] == EntryBytes(e)
    ensures LocationAt(image, p) == e <==> InRange(e)
  {
    hide Split, Field;
    LocationSlices(image, p, e);
    FieldWhole(image, p + 1, e.file, 3);
    FieldWhole(image, p + 4, e.line, 4);
    FieldWhole(image, p + 8, e.column, 3);
    FieldWhole(image, p + 12, e.func, 4);
    FieldWhole(image, p + 16, e.address, 8);
  }

  lemma {:induction false} StringReads(image: seq<Byte>, p: nat, e: DebugEntry)
    requires IsString(e) && |e.text| <= 0xffffff
    requires p + 8 <= |image| && p + 4 + |e.text| <= |image| && image[p..p + 4 + |e.text|] == EntryBytes(e)
    ensures EntryAt(image, p) == Ok((e, p + StringSpan(|e.text|)))
  {
    hide Split;
    var b := EntryBytes(e);
    SliceSlice(image, p, p + 4 + |e.text|, 1, 4);
    SliceSlice(image, p, p + 4 + |e.text|, 4, 4 + |e.text|);
    assert b[1..4] == Split(|e.text|, 3) && b[4..4 + |e.text|] == e.text;
    Join3(|e.text|);
    assert image[p] == b[0];
  }

  // Reading the words of one entry: the right boundary, and the right fields exactly when they fit.
  lemma {:induction false} EntryReads(image: seq<Byte>, p: nat, e: DebugEntry)
    requires IsString(e) ==> |e.text| <= 0xffffff
    requires p + 8 * |EntryWords(e)| <= |image|
    requires image[p..p + 8 * |EntryWords(e)|] == Flatten(EntryWords(e))
    ensures EntryAt(image, p).Ok? && EntryAt(image, p).value.1 == p + 8 * |EntryWords(e)|
    ensures EntryAt(image, p).value.0 == e <==> InRange(e)
  {
    hide Flatten;
    var b, n := EntryBytes(e), 8 * |EntryWords(e)|;
    assert image[p..p + |b|] == image[p..p + n][..|b|] == b;
    assert image[p] == b[0];
    if IsString(e) {
      StringReads(image, p, e);
    } else {
      LocationReads(image, p, e);
    }
  }

  // A reading of p that yields this entry and then continues at next.
  lemma {:induction false} ReadCons(image: seq<Byte>, p: nat, end: nat, es: seq<DebugEntry>, next: nat)
    requires es != [] && p < end && EntryAt(image, p).Ok? && EntryAt(image, p).value.1 == next
    requires ReadDebug(image, next, end).Ok?
    ensures ReadDebug(image, p, end).Ok?
    ensures ReadDebug(image, p, end).value == es
      <==> EntryAt(image, p).value.0 == es[0] && ReadDebug(image, next, end).value == es[1..]
  {
    hide EntryAt;
    var entry, tail := EntryAt(image, p).value.0, ReadDebug(image, next, end).value;
    assert ReadDebug(image, p, end).value == [entry] + tail;
    assert es == [es[0]] + es[1..];
    if [entry] + tail == es {
      assert ([entry] + tail)[0] == entry && ([entry] + tail)[1..] == tail;
    }
  }

  lemma {:induction false} EncodedSplit(image: seq<Byte>, p: nat, es: seq<DebugEntry>)
    requires es != []
    requires p + 8 * |EncodeDebug(es)| <= |image|
    requires image[p..p + 8 * |EncodeDebug(es)|] == Flatten(EncodeDebug(es))
    ensures var n, end := 8 * |EntryWords(es[0])|, p + 8 * |EncodeDebug(es)|;
      && p + n + 8 * |EncodeDebug(es[1..])| == end && n > 0
      && image[p..p + n] == Flatten(EntryWords(es[0]))
      && image[p + n..end] == Flatten(EncodeDebug(es[1..]))
  {
    hide Flatten, EntryWords, EntryBytes;
    var a, b := EntryWords(es[0]), EncodeDebug(es[1..]);
    FlattenConcat(a, b);
    ConcatSlices(Flatten(a), Flatten(b));
    SliceSlice(image, p, p + 8 * |a + b|, 0, 8 * |a|);
    SliceSlice(image, p, p + 8 * |a + b|, 8 * |a|, 8 * |a + b|);
  }

  /** Decoding an encoded list gives it back exactly when every file index and column fits three bytes. */
  lemma {:induction false} DebugRoundTrip(image: seq<Byte>, p: nat, es: seq<DebugEntry>)
    requires Writable(es)
    requires p + 8 * |EncodeDebug(es)| <= |image|
    requires image[p..p + 8 * |EncodeDebug(es)|] == Flatten(EncodeDebug(es))
    ensures ReadDebug(image, p, p + 8 * |EncodeDebug(es)|).Ok?
    ensures ReadDebug(image, p, p + 8 * |EncodeDebug(es)|).value == es <==> AllInRange(es)
    decreases |es|
  {
    hide *;
    if es == [] {
      NothingEncoded(image, p);
    } else {
      EncodedSplit(image, p, es);
      ConsInRange(es);
      EntryReads(image, p, es[0]);
      DebugRoundTrip(image, p + 8 * |EntryWords(es[0])|, es[1..]);
      RestReads(image, p, es);
    }
  }

  // The first entry and the rest make the whole.
  lemma {:induction false} RestReads(image: seq<Byte>, p: nat, es: seq<DebugEntry>)
    requires es != [] && EntryAt(image, p).Ok? && EntryAt(image, p).value.1 == p + 8 * |EntryWords(es[0])|
    requires EntryAt(image, p).value.0 == es[0] <==> InRange(es[0])
    requires var n := 8 * |EntryWords(es[0])|; n > 0 && p + n + 8 * |EncodeDebug(es[1..])| == p + 8 * |EncodeDebug(es)|
    requires var q, rest := p + 8 * |EntryWords(es[0])|, es[1..]; var r := ReadDebug(image, q, q + 8 * |EncodeDebug(rest)|);
      r.Ok? && (r.value == rest <==> AllInRange(rest))
    requires AllInRange(es) <==> InRange(es[0]) && AllInRange(es[1..])
    ensures ReadDebug(image, p, p + 8 * |EncodeDebug(es)|).Ok?
    ensures ReadDebug(image, p, p + 8 * |EncodeDebug(es)|).value == es <==> AllInRange(es)
  {
    hide *;
    ReadCons(image, p, p + 8 * |EncodeDebug(es)|, es, p + 8 * |EntryWords(es[0])|);
  }

  lemma {:induction false} NothingEncoded(image: seq<Byte>, p: nat)
    ensures EncodeDebug([]) == [] && ReadDebug(image, p, p + 8 * |EncodeDebug([])|) == Ok([]) && AllInRange([])
  {}
}
