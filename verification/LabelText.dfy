/** How BinaryParser::extractSymbols reads a label back out of its words, and exactly which labels survive. */
module LabelText {
  import opened Words
  import opened Longs

  // Bytes up to the first NUL.
  function UntilNul(bs: seq<Byte>): (r: seq<Byte>)
    ensures |r| <= |bs| && 0 !in r
    ensures r <= bs
    ensures |r| < |bs| ==> bs[|r|] == 0
  { if bs == [] || bs[0] == 0 then [] else [bs[0]] + UntilNul(bs[1..]) }

  // How many low-end zero bytes the reader drops. The word 0 is left alone.
  function LowZeros(bs: seq<Byte>): (n: nat)
    ensures n <= |bs|
    ensures n < |bs| ==> bs[n] != 0
    ensures forall i :: 0 <= i < n ==> bs[i] == 0
  { if bs == [] || bs[0] != 0 then 0 else 1 + LowZeros(bs[1..]) }

  // The text of one word. Dropped bytes are skipped twice: once by shifting, once by starting later.
  function WordText(w: Long): (r: seq<Byte>)
    ensures |r| <= 8 && 0 !in r
  {
    var bs := Split(w, 8);
    var removed := if w == 0 then 0 else LowZeros(bs);
    var shifted := bs[removed..] + Repeat(0, removed);
    UntilNul(shifted[removed..])
  }

  function Text(ws: seq<Long>): seq<Byte>
  { if ws == [] then [] else WordText(ws[0]) + Text(ws[1..]) }

  // Byte i is not NUL and, if its top bit is set, it ends a word or is followed by 0xff.
  predicate CarriedAt(name: seq<Byte>, i: nat)
    requires i < |name|
  { name[i] != 0 && (name[i] >= 128 && i % 8 != 7 ==> i + 1 < |name| && name[i + 1] == 255) }

  /** Labels the format can carry. */
  predicate Carried(name: seq<Byte>)
  { forall i :: 0 <= i < |name| ==> CarriedAt(name, i) }

  // In one word, being carried means the packed word is the characters and nothing else.
  lemma {:induction false} CarriedPacks(chunk: seq<Byte>)
    requires |chunk| <= 8 && 0 !in chunk
    ensures Carried(chunk) <==> Packed(chunk, true) == chunk + Repeat(0, 8 - |chunk|)
  {
    var n := |chunk|;
    var plain := chunk + Repeat(0, 8 - n);
    if Carried(chunk) {
      forall j | 0 <= j < 8 ensures Packed(chunk, true)[j] == plain[j] {
        if HighBefore(chunk, j, true) {
          var i :| 0 <= i < n && i < j && chunk[i] >= 128;
          HighRun(chunk, i, j);
        }
      }
    }
    if Packed(chunk, true) == plain {
      forall i | 0 <= i < n ensures CarriedAt(chunk, i) {
        if chunk[i] >= 128 && i % 8 != 7 {
          assert HighBefore(chunk, i + 1, true);
          assert Packed(chunk, true)[i + 1] == 255 == plain[i + 1];
        }
      }
    }
  }

  lemma {:induction false} HighRun(chunk: seq<Byte>, i: nat, j: nat)
    requires |chunk| <= 8 && Carried(chunk) && i < j < 8 && i < |chunk| && chunk[i] >= 128
    ensures j < |chunk| && chunk[j] == 255
    decreases j - i
  {
    assert CarriedAt(chunk, i);
    if i + 1 < j { HighRun(chunk, i + 1, j); }
  }

  lemma {:induction false} UntilNulPrefix(a: seq<Byte>, b: seq<Byte>)
    requires 0 !in a
    ensures UntilNul(a + b) == a + UntilNul(b)
  {
    if a == [] {
      assert a + b == b;
    } else {
      assert (a + b)[1..] == a[1..] + b;
      UntilNulPrefix(a[1..], b);
    }
  }

  lemma {:induction false} UntilNulZeros(n: nat)
    ensures UntilNul(Repeat(0, n)) == []
  {}

  lemma {:induction false} WordTextPacked(chunk: seq<Byte>, signed: bool)
    requires 0 < |chunk| <= 8 && chunk[0] != 0
    ensures WordText(ChunkWord(chunk, signed)) == UntilNul(Packed(chunk, signed))
  {
    var bs := Packed(chunk, signed);
    SplitJoin(bs);
    assert bs[0] == chunk[0];
    assert LowZeros(bs) == 0;
    assert bs[0..] + Repeat(0, 0) == bs && bs[0..] == bs;
  }

  // A NUL-free chunk comes back exactly when it is carried; a full one keeps its length either way.
  lemma {:induction false} ChunkText(chunk: seq<Byte>)
    requires 0 < |chunk| <= 8 && 0 !in chunk
    ensures WordText(ChunkWord(chunk, true)) == chunk <==> Carried(chunk)
    ensures |chunk| == 8 ==> |WordText(ChunkWord(chunk, true))| == 8
  {
    var n := |chunk|;
    var bs := Packed(chunk, true);
    WordTextPacked(chunk, true);
    CarriedPacks(chunk);
    assert forall j :: 0 <= j < n ==> bs[j] != 0;
    UntilNulPrefix(bs[..n], bs[n..]);
    assert bs == bs[..n] + bs[n..];
    UntilNulZeros(8 - n);
    if Carried(chunk) {
      assert bs[..n] == chunk && bs[n..] == Repeat(0, 8 - n);
    } else if UntilNul(bs) == chunk {
      assert UntilNul(bs[n..]) == [];
      assert bs[..n] == chunk;
      TailZero(chunk);
    }
  }

  // Above the characters a packed word is all zero or all ones.
  lemma {:induction false} TailZero(chunk: seq<Byte>)
    requires 0 < |chunk| <= 8
    requires |chunk| < 8 ==> Packed(chunk, true)[|chunk|] == 0
    requires Packed(chunk, true)[..|chunk|] == chunk
    ensures Packed(chunk, true) == chunk + Repeat(0, 8 - |chunk|)
  {
    var n := |chunk|;
    forall j | n <= j < 8 ensures Packed(chunk, true)[j] == 0 { HighAppend(chunk, 0, true, j); }
    assert Packed(chunk, true) == Packed(chunk, true)[..n] + Packed(chunk, true)[n..];
  }

  lemma {:induction false} CarriedSplit(name: seq<Byte>)
    requires |name| > 8 && 0 !in name
    ensures Carried(name) <==> Carried(name[..8]) && Carried(name[8..])
  {
    var a, b := name[..8], name[8..];
    forall i | 0 <= i < 8 ensures CarriedAt(a, i) <==> CarriedAt(name, i) {}
    forall i | 0 <= i < |b| ensures CarriedAt(b, i) <==> CarriedAt(name, i + 8) {
      assert b[i] == name[i + 8] && (i + 8) % 8 == i % 8;
    }
    if Carried(a) && Carried(b) {
      forall i | 0 <= i < |name| ensures CarriedAt(name, i) {
        if i < 8 { assert CarriedAt(a, i); } else { assert CarriedAt(b, i - 8); }
      }
    }
  }

  lemma {:induction false} TextHasNoNul(ws: seq<Long>)
    ensures 0 !in Text(ws)
  { if ws != [] { TextHasNoNul(ws[1..]); } }

  lemma {:induction false} NulFreeText(name: seq<Byte>)
    requires name != [] && 0 !in name
    ensures Text(Chunks(name, true)) == name <==> Carried(name)
  {
    if |name| <= 8 {
      assert name[..|name|] == name && name[|name|..] == [];
      var w := ChunkWord(name, true);
      assert Chunks(name, true) == [w];
      assert Text([w]) == WordText(w) + Text([]);
      ChunkText(name);
    } else {
      var a, b := name[..8], name[8..];
      ChunkText(a);
      NulFreeText(b);
      CarriedSplit(name);
      assert Chunks(name, true) == [ChunkWord(a, true)] + Chunks(b, true);
      var x, y := WordText(ChunkWord(a, true)), Text(Chunks(b, true));
      assert Text(Chunks(name, true)) == x + y;
      assert name == a + b;
      if x + y == name {
        assert x == (x + y)[..8] && y == (x + y)[8..];
      }
    }
  }

  /** A label is read back unchanged exactly when it is carried. */
  lemma {:induction false} LabelRoundTrip(name: seq<Byte>)
    requires name != []
    ensures Text(LongsOf(name, true)) == name <==> Carried(name)
  {
    TextHasNoNul(LongsOf(name, true));
    if 0 in name {
      var i :| 0 <= i < |name| && name[i] == 0;
      assert !CarriedAt(name, i);
    } else {
      NulFreeText(name);
    }
  }

  lemma {:induction false} LongsCount(name: seq<Byte>, signed: bool)
    requires name != []
    ensures |LongsOf(name, signed)| == UpDiv(|name|, 8)
  {
    var n := if |name| < 8 then |name| else 8;
    if |name| > 8 {
      LongsCount(name[8..], signed);
      assert Chunks(name, signed) == [ChunkWord(name[..8], signed)] + Chunks(name[8..], signed);
    } else {
      assert Chunks(name[n..], signed) == [];
      assert Chunks(name, signed) == [ChunkWord(name[..n], signed)] + Chunks(name[n..], signed);
    }
  }
}
