/** wasmc/include/util/Util.h and wasmc/src/util/Util.cpp: bytes to words and back. */
module Longs {
  import opened Words

  function UpDiv(n: nat, d: nat): nat
    requires d > 0
  { n / d + (if n % d != 0 then 1 else 0) }

  function UpAlign(n: nat, alignment: nat): nat
    requires alignment > 0
  { n + (alignment - n % alignment) % alignment }

  // Util::getBytes: the eight bytes of a word.
  function GetBytes(n: Long): (b: seq<Byte>)
    ensures |b| == 8 && Join(b) == n
  {
    Fits8(n); JoinSplit(n, 8);
    Split(n, 8)
  }

  // __builtin_bswap64.
  function Reverse(s: seq<Byte>): (r: seq<Byte>)
    ensures |r| == |s|
    ensures forall i :: 0 <= i < |s| ==> r[i] == s[|s| - 1 - i]
  { seq(|s|, i requires 0 <= i < |s| => s[|s| - 1 - i]) }

  function SwapEndian(n: Long): Long
  {
    Join8Bound(Reverse(Split(n, 8)));
    Join(Reverse(Split(n, 8)))
  }

  lemma {:induction false} SwapEndianInvolution(n: Long)
    ensures SwapEndian(SwapEndian(n)) == n
    ensures Split(SwapEndian(n), 8) == Reverse(Split(n, 8))
  {
    SplitJoin(Reverse(Split(n, 8)));
    assert Reverse(Reverse(Split(n, 8))) == Split(n, 8);
    Fits8(n); JoinSplit(n, 8);
  }

  // Long(ch): a plain char at or above 128 is negative, and its sign fills the word.
  function Widen(c: Byte, signed: bool): Long
  { if signed && c >= 128 then c + 0xFFFF_FFFF_FFFF_FF00 else c }

  // A character before position j has its sign bit set.
  predicate HighBefore(chunk: seq<Byte>, j: nat, signed: bool)
  { signed && exists i :: 0 <= i < |chunk| && i < j && chunk[i] >= 128 }

  // What getLongs leaves in a word after packing one chunk: the characters, except that the
  // sign of a high character covers everything above it.
  function Packed(chunk: seq<Byte>, signed: bool): (b: seq<Byte>)
    requires |chunk| <= 8
    ensures |b| == 8
  {
    seq(8, j requires 0 <= j < 8 =>
      if HighBefore(chunk, j, signed) then 255 else if j < |chunk| then chunk[j] else 0)
  }

  function ChunkWord(chunk: seq<Byte>, signed: bool): Long
    requires |chunk| <= 8
  {
    Join8Bound(Packed(chunk, signed));
    Join(Packed(chunk, signed))
  }

  function Chunks(str: seq<Byte>, signed: bool): (r: seq<Long>)
  {
    if str == [] then []
    else
      var n := if |str| < 8 then |str| else 8;
      [ChunkWord(str[..n], signed)] + Chunks(str[n..], signed)
  }

  // The empty input still yields one word.
  function LongsOf(str: seq<Byte>, signed: bool): seq<Long>
  { if str == [] then [0] else Chunks(str, signed) }

  // ----- one `next |= Long(ch) << (8 * index)` -----

  function Repeat(b: Byte, n: nat): (s: seq<Byte>)
    ensures |s| == n && forall i :: 0 <= i < n ==> s[i] == b
  { seq(n, i requires 0 <= i < n => b) }

  lemma {:induction false} JoinAppend(a: seq<Byte>, b: seq<Byte>)
    ensures Join(a + b) == Join(a) + Shl(Join(b), 8 * |a|)
  {
    if a == [] {
      assert a + b == b;
    } else {
      assert (a + b)[1..] == a[1..] + b;
      JoinAppend(a[1..], b);
      ShlAdd(Join(b), 8, 8 * |a[1..]|);
      Shl8(Shl(Join(b), 8 * |a[1..]|));
    }
  }

  lemma {:induction false} JoinBound(a: seq<Byte>)
    ensures Join(a) < Shl(1, 8 * |a|)
  {
    if a != [] {
      JoinBound(a[1..]);
      ShlAdd(1, 8, 8 * |a[1..]|);
      Shl8(Shl(1, 8 * |a[1..]|));
    }
  }

  lemma {:induction false} JoinRepeat(n: nat)
    ensures Join(Repeat(0, n)) == 0
    ensures Join(Repeat(255, n)) == Shl(1, 8 * n) - 1
  {
    if n > 0 {
      assert Repeat(0, n)[1..] == Repeat(0, n - 1);
      assert Repeat(255, n)[1..] == Repeat(255, n - 1);
      JoinRepeat(n - 1);
      ShlAdd(1, 8, 8 * (n - 1));
      Shl8(Shl(1, 8 * (n - 1)));
    }
  }

  // The bytes a widened character contributes above position k: itself, then its sign.
  function Tail(c: Byte, signed: bool, n: nat): (s: seq<Byte>)
    requires n > 0
    ensures |s| == n
  { [c] + Repeat(if signed && c >= 128 then 255 else 0, n - 1) }

  // The shift drops what leaves the word, so the character arrives as its Tail.
  lemma {:induction false} ShiftedChar(c: Byte, signed: bool, k: nat)
    requires k < 8
    ensures Wrap(Shl(Widen(c, signed), 8 * k)) == Shl(Join(Tail(c, signed, 8 - k)), 8 * k)
  {
    TailValue(c, signed, k);
    ShlBytes(Join(Tail(c, signed, 8 - k)), k);
    ShlBytes(Widen(c, signed), k);
    var x := Pow256(k) * Join(Tail(c, signed, 8 - k));
    if signed && c >= 128 {
      assert Pow256(k) * Widen(c, signed) == x + TWO64 * (Pow256(k) - 1) by { SignProduct(c, k); }
      WrapMultiple(x, Pow256(k) - 1);
    } else {
      WrapMultiple(x, 0) by { SmallProduct(c, k); }
    }
  }

  lemma {:induction false} SignProduct(c: Byte, k: nat)
    requires k < 8 && c >= 128
    ensures Pow256(k) * (c + TWO64 - 256) == Pow256(k) * (c + Ceiling(k) - 256) + TWO64 * (Pow256(k) - 1)
    ensures 0 <= Pow256(k) * (c + Ceiling(k) - 256) < TWO64
  {
    if k == 0 {} else if k == 1 {} else if k == 2 {} else if k == 3 {}
    else if k == 4 {} else if k == 5 {} else if k == 6 {} else {}
  }

  lemma {:induction false} SmallProduct(c: Byte, k: nat)
    requires k < 8
    ensures Pow256(k) * c < TWO64
  {
    if k == 0 {} else if k == 1 {} else if k == 2 {} else if k == 3 {}
    else if k == 4 {} else if k == 5 {} else if k == 6 {} else {}
  }

  lemma {:induction false} WrapMultiple(x: int, m: int)
    requires 0 <= x < TWO64
    ensures Wrap(x + TWO64 * m) == x
  {}

  // 2^64 / 256^k
  function Ceiling(k: nat): nat
    requires k < 8
  { 256 * Pow256(7 - k) }

  lemma {:induction false} TailValue(c: Byte, signed: bool, k: nat)
    requires k < 8
    ensures Join(Tail(c, signed, 8 - k)) == if signed && c >= 128 then c + Ceiling(k) - 256 else c
  {
    var t := Tail(c, signed, 8 - k);
    assert t[1..] == Repeat(if signed && c >= 128 then 255 else 0, 7 - k);
    JoinRepeat(7 - k);
    ShlBytes(1, 7 - k);
  }

  function Pow256(k: nat): nat
    requires k < 8
  {
    if k == 0 then 1 else if k == 1 then 0x100 else if k == 2 then 0x1_0000 else if k == 3 then 0x100_0000
    else if k == 4 then 0x1_0000_0000 else if k == 5 then 0x100_0000_0000
    else if k == 6 then 0x1_0000_0000_0000 else 0x100_0000_0000_0000
  }

  lemma {:induction false} ShlBytes(x: nat, k: nat)
    requires k < 8
    ensures Shl(x, 8 * k) == Pow256(k) * x
  {
    if k > 0 {
      ShlBytes(x, k - 1);
      ShlAdd(x, 8, 8 * (k - 1));
      Shl8(Shl(x, 8 * (k - 1)));
    }
  }

  lemma {:induction false} OrZeroField(low: nat, k: nat, t: nat, r: nat)
    requires low < Shl(1, k) && r == low + Shl(0, k)
    ensures BitOr(r, Shl(t, k)) == low + Shl(t, k)
  { OrShift(low, k, 0, t); }

  lemma {:induction false} OrOnesField(low: nat, k: nat, n: nat, t: nat, r: nat)
    requires low < Shl(1, k) && t < Shl(1, n) && r == low + Shl(Shl(1, n) - 1, k)
    ensures BitOr(r, Shl(t, k)) == r
  { OrOnes(n, t); OrShift(low, k, Shl(1, n) - 1, t); }

  lemma {:induction false} OrIntoZeros(low: seq<Byte>, tail: seq<Byte>)
    ensures BitOr(Join(low + Repeat(0, |tail|)), Shl(Join(tail), 8 * |low|)) == Join(low + tail)
  {
    var zeros := Repeat(0, |tail|);
    JoinAppend(low, zeros);
    JoinAppend(low, tail);
    JoinRepeat(|tail|);
    JoinBound(low);
    OrZeroField(Join(low), 8 * |low|, Join(tail), Join(low + zeros));
  }

  lemma {:induction false} OrIntoOnes(low: seq<Byte>, tail: seq<Byte>)
    ensures BitOr(Join(low + Repeat(255, |tail|)), Shl(Join(tail), 8 * |low|)) == Join(low + Repeat(255, |tail|))
  {
    var ones := Repeat(255, |tail|);
    JoinAppend(low, ones);
    JoinRepeat(|tail|);
    JoinBound(low);
    JoinBound(tail);
    OrOnesField(Join(low), 8 * |low|, 8 * |tail|, Join(tail), Join(low + ones));
  }

  lemma {:induction false} PackStep(chunk: seq<Byte>, c: Byte, signed: bool)
    requires |chunk| < 8
    ensures OrShifted(ChunkWord(chunk, signed), Widen(c, signed), |chunk|) == ChunkWord(chunk + [c], signed)
  {
    var k := |chunk|;
    var packed := Packed(chunk, signed);
    var low, high, tail := packed[..k], packed[k..], Tail(c, signed, 8 - k);
    assert low + high == packed;
    ShiftedChar(c, signed, k);
    PackedHalves(chunk, c, signed);
    OrIntoZeros(low, tail);
    OrIntoOnes(low, tail);
  }

  lemma {:induction false} PackedHalves(chunk: seq<Byte>, c: Byte, signed: bool)
    requires |chunk| < 8
    ensures var k := |chunk|; var low, high := Packed(chunk, signed)[..k], Packed(chunk, signed)[k..];
      if HighBefore(chunk, 8, signed) then high == Repeat(255, 8 - k) && Packed(chunk + [c], signed) == Packed(chunk, signed)
      else high == Repeat(0, 8 - k) && Packed(chunk + [c], signed) == low + Tail(c, signed, 8 - k)
  {
    var k := |chunk|;
    forall j | 0 <= j < 8
      ensures j < k ==> HighBefore(chunk + [c], j, signed) == HighBefore(chunk, j, signed)
      ensures j >= k ==> HighBefore(chunk, j, signed) == HighBefore(chunk, 8, signed)
    { HighAppend(chunk, c, signed, j); }
    forall j | k <= j < 8
      ensures HighBefore(chunk + [c], j, signed) == (HighBefore(chunk, 8, signed) || (signed && c >= 128 && j > k))
    { HighAppend(chunk, c, signed, j); }
  }

  lemma {:induction false} HighAppend(chunk: seq<Byte>, c: Byte, signed: bool, j: nat)
    ensures HighBefore(chunk + [c], j, signed)
      == (HighBefore(chunk, j, signed) || (signed && c >= 128 && j > |chunk|))
    ensures j >= |chunk| ==> HighBefore(chunk, j, signed) == HighBefore(chunk, |chunk|, signed)
    ensures |chunk| <= 8 <= j ==> HighBefore(chunk, j, signed) == HighBefore(chunk, 8, signed)
  {
    var s := chunk + [c];
    if HighBefore(s, j, signed) {
      var i :| 0 <= i < |s| && i < j && s[i] >= 128;
      if i < |chunk| { assert chunk[i] >= 128; }
    }
    if HighBefore(chunk, j, signed) {
      var i :| 0 <= i < |chunk| && i < j && chunk[i] >= 128;
      assert s[i] >= 128;
    }
    if c >= 128 { assert s[|chunk|] >= 128; }
  }

  lemma {:induction false} ChunksAppend(a: seq<Byte>, b: seq<Byte>, signed: bool)
    requires |a| % 8 == 0
    ensures Chunks(a + b, signed) == Chunks(a, signed) + Chunks(b, signed)
  {
    if a == [] {
      assert a + b == b;
    } else {
      var rest := a[8..] + b;
      assert (a + b)[..8] == a[..8] && (a + b)[8..] == rest;
      ChunksAppend(a[8..], b, signed);
      assert Chunks(a + b, signed) == [ChunkWord(a[..8], signed)] + Chunks(rest, signed);
    }
  }

  /** Util::getLongs over a byte vector (signed false) or a std::string of plain chars (signed true). */
  method GetLongs(str: seq<Byte>, signed: bool) returns (out: seq<Long>)
    ensures out == LongsOf(str, signed)
  {
    if str == [] {
      return [0];
    }
    out := [];
    EmptyChunk(signed);
    var count, next, index := 0, 0, 0;
    ghost var start := 0;
    for n := 0 to |str|
      invariant Packing(str, signed, start, n, out, next)
      invariant count == index == n - start
    {
      PackingStep(str, signed, start, n, out, next);
      next := OrShifted(next, Widen(str[n], signed), index);
      index := index + 1;
      index := if index == 8 then 0 else index;
      count := count + 1;
      if count == 8 {
        out := out + [next];
        next := 0;
        count := 0;
        start := n + 1;
      }
    }
    PackingDone(str, signed, start, out, next);
    if count != 0 {
      out := out + [next];
    }
  }

  // After n characters: the chunks before start are out, the unfinished one is in next.
  ghost predicate Packing(str: seq<Byte>, signed: bool, start: nat, n: nat, out: seq<Long>, next: nat)
  {
    && start <= n <= |str| && start % 8 == 0 && n - start < 8
    && out == Chunks(str[..start], signed)
    && next == ChunkWord(str[start..n], signed)
  }

  lemma {:induction false} PackingStep(str: seq<Byte>, signed: bool, start: nat, n: nat, out: seq<Long>, next: nat)
    requires n < |str| && Packing(str, signed, start, n, out, next)
    ensures var or := OrShifted(next, Widen(str[n], signed), n - start);
      or < TWO64 &&
      if n - start == 7 then Packing(str, signed, n + 1, n + 1, out + [or], 0)
      else Packing(str, signed, start, n + 1, out, or)
  {
    PackNext(str, start, n, signed);
    if n - start == 7 {
      ChunksNext(str, start, n + 1, signed);
      EmptyChunk(signed);
      assert str[n + 1..n + 1] == [];
    }
  }

  lemma {:induction false} PackingDone(str: seq<Byte>, signed: bool, start: nat, out: seq<Long>, next: nat)
    requires str != [] && Packing(str, signed, start, |str|, out, next)
    ensures LongsOf(str, signed) == if start == |str| then out else out + [next]
  {
    assert str[..|str|] == str;
    if start < |str| { ChunksNext(str, start, |str|, signed); }
  }

  // next |= ch << (8 * index), in 64 bits.
  function OrShifted(next: Long, ch: Long, index: nat): nat
  { BitOr(next, Wrap(Shl(ch, 8 * index))) }

  lemma {:induction false} PackNext(str: seq<Byte>, i: nat, n: nat, signed: bool)
    requires i <= n < |str| && n - i < 8
    ensures OrShifted(ChunkWord(str[i..n], signed), Widen(str[n], signed), n - i)
      == ChunkWord(str[i..n + 1], signed)
  {
    PackStep(str[i..n], str[n], signed);
    assert str[i..n] + [str[n]] == str[i..n + 1];
  }

  lemma {:induction false} ChunksNext(str: seq<Byte>, i: nat, n: nat, signed: bool)
    requires i <= n <= |str| && i % 8 == 0 && 0 < n - i <= 8
    ensures Chunks(str[..n], signed) == Chunks(str[..i], signed) + [ChunkWord(str[i..n], signed)]
  {
    hide Chunks, ChunkWord;
    ChunksAppend(str[..i], str[i..n], signed);
    assert str[..i] + str[i..n] == str[..n];
    OneChunk(str[i..n], signed);
  }

  lemma {:induction false} OneChunk(chunk: seq<Byte>, signed: bool)
    requires 0 < |chunk| <= 8
    ensures Chunks(chunk, signed) == [ChunkWord(chunk, signed)]
  {
    hide ChunkWord;
    assert chunk[..|chunk|] == chunk && chunk[|chunk|..] == [];
  }

  lemma {:induction false} EmptyChunk(signed: bool)
    ensures ChunkWord([], signed) == 0
  { JoinRepeat(8); assert Packed([], signed) == Repeat(0, 8); }

  // ----- what the words hold -----

  lemma {:induction false} PackedUnsigned(chunk: seq<Byte>)
    requires |chunk| <= 8
    ensures Packed(chunk, false) == chunk + Repeat(0, 8 - |chunk|)
    ensures Split(ChunkWord(chunk, false), 8) == chunk + Repeat(0, 8 - |chunk|)
  { SplitJoin(Packed(chunk, false)); }

  lemma {:induction false} FirstChunk(bytes: seq<Byte>, n: nat)
    requires bytes != [] && n == if |bytes| < 8 then |bytes| else 8
    ensures Chunks(bytes, false) == [ChunkWord(bytes[..n], false)] + Chunks(bytes[n..], false)
    ensures bytes == bytes[..n] + bytes[n..] && UpDiv(|bytes|, 8) == 1 + UpDiv(|bytes[n..]|, 8)
  {
    hide ChunkWord;
    UpDivNext(|bytes[n..]|);
    if n < 8 { UpDivSmall(n); }
  }

  lemma {:induction false} NoChunks()
    ensures Chunks([], false) == [] && Flatten([]) == [] && UpDiv(0, 8) == 0 && Repeat(0, 0) == []
  {}

  /** A byte vector is recovered from its words, followed by zeros up to the end of the last word. */
  lemma {:induction false} ChunksBytes(bytes: seq<Byte>)
    ensures |Chunks(bytes, false)| == UpDiv(|bytes|, 8)
    ensures Flatten(Chunks(bytes, false)) == bytes + Repeat(0, 8 * UpDiv(|bytes|, 8) - |bytes|)
    decreases |bytes|
  {
    hide Chunks, ChunkWord, Flatten, UpDiv, Repeat;
    NoChunks();
    if bytes != [] {
      var n := if |bytes| < 8 then |bytes| else 8;
      var head, tail := bytes[..n], bytes[n..];
      FirstChunk(bytes, n);
      ChunksBytes(tail);
      ChunkBytes(head);
      FlattenConcat([ChunkWord(head, false)], Chunks(tail, false));
      if |bytes| < 8 {
        assert tail == [];
        GlueLast(head);
      } else {
        GlueNext(head, tail, 8 * UpDiv(|tail|, 8) - |tail|);
      }
    }
  }

  lemma {:induction false} GlueLast(head: seq<Byte>)
    requires |head| <= 8
    ensures (head + Repeat(0, 8 - |head|)) + ([] + Repeat(0, 0)) == head + Repeat(0, 8 - |head|)
  {}

  lemma {:induction false} GlueNext(head: seq<Byte>, tail: seq<Byte>, k: nat)
    ensures (head + Repeat(0, 0)) + (tail + Repeat(0, k)) == (head + tail) + Repeat(0, k)
  {}

  // The word of one chunk.
  lemma {:induction false} ChunkBytes(chunk: seq<Byte>)
    requires |chunk| <= 8
    ensures Flatten([ChunkWord(chunk, false)]) == chunk + Repeat(0, 8 - |chunk|)
  {
    PackedUnsigned(chunk);
    hide ChunkWord;
    FlattenWord([ChunkWord(chunk, false)], 0);
    assert Flatten([ChunkWord(chunk, false)]) == Flatten([ChunkWord(chunk, false)])[0..8];
  }

  lemma {:induction false} UpDivNext(n: nat)
    ensures UpDiv(8 + n, 8) == 1 + UpDiv(n, 8)
  {}

  lemma {:induction false} UpDivSmall(n: nat)
    requires 0 < n < 8
    ensures UpDiv(n, 8) == 1 && UpDiv(0, 8) == 0
  {}

  // out |= byte << (8 * i)
  lemma {:induction false} OrNextByte(bytes: seq<Byte>, i: nat)
    requires i < |bytes|
    ensures BitOr(Join(bytes[..i]), Shl(bytes[i], 8 * i)) == Join(bytes[..i + 1])
  {
    JoinBound(bytes[..i]);
    OrDisjoint(Join(bytes[..i]), 8 * i, bytes[i]);
    JoinAppend(bytes[..i], [bytes[i]]);
    assert bytes[..i] + [bytes[i]] == bytes[..i + 1];
    assert Join([bytes[i]]) == bytes[i] + 256 * Join([bytes[i]][1..]) == bytes[i];
  }
}
