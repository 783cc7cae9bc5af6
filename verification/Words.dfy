/** 64-bit words, their bytes, and the bitwise `|` the encoders use.
    A machine word (signed or unsigned in the source) is its bit pattern, a number below 2^64. */
module Words {
  const TWO32: int := 0x1_0000_0000
  const TWO63: int := 0x8000_0000_0000_0000
  const TWO64: int := 0x1_0000_0000_0000_0000

  type Byte = x: int | 0 <= x < 256
  type Long = x: int | 0 <= x < 0x1_0000_0000_0000_0000

  datatype Option<+T> = None | Some(value: T)

  datatype Error = OutOfRange | LengthError | BadSymbolId | BadDebugType | BadRelocation | BadSymbolType
    | DivisionByZero | SymbolNotFound | Collision | MissingLabel | NameTooLong | BadMeta | BadLine | Unknown

  datatype Result<+T> = Ok(value: T) | Err(error: Error)

  // Reduction to 64 bits, for sums and differences of machine words.
  function Wrap(x: int): Long { x % 0x1_0000_0000_0000_0000 }

  lemma {:induction false} NoWrap(x: int)
    requires 0 <= x < TWO64
    ensures Wrap(x) == x
  {}

  // Whole turns do not show.
  lemma {:induction false} WrapTurns(x: int, m: int)
    ensures Wrap(x + TWO64 * m) == Wrap(x)
  {}

  function Plus(a: Long, b: Long): Long { Wrap(a as int + b as int) }
  function Minus(a: Long, b: Long): Long { Wrap(a as int - b as int) }

  // The two's complement reading of a bit pattern.
  function Signed(u: Long): int { if u < TWO63 then u else u - TWO64 }

  // x << k, before any truncation.
  function Shl(x: nat, k: nat): nat
  { if k == 0 then x else 2 * Shl(x, k - 1) }

  // Byte j of w: uint8_t(w >> 8 * j).
  function ByteOf(w: nat, j: nat): Byte
  { if j == 0 then w % 256 else ByteOf(w / 256, j - 1) }

  // The low n bytes of w, least significant first.
  function Split(w: nat, n: nat): (s: seq<Byte>)
    ensures |s| == n
  { seq(n, j requires 0 <= j < n => ByteOf(w, j)) }

  // The number whose bytes are bs, least significant first.
  function Join(bs: seq<Byte>): nat
  { if bs == [] then 0 else bs[0] + 256 * Join(bs[1..]) }

  // w needs no more than n bytes.
  predicate Fits(w: nat, n: nat)
  { if n == 0 then w == 0 else Fits(w / 256, n - 1) }

  lemma {:induction false} FitsMore(w: nat, n: nat, m: nat)
    requires Fits(w, n) && n <= m
    ensures Fits(w, m)
  { if n > 0 { FitsMore(w / 256, n - 1, m - 1); } else if m > 0 { FitsMore(0, 0, m - 1); } }

  lemma {:induction false} Fits4(w: nat)
    ensures Fits(w, 4) <==> w < 0x1_0000_0000
  {
    var a := w / 256; var b := a / 256; var c := b / 256;
    assert Fits(w, 4) == Fits(a, 3) == Fits(b, 2) == Fits(c, 1) == Fits(c / 256, 0);
  }

  lemma {:induction false} Fits8(w: nat)
    ensures Fits(w, 8) <==> w < 0x1_0000_0000_0000_0000
  {
    var a := w / 256; var b := a / 256; var c := b / 256; var d := c / 256;
    assert Fits(w, 8) == Fits(a, 7) == Fits(b, 6) == Fits(c, 5) == Fits(d, 4);
    Fits4(d);
  }

  lemma {:induction false} SplitTail(w: nat, n: nat)
    requires n > 0
    ensures Split(w, n) == [w % 256] + Split(w / 256, n - 1)
  {}

  // The bytes of a number that fits determine it.
  lemma {:induction false} JoinSplit(w: nat, n: nat)
    requires Fits(w, n)
    ensures Join(Split(w, n)) == w
  {
    if n > 0 {
      SplitTail(w, n);
      JoinSplit(w / 256, n - 1);
      assert Split(w, n)[1..] == Split(w / 256, n - 1);
    }
  }

  lemma {:induction false} SplitJoin(bs: seq<Byte>)
    ensures Split(Join(bs), |bs|) == bs
    ensures Fits(Join(bs), |bs|)
  {
    if bs != [] {
      SplitJoin(bs[1..]);
      SplitTail(Join(bs), |bs|);
      assert Join(bs) / 256 == Join(bs[1..]) && Join(bs) % 256 == bs[0];
      assert bs == [bs[0]] + bs[1..];
    }
  }

  lemma {:induction false} Join8Bound(bs: seq<Byte>)
    requires |bs| <= 8
    ensures Join(bs) < 0x1_0000_0000_0000_0000
  { SplitJoin(bs); FitsMore(Join(bs), |bs|, 8); Fits8(Join(bs)); }

  lemma {:induction false} SplitInjective(v: nat, w: nat, n: nat)
    requires Fits(v, n) && Fits(w, n) && Split(v, n) == Split(w, n)
    ensures v == w
  { JoinSplit(v, n); JoinSplit(w, n); }

  // s with b laid over it from position i.
  function Splice(s: seq<Byte>, i: nat, b: seq<Byte>): (r: seq<Byte>)
    requires i + |b| <= |s|
    ensures |r| == |s|
    ensures forall k :: 0 <= k < |s| ==> r[k] == if i <= k < i + |b| then b[k - i] else s[k]
  { s[..i] + b + s[i + |b|..] }

  lemma {:induction false} ConcatAssoc<T>(a: seq<T>, b: seq<T>, c: seq<T>)
    ensures (a + b) + c == a + (b + c)
  {}

  // What a decoder has already read, before the rest.
  function Prepend<T>(xs: seq<T>, r: Result<seq<T>>): Result<seq<T>>
  { match r case Ok(rest) => Ok(xs + rest) case Err(e) => Err(e) }

  lemma {:induction false} PrependEnds<T>(xs: seq<T>, r: Result<seq<T>>)
    ensures Prepend([], r) == r
    ensures Prepend(xs, Ok([])) == Ok(xs)
  {
    if r.Ok? { assert [] + r.value == r.value; }
    assert xs + [] == xs;
  }

  lemma {:induction false} PrependStep<T>(xs: seq<T>, x: T, r: Result<seq<T>>)
    ensures Prepend(xs + [x], r) == Prepend(xs, Prepend([x], r))
  { if r.Ok? { ConcatAssoc(xs, [x], r.value); } }

  lemma {:induction false} SliceSlice<T>(s: seq<T>, a: nat, b: nat, c: nat, d: nat)
    requires a <= b <= |s| && c <= d <= b - a
    ensures s[a..b][c..d] == s[a + c..a + d]
  {
    var x, y := s[a..b][c..d], s[a + c..a + d];
    forall k | 0 <= k < |x| ensures x[k] == y[k] {}
  }

  lemma {:induction false} ConcatSlices<T>(a: seq<T>, b: seq<T>)
    ensures (a + b)[..|a|] == (a + b)[0..|a|] == a
    ensures (a + b)[|a|..] == (a + b)[|a|..|a| + |b|] == b
  {}

  // ----- words as bytes -----

  // The bytes of a word vector in the order they occupy memory.
  function Flatten(ws: seq<Long>): (s: seq<Byte>)
    ensures |s| == 8 * |ws|
  { seq(8 * |ws|, k requires 0 <= k < 8 * |ws| => ByteOf(ws[k / 8], k % 8)) }

  lemma {:induction false} FlattenConcat(a: seq<Long>, b: seq<Long>)
    ensures Flatten(a + b) == Flatten(a) + Flatten(b)
  {}

  lemma {:induction false} FlattenSlice(ws: seq<Long>, i: nat, j: nat)
    requires i <= j <= |ws|
    ensures Flatten(ws[i..j]) == Flatten(ws)[8 * i..8 * j]
  {}

  lemma {:induction false} FlattenWord(ws: seq<Long>, i: nat)
    requires i < |ws|
    ensures Flatten(ws)[8 * i..8 * i + 8] == Split(ws[i], 8)
    ensures Join(Flatten(ws)[8 * i..8 * i + 8]) == ws[i]
  {
    var s := Flatten(ws)[8 * i..8 * i + 8];
    forall j | 0 <= j < 8 ensures s[j] == Split(ws[i], 8)[j] {}
    assert s == Split(ws[i], 8);
    Fits8(ws[i]);
    JoinSplit(ws[i], 8);
  }

  lemma {:induction false} FlattenInjective(a: seq<Long>, b: seq<Long>)
    requires Flatten(a) == Flatten(b)
    ensures a == b
  {
    assert |a| == |b|;
    forall i | 0 <= i < |a| ensures a[i] == b[i] { FlattenWord(a, i); FlattenWord(b, i); }
  }

  // ----- bitwise or -----

  function BitOr(a: nat, b: nat): nat
    decreases a + b
  {
    if a == 0 then b else if b == 0 then a
    else (if a % 2 == 1 || b % 2 == 1 then 1 else 0) + 2 * BitOr(a / 2, b / 2)
  }

  lemma {:induction false} OrHalves(a: nat, b: nat)
    ensures BitOr(a, b) == (if a % 2 == 1 || b % 2 == 1 then 1 else 0) + 2 * BitOr(a / 2, b / 2)
  {}

  // Bits below position k take no part in an or with a number shifted left by k.
  lemma {:induction false} OrShift(low: nat, k: nat, x: nat, y: nat)
    requires low < Shl(1, k)
    ensures BitOr(low + Shl(x, k), Shl(y, k)) == low + Shl(BitOr(x, y), k)
  {
    if k > 0 {
      OrShift(low / 2, k - 1, x, y);
      OrHalves(low + Shl(x, k), Shl(y, k));
    }
  }

  lemma {:induction false} ShlZero(k: nat)
    ensures Shl(0, k) == 0
  { if k > 0 { ShlZero(k - 1); } }

  // The case every encoder relies on: disjoint fields add.
  lemma {:induction false} OrDisjoint(low: nat, k: nat, high: nat)
    requires low < Shl(1, k)
    ensures BitOr(low, Shl(high, k)) == low + Shl(high, k)
  { OrShift(low, k, 0, high); ShlZero(k); }

  // Or-ing into a field of ones changes nothing.
  lemma {:induction false} OrOnes(n: nat, y: nat)
    requires y < Shl(1, n)
    ensures BitOr(Shl(1, n) - 1, y) == Shl(1, n) - 1
  {
    if n > 0 {
      var m := Shl(1, n - 1);
      assert Shl(1, n) == 2 * m;
      hide Shl, BitOr;
      assert m >= 1 && (2 * m - 1) % 2 == 1 && (2 * m - 1) / 2 == m - 1;
      OrOnes(n - 1, y / 2);
      OrHalves(2 * m - 1, y);
    }
  }

  lemma {:induction false} ShlAdd(x: nat, j: nat, k: nat)
    ensures Shl(x, j + k) == Shl(Shl(x, k), j)
  { if j > 0 { ShlAdd(x, j - 1, k); } }

  lemma {:induction false} Shl4(x: nat)
    ensures Shl(x, 4) == 16 * x
  { assert Shl(x, 4) == 2 * Shl(x, 3) == 4 * Shl(x, 2) == 8 * Shl(x, 1) == 16 * Shl(x, 0); }

  lemma {:induction false} Shl8(x: nat)
    ensures Shl(x, 8) == 256 * x
  { ShlAdd(x, 4, 4); Shl4(x); Shl4(16 * x); }

  lemma {:induction false} Shl16(x: nat)
    ensures Shl(x, 16) == 0x1_0000 * x
  { ShlAdd(x, 8, 8); Shl8(x); Shl8(256 * x); }

  lemma {:induction false} Shl32(x: nat)
    ensures Shl(x, 32) == 0x1_0000_0000 * x
  { ShlAdd(x, 16, 16); Shl16(x); Shl16(0x1_0000 * x); }
}
