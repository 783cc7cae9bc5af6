/** wvm/include/mult.h, and the product the machine's mult and multu take from sign-extended words. */
module WideMultiply {
  import opened Words
  import opened Operations
  import SymbolTable

  type Half = x: int | 0 <= x < 0x1_0000_0000

  function Low(x: Long): Half { x % TWO32 }
  function High(x: Long): Half { x / TWO32 }

  // p10 + (p00 >> 32) + (uint32_t) p01, before any wrap
  function MiddleSum(x: Long, y: Long): int
  { High(x) * Low(y) + Low(x) * Low(y) / TWO32 + Low(x) * High(y) % TWO32 }

  // p11 + (middle >> 32) + (p01 >> 32), before any wrap
  function HighSum(x: Long, y: Long, middle: int): int
  { High(x) * High(y) + middle / TWO32 + Low(x) * High(y) / TWO32 }

  lemma {:induction false} HalfProduct(a: Half, b: Half)
    ensures 0 <= a * b <= TWO64 - 2 * TWO32 + 1
  {
    Monotone(a, 0xFFFF_FFFF, b);
    var top: int := 0xFFFF_FFFF;
    assert top * b <= 0xFFFF_FFFE_0000_0001;
  }

  lemma {:induction false} Monotone(a: int, c: int, b: int)
    requires 0 <= a <= c && 0 <= b
    ensures 0 <= a * b <= c * b
  { assert c * b == a * b + (c - a) * b; }

  // A 64-bit product has room for two more 32-bit values.
  lemma {:induction false} SumsFit(x: Long, y: Long)
    ensures 0 <= MiddleSum(x, y) < TWO64
    ensures 0 <= HighSum(x, y, MiddleSum(x, y)) < TWO64
  {
    hide Low, High;
    var x0: Half, x1: Half, y0: Half, y1: Half := Low(x), High(x), Low(y), High(y);
    HalfProduct(x1, y0); HalfProduct(x0, y0); HalfProduct(x0, y1); HalfProduct(x1, y1);
    ThreeFit(x1 * y0, x0 * y0, x0 * y1);
    var middle := MiddleSum(x, y);
    assert 0 <= middle < TWO64;
    ThreeFit(x1 * y1, middle, 0);
    assert 0 <= middle / TWO32 < TWO32;
    assert 0 <= x0 * y1 / TWO32 < TWO32;
  }

  lemma {:induction false} ThreeFit(p: int, q: int, r: int)
    requires 0 <= p <= TWO64 - 2 * TWO32 + 1 && 0 <= q < TWO64 && 0 <= r
    ensures 0 <= q / TWO32 < TWO32
    ensures 0 <= p + q / TWO32 + r % TWO32 < TWO64
  {}

  /** Emulate64x64to128. */
  method Emulate64x64to128(x: Long, y: Long) returns (high: Long, low: Long)
    ensures high * TWO64 + low == x * y
  {
    hide Low, High, Wrap, BitOr, Shl, MiddleSum, HighSum;
    var x0: int, x1: int := Low(x), High(x);
    var y0: int, y1: int := Low(y), High(y);
    HalfProduct(x1, y0); HalfProduct(x0, y0); HalfProduct(x0, y1); HalfProduct(x1, y1);
    var p11, p01: Long := Wrap(x1 * y1), Wrap(x0 * y1);
    var p10, p00: Long := Wrap(x1 * y0), Wrap(x0 * y0);
    NoWrap(x1 * y1); NoWrap(x0 * y1); NoWrap(x1 * y0); NoWrap(x0 * y0);
    SumsFit(x, y);
    SumsAre(x, y, p11, p01, p10, p00);
    NoWrap(MiddleSum(x, y));
    NoWrap(HighSum(x, y, MiddleSum(x, y)));
    var middle := Wrap(p10 + p00 / TWO32 + p01 % TWO32);
    high := Wrap(p11 + middle / TWO32 + p01 / TWO32);
    LowWord(middle, p00);
    low := BitOr(Wrap(Shl(middle, 32)), p00 % TWO32);
    Schoolbook(x, y, p11, p01, p10, p00, middle, high, low);
  }

  lemma {:induction false} SumsAre(x: Long, y: Long, p11: int, p01: int, p10: int, p00: int)
    requires p11 == High(x) * High(y) && p01 == Low(x) * High(y) && p10 == High(x) * Low(y) && p00 == Low(x) * Low(y)
    ensures MiddleSum(x, y) == p10 + p00 / TWO32 + p01 % TWO32
    ensures forall m: int :: HighSum(x, y, m) == p11 + m / TWO32 + p01 / TWO32
  { hide Low, High; }

  lemma {:induction false} LowWord(middle: Long, p00: Long)
    ensures BitOr(Wrap(Shl(middle, 32)), p00 % TWO32) == middle % TWO32 * TWO32 + p00 % TWO32 < TWO64
  {
    Shl32(middle);
    var m := middle % TWO32;
    assert middle * TWO32 == middle / TWO32 * TWO64 + m * TWO32;
    assert Wrap(Shl(middle, 32)) == m * TWO32;
    Shl32(m); Shl32(1);
    OrDisjoint(p00 % TWO32, 32, m);
    SymbolTable.OrCommutes(Shl(m, 32), p00 % TWO32);
  }

  // The columns of the schoolbook product.
  lemma {:induction false} Schoolbook(x: Long, y: Long, p11: int, p01: int, p10: int, p00: int, middle: int, high: int, low: int)
    requires p11 == High(x) * High(y) && p01 == Low(x) * High(y) && p10 == High(x) * Low(y) && p00 == Low(x) * Low(y)
    requires middle == p10 + p00 / TWO32 + p01 % TWO32
    requires high == p11 + middle / TWO32 + p01 / TWO32 && low == middle % TWO32 * TWO32 + p00 % TWO32
    ensures high * TWO64 + low == x * y
  {
    Columns(p11, p01, p10, p00, middle, high, low);
    Distribute(Low(x), High(x), Low(y), High(y));
  }

  lemma {:induction false} Columns(p11: int, p01: int, p10: int, p00: int, middle: int, high: int, low: int)
    requires middle == p10 + p00 / TWO32 + p01 % TWO32
    requires high == p11 + middle / TWO32 + p01 / TWO32 && low == middle % TWO32 * TWO32 + p00 % TWO32
    ensures high * TWO64 + low == p11 * TWO64 + (p10 + p01) * TWO32 + p00
  {}

  lemma {:induction false} Distribute(x0: int, x1: int, y0: int, y1: int)
    ensures (x0 + x1 * TWO32) * (y0 + y1 * TWO32) == x1 * y1 * TWO64 + (x1 * y0 + x0 * y1) * TWO32 + x0 * y0
  {
    calc {
      (x0 + x1 * TWO32) * (y0 + y1 * TWO32);
      == x0 * (y0 + y1 * TWO32) + x1 * TWO32 * (y0 + y1 * TWO32);
      == x0 * y0 + x0 * (y1 * TWO32) + (x1 * TWO32 * y0 + x1 * TWO32 * (y1 * TWO32));
    }
    assert x0 * (y1 * TWO32) == x0 * y1 * TWO32;
    assert x1 * TWO32 * y0 == x1 * y0 * TWO32;
    assert x1 * TWO32 * (y1 * TWO32) == x1 * y1 * TWO64;
  }

  // ----- the machine's product of sign-extended words -----

  // What sign extension takes off the high word.
  function Correction(x: Long, y: Long): int
  { (if x >= TWO63 then y else 0) + (if y >= TWO63 then x else 0) }

  lemma {:induction false} SignedProduct(x: Long, y: Long)
    ensures Signed(x) * Signed(y)
      == x * y - TWO64 * Correction(x, y) + (if x >= TWO63 && y >= TWO63 then TWO64 * TWO64 else 0)
  {
    var a, b := if x >= TWO63 then TWO64 else 0, if y >= TWO63 then TWO64 else 0;
    Expand(x, y, a, b);
  }

  lemma {:induction false} Expand(x: int, y: int, a: int, b: int)
    ensures (x - a) * (y - b) == x * y - a * y - b * x + a * b
  {
    assert (x - a) * (y - b) == x * (y - b) - a * (y - b);
    assert x * (y - b) == x * y - x * b;
    assert a * (y - b) == a * y - a * b;
  }

  lemma {:induction false} SplitProduct(p: int, high: int, low: int, c: int, s: int)
    requires p == high * TWO64 + low - TWO64 * c + s && 0 <= low < TWO64 && (s == 0 || s == TWO64 * TWO64)
    ensures Wrap(p) == low && Wrap(p / TWO64) == Wrap(high - c)
  {
    var k := if s == 0 then 0 else TWO64;
    var q := high - c + k;
    assert p == q * TWO64 + low;
    assert p / TWO64 == q && p % TWO64 == low;
    WrapTurns(high - c, if s == 0 then 0 else 1);
  }

  /** The machine's low word is the exact product's. Its high word is that of the product of the words read as
      signed, so for the unsigned product, which multu stands for, it is right exactly when the correction vanishes. */
  lemma {:induction false} MachineProduct(x: Long, y: Long, high: Long, low: Long)
    requires high * TWO64 + low == x * y
    ensures LowProduct(x, y) == low
    ensures HighProduct(x, y) == Wrap(high - Correction(x, y))
    ensures HighProduct(x, y) == high <==> Correction(x, y) % TWO64 == 0
  {
    hide Correction, Signed, Wrap;
    SignedProduct(x, y);
    SplitProduct(Signed(x) * Signed(y), high, low, Correction(x, y), if x >= TWO63 && y >= TWO63 then TWO64 * TWO64 else 0);
    WrapFixed(high, Correction(x, y));
  }

  lemma {:induction false} WrapFixed(high: Long, c: int)
    ensures Wrap(high - c) == high <==> c % TWO64 == 0
  {
    if c % TWO64 == 0 { WrapTurns(high, -(c / TWO64)); }
    if Wrap(high - c) == high { Multiple(high, c); }
  }

  lemma {:induction false} Multiple(high: Long, c: int)
    requires Wrap(high - c) == high
    ensures c % TWO64 == 0
  { assert high - c == Wrap(high - c) + TWO64 * ((high - c) / TWO64); }
}
