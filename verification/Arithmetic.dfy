/** The bytes of numbers, and the numbers bytes make, in plain arithmetic. */
module Arithmetic {
  import opened Words
  import opened Machine

  // 256 to the n-th.
  function Power(n: nat): (p: nat)
    ensures p >= 1
  { if n == 0 then 1 else 256 * Power(n - 1) }

  lemma {:induction false} Powers()
    ensures Power(0) == 1 && Power(1) == 0x100 && Power(2) == 0x1_0000 && Power(3) == 0x100_0000
    ensures Power(4) == 0x1_0000_0000 && Power(5) == 0x100_0000_0000 && Power(6) == 0x1_0000_0000_0000
    ensures Power(7) == 0x100_0000_0000_0000 && Power(8) == TWO64
  {
    assert Power(1) == 256 * Power(0);
    assert Power(2) == 256 * Power(1);
    assert Power(3) == 256 * Power(2);
    assert Power(4) == 256 * Power(3);
    assert Power(5) == 256 * Power(4);
    assert Power(6) == 256 * Power(5);
    assert Power(7) == 256 * Power(6);
    assert Power(8) == 256 * Power(7);
  }

  lemma {:induction false} DivDiv(w: nat, d: nat)
    requires d > 0
    ensures w / 256 / d == w / (256 * d)
  {
    var q, r := w / 256 / d, w / 256 % d;
    assert w / 256 == d * q + r;
    var low := w % 256;
    assert w == 256 * (d * q + r) + low;
    assert 256 * (d * q) == (256 * d) * q;
    assert 256 * r + low < 256 * d;
    Quotient(w, 256 * d, q, 256 * r + low);
  }

  lemma {:induction false} Quotient(w: nat, d: nat, q: nat, r: nat)
    requires d > 0 && r < d && w == d * q + r
    ensures w / d == q && w % d == r
  {
    var p := w / d;
    assert w == d * p + w % d;
    if p < q { Distance(d, p, q); }
    if q < p { Distance(d, q, p); }
  }

  lemma {:induction false} Distance(d: nat, a: nat, b: nat)
    requires a < b
    ensures d * b >= d * a + d
  { assert d * b == d * a + d * (b - a); Grows(d, b - a); }

  lemma {:induction false} Grows(d: nat, n: nat)
    requires n >= 1
    ensures d * n >= d
  { assert d * n == d + d * (n - 1); }

  /** Byte j of a number is its digit at 256^j. */
  lemma {:induction false} ByteIs(w: nat, j: nat)
    ensures ByteOf(w, j) == w / Power(j) % 256
    decreases j
  {
    if j > 0 {
      ByteIs(w / 256, j - 1);
      DivDiv(w, Power(j - 1));
    }
  }

  lemma {:induction false} JoinNext(bs: seq<Byte>)
    requires bs != []
    ensures Join(bs) == bs[0] + 256 * Join(bs[1..])
  {}

  // Four digits in base 256, the lowest first.
  function Four(a: int, b: int, c: int, d: int): int { a + 0x100 * b + 0x1_0000 * c + 0x100_0000 * d }

  lemma {:induction false} JoinTwo(b: seq<Byte>)
    requires |b| == 2
    ensures Join(b) == Four(b[0], b[1], 0, 0)
  { JoinNext(b); JoinNext(b[1..]); assert b[1..][1..] == []; }

  lemma {:induction false} JoinFour(b: seq<Byte>)
    requires |b| == 4
    ensures Join(b) == Four(b[0], b[1], b[2], b[3])
  {
    JoinNext(b); JoinNext(b[1..]);
    assert b[1..][1..] == b[2..];
    JoinTwo(b[2..]);
  }

  lemma {:induction false} JoinEight(b: seq<Byte>)
    requires |b| == 8
    ensures Join(b) == Four(b[0], b[1], b[2], b[3]) + 0x1_0000_0000 * Four(b[4], b[5], b[6], b[7])
  {
    hide Join;
    JoinNext(b); JoinNext(b[1..]); JoinNext(b[2..]); JoinNext(b[3..]);
    assert b[1..][1..] == b[2..] && b[2..][1..] == b[3..] && b[3..][1..] == b[4..];
    JoinFour(b[4..]);
  }

  // ----- memory -----

  // The little-endian number of n bytes.
  predicate Reads(memory: seq<Byte>, a: nat, n: nat, w: nat)
  {
    a + n <= |memory| &&
    if n == 1 then w == memory[a]
    else if n == 2 then w == Four(memory[a], memory[a + 1], 0, 0)
    else if n == 4 then w == Four(memory[a], memory[a + 1], memory[a + 2], memory[a + 3])
    else n == 8 && w == Four(memory[a], memory[a + 1], memory[a + 2], memory[a + 3])
                        + 0x1_0000_0000 * Four(memory[a + 4], memory[a + 5], memory[a + 6], memory[a + 7])
  }

  // after is before with the low n bytes of a value written at a, the lowest first.
  predicate Writes(before: seq<Byte>, after: seq<Byte>, a: nat, n: nat, value: nat)
  {
    a + n <= |before| == |after|
    && forall x :: 0 <= x < |before| ==> after[x] == if a <= x < a + n then value / Power(x - a) % 256 else before[x]
  }

  // The widths of the accessors.
  predicate Wide(size: Size, n: nat)
  { match size case Byte1 => n == 1 case Quarter => n == 2 case Half => n == 4 case Whole => n == 8 }

  /** The accessors read and write little-endian numbers of one, two, four and eight bytes. */
  lemma {:induction false} GetReads(memory: seq<Byte>, a: Long, size: Size, n: nat)
    requires Wide(size, n) && a < TWO63
    ensures Inside(memory, a, size) <==> a + n <= |memory|
    ensures a + n <= |memory| ==> Reads(memory, a, n, Get(memory, a, size))
  {
    if a + n <= |memory| {
      var b := memory[a..a + n];
      if n == 1 { JoinNext(b); assert b[1..] == []; }
      else if n == 2 { JoinTwo(b); }
      else if n == 4 { JoinFour(b); }
      else { JoinEight(b); }
    }
  }

  lemma {:induction false} PutWrites(memory: seq<Byte>, a: Long, size: Size, n: nat, value: Long)
    requires Wide(size, n) && a < TWO63 && a + n <= |memory|
    ensures Inside(memory, a, size) && Writes(memory, Put(memory, a, size, value), a, n, value)
  {
    hide Power;
    forall x: nat | a <= x < a + n ensures Put(memory, a, size, value)[x] == value / Power(x - a) % 256 { ByteIs(value, x - a); }
  }

  // Two readings of the same bytes agree.
  lemma {:induction false} ReadsOnce(memory: seq<Byte>, a: nat, n: nat, v: nat, w: nat)
    requires Reads(memory, a, n, v) && Reads(memory, a, n, w)
    ensures v == w
  {}

  // ----- or -----

  // Bit i of a number.
  function Bit(w: nat, i: nat): bool
    decreases i
  { if i == 0 then w % 2 == 1 else Bit(w / 2, i - 1) }

  /** The or of two numbers has exactly the bits that one of them has. */
  lemma {:induction false} OrBits(a: nat, b: nat, i: nat)
    ensures Bit(BitOr(a, b), i) <==> Bit(a, i) || Bit(b, i)
    decreases i
  {
    OrHalves(a, b);
    hide BitOr;
    if i > 0 { OrBits(a / 2, b / 2, i - 1); }
  }
}
