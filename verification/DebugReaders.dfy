/** The two readers of debug data: BinaryParser::getDebugData, which walks words, and
    VM::loadDebugData, which walks bytes by an alignment formula. */
module DebugReaders {
  import opened Words
  import opened Longs
  import opened DebugData

  // ----- joining bytes with | and << -----

  // get(i) | (get(i + 1) << 8) | (get(i + 2) << 16)
  function Or3(b: seq<Byte>): nat
    requires |b| == 3
  { BitOr(BitOr(b[0], Shl(b[1], 8)), Shl(b[2], 16)) }

  function Or4(b: seq<Byte>): nat
    requires |b| == 4
  { BitOr(Or3(b[..3]), Shl(b[3], 24)) }

  lemma {:induction false} OrByte(low: seq<Byte>, b: Byte)
    ensures BitOr(Join(low), Shl(b, 8 * |low|)) == Join(low + [b])
  {
    JoinBound(low);
    OrDisjoint(Join(low), 8 * |low|, b);
    JoinAppend(low, [b]);
    assert Join([b]) == b;
  }

  lemma {:induction false} Or3Joins(b: seq<Byte>)
    requires |b| == 3
    ensures Or3(b) == Join(b)
  {
    assert Join(b[..1]) == b[0];
    OrByte(b[..1], b[1]);
    OrByte(b[..2], b[2]);
    assert b[..1] + [b[1]] == b[..2] && b[..2] + [b[2]] == b;
  }

  lemma {:induction false} Or4Joins(b: seq<Byte>)
    requires |b| == 4
    ensures Or4(b) == Join(b)
  {
    Or3Joins(b[..3]);
    OrByte(b[..3], b[3]);
    assert b[..3] + [b[3]] == b;
  }

  // ----- the toolchain's reader -----

  // get(k), ..., get(k + n - 1) of the word `piece`
  function Gets(piece: Long, k: nat, n: nat): (b: seq<Byte>)
    requires k + n <= 8
    ensures |b| == n
  { Split(piece, 8)[k..k + n] }

  lemma {:induction false} GetsAt(raw: seq<Long>, i: nat, k: nat, n: nat)
    requires i < |raw| && k + n <= 8
    ensures Gets(raw[i], k, n) == Flatten(raw)[8 * i + k..8 * i + k + n]
  {
    FlattenWord(raw, i);
    SliceSlice(Flatten(raw), 8 * i, 8 * i + 8, k, k + n);
  }

  // Where the position of a byte reader stands when the word reader stands at word i.
  function AtWord(r: Result<(DebugEntry, nat)>): Result<(DebugEntry, nat)>
  { match r case Ok((e, i)) => Ok((e, 8 * i)) case Err(x) => Err(x) }

  /** The characters of a string entry that starts at word i. */
  method ReadText(raw: seq<Long>, start: nat, length: nat) returns (text: Result<(seq<Byte>, nat)>)
    requires start < |raw|
    ensures 8 * start + 4 + length > 8 * |raw| ==> text == Err(OutOfRange)
    ensures 8 * start + 4 + length <= 8 * |raw| ==>
      text == Ok((Flatten(raw)[8 * start + 4..8 * start + 4 + length], start + UpDiv(4 + length, 8)))
  {
    hide Flatten;
    var out, i, piece := [], start, raw[start];
    for j := 4 to length + 4
      invariant i == start + (j - 1) / 8 && i < |raw| && piece == raw[i]
      invariant 8 * start + j <= 8 * |raw|
      invariant out == Flatten(raw)[8 * start + 4..8 * start + j]
    {
      var mod := j % 8;
      if mod == 0 {
        i := i + 1;
        if i >= |raw| { return Err(OutOfRange); }
        piece := raw[i];
      }
      NextChar(raw, start, i, j);
      out := out + [ByteOf(piece, mod)];
    }
    text := Ok((out, i + 1));
  }

  lemma {:induction false} NextChar(raw: seq<Long>, start: nat, i: nat, j: nat)
    requires j >= 4 && i == start + j / 8 < |raw|
    ensures 8 * start + j < 8 * |raw|
    ensures Flatten(raw)[8 * start + 4..8 * start + j] + [ByteOf(raw[i], j % 8)]
      == Flatten(raw)[8 * start + 4..8 * start + j + 1]
  {
    var p := 8 * start + j;
    assert p / 8 == i && p % 8 == j % 8;
    assert Flatten(raw)[p] == ByteOf(raw[i], j % 8);
  }

  /** One turn of getDebugData's loop. */
  method ReadEntry(raw: seq<Long>, i: nat) returns (r: Result<(DebugEntry, nat)>)
    ensures AtWord(r) == EntryAt(Flatten(raw), 8 * i)
  {
    hide Flatten, Or3, Or4;
    if i >= |raw| { return Err(OutOfRange); }
    var piece := raw[i];
    GetsAt(raw, i, 0, 1);
    var kind := Gets(piece, 0, 1)[0];
    if kind == 1 || kind == 2 {
      GetsAt(raw, i, 1, 3);
      Or3Joins(Gets(piece, 1, 3));
      var length := Or3(Gets(piece, 1, 3));
      var text := ReadText(raw, i, length);
      if text.Err? { return Err(text.error); }
      var (chars, next) := text.value;
      r := Ok((if kind == 1 then Filename(chars) else FunctionName(chars), next));
    } else if kind == 3 {
      if i + 2 >= |raw| { return Err(OutOfRange); }
      var location := ReadLocation(raw, i);
      r := Ok((location, i + 3));
    } else {
      r := Err(BadDebugType);
    }
  }

  method ReadLocation(raw: seq<Long>, i: nat) returns (e: DebugEntry)
    requires i + 2 < |raw|
    ensures e == LocationAt(Flatten(raw), 8 * i)
  {
    hide Flatten, Or3, Or4;
    var piece := raw[i];
    GetsAt(raw, i, 1, 3); Or3Joins(Gets(piece, 1, 3));
    GetsAt(raw, i, 4, 4); Or4Joins(Gets(piece, 4, 4));
    var file, line := Or3(Gets(piece, 1, 3)), Or4(Gets(piece, 4, 4));
    piece := raw[i + 1];
    GetsAt(raw, i + 1, 0, 3); Or3Joins(Gets(piece, 0, 3));
    GetsAt(raw, i + 1, 3, 1);
    GetsAt(raw, i + 1, 4, 4); Or4Joins(Gets(piece, 4, 4));
    var column, count, func := Or3(Gets(piece, 0, 3)), Gets(piece, 3, 1)[0], Or4(Gets(piece, 4, 4));
    FlattenWord(raw, i + 2);
    ghost var image := Flatten(raw);
    assert file == Field(image, 8 * i + 1, 3) && line == Field(image, 8 * i + 4, 4);
    assert column == Field(image, 8 * i + 8, 3) && func == Field(image, 8 * i + 12, 4);
    e := Location(file, line, column, func, count, raw[i + 2]);
  }

  /** BinaryParser::getDebugData over the words [start, end). */
  method GetDebugData(raw: seq<Long>, start: nat, end: nat) returns (r: Result<seq<DebugEntry>>)
    ensures r == ReadDebug(Flatten(raw), 8 * start, 8 * end)
  {
    hide Flatten, EntryAt, Prepend;
    var out := [];
    var i := start;
    ghost var whole := ReadDebug(Flatten(raw), 8 * start, 8 * end);
    PrependEnds([], whole);
    while i < end
      invariant whole == Prepend(out, ReadDebug(Flatten(raw), 8 * i, 8 * end))
      decreases end - i
    {
      var step := ReadEntry(raw, i);
      ReadStep(Flatten(raw), 8 * i, 8 * end, out);
      if step.Err? { return Err(step.error); }
      var (entry, next) := step.value;
      out := out + [entry];
      i := next;
    }
    PrependEnds(out, Ok([]));
    r := Ok(out);
  }

  lemma {:induction false} ReadStep(image: seq<Byte>, p: nat, end: nat, out: seq<DebugEntry>)
    requires p < end
    ensures EntryAt(image, p).Err? ==> Prepend(out, ReadDebug(image, p, end)) == Err(EntryAt(image, p).error)
    ensures EntryAt(image, p).Ok? ==> var (e, next) := EntryAt(image, p).value;
      Prepend(out, ReadDebug(image, p, end)) == Prepend(out + [e], ReadDebug(image, next, end))
  {
    hide EntryAt;
    if EntryAt(image, p).Ok? {
      var (e, next) := EntryAt(image, p).value;
      PrependStep(out, e, ReadDebug(image, next, end));
    }
  }

  // ----- the machine's reader -----

  // `8 + (length <= 4? 0 : upalign(length - 4, 8))`
  function VmStep(length: nat): nat
  { 8 + if length <= 4 then 0 else UpAlign(length - 4, 8) }

  /** The machine's alignment formula steps over exactly the words the encoder wrote. */
  lemma {:induction false} VmStepIsSpan(length: nat)
    ensures VmStep(length) == StringSpan(length)
  {
    if length > 4 {
      var n := length - 4;
      assert UpDiv(4 + length, 8) == 1 + UpDiv(n, 8);
      assert UpAlign(n, 8) == 8 * UpDiv(n, 8) by {
        if n % 8 != 0 { assert (8 - n % 8) % 8 == 8 - n % 8; }
      }
    }
  }

  function WordAt(image: seq<Byte>, p: nat): Long
    requires p + 8 <= |image|
  { Join8Bound(image[p..p + 8]); Join(image[p..p + 8]) }

  // Shifting and masking a little-endian word selects a run of its bytes.
  lemma {:induction false} DropBytes(b: seq<Byte>, k: nat)
    requires k <= |b|
    ensures Join(b) == Join(b[..k]) + Shl(Join(b[k..]), 8 * k)
    ensures Join(b[..k]) < Shl(1, 8 * k)
  {
    JoinAppend(b[..k], b[k..]);
    assert b[..k] + b[k..] == b;
    JoinBound(b[..k]);
  }

  lemma {:induction false} WordFields(image: seq<Byte>, p: nat)
    requires p + 8 <= |image|
    ensures WordAt(image, p) % 0x100 == image[p]
    ensures WordAt(image, p) / 0x100 % 0x100_0000 == Join(image[p + 1..p + 4])
    ensures WordAt(image, p) % 0x100_0000 == Join(image[p..p + 3])
    ensures WordAt(image, p) / 0x100_0000 % 0x100 == image[p + 3]
    ensures WordAt(image, p) / 0x1_0000_0000 == Join(image[p + 4..p + 8])
  {
    var b := image[p..p + 8];
    var c, d := b[1..], b[4..];
    SliceSlice(image, p, p + 8, 1, 4);
    SliceSlice(image, p, p + 8, 0, 3);
    SliceSlice(image, p, p + 8, 4, 8);
    assert Join(b) == b[0] + 256 * Join(c);
    DropBytes(c, 3); ShlBytes(1, 3); ShlBytes(Join(c[3..]), 3);
    DropBytes(b, 3); ShlBytes(Join(b[3..]), 3);
    DropBytes(b, 4); ShlBytes(1, 4); ShlBytes(Join(d), 4);
    assert c[..3] == b[1..4] && c[3..] == d && b[..3] == b[0..3];
    assert Join(b[3..]) == b[3] + 256 * Join(b[3..][1..]);
    WordShifts(Join(b), b[0], Join(b[1..4]), Join(b[..3]), b[3], Join(b[3..][1..]), Join(b[..4]), Join(d));
  }

  lemma {:induction false} WordShifts(w: nat, b0: Byte, mid: nat, low: nat, b3: Byte, rest: nat, half: nat, top: nat)
    requires w == b0 + 256 * (mid + 0x100_0000 * top) && mid < 0x100_0000
    requires w == low + 0x100_0000 * (b3 + 256 * rest) && low < 0x100_0000
    requires w == half + 0x1_0000_0000 * top && half < 0x1_0000_0000
    ensures w % 0x100 == b0 && w / 0x100 % 0x100_0000 == mid && w % 0x100_0000 == low
    ensures w / 0x100_0000 % 0x100 == b3 && w / 0x1_0000_0000 == top
  {}

  method VmText(image: seq<Byte>, p: nat, length: nat) returns (text: Result<seq<Byte>>)
    ensures text == if p + 4 + length > |image| && length > 0 then Err(OutOfRange)
      else if length == 0 then Ok([]) else Ok(image[p + 4..p + 4 + length])
  {
    var str := [];
    for j := 0 to length
      invariant j > 0 ==> p + 4 + j <= |image|
      invariant str == if j == 0 then [] else image[p + 4..p + 4 + j]
    {
      if p + 4 + j >= |image| { return Err(OutOfRange); }
      assert j > 0 ==> image[p + 4..p + 4 + j] + [image[p + 4 + j]] == image[p + 4..p + 4 + j + 1];
      assert j == 0 ==> [image[p + 4]] == image[p + 4..p + 5];
      str := str + [image[p + 4 + j]];
    }
    text := Ok(str);
  }

  /** One turn of loadDebugData's loop: the entry it decodes and the next value of i. */
  method VmEntry(image: seq<Byte>, i: nat) returns (r: Result<(DebugEntry, nat)>)
    ensures r == EntryAt(image, i)
  {
    hide WordAt;
    if i + 8 > |image| { return Err(OutOfRange); }
    var word := WordAt(image, i);
    WordFields(image, i);
    var kind := word % 0x100;
    if kind == 1 || kind == 2 {
      var length := word / 0x100 % 0x100_0000;
      var text := VmText(image, i, length);
      if text.Err? { return Err(text.error); }
      VmStepIsSpan(length);
      assert length == 0 ==> image[i + 4..i + 4 + length] == [];
      r := Ok((if kind == 1 then Filename(text.value) else FunctionName(text.value), i + VmStep(length)));
    } else if kind == 3 {
      var file, line := word / 0x100 % 0x100_0000, word / 0x1_0000_0000;
      if i + 16 > |image| { return Err(OutOfRange); }
      word := WordAt(image, i + 8);
      WordFields(image, i + 8);
      var column, count, func := word % 0x100_0000, word / 0x100_0000 % 0x100, word / 0x1_0000_0000;
      if i + 24 > |image| { return Err(OutOfRange); }
      var address := WordAt(image, i + 16);
      r := Ok((Location(file, line, column, func, count, address), i + 24));
      LocationFields(image, i);
    } else {
      r := Err(BadDebugType);
    }
  }

  lemma {:induction false} LocationFields(image: seq<Byte>, i: nat)
    requires i + 24 <= |image|
    ensures var e := LocationAt(image, i);
      && e.file == Join(image[i + 1..i + 4]) && e.line == Join(image[i + 4..i + 8])
      && e.column == Join(image[i + 8..i + 11]) && e.func == Join(image[i + 12..i + 16])
      && e.count == image[i + 11] && e.address == WordAt(image, i + 16)
  {}
}
