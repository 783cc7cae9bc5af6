/** wasmc/include/wasm/Section.h and wasmc/src/wasm/Section.cpp: a byte vector and a counter. */
module Sections {
  import opened Words
  import opened Longs
  import opened Arithmetic

  class Section {
    var bytes: seq<Byte>
    var counter: nat

    constructor ()
      ensures bytes == [] && counter == 0
    { bytes, counter := [], 0; }

    /** extend: count more bytes of the given value; the counter stays. */
    method Extend(count: nat, value: Byte)
      modifies `bytes
      ensures bytes == old(bytes) + Repeat(value, count)
    { bytes := bytes + Repeat(value, count); }

    /** append of a Long: its eight bytes at the end. */
    method AppendLong(item: Long)
      modifies this
      ensures bytes == old(bytes) + Split(item, 8) && counter == old(counter) + 8
    {
      ghost var before := bytes;
      var at := |bytes|;
      Extend(8, 0);
      var thrown := Insert(at, item, 8);
      SpliceTail(before, Split(item, 8));
      counter := counter + 8;
    }

    /** appendAll of Longs. */
    method AppendAll(items: seq<Long>)
      modifies this
      ensures bytes == old(bytes) + Flatten(items) && counter == old(counter) + 8 * |items|
    {
      hide Flatten, Split;
      ghost var before := bytes;
      NoWords();
      assert before + [] == before;
      for i := 0 to |items|
        invariant bytes == before + Flatten(items[..i]) && counter == old(counter) + 8 * i
      {
        WordsNext(items, i);
        ConcatAssoc(before, Flatten(items[..i]), Split(items[i], 8));
        AppendLong(items[i]);
      }
      assert items[..|items|] == items;
    }

    /** insert: overwrite n bytes, or refuse to reach past the end. */
    method Insert(offset: nat, item: Long, n: nat) returns (thrown: bool)
      requires n <= 8
      modifies `bytes
      ensures thrown <==> |old(bytes)| < offset + n
      ensures bytes == if thrown then old(bytes) else Splice(old(bytes), offset, Split(item, n))
    {
      if |bytes| < offset + n { return true; }
      bytes := bytes[..offset] + Split(item, n) + bytes[offset + n..];
      thrown := false;
    }

    /** alignUp. */
    method AlignUp(alignment: nat) returns (r: nat)
      requires alignment > 0
      modifies this
      ensures r == counter == UpAlign(old(counter), alignment)
      ensures r % alignment == 0 && old(counter) <= r < old(counter) + alignment
      ensures bytes == old(bytes) + Repeat(0, counter - old(counter))
    {
      NextMultiple(counter, alignment);
      if counter % alignment != 0 {
        var toAdd := alignment - counter % alignment;
        Extend(toAdd, 0);
        counter := counter + toAdd;
        AlignAmount(old(counter), alignment);
      } else {
        assert bytes == bytes + Repeat(0, 0);
        AlignAmount(counter, alignment);
      }
      r := counter;
    }
  }

  lemma {:induction false} AlignAmount(n: nat, alignment: nat)
    requires alignment > 0
    ensures UpAlign(n, alignment) == n + if n % alignment == 0 then 0 else alignment - n % alignment
  {
    var m := n % alignment;
    if m != 0 { SmallRemainder(alignment - m, alignment); } else { WholeRemainder(alignment); }
  }

  /** The next multiple. */
  lemma {:induction false} NextMultiple(n: nat, alignment: nat)
    requires alignment > 0
    ensures var r := UpAlign(n, alignment); r % alignment == 0 && n <= r < n + alignment
  {
    AlignAmount(n, alignment);
    var q, m := n / alignment, n % alignment;
    assert n == alignment * q + m;
    var r := UpAlign(n, alignment);
    if m != 0 { assert alignment * (q + 1) == alignment * q + alignment; }
    Quotient(r, alignment, if m == 0 then q else q + 1, 0);
  }

  lemma {:induction false} SmallRemainder(x: nat, d: nat)
    requires x < d
    ensures x % d == x
  {}

  lemma {:induction false} WholeRemainder(d: nat)
    requires d > 0
    ensures d % d == 0
  { assert d == d * 1 + 0; }

  lemma {:induction false} SpliceTail(before: seq<Byte>, b: seq<Byte>)
    ensures Splice(before + Repeat(0, |b|), |before|, b) == before + b
  {}

  lemma {:induction false} NoWords()
    ensures Flatten([]) == []
  {}

  lemma {:induction false} WordsNext(items: seq<Long>, i: nat)
    requires i < |items|
    ensures Flatten(items[..i + 1]) == Flatten(items[..i]) + Split(items[i], 8)
  {
    assert items[..i + 1] == items[..i] + [items[i]];
    FlattenConcat(items[..i], [items[i]]);
    FlattenWord([items[i]], 0);
    assert Flatten([items[i]])[0..8] == Flatten([items[i]]);
  }

  // The bytes of some sections, one after the other.
  function AllBytes(parts: seq<seq<Byte>>): seq<Byte>
  { if parts == [] then [] else AllBytes(parts[..|parts| - 1]) + parts[|parts| - 1] }

  // out.push_back(bytes[i] | bytes[i + 1] << 8 | ...)
  method WordAt(bytes: seq<Byte>, i: nat) returns (w: Long)
    requires i + 8 <= |bytes|
    ensures Split(w, 8) == bytes[i..i + 8]
  {
    ghost var eight := bytes[i..i + 8];
    var out: nat := 0;
    for j := 0 to 8
      invariant out == Join(eight[..j])
    {
      OrNextByte(eight, j);
      out := BitOr(out, Shl(bytes[i + j], 8 * j));
    }
    assert eight[..8] == eight;
    Join8Bound(eight);
    SplitJoin(eight);
    w := out;
  }

  /** Section::combine: goes through exactly when every section is whole words, and then the words' bytes are the
      sections' bytes in order. */
  method Combine(parts: seq<seq<Byte>>) returns (r: Result<seq<Long>>)
    ensures r.Ok? <==> forall i :: 0 <= i < |parts| ==> |parts[i]| % 8 == 0
    ensures r.Ok? ==> Flatten(r.value) == AllBytes(parts)
  {
    hide Flatten, Split;
    for i := 0 to |parts|
      invariant forall j :: 0 <= j < i ==> |parts[j]| % 8 == 0
    {
      if |parts[i]| % 8 != 0 { return Err(OutOfRange); }
    }
    var out := [];
    NoWords();
    for i := 0 to |parts|
      invariant Flatten(out) == AllBytes(parts[..i])
    {
      var words := CombineOne(parts[i]);
      FlattenConcat(out, words);
      assert parts[..i + 1][..i] == parts[..i];
      out := out + words;
    }
    assert parts[..|parts|] == parts;
    r := Ok(out);
  }

  method CombineOne(bytes: seq<Byte>) returns (words: seq<Long>)
    requires |bytes| % 8 == 0
    ensures Flatten(words) == bytes
  {
    hide Flatten, Split;
    words := [];
    NoWords();
    for i := 0 to |bytes| / 8
      invariant |words| == i && Flatten(words) == bytes[..8 * i]
    {
      var w := WordAt(bytes, 8 * i);
      WordsNext(words + [w], i);
      assert (words + [w])[..i] == words && (words + [w])[..i + 1] == words + [w];
      assert bytes[..8 * i] + bytes[8 * i..8 * i + 8] == bytes[..8 * (i + 1)];
      words := words + [w];
    }
    assert bytes[..8 * (|bytes| / 8)] == bytes;
  }
}
