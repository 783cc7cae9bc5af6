/** A translation in plain arithmetic: which words of memory it reads, and what it makes of them. */
module Translations {
  import opened Words
  import opened Machine
  import opened Paging
  import opened Arithmetic
  import V = VirtualMemory
  import O = Operations

  // Where the walk reads its i-th word: eight bytes for each value of the address's i-th byte from the top, from the
  // root table or from the word before without its low eight bits.
  function SlotOf(s: State, address: Long, words: seq<Long>, i: nat): (a: nat)
    requires i <= |words| && i < 6
  { ((if i == 0 then s.p0 else words[i - 1] - words[i - 1] % 0x100) + 8 * (address / Power(7 - i) % 0x100)) % TWO64 }

  predicate TrailAt(s: State, address: Long, words: seq<Long>, i: nat)
    requires i < |words| <= 6
  { SlotOf(s, address, words, i) < TWO63 && Reads(s.mem, SlotOf(s, address, words, i), 8, words[i]) && (i + 1 < |words| ==> words[i] % 2 == 1) }

  // The words a walk finds, all but the last of them odd.
  predicate Trail(s: State, address: Long, words: seq<Long>)
  { |words| <= 6 && forall i :: 0 <= i < |words| ==> TrailAt(s, address, words, i) }

  // There the walk ends: at the sixth word, at an even one, or past memory.
  predicate Ends(s: State, address: Long, words: seq<Long>)
    requires |words| <= 6
  {
    || |words| == 6
    || (words != [] && words[|words| - 1] % 2 == 0)
    || SlotOf(s, address, words, |words|) >= TWO63 || SlotOf(s, address, words, |words|) + 8 > |s.mem|
  }

  // What it comes to.
  predicate ComesTo(s: State, address: Long, words: seq<Long>, r: Translation)
  {
    if |words| == 6 then
      var leaf := words[5];
      if leaf % 2 == 1 then r == Mapped(PageByte(leaf, address), Some(leaf)) else r == Fault(Some(leaf))
    else if words != [] && words[|words| - 1] % 2 == 0 then r == Fault(None)
    else r == Thrown
  }

  lemma {:induction false} DigitIs(address: Long, i: nat)
    requires i < 6
    ensures Digits(address)[i] == address / Power(7 - i) % 0x100
  {
    hide ByteOf, Power;
    ByteIs(address, 7 - i);
    assert Digits(address)[i] == Split(address, 8)[2..][5 - i] == Split(address, 8)[7 - i];
  }

  // The table of level i.
  function TableAt(s: State, words: seq<Long>, i: nat): Long
    requires i <= |words|
  { if i == 0 then s.p0 else words[i - 1] - words[i - 1] % 0x100 }

  lemma {:induction false} SlotIs(s: State, address: Long, words: seq<Long>, i: nat)
    requires i <= |words| && i < 6
    ensures Slot(TableAt(s, words, i), Digits(address)[i]) == SlotOf(s, address, words, i)
  { hide Digits, Power; DigitIs(address, i); }

  lemma {:induction false} LookupStep(s: State, address: Long, words: seq<Long>, i: nat)
    requires i < |words| && Trail(s, address, words)
    ensures Lookup(s.mem, TableAt(s, words, i), Digits(address)[i..])
      == if i == 5 then Leaf(words[5])
         else if words[i] % 2 == 0 then Missing
         else Lookup(s.mem, TableAt(s, words, i + 1), Digits(address)[i + 1..])
  {
    hide Digits, SlotOf, Get, Reads;
    assert TrailAt(s, address, words, i);
    SlotIs(s, address, words, i);
    var slot := SlotOf(s, address, words, i);
    ReadsInside(s.mem, slot, words[i]);
    var d := Digits(address)[i..];
    assert d[0] == Digits(address)[i] && d[1..] == Digits(address)[i + 1..];
  }

  lemma {:induction false} ReadsInside(memory: seq<Byte>, a: Long, w: Long)
    requires a < TWO63 && Reads(memory, a, 8, w)
    ensures Inside(memory, a, Whole) && Get(memory, a, Whole) == w
  {
    hide Get;
    GetReads(memory, a, Whole, 8);
    ReadsOnce(memory, a, 8, w, Get(memory, a, Whole));
  }

  lemma {:induction false} LookupTrail(s: State, address: Long, words: seq<Long>, i: nat)
    requires i <= |words| && i < 6 && Trail(s, address, words) && Ends(s, address, words)
    requires i > 0 ==> words[i - 1] % 2 == 1
    ensures Lookup(s.mem, TableAt(s, words, i), Digits(address)[i..])
      == if |words| == 6 then Leaf(words[5]) else if words != [] && words[|words| - 1] % 2 == 0 then Missing else OutOfMemory
    decreases |words| - i
  {
    hide Digits, SlotOf, Lookup;
    if i == |words| {
      SlotIs(s, address, words, i);
      LookupPast(s.mem, TableAt(s, words, i), Digits(address)[i..]);
    } else {
      LookupStep(s, address, words, i);
      if i < 5 && words[i] % 2 == 1 {
        LookupTrail(s, address, words, i + 1);
      } else if i < 5 {
        assert i + 1 == |words| by { hide Reads; assert TrailAt(s, address, words, i); }
      }
    }
  }

  lemma {:induction false} LookupPast(memory: seq<Byte>, table: Long, digits: seq<Byte>)
    requires digits != [] && !Inside(memory, Slot(table, digits[0]), Whole)
    ensures Lookup(memory, table, digits) == OutOfMemory
  {}

  /** A translation, level by level: the walk reads the word at the root table plus eight times the address's top byte,
      then, as long as a word is odd, the word at that word without its low eight bits plus eight times the next byte
      down. The sixth word, if odd, gives the page: itself without its low sixteen bits, plus the address's low
      sixteen. */
  lemma {:induction false} TranslateFollows(s: State, address: Long, words: seq<Long>)
    requires s.paging && s.p0 != 0 && Trail(s, address, words) && Ends(s, address, words)
    ensures ComesTo(s, address, words, Translate(s, address))
  {
    hide Digits, SlotOf, Lookup, Reads, Trail, Ends;
    LookupTrail(s, address, words, 0);
    assert Digits(address)[0..] == Digits(address);
  }

  /** Every walk is one of these, and with paging off or no root table there is none. */
  lemma {:induction false} TranslateIs(s: State, address: Long) returns (words: seq<Long>)
    ensures !s.paging ==> Translate(s, address) == Mapped(address, None)
    ensures s.paging && s.p0 == 0 ==> Translate(s, address) == Fault(None)
    ensures s.paging && s.p0 != 0 ==>
      Trail(s, address, words) && Ends(s, address, words) && ComesTo(s, address, words, Translate(s, address))
  {
    hide Lookup, Digits;
    words := [];
    if s.paging && s.p0 != 0 {
      words := SomeTrail(s, address, []);
      TranslateFollows(s, address, words);
    }
  }

  lemma {:induction false} SomeTrail(s: State, address: Long, found: seq<Long>) returns (words: seq<Long>)
    requires Trail(s, address, found) && (found != [] && |found| < 6 ==> found[|found| - 1] % 2 == 1)
    ensures Trail(s, address, words) && Ends(s, address, words)
    decreases 6 - |found|
  {
    hide SlotOf, Reads;
    words := found;
    if |found| < 6 && SlotOf(s, address, found, |found|) < TWO63 && SlotOf(s, address, found, |found|) + 8 <= |s.mem| {
      var a := SlotOf(s, address, found, |found|);
      GetReads(s.mem, a, Whole, 8);
      var w := Get(s.mem, a, Whole);
      words := found + [w];
      TrailMore(s, address, found, w);
      if w % 2 == 1 && |words| < 6 { words := SomeTrail(s, address, words); }
    }
  }

  lemma {:induction false} TrailMore(s: State, address: Long, found: seq<Long>, w: Long)
    requires Trail(s, address, found) && |found| < 6 && (found != [] ==> found[|found| - 1] % 2 == 1)
    requires SlotOf(s, address, found, |found|) < TWO63 && Reads(s.mem, SlotOf(s, address, found, |found|), 8, w)
    ensures Trail(s, address, found + [w])
  {
    hide Reads, SlotOf;
    var words := found + [w];
    forall i | 0 <= i < |words| ensures TrailAt(s, address, words, i) {
      SlotSame(s, address, found, w, i);
      if i < |found| { assert TrailAt(s, address, found, i); }
    }
  }

  lemma {:induction false} SlotSame(s: State, address: Long, found: seq<Long>, w: Long, i: nat)
    requires i <= |found| && i < 6
    ensures SlotOf(s, address, found + [w], i) == SlotOf(s, address, found, i)
  { hide Power; }

  // The table's word for a digit.
  predicate Found(memory: seq<Byte>, table: Long, digit: nat, w: Long)
  { (table + 8 * digit) % TWO64 < TWO63 && Reads(memory, (table + 8 * digit) % TWO64, 8, w) }

  // The table an odd word names.
  function Trimmed(w: Long): Long { w - w % 0x100 }

  /** Written out for the six tables of a mapped page. */
  lemma {:induction false} SixTables(s: State, address: Long, p1: Long, p2: Long, p3: Long, p4: Long, p5: Long, leaf: Long)
    requires s.paging && s.p0 != 0
    requires Found(s.mem, s.p0, address / 0x100_0000_0000_0000, p1) && p1 % 2 == 1
    requires Found(s.mem, Trimmed(p1), address / 0x1_0000_0000_0000 % 0x100, p2) && p2 % 2 == 1
    requires Found(s.mem, Trimmed(p2), address / 0x100_0000_0000 % 0x100, p3) && p3 % 2 == 1
    requires Found(s.mem, Trimmed(p3), address / 0x1_0000_0000 % 0x100, p4) && p4 % 2 == 1
    requires Found(s.mem, Trimmed(p4), address / 0x100_0000 % 0x100, p5) && p5 % 2 == 1
    requires Found(s.mem, Trimmed(p5), address / 0x1_0000 % 0x100, leaf)
    ensures Translate(s, address)
      == if leaf % 2 == 1 then Mapped(PageByte(leaf, address), Some(leaf)) else Fault(Some(leaf))
  {
    hide *;
    Powers();
    TopByte(address);
    var words := [p1, p2, p3, p4, p5, leaf];
    TrailFrom(s, address, words, 0, s.p0, address / 0x100_0000_0000_0000);
    TrailFrom(s, address, words, 1, Trimmed(p1), address / 0x1_0000_0000_0000 % 0x100);
    TrailFrom(s, address, words, 2, Trimmed(p2), address / 0x100_0000_0000 % 0x100);
    TrailFrom(s, address, words, 3, Trimmed(p3), address / 0x1_0000_0000 % 0x100);
    TrailFrom(s, address, words, 4, Trimmed(p4), address / 0x100_0000 % 0x100);
    TrailFrom(s, address, words, 5, Trimmed(p5), address / 0x1_0000 % 0x100);
    SixFollow(s, address, words);
  }

  lemma {:induction false} TrailFrom(s: State, address: Long, words: seq<Long>, i: nat, table: Long, digit: nat)
    requires i < |words| <= 6 && table == (if i == 0 then s.p0 else Trimmed(words[i - 1]))
    requires digit == address / Power(7 - i) % 0x100 && Found(s.mem, table, digit, words[i]) && (i + 1 < |words| ==> words[i] % 2 == 1)
    ensures TrailAt(s, address, words, i)
  { hide Reads, Power; }

  lemma {:induction false} SixFollow(s: State, address: Long, words: seq<Long>)
    requires s.paging && s.p0 != 0 && |words| == 6 && forall i :: 0 <= i < 6 ==> TrailAt(s, address, words, i)
    ensures Translate(s, address)
      == if words[5] % 2 == 1 then Mapped(PageByte(words[5], address), Some(words[5])) else Fault(Some(words[5]))
  {
    hide Translate, TrailAt, SlotOf;
    TranslateFollows(s, address, words);
  }

  function PageByte(leaf: Long, address: Long): Long
  {
    assert leaf - leaf % 0x1_0000 + address % 0x1_0000 < 0x1_0000_0000_0000_0000;
    leaf - leaf % 0x1_0000 + address % 0x1_0000
  }

  lemma {:induction false} TopByte(address: Long)
    ensures address / 0x100_0000_0000_0000 % 0x100 == address / 0x100_0000_0000_0000
  {}

  /** A page may be written when paging is off or bit 1 of its word is set. */
  lemma {:induction false} WritableIs(s: State, address: Long)
    requires Translate(s, address).Mapped?
    ensures s.paging ==> Translate(s, address).leaf.Some?
    ensures V.WritablePage(s, address) <==> !s.paging || Translate(s, address).leaf.value / 2 % 2 == 1
  { hide Lookup; }

  /** What a translation leaves behind: the address, and the six flags of the page's word if it got that far. */
  lemma {:induction false} WalkedNotes(v: O.Vm, address: Long)
    ensures var w, r := O.Walked(v, address), Translate(v.s, address);
      && w.s == v.s && w.printed == v.printed && w.pagingStack == v.pagingStack && w.hardware == v.hardware
      && (v.s.paging ==> w.lastVirtual == address)
      && (v.s.paging && ((r.Mapped? && r.leaf.Some?) || (r.Fault? && r.leaf.Some?)) ==>
            var leaf := if r.Mapped? then r.leaf.value else if r.Fault? then r.leaf.value else 0;
            w.meta.present == (leaf % 2 == 1) && w.meta.writable == (leaf / 2 % 2 == 1) && w.meta.executable == (leaf / 4 % 2 == 1)
            && w.meta.user == (leaf / 8 % 2 == 1) && w.meta.accessed == (leaf / 16 % 2 == 1) && w.meta.modified == (leaf / 32 % 2 == 1))
  { hide Translate; }
}
