/** Address translation: wvm/src/Paging.cpp and VM::translateAddress. */
module Paging {
  import opened Words
  import opened Longs
  import opened Machine

  datatype PageMeta = PageMeta(present: bool, writable: bool, executable: bool, user: bool, accessed: bool, modified: bool)

  // The offsets an Address carves out of its top six bytes, top first.
  function Digits(address: Long): (d: seq<Byte>)
    ensures |d| == 6
  { Reverse(Split(address, 8)[2..]) }

  function PageOffset(address: Long): nat { address % 0x1_0000 }

  // P04Entry
  predicate Present(entry: Long) { entry % 2 == 1 }
  function Next(entry: Long): Long { entry - entry % 0x100 }

  // P5Entry
  function PageStart(entry: Long): Long { entry - entry % 0x1_0000 }
  function MetaOf(entry: Long): PageMeta
  {
    PageMeta(entry % 2 == 1, entry / 2 % 2 == 1, entry / 4 % 2 == 1, entry / 8 % 2 == 1, entry / 16 % 2 == 1, entry / 32 % 2 == 1)
  }

  // ----- the walk as a radix-256 lookup -----

  function Slot(table: Long, digit: Byte): Long { Plus(table, 8 * digit) }

  // Reading a table entry can run into the accessors' throw.
  datatype Walk = OutOfMemory | Missing | Leaf(entry: Long)

  function Lookup(memory: seq<Byte>, table: Long, digits: seq<Byte>): Walk
    requires digits != []
    decreases |digits|
  {
    if !Inside(memory, Slot(table, digits[0]), Whole) then OutOfMemory else
    var entry := Get(memory, Slot(table, digits[0]), Whole);
    if |digits| == 1 then Leaf(entry)
    else if !Present(entry) then Missing
    else Lookup(memory, Next(entry), digits[1..])
  }

  datatype Translation =
    | Thrown
    | Fault(leaf: Option<Long>)
    | Mapped(address: Long, leaf: Option<Long>)

  function PageAddress(entry: Long, address: Long): Long
  {
    assert entry - entry % 0x1_0000 + address % 0x1_0000 < 0x1_0000_0000_0000_0000;
    PageStart(entry) + PageOffset(address)
  }

  function Translate(s: State, address: Long): Translation
  {
    if !s.paging then Mapped(address, None)
    else if s.p0 == 0 then Fault(None)
    else match Lookup(s.mem, s.p0, Digits(address))
      case OutOfMemory => Thrown
      case Missing => Fault(None)
      case Leaf(entry) =>
        if Present(entry) then Mapped(PageAddress(entry, address), Some(entry)) else Fault(Some(entry))
  }

  // ----- what the walk depends on -----

  // The table words a walk reads.
  function Visited(memory: seq<Byte>, table: Long, digits: seq<Byte>): (slots: seq<Long>)
    requires digits != []
    ensures |slots| <= |digits|
    ensures forall i :: 0 <= i < |slots| ==> Inside(memory, slots[i], Whole)
    decreases |digits|
  {
    var slot := Slot(table, digits[0]);
    if !Inside(memory, slot, Whole) then [] else
    var entry := Get(memory, slot, Whole);
    if |digits| == 1 || !Present(entry) then [slot]
    else [slot] + Visited(memory, Next(entry), digits[1..])
  }

  function TableWords(s: State, address: Long): (slots: seq<Long>)
    ensures |slots| <= 6
    ensures forall i :: 0 <= i < |slots| ==> Inside(s.mem, slots[i], Whole)
  { if s.paging && s.p0 != 0 then Visited(s.mem, s.p0, Digits(address)) else [] }

  // Two memories of one size that agree on the given words.
  ghost predicate AgreeOn(a: seq<Byte>, b: seq<Byte>, slots: seq<Long>)
  {
    |a| == |b| && forall i :: 0 <= i < |slots| ==>
      Inside(a, slots[i], Whole) && Inside(b, slots[i], Whole) && Get(a, slots[i], Whole) == Get(b, slots[i], Whole)
  }

  lemma {:induction false} LookupDepends(a: seq<Byte>, b: seq<Byte>, table: Long, digits: seq<Byte>)
    requires digits != [] && AgreeOn(a, b, Visited(a, table, digits))
    ensures Lookup(a, table, digits) == Lookup(b, table, digits)
    ensures Visited(a, table, digits) == Visited(b, table, digits)
    decreases |digits|
  {
    hide Get, Inside, Slot;
    var slots := Visited(a, table, digits);
    assert |a| == |b|;
    InsideSize(a, b, Slot(table, digits[0]));
    if Inside(a, Slot(table, digits[0]), Whole) {
      assert slots[0] == Slot(table, digits[0]);
      var entry := Get(a, slots[0], Whole);
      if |digits| > 1 && Present(entry) {
        assert slots[1..] == Visited(a, Next(entry), digits[1..]);
        assert forall i :: 0 <= i < |slots[1..]| ==> slots[1..][i] == slots[i + 1];
        LookupDepends(a, b, Next(entry), digits[1..]);
      }
    }
  }

  lemma {:induction false} InsideSize(a: seq<Byte>, b: seq<Byte>, address: Long)
    requires |a| == |b|
    ensures Inside(a, address, Whole) == Inside(b, address, Whole)
  {}

  /** A translation depends on nothing but the paging registers and at most six words of memory. */
  lemma {:induction false} TranslationDepends(s: State, t: State, address: Long)
    requires s.paging == t.paging && s.p0 == t.p0 && AgreeOn(s.mem, t.mem, TableWords(s, address))
    ensures Translate(s, address) == Translate(t, address) && TableWords(s, address) == TableWords(t, address)
  {
    hide Lookup, Visited, AgreeOn, Digits;
    if s.paging && s.p0 != 0 { LookupDepends(s.mem, t.mem, s.p0, Digits(address)); }
  }

  /** With paging on, a translation keeps the low 16 bits of the address. */
  lemma {:induction false} KeepsOffset(s: State, address: Long)
    requires Translate(s, address).Mapped?
    ensures Translate(s, address).address % 0x1_0000 == address % 0x1_0000
  { hide Lookup; }

  lemma {:induction false} SamePageDigits(a: Long, b: Long)
    requires a / 0x1_0000 == b / 0x1_0000
    ensures Digits(a) == Digits(b)
  {
    forall j | 2 <= j < 8 ensures ByteOf(a, j) == ByteOf(b, j) {
      assert ByteOf(a, j) == ByteOf(a / 256, j - 1) == ByteOf(a / 256 / 256, j - 2);
      assert ByteOf(b, j) == ByteOf(b / 256, j - 1) == ByteOf(b / 256 / 256, j - 2);
      assert a / 256 / 256 == a / 0x1_0000 && b / 256 / 256 == b / 0x1_0000;
    }
    assert Split(a, 8)[2..] == Split(b, 8)[2..];
  }

  /** Two addresses on one virtual page share a fate, and translate to addresses with the same difference. */
  lemma {:induction false} SamePage(s: State, a: Long, b: Long)
    requires a / 0x1_0000 == b / 0x1_0000
    ensures Translate(s, a).Mapped? <==> Translate(s, b).Mapped?
    ensures Translate(s, a).Thrown? <==> Translate(s, b).Thrown?
    ensures Translate(s, a).Mapped? ==> Translate(s, a).address - Translate(s, b).address == a - b
  {
    hide Lookup, Digits;
    SamePageDigits(a, b);
  }

  // ----- the six steps -----

  datatype Step = Throws | Fails | Goes(next: Long)

  // One of translateAddress's first five blocks.
  function StepTo(memory: seq<Byte>, table: Long, digit: Byte): Step
  {
    if !Inside(memory, Slot(table, digit), Whole) then Throws else
    var entry := Get(memory, Slot(table, digit), Whole);
    if Present(entry) then Goes(Next(entry)) else Fails
  }

  lemma {:induction false} StepLookup(memory: seq<Byte>, table: Long, digits: seq<Byte>)
    requires |digits| > 1
    ensures Lookup(memory, table, digits) == match StepTo(memory, table, digits[0])
      case Throws => OutOfMemory
      case Fails => Missing
      case Goes(next) => Lookup(memory, next, digits[1..])
  {}

  method ReadEntry(memory: seq<Byte>, table: Long, digit: Byte) returns (r: Step)
    ensures r == StepTo(memory, table, digit)
  {
    if !Inside(memory, Slot(table, digit), Whole) { return Throws; }
    var entry := Get(memory, Slot(table, digit), Whole);
    r := if Present(entry) then Goes(Next(entry)) else Fails;
  }

  /** The unrolled walk of translateAddress. */
  method WalkSixLevels(memory: seq<Byte>, p0: Long, address: Long) returns (r: Walk)
    ensures r == Lookup(memory, p0, Digits(address))
  {
    hide Lookup, StepTo, Digits;
    var d := Digits(address);
    WalkSteps(memory, p0, d);
    var step := ReadEntry(memory, p0, d[0]);
    if !step.Goes? { return if step.Throws? then OutOfMemory else Missing; }
    var p1 := step.next;
    StepLookup(memory, p0, d);
    StepLookup(memory, p1, d[1..]);
    step := ReadEntry(memory, p1, d[1]);
    if !step.Goes? { return if step.Throws? then OutOfMemory else Missing; }
    var p2 := step.next;
    StepLookup(memory, p2, d[2..]);
    step := ReadEntry(memory, p2, d[2]);
    if !step.Goes? { return if step.Throws? then OutOfMemory else Missing; }
    var p3 := step.next;
    StepLookup(memory, p3, d[3..]);
    step := ReadEntry(memory, p3, d[3]);
    if !step.Goes? { return if step.Throws? then OutOfMemory else Missing; }
    var p4 := step.next;
    StepLookup(memory, p4, d[4..]);
    step := ReadEntry(memory, p4, d[4]);
    if !step.Goes? { return if step.Throws? then OutOfMemory else Missing; }
    var p5 := step.next;
    LeafLookup(memory, p5, d[5..]);
    if !Inside(memory, Slot(p5, d[5]), Whole) { return OutOfMemory; }
    r := Leaf(Get(memory, Slot(p5, d[5]), Whole));
  }

  lemma {:induction false} WalkSteps(memory: seq<Byte>, p0: Long, d: seq<Byte>)
    requires |d| == 6
    ensures Lookup(memory, p0, d) == match StepTo(memory, p0, d[0])
      case Throws => OutOfMemory
      case Fails => Missing
      case Goes(next) => Lookup(memory, next, d[1..])
    ensures d[1..][1..] == d[2..] && d[2..][1..] == d[3..] && d[3..][1..] == d[4..] && d[4..][1..] == d[5..]
  { StepLookup(memory, p0, d); }

  lemma {:induction false} LeafLookup(memory: seq<Byte>, table: Long, digits: seq<Byte>)
    requires |digits| == 1
    ensures Lookup(memory, table, digits)
      == if !Inside(memory, Slot(table, digits[0]), Whole) then OutOfMemory else Leaf(Get(memory, Slot(table, digits[0]), Whole))
  {}
}
