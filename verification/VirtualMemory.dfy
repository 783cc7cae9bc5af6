/** Loads and stores through the page tables, which live in the memory they protect. */
module VirtualMemory {
  import opened Words
  import opened Machine
  import opened Paging
  import opened Operations

  // The access goes through: the page is there, and the bytes too.
  predicate Readable(s: State, address: Long, size: Size)
  { Translate(s, address).Mapped? && Inside(s.mem, Translate(s, address).address, size) }

  predicate WritablePage(s: State, address: Long)
  {
    Translate(s, address).Mapped?
    && (s.paging ==> Translate(s, address).leaf.Some? && MetaOf(Translate(s, address).leaf.value).writable)
  }

  predicate Writable(s: State, address: Long, size: Size)
  { Readable(s, address, size) && WritablePage(s, address) }

  lemma {:induction false} PagedLeaf(s: State, address: Long)
    requires s.paging && Translate(s, address).Mapped?
    ensures Translate(s, address).leaf.Some? && Present(Translate(s, address).leaf.value)
  { hide Lookup; }

  // Two runs of bytes that do not meet.
  predicate Apart(a: int, n: int, b: int, m: int) { a + n <= b || b + m <= a }

  // The bytes of an access miss every table word of a walk.
  predicate MissesWalk(s: State, physical: Long, size: Size, address: Long)
  {
    var slots := TableWords(s, address);
    forall i :: 0 <= i < |slots| ==> Apart(physical, Bytes(size), slots[i], 8)
  }

  lemma {:induction false} InterruptKeepsMemory(v: Vm, t: InterruptType)
    ensures Interrupt(v, t).vm.s.mem == v.s.mem
    ensures !CanDisable(t) ==> |Interrupt(v, t).vm.pagingStack| == |v.pagingStack| + 1
  { hide Get; }

  lemma {:induction false} WalkedState(v: Vm, address: Long)
    ensures Walked(v, address).s == v.s && Walked(v, address).pagingStack == v.pagingStack
    ensures Translate(v.s, address).Mapped? ==> (CheckWritable(Walked(v, address)) <==> WritablePage(v.s, address))
  {
    hide Lookup;
    if v.s.paging && Translate(v.s, address).Mapped? { PagedLeaf(v.s, address); }
  }

  /** A store either leaves memory unchanged, having taken an interrupt or thrown, or goes through and changes
      exactly the bytes at the translated address; it goes through exactly when the page is present and writable
      and the bytes exist. */
  lemma {:induction false} StoreEffect(v: Vm, address: Long, value: Long, size: Size)
    ensures var r := Store(v, address, value, size);
      if Writable(v.s, address, size) then
        !r.thrown && r.vm.s == v.s.(mem := Put(v.s.mem, Translate(v.s, address).address, size, value), pc := Plus(v.s.pc, 8))
      else
        r.vm.s.mem == v.s.mem && (r.thrown || |r.vm.pagingStack| == |v.pagingStack| + 1)
  {
    hide Translate, Interrupt, Put, Get, TableWords, Walked, CheckWritable, WritablePage;
    var w := Walked(v, address);
    WalkedState(v, address);
    match Translate(v.s, address)
    case Thrown =>
    case Fault(_) => InterruptKeepsMemory(Noted(w, w.lastVirtual), PFAULT);
    case Mapped(physical, _) =>
      InterruptKeepsMemory(Noted(w, physical), BWRITE);
  }

  /** A load goes through exactly when the page is present and the bytes exist, and then sets its register to them. */
  lemma {:induction false} LoadEffect(v: Vm, rd: Reg, address: Long, size: Size)
    ensures var r := Load(v, rd, address, size);
      && r.vm.s.mem == v.s.mem
      && (if Readable(v.s, address, size) then
           !r.thrown && r.vm.s == v.s.(regs := v.s.regs[rd := Get(v.s.mem, Translate(v.s, address).address, size)], pc := Plus(v.s.pc, 8))
         else r.thrown || |r.vm.pagingStack| == |v.pagingStack| + 1)
  {
    hide Translate, Interrupt, Put, Get, TableWords, Walked;
    var w := Walked(v, address);
    WalkedState(v, address);
    if Translate(v.s, address).Fault? { InterruptKeepsMemory(Noted(w, w.lastVirtual), PFAULT); }
  }

  // ----- read over write -----

  // Memory rewritten outside a walk's table words leaves the walk alone.
  lemma {:induction false} WalkSurvives(s: State, t: State, physical: Long, size: Size, value: Long, address: Long)
    requires Inside(s.mem, physical, size) && MissesWalk(s, physical, size, address)
    requires t.mem == Put(s.mem, physical, size, value) && t.paging == s.paging && t.p0 == s.p0
    ensures Translate(t, address) == Translate(s, address) && TableWords(t, address) == TableWords(s, address)
  {
    hide Put, Get, Lookup, Visited, Translate;
    var slots := TableWords(s, address);
    forall i | 0 <= i < |slots|
      ensures Inside(t.mem, slots[i], Whole) && Get(t.mem, slots[i], Whole) == Get(s.mem, slots[i], Whole)
    { GetElsewhere(s.mem, physical, size, value, slots[i], Whole); }
    TranslationDepends(s, t, address);
  }

  /** A store that goes through and misses its own walk's table words is read back by a load of the same address:
      the register gets the stored value's low bytes, zero-extended. */
  lemma {:induction false} ReadBack(v: Vm, address: Long, value: Long, size: Size, rd: Reg)
    requires Writable(v.s, address, size) && MissesWalk(v.s, Translate(v.s, address).address, size, address)
    ensures var w := Store(v, address, value, size).vm;
      !Load(w, rd, address, size).thrown && Load(w, rd, address, size).vm.s.regs[rd] == Truncated(value, size)
  {
    hide Store, Load, Translate, Put, Get, MissesWalk, WritablePage;
    var physical := Translate(v.s, address).address;
    StoreEffect(v, address, value, size);
    var w := Store(v, address, value, size).vm;
    WalkSurvives(v.s, w.s, physical, size, value, address);
    GetPut(v.s.mem, physical, size, value);
    LoadEffect(w, rd, address, size);
  }

  /** A load whose table words and data the store misses gives what it gave before. */
  lemma {:induction false} ReadElsewhere(v: Vm, address: Long, value: Long, size: Size, other: Long, width: Size, rd: Reg)
    requires Writable(v.s, address, size) && MissesWalk(v.s, Translate(v.s, address).address, size, other)
    requires Readable(v.s, other, width)
    requires Apart(Translate(v.s, address).address, Bytes(size), Translate(v.s, other).address, Bytes(width))
    ensures var w := Store(v, address, value, size).vm;
      !Load(w, rd, other, width).thrown && Load(w, rd, other, width).vm.s.regs[rd] == Load(v, rd, other, width).vm.s.regs[rd]
  {
    hide Store, Load, Translate, Put, Get, MissesWalk, WritablePage;
    var physical := Translate(v.s, address).address;
    StoreEffect(v, address, value, size);
    var w := Store(v, address, value, size).vm;
    WalkSurvives(v.s, w.s, physical, size, value, other);
    GetElsewhere(v.s.mem, physical, size, value, Translate(v.s, other).address, width);
    LoadEffect(v, rd, other, width);
    LoadEffect(w, rd, other, width);
  }

  // ----- copies -----

  lemma {:induction false} SplitHigh(w: nat, k: nat, n: nat)
    ensures Split(w + Shl(k, 8 * n), n) == Split(w, n)
  {
    if n > 0 {
      ShlAdd(k, 8, 8 * (n - 1));
      Shl8(Shl(k, 8 * (n - 1)));
      SplitTail(w, n);
      SplitTail(w + Shl(k, 8 * n), n);
      SplitHigh(w / 256, k, n - 1);
    }
  }

  // Passing through a signed variable does not change the low bytes.
  lemma {:induction false} ExtendedBytes(w: Long, size: Size)
    requires Fits(w, Bytes(size))
    ensures Split(Extended(w, size), Bytes(size)) == Split(w, Bytes(size))
  {
    hide Extended, Split;
    var k := ExtendedSum(w, size);
    SplitHigh(w, k, Bytes(size));
  }

  lemma {:induction false} ExtendedSum(w: Long, size: Size) returns (k: nat)
    requires Fits(w, Bytes(size))
    ensures Extended(w, size) == w + Shl(k, 8 * Bytes(size))
  {
    hide Shl, Wrap, Fits;
    ShlZero(8 * Bytes(size));
    FitsBound(w, size);
    k := 0;
    match size
    case Byte1 =>
      assert w % 0x100 == w;
      if w >= 0x80 { k := 0xFF_FFFF_FFFF_FFFF; Shl8(k); WrapNegative(w - 0x100); }
    case Quarter =>
      assert w % 0x1_0000 == w;
      if w >= 0x8000 { k := 0xFFFF_FFFF_FFFF; Shl16(k); WrapNegative(w - 0x1_0000); }
    case Half =>
      assert w % 0x1_0000_0000 == w;
      if w >= 0x8000_0000 { k := 0xFFFF_FFFF; Shl32(k); WrapNegative(w - 0x1_0000_0000); }
    case Whole =>
  }

  lemma {:induction false} WrapNegative(x: int)
    requires -TWO64 <= x < 0
    ensures Wrap(x) == x + TWO64
  {}

  lemma {:induction false} FitsBound(w: Long, size: Size)
    requires Fits(w, Bytes(size))
    ensures size == Byte1 ==> w < 0x100
    ensures size == Quarter ==> w < 0x1_0000
    ensures size == Half ==> w < 0x1_0000_0000
  {
    Fits4(w);
    if size == Byte1 { assert Fits(w, 1) == Fits(w / 256, 0); }
    if size == Quarter { assert Fits(w, 2) == Fits(w / 256, 1) == Fits(w / 256 / 256, 0); }
  }

  /** A copy goes through exactly when its source is readable and its target writable, and then the target's bytes
      are the source's, of whatever width, and no other byte changes. */
  lemma {:induction false} CopyEffect(v: Vm, source: Long, target: Long, size: Size)
    ensures var r := Copy(v, source, target, size);
      if Readable(v.s, source, size) && Writable(v.s, target, size) then
        var from, to, n := Translate(v.s, source).address, Translate(v.s, target).address, Bytes(size);
        !r.thrown && r.vm.s == v.s.(mem := Splice(v.s.mem, to, v.s.mem[from..from + n]), pc := Plus(v.s.pc, 8))
      else
        r.vm.s.mem == v.s.mem && (r.thrown || |r.vm.pagingStack| == |v.pagingStack| + 1)
  {
    hide Translate, Interrupt, Walked, WritablePage, Extended, Store, Fits, Split;
    var w := Walked(v, source);
    WalkedState(v, source);
    match Translate(v.s, source)
    case Thrown =>
    case Fault(_) => InterruptKeepsMemory(Noted(w, w.lastVirtual), PFAULT);
    case Mapped(physical, _) =>
      if Inside(w.s.mem, physical, size) {
        var value := Get(w.s.mem, physical, size);
        ExtendedBytes(value, size);
        StoreEffect(w, target, Extended(value, size), size);
      }
  }

  /** lni and lbni store to an untranslated address: they go through exactly when their source is readable and the
      raw target inside memory, whatever its page allows. */
  lemma {:induction false} IndirectEffect(v: Vm, rd: Reg, source: Long, size: Size)
    ensures var r, to := LoadIndirect(v, rd, source, size), v.s.regs[rd];
      if Readable(v.s, source, size) && Inside(v.s.mem, to, size) then
        var from, n := Translate(v.s, source).address, Bytes(size);
        !r.thrown && r.vm.s == v.s.(mem := Splice(v.s.mem, to, v.s.mem[from..from + n]), pc := Plus(v.s.pc, 8))
      else
        r.vm.s.mem == v.s.mem && (r.thrown || |r.vm.pagingStack| == |v.pagingStack| + 1)
  {
    hide Translate, Interrupt, Walked, Extended, Fits, Split;
    var w := Walked(v, source);
    WalkedState(v, source);
    match Translate(v.s, source)
    case Thrown =>
    case Fault(_) => InterruptKeepsMemory(Noted(w, w.lastVirtual), PFAULT);
    case Mapped(physical, _) =>
      if Inside(w.s.mem, physical, size) { ExtendedBytes(Get(w.s.mem, physical, size), size); }
  }

  // ----- memset -----

  function ByteAddress(start: Long, i: nat): Long { Plus(start, Wrap(i)) }

  // The first byte from i on that cannot be written, or the count.
  function Stop(s: State, start: Long, i: nat, count: nat): (k: nat)
    requires i <= count
    ensures i <= k <= count
    ensures k < count ==> !Writable(s, ByteAddress(start, k), Byte1)
    ensures forall j: nat :: i <= j < k ==> Writable(s, ByteAddress(start, j), Byte1)
    decreases count - i
  { if i == count || !Writable(s, ByteAddress(start, i), Byte1) then i else Stop(s, start, i + 1, count) }

  // Bytes i to k of the fill, each at its own translated address.
  function Filled(s: State, start: Long, value: Long, i: nat, k: nat): (m: seq<Byte>)
    requires i <= k && forall j: nat :: i <= j < k ==> Writable(s, ByteAddress(start, j), Byte1)
    ensures |m| == |s.mem|
    decreases k
  {
    if i == k then s.mem else
    assert Writable(s, ByteAddress(start, k - 1), Byte1);
    Filled(s, start, value, i, k - 1)[Translate(s, ByteAddress(start, k - 1)).address := value % 0x100]
  }

  /** Byte p after the fill: the value if some filled byte landed on it, else what it was. */
  lemma {:induction false} FilledByte(s: State, start: Long, value: Long, i: nat, k: nat, p: nat)
    requires i <= k && p < |s.mem| && forall j: nat :: i <= j < k ==> Writable(s, ByteAddress(start, j), Byte1)
    ensures Filled(s, start, value, i, k)[p]
      == if exists j: nat :: i <= j < k && Translate(s, ByteAddress(start, j)).address == p then value % 0x100 else s.mem[p]
    decreases k
  {
    hide Translate;
    if i < k {
      FilledByte(s, start, value, i, k - 1, p);
      if Translate(s, ByteAddress(start, k - 1)).address != p
        && exists j: nat :: i <= j < k && Translate(s, ByteAddress(start, j)).address == p {
        var j: nat :| i <= j < k && Translate(s, ByteAddress(start, j)).address == p;
        assert i <= j < k - 1;
      }
    }
  }

  // No byte of the fill lands on a table word of any byte's walk.
  ghost predicate FillMissesTables(s: State, start: Long, i: nat, count: nat)
  {
    forall j: nat, l: nat :: i <= j < count && i <= l < count && Writable(s, ByteAddress(start, j), Byte1) ==>
      MissesWalk(s, Translate(s, ByteAddress(start, j)).address, Byte1, ByteAddress(start, l))
  }

  // Writing one byte of the fill leaves every later byte's fate alone.
  lemma {:induction false} FillSurvives(s: State, t: State, start: Long, value: Long, i: nat, count: nat)
    requires i < count && Writable(s, ByteAddress(start, i), Byte1) && FillMissesTables(s, start, i, count)
    requires t == s.(mem := Put(s.mem, Translate(s, ByteAddress(start, i)).address, Byte1, value))
    ensures forall l: nat :: i < l < count ==>
      Translate(t, ByteAddress(start, l)) == Translate(s, ByteAddress(start, l))
      && Writable(t, ByteAddress(start, l), Byte1) == Writable(s, ByteAddress(start, l), Byte1)
    ensures FillMissesTables(t, start, i + 1, count)
  {
    hide Translate, TableWords, ByteAddress, Put;
    forall l: nat | i < l < count
      ensures Translate(t, ByteAddress(start, l)) == Translate(s, ByteAddress(start, l))
      ensures TableWords(t, ByteAddress(start, l)) == TableWords(s, ByteAddress(start, l))
      ensures Writable(t, ByteAddress(start, l), Byte1) == Writable(s, ByteAddress(start, l), Byte1)
    {
      WalkSurvives(s, t, Translate(s, ByteAddress(start, i)).address, Byte1, value, ByteAddress(start, l));
    }
  }

  // Up to the stop both states see the same translations.
  lemma {:induction false} StopSame(s: State, t: State, start: Long, i: nat, count: nat)
    requires i <= count
    requires forall l: nat :: i <= l < count ==> Writable(t, ByteAddress(start, l), Byte1) == Writable(s, ByteAddress(start, l), Byte1)
    ensures Stop(t, start, i, count) == Stop(s, start, i, count)
    decreases count - i
  {
    hide Writable, ByteAddress;
    if i < count { StopSame(s, t, start, i + 1, count); }
  }

  lemma {:induction false} FilledLater(s: State, t: State, start: Long, value: Long, i: nat, k: nat)
    requires i < k && forall j: nat :: i <= j < k ==> Writable(s, ByteAddress(start, j), Byte1)
    requires Writable(s, ByteAddress(start, i), Byte1)
    requires forall j: nat :: i < j < k ==> Writable(t, ByteAddress(start, j), Byte1)
    requires forall j: nat :: i < j < k ==> Translate(t, ByteAddress(start, j)) == Translate(s, ByteAddress(start, j))
    requires t.mem == s.mem[Translate(s, ByteAddress(start, i)).address := value % 0x100]
    ensures Filled(t, start, value, i + 1, k) == Filled(s, start, value, i, k)
    decreases k
  {
    hide Translate, ByteAddress, WritablePage;
    if i + 1 < k { FilledLater(s, t, start, value, i, k - 1); } else {
      assert Filled(s, start, value, i, i) == s.mem;
    }
  }

  lemma {:induction false} PutByte(memory: seq<Byte>, address: Long, value: Long)
    requires Inside(memory, address, Byte1)
    ensures Put(memory, address, Byte1, value % 0x100) == memory[address := value % 0x100]
  {
    assert ByteOf(value % 0x100, 0) == value % 0x100;
  }

  /** A memset clear of the tables writes byte by byte, each through its own page, and stops at the first byte it
      cannot write: it has then written exactly the prefix before it, and has taken an interrupt or thrown;
      otherwise it has written all of them and moved on. */
  lemma {:induction false} FillEffect(v: Vm, start: Long, value: Long, i: nat, count: nat)
    requires i <= count && FillMissesTables(v.s, start, i, count)
    ensures var r, k := Fill(v, start, value, i, count), Stop(v.s, start, i, count);
      && r.vm.s.mem == Filled(v.s, start, value, i, k)
      && (if k == count then !r.thrown && r.vm.s.pc == Plus(v.s.pc, 8) && r.vm.s.regs == v.s.regs
          else r.thrown || |r.vm.pagingStack| == |v.pagingStack| + 1)
    decreases count - i
  {
    hide Translate, Interrupt, Put, Walked, CheckWritable, WritablePage, FillMissesTables, MissesWalk, ByteAddress;
    if i < count {
      var address := ByteAddress(start, i);
      assert address == Plus(start, Wrap(i)) by { AddressIs(start, i); }
      var w := Walked(v, address);
      WalkedState(v, address);
      if Writable(v.s, address, Byte1) {
        FillOne(v, start, value, i, count);
      } else {
        FillStopsHere(v, start, value, i, count);
      }
    }
  }

  lemma {:induction false} AddressIs(start: Long, i: nat)
    ensures ByteAddress(start, i) == Plus(start, Wrap(i))
  {}

  lemma {:induction false} FillStopsHere(v: Vm, start: Long, value: Long, i: nat, count: nat)
    requires i < count && !Writable(v.s, ByteAddress(start, i), Byte1)
    ensures var r := Fill(v, start, value, i, count);
      r.vm.s.mem == v.s.mem && (r.thrown || |r.vm.pagingStack| == |v.pagingStack| + 1)
  {
    hide Translate, Interrupt, Put, Walked, CheckWritable, WritablePage;
    var w := Walked(v, ByteAddress(start, i));
    WalkedState(v, ByteAddress(start, i));
    match Translate(v.s, ByteAddress(start, i))
    case Thrown =>
    case Fault(_) => InterruptKeepsMemory(Noted(w, w.lastVirtual), PFAULT);
    case Mapped(physical, _) => InterruptKeepsMemory(Noted(w, physical), BWRITE);
  }

  lemma {:induction false} FillOne(v: Vm, start: Long, value: Long, i: nat, count: nat)
    requires i < count && FillMissesTables(v.s, start, i, count) && Writable(v.s, ByteAddress(start, i), Byte1)
    ensures var r, k := Fill(v, start, value, i, count), Stop(v.s, start, i, count);
      && r.vm.s.mem == Filled(v.s, start, value, i, k)
      && (if k == count then !r.thrown && r.vm.s.pc == Plus(v.s.pc, 8) && r.vm.s.regs == v.s.regs
          else r.thrown || |r.vm.pagingStack| == |v.pagingStack| + 1)
    decreases count - i, 0
  {
    hide Translate, Put, Walked, CheckWritable, WritablePage, FillMissesTables, MissesWalk, Get;
    var address := ByteAddress(start, i);
    var physical := Translate(v.s, address).address;
    var w := Walked(v, address);
    WalkedState(v, address);
    var x := Stored(w, physical, value % 0x100, Byte1);
    assert Fill(v, start, value, i, count) == Fill(x, start, value, i + 1, count);
    FillSurvives(v.s, x.s, start, value % 0x100, i, count);
    FillEffect(x, start, value, i + 1, count);
    StopSame(v.s, x.s, start, i + 1, count);
    PutByte(v.s.mem, physical, value);
    var k := Stop(v.s, start, i, count);
    assert k == Stop(v.s, start, i + 1, count) == Stop(x.s, start, i + 1, count);
    FilledLater(v.s, x.s, start, value, i, k);
  }
}
