/** The sized stack: any pushes of 1, 2, 4 or 8 bytes and the matching pops. */
module Stack {
  import opened Words
  import opened Machine
  import opened Paging
  import opened Operations
  import opened VirtualMemory

  datatype Item = Item(reg: Reg, size: Size)

  function Amount(size: Size): Long { Bytes(size) }

  lemma {:induction false} AmountSize(size: Size)
    ensures SizeOf(Amount(size)) == Some(size)
  {}

  // How far the first i items reach below the stack pointer.
  function Depth(items: seq<Item>, i: nat): nat
    requires i <= |items|
  { if i == 0 then 0 else Depth(items, i - 1) + Bytes(items[i - 1].size) }

  // Where the stack pointer stands after the first i pushes.
  function Pointer(sp: Long, items: seq<Item>, i: nat): Long
    requires i <= |items|
  { Wrap(sp - Depth(items, i)) }

  // The physical address item i is pushed to.
  function Slot(s: State, sp: Long, items: seq<Item>, i: nat): Long
    requires i < |items| && Writable(s, Pointer(sp, items, i + 1), items[i].size)
  { Translate(s, Pointer(sp, items, i + 1)).address }

  // Item i's bytes miss the table words of item j's walk, and its bytes if it is another item.
  predicate ApartAt(s: State, sp: Long, items: seq<Item>, i: nat, j: nat)
    requires i < |items| && j < |items|
    requires Writable(s, Pointer(sp, items, i + 1), items[i].size) && Writable(s, Pointer(sp, items, j + 1), items[j].size)
  {
    && MissesWalk(s, Slot(s, sp, items, i), items[i].size, Pointer(sp, items, j + 1))
    && (i != j ==> Apart(Slot(s, sp, items, i), Bytes(items[i].size), Slot(s, sp, items, j), Bytes(items[j].size)))
  }

  /** Room for the items: every push lands on a writable mapped place, on bytes of its own, clear of the tables. */
  predicate Room(s: State, sp: Long, items: seq<Item>)
  {
    && (forall i :: 0 <= i < |items| ==> Writable(s, Pointer(sp, items, i + 1), items[i].size))
    && (forall i, j :: 0 <= i < |items| && 0 <= j < |items| ==> ApartAt(s, sp, items, i, j))
  }

  predicate NotPointer(items: seq<Item>) { forall i :: 0 <= i < |items| ==> items[i].reg != SP }

  // ----- pushing -----

  function PushAll(v: Vm, items: seq<Item>): Outcome
    decreases |items|
  {
    if items == [] then Outcome(v, false) else
    var r := Push(v, items[0].reg, Amount(items[0].size));
    if r.thrown then r else PushAll(r.vm, items[1..])
  }

  lemma {:induction false} PushEffect(v: Vm, rs: Reg, size: Size)
    requires rs != SP && Writable(v.s, Wrap(v.s.regs[SP] - Bytes(size)), size)
    ensures var r, address := Push(v, rs, Amount(size)), Wrap(v.s.regs[SP] - Bytes(size));
      && !r.thrown
      && r.vm.s == v.s.(regs := v.s.regs[SP := address], pc := Plus(v.s.pc, 8),
                        mem := Put(v.s.mem, Translate(v.s, address).address, size, v.s.regs[rs]))
  {
    hide Translate, Put, Get, Walked, CheckWritable, WritablePage, Interrupt, SetReg, Increment, Stored, Wrap, SizeOf;
    AmountSize(size);
    var address := Wrap(v.s.regs[SP] - Bytes(size));
    assert Minus(v.s.regs[SP], Amount(size)) == address;
    var x := SetReg(v, SP, address, false);
    SetRegState(v, SP, address);
    SameMapping(v.s, x.s, address, size);
    WalkedState(x, address);
    var w := Walked(x, address);
    var physical := Translate(x.s, address).address;
    StoredState(w, physical, w.s.regs[rs], size);
    IncrementState(Stored(w, physical, w.s.regs[rs], size));
  }

  lemma {:induction false} SetRegState(v: Vm, rd: Reg, value: Long)
    ensures SetReg(v, rd, value, false).s == v.s.(regs := v.s.regs[rd := value])
  {}

  lemma {:induction false} StoredState(v: Vm, address: Long, value: Long, size: Size)
    requires Inside(v.s.mem, address, size)
    ensures Stored(v, address, value, size).s == v.s.(mem := Put(v.s.mem, address, size, value))
  { hide Put, Get; }

  lemma {:induction false} IncrementState(v: Vm)
    ensures Increment(v).s == v.s.(pc := Plus(v.s.pc, 8))
  {}

  // Translation looks at memory and the paging registers only.
  lemma {:induction false} SameMapping(s: State, t: State, address: Long, size: Size)
    requires s.mem == t.mem && s.paging == t.paging && s.p0 == t.p0
    ensures Translate(s, address) == Translate(t, address) && TableWords(s, address) == TableWords(t, address)
    ensures Writable(s, address, size) == Writable(t, address, size) && Readable(s, address, size) == Readable(t, address, size)
  { hide Lookup, Visited; }

  lemma {:induction false} PointerShift(sp: Long, items: seq<Item>, i: nat)
    requires items != [] && i < |items|
    ensures Depth(items, i + 1) == Bytes(items[0].size) + Depth(items[1..], i)
    ensures Pointer(Wrap(sp - Bytes(items[0].size)), items[1..], i) == Pointer(sp, items, i + 1)
  {
    hide Wrap;
    DepthShift(items, i);
    WrapTwice(sp, Bytes(items[0].size), Depth(items[1..], i));
  }

  lemma {:induction false} DepthShift(items: seq<Item>, i: nat)
    requires items != [] && i < |items|
    ensures Depth(items, i + 1) == Bytes(items[0].size) + Depth(items[1..], i)
  {
    if i == 0 { assert Depth(items, 0) == 0; } else { DepthShift(items, i - 1); }
  }

  lemma {:induction false} WrapTwice(sp: Long, a: nat, b: nat)
    ensures Wrap(Wrap(sp - a) - b) == Wrap(sp - (a + b))
  {}

  // The rest of the items, in the state after the first push, go where they would have gone.
  predicate SameSlots(s: State, s1: State, sp: Long, items: seq<Item>, sp1: Long)
    requires items != [] && Room(s, sp, items) && Room(s1, sp1, items[1..])
  { forall i :: 0 <= i < |items| - 1 ==> Slot(s1, sp1, items[1..], i) == Slot(s, sp, items, i + 1) }

  // The state after the first push.
  predicate FirstPushed(s: State, s1: State, sp: Long, items: seq<Item>, sp1: Long)
  {
    && items != [] && Room(s, sp, items) && sp1 == Wrap(sp - Bytes(items[0].size))
    && s1.mem == Put(s.mem, Slot(s, sp, items, 0), items[0].size, s.regs[items[0].reg])
    && s1.paging == s.paging && s1.p0 == s.p0 && s1.regs == s.regs[SP := sp1]
    && Room(s1, sp1, items[1..]) && SameSlots(s, s1, sp, items, sp1)
  }

  // After the first push there is still room for the rest, at the same places.
  lemma {:induction false} RoomLeft(s: State, t: State, sp: Long, items: seq<Item>, value: Long)
    requires items != [] && Room(s, sp, items)
    requires t.mem == Put(s.mem, Slot(s, sp, items, 0), items[0].size, value) && t.paging == s.paging && t.p0 == s.p0
    ensures var sp1 := Wrap(sp - Bytes(items[0].size)); Room(t, sp1, items[1..]) && SameSlots(s, t, sp, items, sp1)
  {
    hide Translate, TableWords, Put, WritablePage, Wrap, MissesWalk;
    var sp1, rest := Wrap(sp - Bytes(items[0].size)), items[1..];
    forall i | 0 <= i < |rest|
      ensures Writable(t, Pointer(sp1, rest, i + 1), rest[i].size) && Slot(t, sp1, rest, i) == Slot(s, sp, items, i + 1)
    { SlotStays(s, t, sp, items, value, i); }
    forall i, j | 0 <= i < |rest| && 0 <= j < |rest| ensures ApartAt(t, sp1, rest, i, j) {
      assert ApartAt(s, sp, items, i + 1, j + 1);
      SlotStays(s, t, sp, items, value, i);
      SlotStays(s, t, sp, items, value, j);
      MissesSame(s, t, Slot(t, sp1, rest, i), rest[i].size, Pointer(sp1, rest, j + 1));
    }
  }

  lemma {:induction false} MissesSame(s: State, t: State, physical: Long, size: Size, address: Long)
    requires TableWords(s, address) == TableWords(t, address)
    ensures MissesWalk(s, physical, size, address) == MissesWalk(t, physical, size, address)
  { hide TableWords; }

  lemma {:induction false} SlotStays(s: State, t: State, sp: Long, items: seq<Item>, value: Long, i: nat)
    requires items != [] && Room(s, sp, items) && i < |items| - 1
    requires t.mem == Put(s.mem, Slot(s, sp, items, 0), items[0].size, value) && t.paging == s.paging && t.p0 == s.p0
    ensures var sp1 := Wrap(sp - Bytes(items[0].size));
      && Pointer(sp1, items[1..], i + 1) == Pointer(sp, items, i + 2)
      && Writable(t, Pointer(sp1, items[1..], i + 1), items[1..][i].size) && Slot(t, sp1, items[1..], i) == Slot(s, sp, items, i + 1)
      && TableWords(t, Pointer(sp, items, i + 2)) == TableWords(s, Pointer(sp, items, i + 2))
  {
    hide Translate, TableWords, Put, Wrap, MissesWalk, Pointer;
    PointerShift(sp, items, i + 1);
    assert ApartAt(s, sp, items, 0, i + 1);
    WalkSurvives(s, t, Slot(s, sp, items, 0), items[0].size, value, Pointer(sp, items, i + 2));
  }

  // The bytes no item is pushed to.
  predicate Outside(s: State, sp: Long, items: seq<Item>, p: nat)
    requires Room(s, sp, items)
  { forall i :: 0 <= i < |items| ==> Apart(p, 1, Slot(s, sp, items, i), Bytes(items[i].size)) }

  // What the pushes leave: each item's low bytes at its slot, and everything else alone.
  ghost predicate Pushed(s: State, sp: Long, items: seq<Item>, t: State)
    requires Room(s, sp, items)
  {
    && |t.mem| == |s.mem| && t.paging == s.paging && t.p0 == s.p0
    && t.regs == s.regs[SP := Pointer(sp, items, |items|)]
    && (forall i :: 0 <= i < |items| ==> Get(t.mem, Slot(s, sp, items, i), items[i].size) == Truncated(s.regs[items[i].reg], items[i].size))
    && (forall p: nat :: p < |s.mem| && Outside(s, sp, items, p) ==> t.mem[p] == s.mem[p])
  }

  lemma {:induction false} PushedStep(s: State, s1: State, sp: Long, items: seq<Item>, sp1: Long, t: State)
    requires FirstPushed(s, s1, sp, items, sp1) && NotPointer(items) && Pushed(s1, sp1, items[1..], t)
    ensures Pushed(s, sp, items, t)
  {
    hide Translate, TableWords, Wrap, MissesWalk, Pointer, Get, Put, Slot, Truncated, Writable;
    var rest := items[1..];
    PointerShift(sp, items, |items| - 1);
    var first := Slot(s, sp, items, 0);
    FirstInside(s, sp, items);
    forall i | 0 <= i < |items|
      ensures Inside(t.mem, Slot(s, sp, items, i), items[i].size)
      ensures Get(t.mem, Slot(s, sp, items, i), items[i].size) == Truncated(s.regs[items[i].reg], items[i].size)
    {
      SlotInside(s, sp, items, i);
      if i > 0 {
        assert Get(t.mem, Slot(s1, sp1, rest, i - 1), rest[i - 1].size) == Truncated(s1.regs[rest[i - 1].reg], rest[i - 1].size);
      } else {
        FirstSurvives(s, s1, sp, items, sp1, t);
      }
    }
    forall p: nat | p < |s.mem| && Outside(s, sp, items, p) ensures t.mem[p] == s.mem[p] {
      assert Apart(p, 1, first, Bytes(items[0].size));
      OutsideRest(s, s1, sp, items, sp1, p);
      PutOutside(s.mem, first, items[0].size, s.regs[items[0].reg], p);
    }
  }

  lemma {:induction false} SlotInside(s: State, sp: Long, items: seq<Item>, i: nat)
    requires Room(s, sp, items) && i < |items|
    ensures Inside(s.mem, Slot(s, sp, items, i), items[i].size)
  { hide Translate; }

  lemma {:induction false} FirstInside(s: State, sp: Long, items: seq<Item>)
    requires items != [] && Room(s, sp, items)
    ensures Inside(s.mem, Slot(s, sp, items, 0), items[0].size)
  { SlotInside(s, sp, items, 0); }

  lemma {:induction false} PutOutside(memory: seq<Byte>, address: Long, size: Size, value: Long, p: nat)
    requires Inside(memory, address, size) && p < |memory| && Apart(p, 1, address, Bytes(size))
    ensures Put(memory, address, size, value)[p] == memory[p]
  {}

  lemma {:induction false} OutsideRest(s: State, s1: State, sp: Long, items: seq<Item>, sp1: Long, p: nat)
    requires FirstPushed(s, s1, sp, items, sp1) && Outside(s, sp, items, p)
    ensures Outside(s1, sp1, items[1..], p)
  {
    hide Slot, Wrap, ApartAt, Writable;
    var rest := items[1..];
    forall i | 0 <= i < |rest| ensures Apart(p, 1, Slot(s1, sp1, rest, i), Bytes(rest[i].size)) {
      assert rest[i] == items[i + 1];
    }
  }

  // The later items do not touch the first one's bytes.
  lemma {:induction false} FirstSurvives(s: State, s1: State, sp: Long, items: seq<Item>, sp1: Long, t: State)
    requires FirstPushed(s, s1, sp, items, sp1) && Pushed(s1, sp1, items[1..], t)
    ensures Inside(t.mem, Slot(s, sp, items, 0), items[0].size)
    ensures Get(t.mem, Slot(s, sp, items, 0), items[0].size) == Truncated(s.regs[items[0].reg], items[0].size)
  {
    hide Translate, TableWords, Wrap, MissesWalk, Pointer, Put, Slot, Truncated, Get, Writable;
    var rest := items[1..];
    var first, n := Slot(s, sp, items, 0), Bytes(items[0].size);
    SlotInside(s, sp, items, 0);
    GetPut(s.mem, first, items[0].size, s.regs[items[0].reg]);
    forall p | first <= p < first + n ensures t.mem[p] == s1.mem[p] {
      forall i | 0 <= i < |rest| ensures Apart(p, 1, Slot(s1, sp1, rest, i), Bytes(rest[i].size)) {
        assert ApartAt(s, sp, items, 0, i + 1);
      }
      assert Outside(s1, sp1, rest, p);
    }
    GetSame(s1.mem, t.mem, first, items[0].size);
  }

  lemma {:induction false} GetSame(a: seq<Byte>, b: seq<Byte>, address: Long, size: Size)
    requires |a| == |b| && Inside(a, address, size) && forall p: nat :: address <= p < address + Bytes(size) ==> a[p] == b[p]
    ensures Get(a, address, size) == Get(b, address, size)
  { assert a[address..address + Bytes(size)] == b[address..address + Bytes(size)]; }

  lemma {:induction false} PushAllEffect(v: Vm, items: seq<Item>)
    requires Room(v.s, v.s.regs[SP], items) && NotPointer(items)
    ensures !PushAll(v, items).thrown && Pushed(v.s, v.s.regs[SP], items, PushAll(v, items).vm.s)
    decreases |items|
  {
    hide Translate, TableWords, Wrap, MissesWalk, Get, Put, Slot, Truncated, Writable, Push;
    var sp := v.s.regs[SP];
    if items == [] {
      assert v.s.regs[SP := Pointer(sp, items, 0)] == v.s.regs by { assert Wrap(sp) == sp by { NoWrap(sp); } }
    } else {
      FirstPush(v, items);
      var w := Push(v, items[0].reg, Amount(items[0].size)).vm;
      RoomLeft(v.s, w.s, sp, items, v.s.regs[items[0].reg]);
      PushAllEffect(w, items[1..]);
      var t := PushAll(w, items[1..]).vm.s;
      PushedStep(v.s, w.s, sp, items, Wrap(sp - Bytes(items[0].size)), t);
    }
  }

  lemma {:induction false} FirstPush(v: Vm, items: seq<Item>)
    requires items != [] && Room(v.s, v.s.regs[SP], items) && NotPointer(items)
    ensures var r := Push(v, items[0].reg, Amount(items[0].size));
      && !r.thrown && r.vm.s.regs == v.s.regs[SP := Wrap(v.s.regs[SP] - Bytes(items[0].size))]
      && r.vm.s.mem == Put(v.s.mem, Slot(v.s, v.s.regs[SP], items, 0), items[0].size, v.s.regs[items[0].reg])
      && r.vm.s.paging == v.s.paging && r.vm.s.p0 == v.s.p0
  {
    hide Translate, Put, Push;
    assert Depth(items, 1) == Depth(items, 0) + Bytes(items[0].size);
    assert Pointer(v.s.regs[SP], items, 1) == Wrap(v.s.regs[SP] - Bytes(items[0].size));
    PushEffect(v, items[0].reg, items[0].size);
  }

  /** A push that faults has already moved the stack pointer and nothing else of memory: running it again after the
      handler moves it again. */
  lemma {:induction false} FaultingPush(v: Vm, rs: Reg, size: Size)
    requires var address := Wrap(v.s.regs[SP] - Bytes(size));
      Translate(v.s, address).Mapped? ==> !WritablePage(v.s, address)
    ensures var r := Push(v, rs, Amount(size));
      r.vm.s.regs[SP] == Wrap(v.s.regs[SP] - Bytes(size)) && r.vm.s.mem == v.s.mem
      && (r.thrown || |r.vm.pagingStack| == |v.pagingStack| + 1)
  {
    hide Translate, Put, Get, Walked, CheckWritable, WritablePage, Interrupt, SetReg, Increment, Stored, Wrap, SizeOf, Noted;
    var address := Wrap(v.s.regs[SP] - Bytes(size));
    assert Minus(v.s.regs[SP], Amount(size)) == address;
    var x := SetReg(v, SP, address, false);
    SetRegState(v, SP, address);
    SetRegStack(v, SP, address);
    SameMapping(v.s, x.s, address, size);
    WritableSame(v.s, x.s, address);
    WalkedState(x, address);
    var w := Walked(x, address);
    match Translate(x.s, address)
    case Thrown =>
    case Fault(_) => FaultKeeps(w, w.lastVirtual, PFAULT);
    case Mapped(physical, _) => FaultKeeps(w, physical, BWRITE);
  }

  lemma {:induction false} SetRegStack(v: Vm, rd: Reg, value: Long)
    ensures SetReg(v, rd, value, false).pagingStack == v.pagingStack
  {}

  lemma {:induction false} WritableSame(s: State, t: State, address: Long)
    requires s.mem == t.mem && s.paging == t.paging && s.p0 == t.p0
    ensures WritablePage(s, address) == WritablePage(t, address)
  { hide Lookup, Visited; }

  lemma {:induction false} FaultKeeps(v: Vm, value: Long, t: InterruptType)
    requires !CanDisable(t)
    ensures var r := Interrupt(Noted(v, value), t);
      r.vm.s.mem == v.s.mem && r.vm.s.regs[SP] == v.s.regs[SP] && |r.vm.pagingStack| == |v.pagingStack| + 1
  {
    InterruptKeepsMemory(Noted(v, value), t);
    InterruptKeepsPointer(Noted(v, value), t);
    hide Interrupt;
  }

  lemma {:induction false} InterruptKeepsPointer(v: Vm, t: InterruptType)
    ensures Interrupt(v, t).vm.s.regs[SP] == v.s.regs[SP]
  { hide Get; }

  // ----- popping -----

  // The pops that undo the pushes of items, last first, into the registers given; what each pop loaded, last first.
  function PopAll(v: Vm, items: seq<Item>, into: seq<Reg>): (r: (Outcome, seq<Long>))
    requires |into| == |items|
    decreases |items|
  {
    if items == [] then (Outcome(v, false), []) else
    var n := |items| - 1;
    var first := Pop(v, into[n], Amount(items[n].size));
    if first.thrown then (first, []) else
    var rest := PopAll(first.vm, items[..n], into[..n]);
    (rest.0, [first.vm.s.regs[into[n]]] + rest.1)
  }

  predicate StaysAt(s: State, sp: Long, items: seq<Item>, j: nat, t: State)
    requires j < |items|
  { Translate(t, Pointer(sp, items, j + 1)) == Translate(s, Pointer(sp, items, j + 1)) }

  // Popping the first i items back: the stack pointer is where i pushes leave it, and memory is as pushed.
  ghost predicate Holding(s: State, sp: Long, items: seq<Item>, i: nat, t: State)
    requires Room(s, sp, items) && i <= |items|
  {
    && |t.mem| == |s.mem| && t.paging == s.paging && t.p0 == s.p0 && t.regs[SP] == Pointer(sp, items, i)
    && (forall j :: 0 <= j < |items| ==> StaysAt(s, sp, items, j, t))
    && (forall j :: 0 <= j < |items| ==> Get(t.mem, Slot(s, sp, items, j), items[j].size) == Truncated(s.regs[items[j].reg], items[j].size))
  }

  lemma {:induction false} PopEffect(v: Vm, rd: Reg, size: Size)
    requires rd != SP && Readable(v.s, v.s.regs[SP], size)
    ensures var r, value := Pop(v, rd, Amount(size)), Get(v.s.mem, Translate(v.s, v.s.regs[SP]).address, size);
      && !r.thrown
      && r.vm.s == v.s.(regs := v.s.regs[rd := value][SP := Wrap(v.s.regs[SP] + Bytes(size))], pc := Plus(v.s.pc, 8))
  {
    hide Translate, Put, Get, Walked, Interrupt, SetReg, Increment, Wrap, SizeOf;
    AmountSize(size);
    var address := v.s.regs[SP];
    var w := Walked(v, address);
    WalkedState(v, address);
    var value := Get(v.s.mem, Translate(v.s, address).address, size);
    SetRegState(w, rd, value);
    var x := SetReg(w, rd, value, false);
    var up := Plus(x.s.regs[SP], Amount(size));
    SetRegState(x, SP, up);
    IncrementState(SetReg(x, SP, up, false));
  }

  lemma {:induction false} PointerUp(sp: Long, items: seq<Item>, i: nat)
    requires i < |items|
    ensures Wrap(Pointer(sp, items, i + 1) + Bytes(items[i].size)) == Pointer(sp, items, i)
  {
    var d := Depth(items, i);
    assert Depth(items, i + 1) == d + Bytes(items[i].size);
    WrapUp(sp, d, Bytes(items[i].size));
  }

  lemma {:induction false} WrapUp(sp: Long, d: nat, n: nat)
    ensures Wrap(Wrap(sp - (d + n)) + n) == Wrap(sp - d)
  {}

  // What the pops of the first i items load, last first.
  function Expected(s: State, items: seq<Item>, i: nat): (r: seq<Long>)
    requires i <= |items|
    ensures |r| == i && forall j :: 0 <= j < i ==> r[j] == Truncated(s.regs[items[i - 1 - j].reg], items[i - 1 - j].size)
  { if i == 0 then [] else [Truncated(s.regs[items[i - 1].reg], items[i - 1].size)] + Expected(s, items, i - 1) }

  lemma {:induction false} PopOne(s: State, sp: Long, items: seq<Item>, i: nat, v: Vm, rd: Reg)
    requires Room(s, sp, items) && i < |items| && Holding(s, sp, items, i + 1, v.s) && rd != SP
    ensures var r := Pop(v, rd, Amount(items[i].size));
      && !r.thrown && Holding(s, sp, items, i, r.vm.s) && r.vm.s.mem == v.s.mem
      && r.vm.s.regs[rd] == Truncated(s.regs[items[i].reg], items[i].size)
  {
    hide Translate, Get, Truncated, Pop, Pointer, Wrap, ApartAt;
    assert Writable(s, Pointer(sp, items, i + 1), items[i].size);
    assert v.s.regs[SP] == Pointer(sp, items, i + 1);
    assert StaysAt(s, sp, items, i, v.s);
    PopEffect(v, rd, items[i].size);
    PointerUp(sp, items, i);
    var t := Pop(v, rd, Amount(items[i].size)).vm.s;
    forall j | 0 <= j < |items| ensures StaysAt(s, sp, items, j, t) {
      assert StaysAt(s, sp, items, j, v.s);
      SameMapping(v.s, t, Pointer(sp, items, j + 1), items[j].size);
    }
  }

  lemma {:induction false} PopsReturn(s: State, sp: Long, items: seq<Item>, i: nat, v: Vm, into: seq<Reg>)
    requires Room(s, sp, items) && i <= |items| && Holding(s, sp, items, i, v.s)
    requires |into| == i && forall j :: 0 <= j < i ==> into[j] != SP
    ensures var (r, loaded) := PopAll(v, items[..i], into);
      !r.thrown && r.vm.s.mem == v.s.mem && r.vm.s.regs[SP] == Pointer(sp, items, 0) && loaded == Expected(s, items, i)
    decreases i
  {
    hide Holding, Pop, Pointer, Room, Truncated;
    if i == 0 {
      HoldingPointer(s, sp, items, v.s);
    } else {
      PopOne(s, sp, items, i - 1, v, into[i - 1]);
      assert items[..i][..i - 1] == items[..i - 1] && items[..i][i - 1] == items[i - 1];
      PopsReturn(s, sp, items, i - 1, Pop(v, into[i - 1], Amount(items[i - 1].size)).vm, into[..i - 1]);
    }
  }

  lemma {:induction false} HoldingPointer(s: State, sp: Long, items: seq<Item>, t: State)
    requires Room(s, sp, items) && Holding(s, sp, items, 0, t)
    ensures t.regs[SP] == Pointer(sp, items, 0)
  {}

  // The pushes leave every translation of the range as it was.
  lemma {:induction false} PushedHolds(s: State, sp: Long, items: seq<Item>, t: State)
    requires Room(s, sp, items) && Pushed(s, sp, items, t)
    ensures Holding(s, sp, items, |items|, t)
  {
    hide Translate, Get, Truncated, Pointer, Slot, TableWords, ApartAt;
    forall j | 0 <= j < |items| ensures StaysAt(s, sp, items, j, t) {
      TranslationKept(s, sp, items, t, j);
    }
  }

  lemma {:induction false} TranslationKept(s: State, sp: Long, items: seq<Item>, t: State, j: nat)
    requires Room(s, sp, items) && Pushed(s, sp, items, t) && j < |items|
    ensures Translate(t, Pointer(sp, items, j + 1)) == Translate(s, Pointer(sp, items, j + 1))
  {
    hide Translate, Get, Truncated, Pointer, Slot, Visited, Lookup, Writable;
    var slots := TableWords(s, Pointer(sp, items, j + 1));
    forall k | 0 <= k < |slots|
      ensures Inside(t.mem, slots[k], Whole) && Get(t.mem, slots[k], Whole) == Get(s.mem, slots[k], Whole)
    {
      forall p: nat | slots[k] <= p < slots[k] + 8 ensures t.mem[p] == s.mem[p] {
        forall i | 0 <= i < |items| ensures Apart(p, 1, Slot(s, sp, items, i), Bytes(items[i].size)) {
          assert ApartAt(s, sp, items, i, j);
        }
        assert Outside(s, sp, items, p);
      }
      GetSame(s.mem, t.mem, slots[k], Whole);
    }
    TranslationDepends(s, t, Pointer(sp, items, j + 1));
  }

  /** Pushing any list of registers but $sp in any sizes and popping the same sizes in reverse loads each value
      back, zero-extended from its pushed low bytes, last first; restores $sp; and leaves all memory outside the
      pushed bytes alone. */
  lemma {:induction false} StackDiscipline(v: Vm, items: seq<Item>, into: seq<Reg>)
    requires Room(v.s, v.s.regs[SP], items) && NotPointer(items)
    requires |into| == |items| && forall j :: 0 <= j < |into| ==> into[j] != SP
    ensures !PushAll(v, items).thrown
    ensures var (r, loaded) := PopAll(PushAll(v, items).vm, items, into);
      && !r.thrown && loaded == Expected(v.s, items, |items|) && r.vm.s.regs[SP] == v.s.regs[SP]
      && |r.vm.s.mem| == |v.s.mem|
      && forall p: nat :: p < |v.s.mem| && Outside(v.s, v.s.regs[SP], items, p) ==> r.vm.s.mem[p] == v.s.mem[p]
  {
    hide Holding, Room, PushAll, PopAll, Expected, Outside, Get, Slot;
    PushAllEffect(v, items);
    var w := PushAll(v, items).vm;
    PushedHolds(v.s, v.s.regs[SP], items, w.s);
    assert items[..|items|] == items;
    PopsReturn(v.s, v.s.regs[SP], items, |items|, w, into);
    NoWrap(v.s.regs[SP]);
  }

  /** Without paging, room is just a stack range inside memory. */
  lemma {:induction false} RoomWithoutPaging(s: State, sp: Long, items: seq<Item>)
    requires !s.paging && Depth(items, |items|) <= sp <= |s.mem| && sp < TWO63
    ensures Room(s, sp, items)
  {
    hide ApartAt, Writable, Pointer;
    forall i | 0 <= i < |items| ensures Writable(s, Pointer(sp, items, i + 1), items[i].size) { FlatSlot(s, sp, items, i); }
    forall i, j | 0 <= i < |items| && 0 <= j < |items| ensures ApartAt(s, sp, items, i, j) { FlatApart(s, sp, items, i, j); }
  }

  lemma {:induction false} FlatSlot(s: State, sp: Long, items: seq<Item>, i: nat)
    requires !s.paging && Depth(items, |items|) <= sp <= |s.mem| && sp < TWO63 && i < |items|
    ensures Pointer(sp, items, i + 1) == sp - Depth(items, i + 1) && Writable(s, Pointer(sp, items, i + 1), items[i].size)
    ensures Slot(s, sp, items, i) == sp - Depth(items, i + 1)
  {
    DepthGrows(items, i + 1, |items|);
    DepthGrows(items, i, i + 1);
    NoWrap(sp - Depth(items, i + 1));
  }

  lemma {:induction false} FlatApart(s: State, sp: Long, items: seq<Item>, i: nat, j: nat)
    requires !s.paging && Depth(items, |items|) <= sp <= |s.mem| && sp < TWO63 && i < |items| && j < |items|
    ensures Writable(s, Pointer(sp, items, i + 1), items[i].size) && Writable(s, Pointer(sp, items, j + 1), items[j].size)
    ensures ApartAt(s, sp, items, i, j)
  {
    hide Writable, Pointer, Slot;
    FlatSlot(s, sp, items, i);
    FlatSlot(s, sp, items, j);
    if i < j { DepthGrows(items, i + 1, j); DepthGrows(items, j, j + 1); }
    if j < i { DepthGrows(items, j + 1, i); DepthGrows(items, i, i + 1); }
  }

  lemma {:induction false} DepthGrows(items: seq<Item>, i: nat, j: nat)
    requires i <= j <= |items|
    ensures Depth(items, i) <= Depth(items, j)
    ensures i < j ==> Depth(items, i + 1) <= Depth(items, j) && Depth(items, i + 1) == Depth(items, i) + Bytes(items[i].size)
    decreases j
  { if i < j { DepthGrows(items, i, j - 1); if i + 1 < j { DepthGrows(items, i + 1, j - 1); } } }
}
