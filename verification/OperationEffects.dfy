/** What each operation leaves in the machine, register by register and number by number (wvm/src/Operations.cpp). */
module OperationEffects {
  import opened Words
  import opened Machine
  import opened Paging
  import opened Operations
  import opened Arithmetic
  import T = Translations
  import V = VirtualMemory

  // ----- the parts of an effect -----

  // The operation goes through, and of what can be seen changes the state alone.
  predicate Leaves(v: Vm, r: Outcome, s: State)
  { !r.thrown && r.vm.s == s && r.vm.printed == v.printed && r.vm.pagingStack == v.pagingStack && r.vm.hardware == v.hardware }

  // An exception that has changed nothing yet.
  predicate Refuses(v: Vm, r: Outcome)
  { r.thrown && r.vm.s == v.s && r.vm.printed == v.printed && r.vm.pagingStack == v.pagingStack && r.vm.hardware == v.hardware }

  function After(pc: Long): Long { (pc + 8) % TWO64 }

  // $st after a result.
  function Status(value: Long): Long { if value == 0 then 1 else if value >= TWO63 then 2 else 0 }

  // The address an operand names; $fp is register 3.
  predicate Names(s: State, place: Place, a: Long)
  {
    match place
    case At(r) => a == s.regs[r]
    case Immediate(imm) => a == imm
    case BelowFrame(offset) => a == (s.regs[3] + TWO64 - offset) % TWO64
  }

  // Number `vector` of the interrupt table is taken, with these registers so far: paging is pushed and off, and the
  // machine is at the handler with its position in $e0 (122) and its ring in $e1 (123), or halted without one. Timer (2)
  // and keyboard (7) interrupts switch hardware interrupts off, and do nothing when they are off.
  ghost predicate Vectored(v: Vm, r: Outcome, vector: int, regs: Registers)
  {
    if (vector == 2 || vector == 7) && !v.hardware then r == Outcome(v, false) else
    var s, t := v.s, r.vm.s;
    var entry := (s.table + 8 * vector) % TWO64;
    && t.mem == s.mem && t.ring == s.ring && t.p0 == s.p0 && t.table == s.table && !t.paging
    && r.vm.pagingStack == v.pagingStack + [(s.paging, s.p0)] && r.vm.printed == v.printed
    && r.vm.hardware == (v.hardware && vector != 2 && vector != 7)
    && if s.table == 0 then !r.thrown && !t.active && t.pc == s.pc && t.regs == regs
       else if entry >= TWO63 || entry + 8 > |s.mem| then r.thrown && t.active == s.active && t.pc == s.pc && t.regs == regs
       else !r.thrown && forall w: Long :: Reads(s.mem, entry, 8, w) ==> Handled(s, t, w, regs)
  }

  predicate Handled(s: State, t: State, handler: Long, regs: Registers)
  {
    if handler == 0 then !t.active && t.pc == s.pc && t.regs == regs
    else t.active == s.active && t.pc == handler && t.regs == regs[122 := s.pc][123 := s.ring]
  }

  lemma {:induction false} EnterIs(v: Vm, t: InterruptType)
    ensures var r := Enter(v, t); var entry := Plus(v.s.table, 8 * t);
      && r.vm.printed == v.printed && r.vm.pagingStack == v.pagingStack && r.vm.hardware == v.hardware
      && (r.thrown <==> v.s.table != 0 && !Inside(v.s.mem, entry, Whole))
      && r.vm.s == if r.thrown then v.s
                   else if v.s.table == 0 || Get(v.s.mem, entry, Whole) == 0 then v.s.(active := false)
                   else v.s.(pc := Get(v.s.mem, entry, Whole), regs := v.s.regs[122 := v.s.pc][123 := v.s.ring])
  { hide Get; }

  lemma {:induction false} InterruptVectors(v: Vm, t: InterruptType)
    ensures Vectored(v, Interrupt(v, t), t, v.s.regs)
  {
    if !CanDisable(t) || v.hardware {
      var w := v.(hardware := v.hardware && !CanDisable(t), pagingStack := v.pagingStack + [(v.s.paging, v.s.p0)],
                  s := v.s.(paging := false));
      EnterIs(w, t);
      assert Interrupt(v, t) == Enter(w, t);
      hide Get, Reads, Enter, Interrupt;
      var entry := Plus(v.s.table, 8 * t);
      if entry < TWO63 && entry + 8 <= |v.s.mem| { HandlerWord(v.s.mem, entry); }
    }
  }

  // The handler is the one number read there.
  lemma {:induction false} HandlerWord(memory: seq<Byte>, entry: Long)
    requires entry < TWO63 && entry + 8 <= |memory|
    ensures Inside(memory, entry, Whole) && forall w: Long :: Reads(memory, entry, 8, w) ==> w == Get(memory, entry, Whole)
  {
    hide Get;
    GetReads(memory, entry, Whole, 8);
    forall w: Long | Reads(memory, entry, 8, w) ensures w == Get(memory, entry, Whole) {
      ReadsOnce(memory, entry, 8, w, Get(memory, entry, Whole));
    }
  }

  lemma {:induction false} VectoredAlike(v: Vm, w: Vm, r: Outcome, vector: int, regs: Registers)
    requires w.s.(regs := v.s.regs) == v.s && w.hardware == v.hardware && w.pagingStack == v.pagingStack && w.printed == v.printed
    requires vector != 2 && vector != 7 && Vectored(w, r, vector, regs)
    ensures Vectored(v, r, vector, regs)
  { hide Reads; }

  // A fault leaves a value in $e2 (124) first.
  lemma {:induction false} FaultVectors(v: Vm, w: Vm, x: Long, t: InterruptType)
    requires w.s == v.s && w.hardware == v.hardware && w.pagingStack == v.pagingStack && w.printed == v.printed && !CanDisable(t)
    ensures Vectored(v, Interrupt(Noted(w, x), t), t, v.s.regs[124 := x])
  {
    var n := Noted(w, x);
    assert n.s.(regs := v.s.regs) == v.s && n.s.regs == v.s.regs[124 := x];
    InterruptVectors(n, t);
    hide Interrupt, Vectored, Noted;
    VectoredAlike(v, n, Interrupt(n, t), t, n.s.regs);
  }

  lemma {:induction false} PageFaults(v: Vm, address: Long)
    requires Translate(v.s, address).Fault?
    ensures Vectored(v, IntPfault(Walked(v, address)), 4, v.s.regs[124 := address])
  {
    T.WalkedNotes(v, address);
    assert v.s.paging;
    hide Translate, Interrupt, Vectored, Noted, Walked;
    FaultVectors(v, Walked(v, address), address, PFAULT);
  }

  lemma {:induction false} Barred(v: Vm, address: Long, physical: Long)
    ensures Vectored(v, IntBwrite(Walked(v, address), physical), 6, v.s.regs[124 := physical])
  {
    T.WalkedNotes(v, address);
    hide Translate, Interrupt, Vectored, Noted, Walked;
    FaultVectors(v, Walked(v, address), physical, BWRITE);
  }

  // ----- results -----

  lemma {:induction false} MovedLeaves(v: Vm, w: Vm)
    requires w.printed == v.printed && w.pagingStack == v.pagingStack && w.hardware == v.hardware
    ensures Leaves(v, Moved(w), w.s.(pc := After(w.s.pc)))
  {}

  // Memory accesses that have a number to name.
  lemma {:induction false} PlaceIs(v: Vm, place: Place, a: Long)
    requires Names(v.s, place, a)
    ensures AddressOf(v, place) == a
  {}

  /** A computation puts its function of the two sources in the destination, and its status, if asked for, in $st (101). */
  lemma {:induction false} ComputeLeaves(v: Vm, rd: Reg, rs: Reg, rt: Reg, f: (Long, Long) -> Long, flags: bool)
    ensures var x := f(v.s.regs[rs], v.s.regs[rt]); var regs := v.s.regs[rd := x];
      Leaves(v, Execute(v, Compute(rd, rs, rt, f, flags)),
             v.s.(regs := if flags then regs[101 := Status(x)] else regs, pc := After(v.s.pc)))
  {}

  lemma {:induction false} SetLeaves(v: Vm, rd: Reg, imm: Long)
    ensures Leaves(v, Execute(v, Set(rd, imm)), v.s.(regs := v.s.regs[rd := imm], pc := After(v.s.pc)))
  {}

  /** A comparison puts the status of the first less the second in $st. */
  lemma {:induction false} CompareLeaves(v: Vm, rs: Reg, rt: Reg)
    ensures var d := (v.s.regs[rs] + TWO64 - v.s.regs[rt]) % TWO64;
      Leaves(v, Execute(v, Compare(rs, rt)), v.s.(regs := v.s.regs[101 := Status(d)], pc := After(v.s.pc)))
  {
    var d := Minus(v.s.regs[rs], v.s.regs[rt]);
    Difference(v.s.regs[rs], v.s.regs[rt]);
    StatusIs(d);
    hide Minus, Flags, Status, Increment;
    MovedLeaves(v, UpdateFlags(v, d));
  }

  lemma {:induction false} Difference(a: Long, b: Long)
    ensures Minus(a, b) == (a + TWO64 - b) % TWO64
  {}

  lemma {:induction false} StatusIs(x: Long)
    ensures Flags(x) == Status(x)
  {}

  // The number a register holds, negative from 2^63 on.
  function Value(x: Long): int { if x < TWO63 then x else x - TWO64 }

  /** A multiplication leaves the two halves of the signed product in $lo (5) and $hi (6). */
  lemma {:induction false} MultiplyLeaves(v: Vm, rs: Reg, rt: Reg, lo: Long, hi: Long)
    requires lo == Value(v.s.regs[rs]) * Value(v.s.regs[rt]) % TWO64
    requires hi == Value(v.s.regs[rs]) * Value(v.s.regs[rt]) / TWO64 % TWO64
    ensures Leaves(v, Execute(v, Multiply(rs, rt)), v.s.(regs := v.s.regs[5 := lo][6 := hi], pc := After(v.s.pc)))
  {
    assert Signed(v.s.regs[rs]) == Value(v.s.regs[rs]) && Signed(v.s.regs[rt]) == Value(v.s.regs[rt]);
    hide Signed, Value;
  }

  /** Printing appends the low byte of the register. */
  lemma {:induction false} PrintLeaves(v: Vm, rs: Reg)
    ensures var r := Execute(v, PrintChar(rs));
      !r.thrown && r.vm.printed == v.printed + [v.s.regs[rs] % 0x100] && r.vm.s == v.s.(pc := After(v.s.pc))
      && r.vm.pagingStack == v.pagingStack && r.vm.hardware == v.hardware
  {}

  lemma {:induction false} HaltLeaves(v: Vm)
    ensures Leaves(v, Execute(v, HaltOp), v.s.(active := false))
    ensures Leaves(v, Execute(v, Nop), v.s.(pc := After(v.s.pc)))
  {}

  /** A program may raise the interrupts 1 to 7 itself; any other number is an exception. */
  lemma {:induction false} IntVectors(v: Vm, imm: Long)
    ensures var r := Execute(v, Int(imm));
      if 1 <= imm <= 7 then Vectored(v, r, imm, v.s.regs) else Refuses(v, r)
  {
    if 1 <= imm < 8 { InterruptVectors(v, imm); }
    hide Interrupt, Vectored;
  }

  // ----- memory accesses -----

  // What a load that gets through leaves, for the number read.
  ghost predicate LeavesRead(v: Vm, r: Outcome, p: Long, n: nat, rd: Reg)
  { forall w: Long :: Reads(v.s.mem, p, n, w) ==> Leaves(v, r, v.s.(regs := v.s.regs[rd := w], pc := After(v.s.pc))) }

  // ... and a store, for the memory it writes, with these registers.
  ghost predicate LeavesWritten(v: Vm, r: Outcome, p: Long, n: nat, value: Long, regs: Registers)
  { Writes(v.s.mem, r.vm.s.mem, p, n, value) && Leaves(v, r, v.s.(mem := r.vm.s.mem, regs := regs, pc := After(v.s.pc))) }

  // A page fault is interrupt 4 with the virtual address in $e2.
  ghost predicate Loads(v: Vm, r: Outcome, a: Long, n: nat, rd: Reg)
  {
    match Translate(v.s, a)
    case Thrown => Refuses(v, r)
    case Fault(_) => Vectored(v, r, 4, v.s.regs[124 := a])
    case Mapped(p, _) => if p < TWO63 && p + n <= |v.s.mem| then LeavesRead(v, r, p, n, rd) else Refuses(v, r)
  }

  // A page that may not be written is interrupt 6 with the physical address in $e2.
  ghost predicate Stores(v: Vm, r: Outcome, a: Long, n: nat, value: Long)
  {
    match Translate(v.s, a)
    case Thrown => Refuses(v, r)
    case Fault(_) => Vectored(v, r, 4, v.s.regs[124 := a])
    case Mapped(p, leaf) =>
      if v.s.paging && leaf.Some? && leaf.value / 2 % 2 == 0 then Vectored(v, r, 6, v.s.regs[124 := p])
      else if p < TWO63 && p + n <= |v.s.mem| then LeavesWritten(v, r, p, n, value, v.s.regs)
      else Refuses(v, r)
  }

  lemma {:induction false} MovedReads(v: Vm, w: Vm, p: Long, size: Size, n: nat, rd: Reg)
    requires w.s == v.s && w.printed == v.printed && w.pagingStack == v.pagingStack && w.hardware == v.hardware
    requires Wide(size, n) && p < TWO63 && p + n <= |v.s.mem|
    ensures Inside(w.s.mem, p, size) && LeavesRead(v, Moved(SetReg(w, rd, Get(w.s.mem, p, size), false)), p, n, rd)
  {
    hide Get, Reads, Increment;
    GetReads(v.s.mem, p, size, n);
    var x := SetReg(w, rd, Get(w.s.mem, p, size), false);
    MovedLeaves(v, x);
    forall u: Long | Reads(v.s.mem, p, n, u) ensures u == Get(v.s.mem, p, size) { ReadsOnce(v.s.mem, p, n, u, Get(v.s.mem, p, size)); }
  }

  lemma {:induction false} MovedWrites(v: Vm, w: Vm, p: Long, size: Size, n: nat, value: Long)
    requires w.s.(regs := v.s.regs) == v.s && w.printed == v.printed && w.pagingStack == v.pagingStack && w.hardware == v.hardware
    requires Wide(size, n) && p < TWO63 && p + n <= |v.s.mem|
    ensures Inside(w.s.mem, p, size) && LeavesWritten(v, Moved(Stored(w, p, value, size)), p, n, value, w.s.regs)
  {
    hide Get, Put, Writes, Increment;
    PutWrites(v.s.mem, p, size, n, value);
    MovedLeaves(v, Stored(w, p, value, size));
  }

  lemma {:induction false} LoadIs(v: Vm, rd: Reg, a: Long, size: Size, n: nat)
    requires Wide(size, n)
    ensures Loads(v, Load(v, rd, a, size), a, n, rd)
  {
    T.WalkedNotes(v, a);
    hide Translate, Walked, Interrupt, Vectored, Noted, SetReg, Increment, Get, Reads, LeavesRead;
    match Translate(v.s, a)
    case Thrown =>
    case Fault(_) => PageFaults(v, a);
    case Mapped(p, _) =>
      if p < TWO63 { GetReads(v.s.mem, p, size, n); }
      if p < TWO63 && p + n <= |v.s.mem| { MovedReads(v, Walked(v, a), p, size, n, rd); }
  }

  lemma {:induction false} MayWrite(v: Vm, a: Long)
    requires Translate(v.s, a).Mapped?
    ensures v.s.paging ==> Translate(v.s, a).leaf.Some?
    ensures CheckWritable(Walked(v, a)) <==> !v.s.paging || Translate(v.s, a).leaf.value / 2 % 2 == 1
  {
    T.WritableIs(v.s, a);
    T.WalkedNotes(v, a);
    hide Walked, Translate;
  }

  lemma {:induction false} StoreIs(v: Vm, a: Long, value: Long, size: Size, n: nat)
    requires Wide(size, n)
    ensures Stores(v, Store(v, a, value, size), a, n, value)
  {
    T.WalkedNotes(v, a);
    hide Translate, Walked, Interrupt, Vectored, Noted, Stored, Increment, CheckWritable, LeavesWritten;
    match Translate(v.s, a)
    case Thrown =>
    case Fault(_) => PageFaults(v, a);
    case Mapped(p, _) =>
      MayWrite(v, a);
      Barred(v, a, p);
      if p < TWO63 { GetReads(v.s.mem, p, size, n); }
      if p < TWO63 && p + n <= |v.s.mem| { MovedWrites(v, Walked(v, a), p, size, n, value); }
  }

  /** A load puts the little-endian number at the translated address in its register. */
  lemma {:induction false} LoadLeaves(v: Vm, rd: Reg, place: Place, size: Size, n: nat, a: Long)
    requires Wide(size, n) && Names(v.s, place, a)
    ensures Loads(v, Execute(v, LoadOp(rd, place, size)), a, n, rd)
  {
    PlaceIs(v, place, a);
    LoadIs(v, rd, a, size, n);
    hide Loads, Load, AddressOf;
  }

  /** A store writes the register's low bytes at the translated address, lowest first. */
  lemma {:induction false} StoreLeaves(v: Vm, rs: Reg, place: Place, size: Size, n: nat, a: Long)
    requires Wide(size, n) && Names(v.s, place, a)
    ensures Stores(v, Execute(v, StoreOp(rs, place, size)), a, n, v.s.regs[rs])
  {
    PlaceIs(v, place, a);
    StoreIs(v, a, v.s.regs[rs], size, n);
    hide Stores, Store, AddressOf;
  }

  // The target's bytes are the source's, and no other byte changes.
  predicate Copied(before: seq<Byte>, after: seq<Byte>, from: nat, to: nat, n: nat)
  {
    from + n <= |before| == |after| && to + n <= |before|
    && forall x :: 0 <= x < |before| ==> after[x] == if to <= x < to + n then before[from + (x - to)] else before[x]
  }

  ghost predicate LeavesCopied(v: Vm, r: Outcome, from: nat, to: nat, n: nat)
  { Copied(v.s.mem, r.vm.s.mem, from, to, n) && Leaves(v, r, v.s.(mem := r.vm.s.mem, pc := After(v.s.pc))) }

  // What becomes of a copy whose source is there.
  ghost predicate Lands(v: Vm, r: Outcome, from: Long, b: Long, n: nat)
  {
    match Translate(v.s, b)
    case Thrown => Refuses(v, r)
    case Fault(_) => Vectored(v, r, 4, v.s.regs[124 := b])
    case Mapped(to, leaf) =>
      if v.s.paging && leaf.Some? && leaf.value / 2 % 2 == 0 then Vectored(v, r, 6, v.s.regs[124 := to])
      else if to < TWO63 && to + n <= |v.s.mem| then LeavesCopied(v, r, from, to, n)
      else Refuses(v, r)
  }

  ghost predicate Copies(v: Vm, r: Outcome, a: Long, b: Long, n: nat)
  {
    match Translate(v.s, a)
    case Thrown => Refuses(v, r)
    case Fault(_) => Vectored(v, r, 4, v.s.regs[124 := a])
    case Mapped(from, _) => if from >= TWO63 || from + n > |v.s.mem| then Refuses(v, r) else Lands(v, r, from, b, n)
  }

  lemma {:induction false} CopyIs(v: Vm, a: Long, b: Long, size: Size, n: nat)
    requires Wide(size, n)
    ensures Copies(v, Copy(v, a, b, size), a, b, n)
  {
    T.WalkedNotes(v, a);
    hide Translate, Walked, Interrupt, Vectored, Noted, Store, Get, Lands, Extended;
    match Translate(v.s, a)
    case Thrown =>
    case Fault(_) => PageFaults(v, a);
    case Mapped(from, _) =>
      if from < TWO63 { GetReads(v.s.mem, from, size, n); }
      if from < TWO63 && from + n <= |v.s.mem| { CopyLands(v, a, from, b, size, n); }
  }

  lemma {:induction false} CopyLands(v: Vm, a: Long, from: Long, b: Long, size: Size, n: nat)
    requires Wide(size, n) && Translate(v.s, a).Mapped? && Translate(v.s, a).address == from && Inside(v.s.mem, from, size)
    ensures Lands(v, Copy(v, a, b, size), from, b, n)
  {
    T.WalkedNotes(v, a);
    CopyStores(v, a, from, b, size);
    TargetBytes(v, a, from, b, size, n);
    if Translate(v.s, b).Mapped? { T.WritableIs(v.s, b); }
    hide *;
    var w, value := Walked(v, a), Extended(Get(v.s.mem, from, size), size);
    StoreIs(w, b, value, size, n);
    TargetIs(v, w, Copy(v, a, b, size), from, b, value, size, n);
  }

  lemma {:induction false} CopyStores(v: Vm, a: Long, from: Long, b: Long, size: Size)
    requires Translate(v.s, a).Mapped? && Translate(v.s, a).address == from && Inside(v.s.mem, from, size)
    ensures Copy(v, a, b, size) == Store(Walked(v, a), b, Extended(Get(v.s.mem, from, size), size), size)
  { T.WalkedNotes(v, a); hide Translate, Walked, Store, Extended, Get; }

  lemma {:induction false} TargetBytes(v: Vm, a: Long, from: Long, b: Long, size: Size, n: nat)
    requires Wide(size, n) && Translate(v.s, a).Mapped? && Translate(v.s, a).address == from && Inside(v.s.mem, from, size)
    ensures from + n <= |v.s.mem|
    ensures var t := Translate(v.s, b);
      t.Mapped? && V.WritablePage(v.s, b) && Inside(v.s.mem, t.address, size) ==>
        Copy(v, a, b, size).vm.s.mem == Splice(v.s.mem, t.address, v.s.mem[from..from + n])
  {
    hide Translate, Copy, V.WritablePage;
    V.CopyEffect(v, a, b, size);
  }

  lemma {:induction false} TargetIs(v: Vm, w: Vm, r: Outcome, from: Long, b: Long, value: Long, size: Size, n: nat)
    requires w.s == v.s && w.printed == v.printed && w.pagingStack == v.pagingStack && w.hardware == v.hardware
    requires Wide(size, n) && from + n <= |v.s.mem| && Stores(w, r, b, n, value)
    requires Translate(v.s, b).Mapped? ==>
      (v.s.paging ==> Translate(v.s, b).leaf.Some?)
      && (V.WritablePage(v.s, b) <==> !v.s.paging || Translate(v.s, b).leaf.value / 2 % 2 == 1)
    requires var t := Translate(v.s, b);
      t.Mapped? && V.WritablePage(v.s, b) && Inside(v.s.mem, t.address, size) ==>
        r.vm.s.mem == Splice(v.s.mem, t.address, v.s.mem[from..from + n])
    ensures Lands(v, r, from, b, n)
  {
    hide Translate, Vectored, Writes;
    match Translate(v.s, b)
    case Thrown =>
    case Fault(_) => VectoredAlike(v, w, r, 4, v.s.regs[124 := b]);
    case Mapped(to, leaf) =>
      if v.s.paging && leaf.value / 2 % 2 == 0 { VectoredAlike(v, w, r, 6, v.s.regs[124 := to]); }
      else if to < TWO63 && to + n <= |v.s.mem| {
        assert Inside(v.s.mem, to, size);
        SpliceCopies(v.s.mem, from, to, n);
      }
  }

  lemma {:induction false} SpliceCopies(m: seq<Byte>, from: nat, to: nat, n: nat)
    requires from + n <= |m| && to + n <= |m|
    ensures Copied(m, Splice(m, to, m[from..from + n]), from, to, n)
  {}

  /** A copy makes the bytes at its second register's address those at its first's. */
  lemma {:induction false} CopyLeaves(v: Vm, rs: Reg, rd: Reg, size: Size, n: nat)
    requires Wide(size, n)
    ensures Copies(v, Execute(v, CopyOp(rs, rd, size)), v.s.regs[rs], v.s.regs[rd], n)
  {
    CopyIs(v, v.s.regs[rs], v.s.regs[rd], size, n);
    hide Copies, Copy;
  }

  // ----- indirect loads, fills, the stack -----

  ghost predicate Drops(v: Vm, r: Outcome, a: Long, to: Long, n: nat)
  {
    match Translate(v.s, a)
    case Thrown => Refuses(v, r)
    case Fault(_) => Vectored(v, r, 4, v.s.regs[124 := a])
    case Mapped(from, _) =>
      if from < TWO63 && from + n <= |v.s.mem| && to < TWO63 && to + n <= |v.s.mem|
      then LeavesCopied(v, r, from, to, n) else Refuses(v, r)
  }

  lemma {:induction false} IndirectIs(v: Vm, rd: Reg, imm: Long, size: Size, n: nat)
    requires Wide(size, n)
    ensures Drops(v, LoadIndirect(v, rd, imm, size), imm, v.s.regs[rd], n)
  {
    var to := v.s.regs[rd];
    T.WalkedNotes(v, imm);
    InsideIs(v.s.mem, to, size, n);
    if Translate(v.s, imm).Mapped? {
      InsideIs(v.s.mem, Translate(v.s, imm).address, size, n);
      if Inside(v.s.mem, Translate(v.s, imm).address, size) && Inside(v.s.mem, to, size) {
        Dropped(v, rd, imm, Translate(v.s, imm).address, size, n);
      }
    }
    if Translate(v.s, imm).Fault? { PageFaults(v, imm); }
    hide Translate, Walked, Interrupt, Vectored, Noted, Get, Extended, Increment, Stored, LeavesCopied, Inside;
  }

  lemma {:induction false} InsideIs(memory: seq<Byte>, a: Long, size: Size, n: nat)
    requires Wide(size, n)
    ensures Inside(memory, a, size) <==> a < TWO63 && a + n <= |memory|
  {}

  /** An indirect load writes what it finds at its immediate to the address in its register, untranslated. */
  lemma {:induction false} IndirectLeaves(v: Vm, rd: Reg, imm: Long, size: Size, n: nat)
    requires Wide(size, n)
    ensures Drops(v, Execute(v, LoadIndirectOp(rd, imm, size)), imm, v.s.regs[rd], n)
  {
    IndirectIs(v, rd, imm, size, n);
    hide Drops, LoadIndirect;
  }

  lemma {:induction false} Dropped(v: Vm, rd: Reg, imm: Long, from: Long, size: Size, n: nat)
    requires Wide(size, n) && Translate(v.s, imm).Mapped? && Translate(v.s, imm).address == from
    requires Inside(v.s.mem, from, size) && Inside(v.s.mem, v.s.regs[rd], size)
    ensures LeavesCopied(v, LoadIndirect(v, rd, imm, size), from, v.s.regs[rd], n)
  {
    var x := Stored(Walked(v, imm), v.s.regs[rd], Extended(Get(v.s.mem, from, size), size), size);
    IndirectMoves(v, rd, imm, from, size);
    IndirectBytes(v, rd, imm, from, size, n);
    hide *;
    MovedLeaves(v, x);
    SpliceCopies(v.s.mem, from, v.s.regs[rd], n);
    CopiedLeaves(v, x, LoadIndirect(v, rd, imm, size), from, v.s.regs[rd], n);
  }

  lemma {:induction false} CopiedLeaves(v: Vm, x: Vm, r: Outcome, from: Long, to: Long, n: nat)
    requires x.s == v.s.(mem := x.s.mem) && r == Moved(x) && Leaves(v, r, x.s.(pc := After(x.s.pc)))
    requires Copied(v.s.mem, r.vm.s.mem, from, to, n)
    ensures LeavesCopied(v, r, from, to, n)
  { hide Copied, Moved; }

  lemma {:induction false} IndirectMoves(v: Vm, rd: Reg, imm: Long, from: Long, size: Size)
    requires Translate(v.s, imm).Mapped? && Translate(v.s, imm).address == from
    requires Inside(v.s.mem, from, size) && Inside(v.s.mem, v.s.regs[rd], size)
    ensures Walked(v, imm).s == v.s
    ensures var x := Stored(Walked(v, imm), v.s.regs[rd], Extended(Get(v.s.mem, from, size), size), size);
      && LoadIndirect(v, rd, imm, size) == Moved(x) && x.s == v.s.(mem := x.s.mem)
      && x.printed == v.printed && x.pagingStack == v.pagingStack && x.hardware == v.hardware
  {
    T.WalkedNotes(v, imm);
    hide Translate, Walked, Extended, Get, Stored, Increment;
    StoredKeeps(Walked(v, imm), v.s.regs[rd], Extended(Get(v.s.mem, from, size), size), size);
  }

  lemma {:induction false} IndirectBytes(v: Vm, rd: Reg, imm: Long, from: Long, size: Size, n: nat)
    requires Wide(size, n) && Translate(v.s, imm).Mapped? && Translate(v.s, imm).address == from
    requires Inside(v.s.mem, from, size) && Inside(v.s.mem, v.s.regs[rd], size)
    ensures from + n <= |v.s.mem| && v.s.regs[rd] + n <= |v.s.mem|
    ensures LoadIndirect(v, rd, imm, size).vm.s.mem == Splice(v.s.mem, v.s.regs[rd], v.s.mem[from..from + n])
  {
    hide Translate, LoadIndirect;
    V.IndirectEffect(v, rd, imm, size);
  }

  lemma {:induction false} StoredKeeps(v: Vm, a: Long, value: Long, size: Size)
    requires Inside(v.s.mem, a, size)
    ensures var w := Stored(v, a, value, size);
      w.s == v.s.(mem := w.s.mem) && w.printed == v.printed && w.pagingStack == v.pagingStack && w.hardware == v.hardware
  { hide Put, Get; }

  /** A memory set fills as many bytes as its first register says, none if that is negative, with the low byte of its
      second, from its third on. */
  lemma {:induction false} MemSetIs(v: Vm, rs: Reg, rt: Reg, rd: Reg)
    ensures Execute(v, MemSetOp(rs, rt, rd))
      == Fill(v, v.s.regs[rd], v.s.regs[rt], 0, if v.s.regs[rs] < TWO63 then v.s.regs[rs] else 0)
  { hide Fill; }

  /** Without paging, over bytes that are there. */
  lemma {:induction false} MemSetLeaves(v: Vm, rs: Reg, rt: Reg, rd: Reg)
    requires !v.s.paging && v.s.regs[rs] < TWO63 && v.s.regs[rd] + v.s.regs[rs] <= |v.s.mem| <= TWO63
    ensures var r, start, n := Execute(v, MemSetOp(rs, rt, rd)), v.s.regs[rd], v.s.regs[rs];
      && !r.thrown && r.vm.s.pc == After(v.s.pc) && r.vm.s.regs == v.s.regs && |r.vm.s.mem| == |v.s.mem|
      && forall x :: 0 <= x < |v.s.mem| ==> r.vm.s.mem[x] == if start <= x < start + n then v.s.regs[rt] % 0x100 else v.s.mem[x]
  {
    var start, n := v.s.regs[rd], v.s.regs[rs];
    MemSetIs(v, rs, rt, rd);
    forall j: nat | j < n ensures V.ByteAddress(start, j) == start + j { Unwrapped(start, j); }
    assert V.FillMissesTables(v.s, start, 0, n) by { hide Wrap, V.ByteAddress; }
    V.FillEffect(v, start, v.s.regs[rt], 0, n);
    StopsNowhere(v.s, start, 0, n);
    hide Execute, Fill, Wrap, V.ByteAddress, V.FillMissesTables, V.Stop, V.Filled;
    forall x: nat | x < |v.s.mem|
      ensures V.Filled(v.s, start, v.s.regs[rt], 0, n)[x] == if start <= x < start + n then v.s.regs[rt] % 0x100 else v.s.mem[x]
    {
      V.FilledByte(v.s, start, v.s.regs[rt], 0, n, x);
      if start <= x < start + n { assert Translate(v.s, V.ByteAddress(start, x - start)).address == x; }
    }
  }

  lemma {:induction false} Unwrapped(start: Long, j: nat)
    requires start + j < TWO64
    ensures V.ByteAddress(start, j) == start + j
  {}

  lemma {:induction false} StopsNowhere(s: State, start: Long, i: nat, count: nat)
    requires !s.paging && i <= count && start + count <= |s.mem| <= TWO63
    ensures V.Stop(s, start, i, count) == count
  {
    if V.Stop(s, start, i, count) < count { Unwrapped(start, V.Stop(s, start, i, count)); assert false; }
  }

  // An exception after the registers have changed.
  predicate Stopped(v: Vm, r: Outcome, regs: Registers)
  { r.thrown && r.vm.s == v.s.(regs := regs) && r.vm.printed == v.printed && r.vm.pagingStack == v.pagingStack && r.vm.hardware == v.hardware }

  // A push has moved $sp (2) before anything else.
  ghost predicate Pushes(v: Vm, r: Outcome, rs: Reg, amount: Long, regs: Registers)
  {
    match Translate(v.s, regs[2])
    case Thrown => Stopped(v, r, regs)
    case Fault(_) => Vectored(v, r, 4, regs[124 := regs[2]])
    case Mapped(p, leaf) =>
      if v.s.paging && leaf.Some? && leaf.value / 2 % 2 == 0 then Vectored(v, r, 6, regs[124 := p])
      else if (amount == 1 || amount == 2 || amount == 4 || amount == 8) && p < TWO63 && p + amount <= |v.s.mem|
      then LeavesWritten(v, r, p, amount, regs[rs], regs)
      else Stopped(v, r, regs)
  }

  lemma {:induction false} TranslateRegs(s: State, regs: Registers, a: Long)
    ensures Translate(s.(regs := regs), a) == Translate(s, a)
  { hide Lookup; }

  lemma {:induction false} PushedReg(v: Vm, amount: Long)
    ensures var x := SetReg(v, SP, Minus(v.s.regs[SP], amount), false);
      && x.s == v.s.(regs := v.s.regs[2 := (v.s.regs[2] + TWO64 - amount) % TWO64])
      && x.printed == v.printed && x.pagingStack == v.pagingStack && x.hardware == v.hardware
  {}

  lemma {:induction false} SizeIs(amount: Long)
    ensures SizeOf(amount).Some? <==> amount == 1 || amount == 2 || amount == 4 || amount == 8
    ensures SizeOf(amount).Some? ==> Wide(SizeOf(amount).value, amount)
  {}

  lemma {:induction false} PushFrom(v: Vm, x: Vm, rs: Reg, amount: Long, regs: Registers, r: Outcome)
    requires x.s == v.s.(regs := regs) && x.printed == v.printed && x.pagingStack == v.pagingStack && x.hardware == v.hardware
    requires r == PushStep(x, rs, amount)
    ensures Pushes(v, r, rs, amount, regs)
  {
    var a := regs[2];
    TranslateRegs(v.s, regs, a);
    T.WalkedNotes(x, a);
    SizeIs(amount);
    hide Translate, Walked, Interrupt, Vectored, Noted, Stored, Increment, CheckWritable, LeavesWritten, SizeOf;
    match Translate(x.s, a)
    case Thrown =>
    case Fault(_) =>
      PageFaults(x, a);
      VectoredAlike(v, x, r, 4, regs[124 := a]);
    case Mapped(p, _) =>
      MayWrite(x, a);
      Barred(x, a, p);
      if !CheckWritable(Walked(x, a)) { VectoredAlike(v, x, r, 6, regs[124 := p]); }
      if SizeOf(amount).Some? && p < TWO63 {
        GetReads(v.s.mem, p, SizeOf(amount).value, amount);
        if p + amount <= |v.s.mem| { MovedWrites(v, Walked(x, a), p, SizeOf(amount).value, amount, regs[rs]); }
      }
  }

  // Push after its first step.
  function PushStep(x: Vm, rs: Reg, amount: Long): Outcome
  {
    var w := Walked(x, x.s.regs[SP]);
    match Translate(x.s, x.s.regs[SP])
    case Thrown => Outcome(w, true)
    case Fault(_) => IntPfault(w)
    case Mapped(physical, _) =>
      if !CheckWritable(w) then IntBwrite(w, physical)
      else if SizeOf(amount).None? || !Inside(w.s.mem, physical, SizeOf(amount).value) then Outcome(w, true)
      else Outcome(Increment(Stored(w, physical, w.s.regs[rs], SizeOf(amount).value)), false)
  }

  /** A push moves $sp down by the amount, then writes that many low bytes of the register there; other amounts than
      1, 2, 4 and 8 are exceptions. */
  lemma {:induction false} PushLeaves(v: Vm, rs: Reg, amount: Long)
    ensures Pushes(v, Execute(v, PushOp(rs, amount)), rs, amount, v.s.regs[2 := (v.s.regs[2] + TWO64 - amount) % TWO64])
  {
    PushedReg(v, amount);
    var x := SetReg(v, SP, Minus(v.s.regs[SP], amount), false);
    assert Execute(v, PushOp(rs, amount)) == PushStep(x, rs, amount)
      by { hide SetReg, Walked, Translate, CheckWritable, Interrupt, Noted, SizeOf, Stored, Increment; }
    hide SetReg, PushStep, Pushes, Execute;
    PushFrom(v, x, rs, amount, x.s.regs, PushStep(x, rs, amount));
  }

  ghost predicate LeavesPopped(v: Vm, r: Outcome, p: Long, rd: Reg, amount: Long)
  {
    forall w: Long :: Reads(v.s.mem, p, amount, w) ==>
      Leaves(v, r, v.s.(regs := Popped(v.s.regs, rd, w, amount), pc := After(v.s.pc)))
  }

  // The register first, then $sp.
  function Popped(regs: Registers, rd: Reg, w: Long, amount: Long): Registers
  { var g := regs[rd := w]; g[2 := (g[2] + amount) % TWO64] }

  ghost predicate Pops(v: Vm, r: Outcome, rd: Reg, amount: Long)
  {
    var a := v.s.regs[2];
    match Translate(v.s, a)
    case Thrown => Refuses(v, r)
    case Fault(_) => Vectored(v, r, 4, v.s.regs[124 := a])
    case Mapped(p, _) =>
      if (amount == 1 || amount == 2 || amount == 4 || amount == 8) && p < TWO63 && p + amount <= |v.s.mem|
      then LeavesPopped(v, r, p, rd, amount) else Refuses(v, r)
  }

  lemma {:induction false} PopRead(v: Vm, w: Vm, p: Long, size: Size, rd: Reg, amount: Long)
    requires w.s == v.s && w.printed == v.printed && w.pagingStack == v.pagingStack && w.hardware == v.hardware
    requires Wide(size, amount) && p < TWO63 && p + amount <= |v.s.mem|
    ensures Inside(w.s.mem, p, size)
    ensures var x := SetReg(w, rd, Get(w.s.mem, p, size), false);
      LeavesPopped(v, Moved(SetReg(x, SP, Plus(x.s.regs[SP], amount), false)), p, rd, amount)
  {
    hide Get, Reads, Increment, SetReg;
    GetReads(v.s.mem, p, size, amount);
    var value := Get(w.s.mem, p, size);
    PopSets(w, rd, value, amount);
    var x := SetReg(w, rd, value, false);
    MovedLeaves(v, SetReg(x, SP, Plus(x.s.regs[SP], amount), false));
    forall u: Long | Reads(v.s.mem, p, amount, u) ensures u == value { ReadsOnce(v.s.mem, p, amount, u, value); }
  }

  lemma {:induction false} PopSets(w: Vm, rd: Reg, value: Long, amount: Long)
    ensures var x := SetReg(w, rd, value, false); var y := SetReg(x, SP, Plus(x.s.regs[SP], amount), false);
      && y.s == w.s.(regs := Popped(w.s.regs, rd, value, amount))
      && y.printed == w.printed && y.pagingStack == w.pagingStack && y.hardware == w.hardware
  {
    var x := SetReg(w, rd, value, false);
    SetIs(w, rd, value);
    SetIs(x, SP, Plus(x.s.regs[SP], amount));
    PoppedIs(w.s.regs, rd, value, amount);
    hide *;
    assert SP == 2;
  }

  lemma {:induction false} PoppedIs(regs: Registers, rd: Reg, value: Long, amount: Long)
    ensures var g := regs[rd := value]; Popped(regs, rd, value, amount) == g[2 := Plus(g[2], amount)]
  {}

  lemma {:induction false} SetIs(v: Vm, r: Reg, x: Long)
    ensures var w := SetReg(v, r, x, false);
      w.s == v.s.(regs := v.s.regs[r := x]) && w.printed == v.printed && w.pagingStack == v.pagingStack && w.hardware == v.hardware
  {}

  /** A pop puts the number at $sp in its register, then moves $sp up. */
  lemma {:induction false} PopLeaves(v: Vm, rd: Reg, amount: Long)
    ensures Pops(v, Execute(v, PopOp(rd, amount)), rd, amount)
  {
    PopIs(v, rd, amount);
    hide Pops, Pop;
  }

  lemma {:induction false} PopIs(v: Vm, rd: Reg, amount: Long)
    ensures Pops(v, Pop(v, rd, amount), rd, amount)
  {
    var a := v.s.regs[2];
    T.WalkedNotes(v, a);
    SizeIs(amount);
    if Translate(v.s, a).Fault? { PageFaults(v, a); }
    if Translate(v.s, a).Mapped? && SizeOf(amount).Some? {
      var p, size := Translate(v.s, a).address, SizeOf(amount).value;
      InsideIs(v.s.mem, p, size, amount);
      if Inside(v.s.mem, p, size) { PopRead(v, Walked(v, a), p, size, rd, amount); }
    }
    hide Translate, Walked, Interrupt, Vectored, Noted, SetReg, Increment, Get, Inside, LeavesPopped, SizeOf;
  }

  /** Translating puts the physical address in the register. */
  lemma {:induction false} TranslateLeaves(v: Vm, rs: Reg, rd: Reg)
    ensures var r, a := Execute(v, TranslateOp(rs, rd)), v.s.regs[rs];
      match Translate(v.s, a)
      case Thrown => Refuses(v, r)
      case Fault(_) => Vectored(v, r, 4, v.s.regs[124 := a])
      case Mapped(p, _) => Leaves(v, r, v.s.(regs := v.s.regs[rd := p], pc := After(v.s.pc)))
  {
    TranslatedIs(v, rs, rd);
    hide TranslateReg, Translate, Vectored, Leaves;
  }

  lemma {:induction false} TranslatedIs(v: Vm, rs: Reg, rd: Reg)
    ensures var r, a := TranslateReg(v, rs, rd), v.s.regs[rs];
      match Translate(v.s, a)
      case Thrown => Refuses(v, r)
      case Fault(_) => Vectored(v, r, 4, v.s.regs[124 := a])
      case Mapped(p, _) => Leaves(v, r, v.s.(regs := v.s.regs[rd := p], pc := After(v.s.pc)))
  {
    var a := v.s.regs[rs];
    T.WalkedNotes(v, a);
    if Translate(v.s, a).Fault? { PageFaults(v, a); }
    if Translate(v.s, a).Mapped? { MovedLeaves(v, SetReg(Walked(v, a), rd, Translate(v.s, a).address, false)); }
    hide Translate, Walked, Interrupt, Vectored, Noted, Increment;
  }

  // ----- jumps -----

  // The five conditions, on $st's zero bit (bit 0) and negative bit (bit 1).
  predicate Holds(st: Long, c: Conditions)
  {
    match c
    case Disabled => true
    case IfPositive => st / 2 % 2 == 0 && st % 2 == 0
    case IfNegative => st / 2 % 2 == 1
    case IfZero => st % 2 == 1
    case IfNonzero => st % 2 == 0
  }

  lemma {:induction false} HoldsIs(v: Vm, c: Conditions)
    ensures CheckConditions(v, c) <==> Holds(v.s.regs[101], c)
  {}

  // The machine at an address, with the return address in $rt (4) if the jump links.
  function Landed(s: State, address: Long, link: bool): State
  { s.(pc := address, regs := if link then s.regs[4 := After(s.pc)] else s.regs) }

  function PassedBy(s: State): State { s.(pc := After(s.pc)) }

  lemma {:induction false} JumpIs(v: Vm, address: Long, link: bool)
    ensures Leaves(v, Outcome(Jump(v, address, link), false), Landed(v.s, address, link))
    ensures Leaves(v, Moved(v), PassedBy(v.s))
  {}

  /** A jump goes to its address if its condition holds of $st (101); without a condition, always. */
  lemma {:induction false} JumpLeaves(v: Vm, address: Long, link: bool, c: Conditions)
    ensures Leaves(v, Execute(v, JumpOp(address, link, c)),
                   if Holds(v.s.regs[101], c) then Landed(v.s, address, link) else PassedBy(v.s))
    ensures Leaves(v, Execute(v, JumpOp(address, link, Disabled)), Landed(v.s, address, link))
  {
    HoldsIs(v, c); HoldsIs(v, Disabled); JumpIs(v, address, link);
    hide Jump, CheckConditions, Moved, Leaves, Holds, Landed;
    assert Holds(v.s.regs[101], Disabled) by { hide *; AlwaysHolds(v.s.regs[101]); }
  }

  lemma {:induction false} AlwaysHolds(st: Long)
    ensures Holds(st, Disabled)
  {}

  lemma {:induction false} JumpIfLeaves(v: Vm, rs: Reg, address: Long, link: bool)
    ensures Leaves(v, Execute(v, JumpIf(rs, address, link)),
                   if v.s.regs[rs] != 0 then Landed(v.s, address, link) else PassedBy(v.s))
  { JumpIs(v, address, link); hide Jump, Moved, Leaves, Landed; }

  /** A linking register jump goes where the register pointed before the link. */
  lemma {:induction false} JumpRegLinkLeaves(v: Vm, rd: Reg, c: Conditions)
    ensures Leaves(v, Execute(v, JumpRegLink(rd, c)),
                   if Holds(v.s.regs[101], c) then Landed(v.s, v.s.regs[rd], true) else PassedBy(v.s))
    ensures Leaves(v, Execute(v, JumpRegLink(rd, Disabled)), Landed(v.s, v.s.regs[rd], true))
  {
    HoldsIs(v, c); HoldsIs(v, Disabled); JumpIs(v, v.s.regs[rd], true);
    AlwaysHolds(v.s.regs[101]);
    hide Jump, CheckConditions, Moved, Leaves, Holds, Landed;
  }

  /** Its conditional form translates the register first. */
  lemma {:induction false} JumpRegLinkIfLeaves(v: Vm, rs: Reg, rd: Reg)
    ensures var r, a := Execute(v, JumpRegLinkIf(rs, rd)), v.s.regs[rd];
      if v.s.regs[rs] == 0 then Leaves(v, r, PassedBy(v.s)) else
      match Translate(v.s, a)
      case Thrown => Refuses(v, r)
      case Fault(_) => Vectored(v, r, 4, v.s.regs[124 := a])
      case Mapped(p, _) => Leaves(v, r, Landed(v.s, p, true))
  {
    var a := v.s.regs[rd];
    T.WalkedNotes(v, a);
    JumpIs(v, 0, false);
    if Translate(v.s, a).Mapped? { JumpIs(Walked(v, a), Translate(v.s, a).address, true); }
    hide Translate, Walked, Interrupt, Vectored, Noted, Jump, Moved, Landed;
    if Translate(v.s, a).Fault? { PageFaults(v, a); }
  }

  // Going to a register's address. Through $e0 hardware interrupts come back on; outside ring zero that way is barred by
  // interrupt 3, after which the machine goes to wherever $e0 then points.
  ghost predicate Departs(v: Vm, r: Outcome, rd: Reg, mid: Outcome)
  {
    if rd == 122 && v.s.ring > 0 then
      Vectored(v, mid, 3, v.s.regs) && (if mid.thrown then r == mid else Leaves(mid.vm, r, mid.vm.s.(pc := mid.vm.s.regs[122])))
    else
      !r.thrown && r.vm.s == v.s.(pc := v.s.regs[rd]) && r.vm.printed == v.printed && r.vm.pagingStack == v.pagingStack
      && r.vm.hardware == (v.hardware || rd == 122)
  }

  lemma {:induction false} LeaveIs(v: Vm, rd: Reg)
    ensures Departs(v, LeaveBy(v, rd), rd, IntProtec(v))
  {
    if rd == 122 && v.s.ring > 0 {
      InterruptVectors(v, PROTEC);
      var mid := IntProtec(v);
      JumpIs(mid.vm, mid.vm.s.regs[122], false);
      hide Interrupt, Vectored, Jump;
    } else {
      DepartIs(v.(hardware := v.hardware || rd == 122), v.s.regs[rd]);
      hide Jump;
    }
  }

  lemma {:induction false} DepartIs(v: Vm, address: Long)
    ensures var w := Jump(v, address, false);
      w.s == v.s.(pc := address) && w.printed == v.printed && w.pagingStack == v.pagingStack && w.hardware == v.hardware
  {}

  lemma {:induction false} JumpRegIs(v: Vm, rd: Reg, c: Conditions)
    ensures Execute(v, JumpReg(rd, c)) == if Holds(v.s.regs[101], c) then LeaveBy(v, rd) else Moved(v)
  { HoldsIs(v, c); hide LeaveBy, CheckConditions, Moved, Holds; }

  lemma {:induction false} JumpRegLeaves(v: Vm, rd: Reg, c: Conditions) returns (mid: Outcome)
    ensures if Holds(v.s.regs[101], c) then Departs(v, Execute(v, JumpReg(rd, c)), rd, mid)
            else Leaves(v, Execute(v, JumpReg(rd, c)), PassedBy(v.s))
    ensures Departs(v, Execute(v, JumpReg(rd, Disabled)), rd, mid)
  {
    hide *;
    mid := IntProtec(v);
    JumpRegIs(v, rd, c); JumpRegIs(v, rd, Disabled); AlwaysHolds(v.s.regs[101]);
    LeaveIs(v, rd); JumpIs(v, 0, false);
  }

  lemma {:induction false} JumpRegIfLeaves(v: Vm, rs: Reg, rd: Reg) returns (mid: Outcome)
    ensures if v.s.regs[rs] != 0 then Departs(v, Execute(v, JumpRegIf(rs, rd)), rd, mid)
            else Leaves(v, Execute(v, JumpRegIf(rs, rd)), PassedBy(v.s))
  {
    mid := IntProtec(v);
    JumpIs(v, 0, false); LeaveIs(v, rd);
    hide LeaveBy, Moved, Leaves, Departs, Interrupt;
  }

  // ----- rings and tables -----

  // Outside ring zero a privileged operation takes interrupt 3, and then takes it again.
  ghost predicate Twice(v: Vm, r: Outcome, mid: Outcome)
  { Vectored(v, mid, 3, v.s.regs) && if mid.thrown then r == mid else Vectored(mid.vm, r, 3, mid.vm.s.regs) }

  lemma {:induction false} RefusedIs(v: Vm)
    ensures Twice(v, Refused(v), IntProtec(v))
  {
    InterruptVectors(v, PROTEC);
    InterruptVectors(IntProtec(v).vm, PROTEC);
    hide Interrupt, Vectored;
  }

  /** A privileged operation outside ring zero. */
  lemma {:induction false} PrivilegedBarred(v: Vm, op: Operation) returns (mid: Outcome)
    requires v.s.ring > 0
    requires op.SetInterruptTableOp? || op.SetPagingOp? || op.SetTableOp? || op.PagePushOp? || op.PagePopOp?
    ensures Twice(v, Execute(v, op), mid)
  {
    mid := IntProtec(v);
    RefusedIs(v);
    hide Refused, Interrupt, Twice;
  }

  /** A ring between the present one and 3 is entered; any other, read as a signed 32-bit number, takes interrupt 3. */
  lemma {:induction false} RingLeaves(v: Vm, place: Place, a: Long)
    requires Names(v.s, place, a)
    ensures var r, low := Execute(v, ChangeRingOp(place)), a % 0x1_0000_0000;
      if v.s.ring <= low <= 3 then Leaves(v, r, v.s.(ring := low, pc := After(v.s.pc))) else Vectored(v, r, 3, v.s.regs)
  {
    PlaceIs(v, place, a);
    RingIs(v, a);
    hide ChangeRing, Vectored, Leaves, AddressOf;
  }

  lemma {:induction false} RingIs(v: Vm, a: Long)
    ensures var r, low := ChangeRing(v, a), a % 0x1_0000_0000;
      if v.s.ring <= low <= 3 then Leaves(v, r, v.s.(ring := low, pc := After(v.s.pc))) else Vectored(v, r, 3, v.s.regs)
  {
    InterruptVectors(v, PROTEC);
    hide Interrupt, Vectored;
  }

  /** In ring zero paging is set as asked. */
  lemma {:induction false} PagingLeaves(v: Vm, on: bool)
    requires v.s.ring == 0
    ensures Leaves(v, Execute(v, SetPagingOp(on)), v.s.(paging := on, pc := After(v.s.pc)))
  {}

  /** ... the interrupt table is set to the translated immediate ... */
  lemma {:induction false} TableLeaves(v: Vm, imm: Long)
    requires v.s.ring == 0
    ensures var r := Execute(v, SetInterruptTableOp(imm));
      match Translate(v.s, imm)
      case Thrown => Refuses(v, r)
      case Fault(_) => Vectored(v, r, 4, v.s.regs[124 := imm])
      case Mapped(p, _) => Leaves(v, r, v.s.(table := p, pc := After(v.s.pc)))
  {
    TableIs(v, imm);
    hide SetInterruptTable, Translate, Vectored, Leaves;
  }

  lemma {:induction false} TableIs(v: Vm, imm: Long)
    requires v.s.ring == 0
    ensures var r := SetInterruptTable(v, imm);
      match Translate(v.s, imm)
      case Thrown => Refuses(v, r)
      case Fault(_) => Vectored(v, r, 4, v.s.regs[124 := imm])
      case Mapped(p, _) => Leaves(v, r, v.s.(table := p, pc := After(v.s.pc)))
  {
    T.WalkedNotes(v, imm);
    if Translate(v.s, imm).Fault? { PageFaults(v, imm); }
    if Translate(v.s, imm).Mapped? {
      var x := BufferChange(Walked(v, imm), TableChange(v.s.table, Translate(v.s, imm).address));
      MovedLeaves(v, x.(s := x.s.(table := Translate(v.s, imm).address)));
    }
    hide Translate, Walked, Interrupt, Vectored, Noted, Increment;
  }

  // ... and after a change of page tables the machine goes where a register points, unless that is zero.
  predicate Turns(v: Vm, r: Outcome, s: State, stack: seq<(bool, Long)>, rt: Reg)
  {
    && !r.thrown && r.vm.printed == v.printed && r.vm.pagingStack == stack
    && r.vm.s == s.(pc := if s.regs[rt] != 0 then s.regs[rt] else After(s.pc))
    && r.vm.hardware == (v.hardware || (rt == 122 && s.regs[rt] != 0))
  }

  lemma {:induction false} TurnIs(v: Vm, w: Vm, rt: Reg)
    requires w.s.ring == 0 && w.printed == v.printed && w.hardware == v.hardware
    ensures Turns(v, LeaveOrMove(w, rt), w.s, w.pagingStack, rt)
  {
    LeaveIs(w, rt);
    MovedLeaves(w, w);
    hide LeaveBy, Increment;
  }

  /** The page table register takes its first register's value. */
  lemma {:induction false} SetTableLeaves(v: Vm, rs: Reg, rt: Reg)
    requires v.s.ring == 0
    ensures Turns(v, Execute(v, SetTableOp(rs, rt)), v.s.(p0 := v.s.regs[rs]), v.pagingStack, rt)
  {
    var w := BufferChange(v, P0Change(v.s.p0, v.s.regs[rs]));
    TurnIs(v, w.(s := w.s.(p0 := v.s.regs[rs])), rt);
    hide LeaveOrMove, Turns;
  }

  /** A push saves paging and the page table register; a pop, if there is something to pop, gives them back. */
  lemma {:induction false} PagePushLeaves(v: Vm)
    requires v.s.ring == 0
    ensures var r := Execute(v, PagePushOp);
      !r.thrown && r.vm.s == v.s.(pc := After(v.s.pc)) && r.vm.printed == v.printed && r.vm.hardware == v.hardware
      && r.vm.pagingStack == v.pagingStack + [(v.s.paging, v.s.p0)]
  {}

  lemma {:induction false} PagePopLeaves(v: Vm, rs: Reg)
    requires v.s.ring == 0
    ensures var n := |v.pagingStack| - 1;
      Turns(v, Execute(v, PagePopOp(rs)),
            if n < 0 then v.s else v.s.(paging := v.pagingStack[n].0, p0 := v.pagingStack[n].1),
            if n < 0 then [] else v.pagingStack[..n], rs)
  {
    if v.pagingStack == [] {
      TurnIs(v, v, rs);
    } else {
      var n := |v.pagingStack| - 1;
      var w := BufferChange(BufferChange(v, PagingChange(v.s.paging, v.pagingStack[n].0)), P0Change(v.s.p0, v.pagingStack[n].1));
      TurnIs(v, w.(s := w.s.(paging := v.pagingStack[n].0, p0 := v.pagingStack[n].1), pagingStack := v.pagingStack[..n]), rs);
    }
    hide LeaveOrMove, Turns;
  }

  // ----- ticks -----

  // The word at the translated program counter is executed as it decodes, on a machine that differs in what the
  // translation leaves behind alone.
  ghost predicate Runs(v: Vm, r: Outcome, p: Long, decode: Long -> Option<Operation>)
  {
    forall w: Long :: Reads(v.s.mem, p, 8, w) ==>
      match decode(w)
      case None => Refuses(v, r)
      case Some(op) => r == Execute(v.(meta := Walked(v, v.s.pc).meta, lastVirtual := Walked(v, v.s.pc).lastVirtual), op)
  }

  /** A tick executes the little-endian word at the translated program counter, halts where there is no page, and is an
      exception where the walk or the fetch leaves memory, or the word is no instruction. */
  lemma {:induction false} TickLeaves(v: Vm, decode: Long -> Option<Operation>)
    ensures var r := Tick(v, decode);
      match Translate(v.s, v.s.pc)
      case Thrown => Refuses(v, r)
      case Fault(_) => Leaves(v, r, v.s.(active := false))
      case Mapped(p, _) => if p < TWO63 && p + 8 <= |v.s.mem| then Runs(v, r, p, decode) else Refuses(v, r)
  {
    var w := Walked(v, v.s.pc);
    T.WalkedNotes(v, v.s.pc);
    WalkedOnly(v, v.s.pc);
    HaltLeaves(w);
    if Translate(v.s, v.s.pc).Mapped? {
      var p := Translate(v.s, v.s.pc).address;
      InsideIs(v.s.mem, p, Whole, 8);
      if p < TWO63 && p + 8 <= |v.s.mem| { HandlerWord(v.s.mem, p); }
    }
    HaltedIs(w);
    hide Translate, Walked, Execute, Halted, Get, Reads, Inside;
  }

  lemma {:induction false} HaltedIs(v: Vm)
    ensures Execute(v, HaltOp) == Halted(v)
  { hide Halted; }

  lemma {:induction false} WalkedOnly(v: Vm, address: Long)
    ensures Walked(v, address) == v.(meta := Walked(v, address).meta, lastVirtual := Walked(v, address).lastVirtual)
  { hide Translate; }
}
