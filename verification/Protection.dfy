/** What no program can do from outside ring zero, what a handler gets back, and what the conditions mean. */
module Protection {
  import opened Words
  import opened Machine
  import opened Paging
  import opened Operations

  // ----- rings -----

  // The ring has not dropped, and outside ring zero the page table and interrupt table registers are as they were.
  predicate Confined(v: Vm, w: Vm)
  {
    && w.s.ring >= v.s.ring && |w.s.mem| == |v.s.mem|
    && (v.s.ring > 0 ==> w.s.p0 == v.s.p0 && w.s.table == v.s.table)
  }

  // None of the three has changed.
  predicate Kept(v: Vm, w: Vm)
  { w.s.ring == v.s.ring && |w.s.mem| == |v.s.mem| && w.s.p0 == v.s.p0 && w.s.table == v.s.table }

  lemma {:induction false} KeptBasics(v: Vm)
    ensures Kept(v, Increment(v)) && Kept(v, Halt(v))
    ensures forall a: Long, link: bool :: Kept(v, Jump(v, a, link))
    ensures forall r: Reg, x: Long, f: bool :: Kept(v, SetReg(v, r, x, f))
    ensures forall x: Long :: Kept(v, Noted(v, x))
  { hide Flags; }

  lemma {:induction false} KeptWalk(v: Vm, address: Long)
    ensures Kept(v, Walked(v, address)) && Walked(v, address).s == v.s
  { hide Translate; }

  lemma {:induction false} KeptStored(v: Vm, address: Long, value: Long, size: Size)
    requires Inside(v.s.mem, address, size)
    ensures Kept(v, Stored(v, address, value, size))
  { hide Put, Get; }

  lemma {:induction false} KeptInterrupt(v: Vm, t: InterruptType)
    ensures Kept(v, Interrupt(v, t).vm)
  {
    hide Get, Jump, Halt;
    if !(CanDisable(t) && !v.hardware) {
      var w := v.(hardware := v.hardware && !CanDisable(t), pagingStack := v.pagingStack + [(v.s.paging, v.s.p0)],
                  s := v.s.(paging := false));
      KeptBasics(w);
      if w.s.table != 0 && Inside(w.s.mem, Plus(w.s.table, 8 * t), Whole) {
        var e0, e1 := RegisterChange(E0, w.s.regs[E0], w.s.pc), RegisterChange(E1, w.s.regs[E1], w.s.ring);
        KeptBasics(WithReg(WithReg(BufferChange(BufferChange(w, e0), e1), E0, w.s.pc), E1, w.s.ring));
      }
    }
  }

  lemma {:induction false} KeptFault(v: Vm, value: Long, t: InterruptType)
    ensures Kept(v, Interrupt(Noted(v, value), t).vm)
  {
    hide Interrupt, Noted;
    KeptBasics(v);
    KeptInterrupt(Noted(v, value), t);
  }

  lemma {:induction false} KeptStore(v: Vm, address: Long, value: Long, size: Size)
    ensures Kept(v, Store(v, address, value, size).vm)
  {
    hide Translate, Interrupt, Noted, Stored, Increment, Walked;
    var w := Walked(v, address);
    KeptWalk(v, address);
    match Translate(v.s, address)
    case Thrown =>
    case Fault(_) => KeptFault(w, w.lastVirtual, PFAULT);
    case Mapped(physical, _) =>
      KeptFault(w, physical, BWRITE);
      if Inside(w.s.mem, physical, size) {
        KeptStored(w, physical, value, size);
        KeptBasics(Stored(w, physical, value, size));
      }
  }

  lemma {:induction false} KeptLoad(v: Vm, rd: Reg, address: Long, size: Size)
    ensures Kept(v, Load(v, rd, address, size).vm)
  {
    hide Translate, Interrupt, Noted, SetReg, Increment, Walked, Get;
    var w := Walked(v, address);
    KeptWalk(v, address);
    match Translate(v.s, address)
    case Thrown =>
    case Fault(_) => KeptFault(w, w.lastVirtual, PFAULT);
    case Mapped(physical, _) =>
      KeptBasics(w);
      if Inside(w.s.mem, physical, size) { KeptBasics(SetReg(w, rd, Get(w.s.mem, physical, size), false)); }
  }

  lemma {:induction false} KeptCopy(v: Vm, source: Long, target: Long, size: Size)
    ensures Kept(v, Copy(v, source, target, size).vm)
  {
    hide Translate, Interrupt, Noted, Store, Walked, Get, Extended;
    var w := Walked(v, source);
    KeptWalk(v, source);
    match Translate(v.s, source)
    case Thrown =>
    case Fault(_) => KeptFault(w, w.lastVirtual, PFAULT);
    case Mapped(physical, _) =>
      if Inside(w.s.mem, physical, size) { KeptStore(w, target, Extended(Get(w.s.mem, physical, size), size), size); }
  }

  lemma {:induction false} KeptIndirect(v: Vm, rd: Reg, address: Long, size: Size)
    ensures Kept(v, LoadIndirect(v, rd, address, size).vm)
  {
    hide Translate, Interrupt, Noted, Stored, Increment, Walked, Get, Extended;
    var w := Walked(v, address);
    KeptWalk(v, address);
    match Translate(v.s, address)
    case Thrown =>
    case Fault(_) => KeptFault(w, w.lastVirtual, PFAULT);
    case Mapped(physical, _) =>
      if Inside(w.s.mem, physical, size) && Inside(w.s.mem, w.s.regs[rd], size) {
        var value := Extended(Get(w.s.mem, physical, size), size);
        KeptStored(w, w.s.regs[rd], value, size);
        KeptBasics(Stored(w, w.s.regs[rd], value, size));
      }
  }

  lemma {:induction false} KeptFill(v: Vm, start: Long, value: Long, i: nat, count: nat)
    ensures Kept(v, Fill(v, start, value, i, count).vm)
    decreases count - i
  {
    hide Translate, Interrupt, Noted, Stored, Increment, Walked, Get;
    if i >= count {
      KeptBasics(v);
    } else {
      var address := Plus(start, Wrap(i));
      var w := Walked(v, address);
      KeptWalk(v, address);
      match Translate(v.s, address)
      case Thrown =>
      case Fault(_) => KeptFault(w, w.lastVirtual, PFAULT);
      case Mapped(physical, _) =>
        KeptFault(w, physical, BWRITE);
        if Inside(w.s.mem, physical, Byte1) {
          KeptStored(w, physical, value % 0x100, Byte1);
          KeptFill(Stored(w, physical, value % 0x100, Byte1), start, value, i + 1, count);
        }
    }
  }

  lemma {:induction false} KeptPush(v: Vm, rs: Reg, amount: Long)
    ensures Kept(v, Push(v, rs, amount).vm)
  {
    hide Translate, Interrupt, Noted, Stored, Increment, Walked, Get, SetReg, SizeOf;
    KeptBasics(v);
    var x := SetReg(v, SP, Minus(v.s.regs[SP], amount), false);
    var w := Walked(x, x.s.regs[SP]);
    KeptWalk(x, x.s.regs[SP]);
    match Translate(x.s, x.s.regs[SP])
    case Thrown =>
    case Fault(_) => KeptFault(w, w.lastVirtual, PFAULT);
    case Mapped(physical, _) =>
      KeptFault(w, physical, BWRITE);
      if SizeOf(amount).Some? && Inside(w.s.mem, physical, SizeOf(amount).value) {
        KeptStored(w, physical, w.s.regs[rs], SizeOf(amount).value);
        KeptBasics(Stored(w, physical, w.s.regs[rs], SizeOf(amount).value));
      }
  }

  lemma {:induction false} KeptPop(v: Vm, rd: Reg, amount: Long)
    ensures Kept(v, Pop(v, rd, amount).vm)
  {
    hide Translate, Interrupt, Noted, Increment, Walked, Get, SetReg, SizeOf;
    var w := Walked(v, v.s.regs[SP]);
    KeptWalk(v, v.s.regs[SP]);
    match Translate(v.s, v.s.regs[SP])
    case Thrown =>
    case Fault(_) => KeptFault(w, w.lastVirtual, PFAULT);
    case Mapped(physical, _) =>
      if SizeOf(amount).Some? && Inside(w.s.mem, physical, SizeOf(amount).value) {
        KeptBasics(w);
        var x := SetReg(w, rd, Get(w.s.mem, physical, SizeOf(amount).value), false);
        KeptBasics(x);
        KeptBasics(SetReg(x, SP, Plus(x.s.regs[SP], amount), false));
      }
  }

  lemma {:induction false} KeptTranslate(v: Vm, rs: Reg, rd: Reg)
    ensures Kept(v, TranslateReg(v, rs, rd).vm)
  {
    hide Translate, Interrupt, Noted, Increment, Walked, SetReg;
    var w := Walked(v, v.s.regs[rs]);
    KeptWalk(v, v.s.regs[rs]);
    match Translate(v.s, v.s.regs[rs])
    case Thrown =>
    case Fault(_) => KeptFault(w, w.lastVirtual, PFAULT);
    case Mapped(physical, _) => KeptBasics(w); KeptBasics(SetReg(w, rd, physical, false));
  }

  lemma {:induction false} AccessKeeps(v: Vm, op: Operation)
    requires IsAccess(op)
    ensures Kept(v, Execute(v, op).vm)
  {
    hide Kept, Load, Store, Copy, LoadIndirect, Fill, Push, Pop, TranslateReg, AddressOf;
    match op
    case LoadOp(rd, place, size) => KeptLoad(v, rd, AddressOf(v, place), size);
    case StoreOp(rs, place, size) => KeptStore(v, AddressOf(v, place), v.s.regs[rs], size);
    case CopyOp(rs, rd, size) => KeptCopy(v, v.s.regs[rs], v.s.regs[rd], size);
    case LoadIndirectOp(rd, imm, size) => KeptIndirect(v, rd, imm, size);
    case MemSetOp(rs, rt, rd) =>
      var count := Signed(v.s.regs[rs]);
      KeptFill(v, v.s.regs[rd], v.s.regs[rt], 0, if count > 0 then count else 0);
    case PushOp(rs, amount) => KeptPush(v, rs, amount);
    case PopOp(rd, amount) => KeptPop(v, rd, amount);
    case TranslateOp(rs, rd) => KeptTranslate(v, rs, rd);
  }

  lemma {:induction false} LeaveKeeps(v: Vm, r: Reg)
    ensures Kept(v, LeaveBy(v, r).vm)
  {
    hide Interrupt, Jump;
    KeptInterrupt(v, PROTEC);
    KeptBasics(IntProtec(v).vm);
    KeptBasics(v.(hardware := v.hardware || r == E0));
  }

  lemma {:induction false} JumpKeeps(v: Vm, op: Operation)
    requires IsJump(op)
    ensures Kept(v, Execute(v, op).vm)
  {
    hide Kept, Execute;
    match op
    case JumpOp(address, link, c) => JumpOpKeeps(v, address, link, c);
    case JumpIf(rs, address, link) => JumpIfKeeps(v, rs, address, link);
    case JumpReg(rd, c) => JumpRegKeeps(v, rd, c);
    case JumpRegIf(rs, rd) => JumpRegIfKeeps(v, rs, rd);
    case JumpRegLink(rd, c) => JumpRegLinkKeeps(v, rd, c);
    case JumpRegLinkIf(rs, rd) => LinkIfKeeps(v, rs, rd); LinkIfIs(v, rs, rd);
  }

  lemma {:induction false} JumpOpKeeps(v: Vm, address: Long, link: bool, c: Conditions)
    ensures Kept(v, Execute(v, JumpOp(address, link, c)).vm)
  { hide Kept, Jump, Increment, CheckConditions; KeptBasics(v); }

  lemma {:induction false} JumpIfKeeps(v: Vm, rs: Reg, address: Long, link: bool)
    ensures Kept(v, Execute(v, JumpIf(rs, address, link)).vm)
  { hide Kept, Jump, Increment; KeptBasics(v); }

  lemma {:induction false} JumpRegKeeps(v: Vm, rd: Reg, c: Conditions)
    ensures Kept(v, Execute(v, JumpReg(rd, c)).vm)
  { hide Kept, LeaveBy, Increment, CheckConditions; KeptBasics(v); LeaveKeeps(v, rd); }

  lemma {:induction false} JumpRegIfKeeps(v: Vm, rs: Reg, rd: Reg)
    ensures Kept(v, Execute(v, JumpRegIf(rs, rd)).vm)
  { hide Kept, LeaveBy, Increment; KeptBasics(v); LeaveKeeps(v, rd); }

  lemma {:induction false} JumpRegLinkKeeps(v: Vm, rd: Reg, c: Conditions)
    ensures Kept(v, Execute(v, JumpRegLink(rd, c)).vm)
  { hide Kept, Jump, Increment, CheckConditions; KeptBasics(v); }

  lemma {:induction false} LinkIfIs(v: Vm, rs: Reg, rd: Reg)
    ensures Execute(v, JumpRegLinkIf(rs, rd)) == JumpRegLinkIfOp(v, rs, rd)
  { hide JumpRegLinkIfOp; }

  lemma {:induction false} LinkIfKeeps(v: Vm, rs: Reg, rd: Reg)
    ensures Kept(v, JumpRegLinkIfOp(v, rs, rd).vm)
  {
    hide Jump, Increment, Walked, Translate, Interrupt, Noted;
    KeptBasics(v);
    var w := Walked(v, v.s.regs[rd]);
    KeptWalk(v, v.s.regs[rd]);
    KeptBasics(w);
    KeptFault(w, w.lastVirtual, PFAULT);
  }

  lemma {:induction false} RefusedKeeps(v: Vm)
    ensures Kept(v, Refused(v).vm)
  {
    hide Interrupt;
    KeptInterrupt(v, PROTEC);
    KeptInterrupt(IntProtec(v).vm, PROTEC);
  }

  lemma {:induction false} LeaveOrMoveKeeps(v: Vm, r: Reg)
    ensures Kept(v, LeaveOrMove(v, r).vm)
  {
    hide LeaveBy, Increment;
    LeaveKeeps(v, r);
    KeptBasics(v);
  }

  // In ring zero the tables may change, but not the ring.
  lemma {:induction false} PrivilegedConfined(v: Vm, op: Operation)
    requires Privileged(op)
    ensures Confined(v, Execute(v, op).vm) && Execute(v, op).vm.s.ring == v.s.ring
  {
    if v.s.ring == 0 {
      hide Execute;
      match op
      case SetInterruptTableOp(imm) => TableKeeps(v, imm);
      case SetPagingOp(on) => PagingKeeps(v, on);
      case SetTableOp(rs, rt) => SetTableKeeps(v, rs, rt);
      case PagePushOp => PagePushKeeps(v);
      case PagePopOp(rs) => PopKeeps(v, rs);
    } else {
      RefusesAll(v, op);
      hide Execute, Refused;
      RefusedKeeps(v);
    }
  }

  lemma {:induction false} RefusesAll(v: Vm, op: Operation)
    requires Privileged(op) && v.s.ring > 0
    ensures Execute(v, op) == Refused(v)
  { hide Refused; }

  lemma {:induction false} PagingKeeps(v: Vm, on: bool)
    requires v.s.ring == 0
    ensures var w := Execute(v, SetPagingOp(on)).vm; w.s.ring == 0 && |w.s.mem| == |v.s.mem|
  {
    hide Increment;
    var w := BufferChange(v, PagingChange(v.s.paging, on));
    KeptBasics(w.(s := w.s.(paging := on)));
  }

  lemma {:induction false} SetTableKeeps(v: Vm, rs: Reg, rt: Reg)
    requires v.s.ring == 0
    ensures var w := Execute(v, SetTableOp(rs, rt)).vm; w.s.ring == 0 && |w.s.mem| == |v.s.mem|
  {
    hide LeaveOrMove;
    var w := BufferChange(v, P0Change(v.s.p0, v.s.regs[rs]));
    LeaveOrMoveKeeps(w.(s := w.s.(p0 := v.s.regs[rs])), rt);
  }

  lemma {:induction false} PagePushKeeps(v: Vm)
    requires v.s.ring == 0
    ensures var w := Execute(v, PagePushOp).vm; w.s.ring == 0 && |w.s.mem| == |v.s.mem|
  {
    hide Increment;
    KeptBasics(v.(pagingStack := v.pagingStack + [(v.s.paging, v.s.p0)]));
  }

  lemma {:induction false} TableKeeps(v: Vm, address: Long)
    requires v.s.ring == 0
    ensures var w := Execute(v, SetInterruptTableOp(address)).vm; w.s.ring == 0 && |w.s.mem| == |v.s.mem|
  {
    hide Increment, Walked, Translate, Interrupt, Noted;
    KeptWalk(v, address);
    var w := Walked(v, address);
    KeptFault(w, w.lastVirtual, PFAULT);
    if Translate(v.s, address).Mapped? {
      var x := BufferChange(w, TableChange(w.s.table, Translate(v.s, address).address));
      KeptBasics(x.(s := x.s.(table := Translate(v.s, address).address)));
    }
  }

  lemma {:induction false} PopKeeps(v: Vm, rs: Reg)
    requires v.s.ring == 0
    ensures var w := Execute(v, PagePopOp(rs)).vm; w.s.ring == 0 && |w.s.mem| == |v.s.mem|
  {
    hide LeaveOrMove;
    LeaveOrMoveKeeps(v, rs);
    if v.pagingStack != [] {
      var (enabled, p0) := v.pagingStack[|v.pagingStack| - 1];
      var w := BufferChange(BufferChange(v, PagingChange(v.s.paging, enabled)), P0Change(v.s.p0, p0));
      LeaveOrMoveKeeps(w.(s := w.s.(paging := enabled, p0 := p0), pagingStack := v.pagingStack[..|v.pagingStack| - 1]), rs);
    }
  }

  lemma {:induction false} PlainConfined(v: Vm, op: Operation)
    requires !IsAccess(op) && !IsJump(op) && !Privileged(op)
    ensures Confined(v, Execute(v, op).vm)
  {
    hide Increment, SetReg, Interrupt, Halt, Flags, HighProduct, LowProduct;
    KeptBasics(v);
    match op
    case Compute(rd, rs, rt, f, flags) => KeptBasics(SetReg(v, rd, f(v.s.regs[rs], v.s.regs[rt]), flags));
    case Set(rd, imm) => KeptBasics(SetReg(v, rd, imm, false));
    case Compare(rs, rt) => KeptBasics(UpdateFlags(v, Minus(v.s.regs[rs], v.s.regs[rt])));
    case Multiply(rs, rt) => KeptBasics(Product(v, v.s.regs[rs], v.s.regs[rt]));
    case PrintChar(rs) => KeptBasics(v.(printed := v.printed + [v.s.regs[rs] % 0x100]));
    case Int(imm) => if 1 <= imm < 8 { KeptInterrupt(v, imm); }
    case ChangeRingOp(place) =>
      KeptInterrupt(v, PROTEC);
      var r := RingValue(AddressOf(v, place));
      if 0 <= r <= 3 && r >= v.s.ring {
        var w := BufferChange(v, RingChange(v.s.ring, r));
        KeptBasics(w.(s := w.s.(ring := r)));
      }
    case _ =>
  }

  lemma {:induction false} StepConfined(v: Vm, op: Operation)
    ensures Confined(v, Execute(v, op).vm)
  {
    hide Execute;
    if IsAccess(op) { AccessKeeps(v, op); }
    else if IsJump(op) { JumpKeeps(v, op); }
    else if Privileged(op) { PrivilegedConfined(v, op); }
    else { PlainConfined(v, op); }
  }

  // A program's steps; an exception ends it.
  function RunAll(v: Vm, ops: seq<Operation>): Vm
    decreases |ops|
  {
    if ops == [] then v else
    var r := Execute(v, ops[0]);
    if r.thrown then r.vm else RunAll(r.vm, ops[1..])
  }

  /** Over any program: the ring never drops, and from outside ring zero the page table register and the interrupt
      table never change. */
  lemma {:induction false} RunConfined(v: Vm, ops: seq<Operation>)
    ensures Confined(v, RunAll(v, ops))
    decreases |ops|
  {
    hide Execute;
    if ops != [] {
      StepConfined(v, ops[0]);
      var r := Execute(v, ops[0]);
      if !r.thrown { RunConfined(r.vm, ops[1..]); }
    }
  }

  lemma {:induction false} TickConfined(v: Vm, decode: Long -> Option<Operation>)
    ensures Confined(v, Tick(v, decode).vm)
  {
    hide Execute, Walked, Halt, Translate, Get;
    var w := Walked(v, v.s.pc);
    KeptWalk(v, v.s.pc);
    KeptBasics(w);
    if Translate(v.s, v.s.pc).Mapped? && Inside(w.s.mem, Translate(v.s, v.s.pc).address, Whole) {
      var op := decode(Get(w.s.mem, Translate(v.s, v.s.pc).address, Whole));
      if op.Some? { StepConfined(w, op.value); }
    }
  }

  // Up to n ticks; an exception ends the run.
  function RunTicks(v: Vm, decode: Long -> Option<Operation>, n: nat): Vm
    decreases n
  {
    if n == 0 then v else
    var r := Tick(v, decode);
    if r.thrown then r.vm else RunTicks(r.vm, decode, n - 1)
  }

  /** A program in memory, ticked any number of times and free to rewrite itself, is confined as well. */
  lemma {:induction false} TicksConfined(v: Vm, decode: Long -> Option<Operation>, n: nat)
    ensures Confined(v, RunTicks(v, decode, n))
    decreases n
  {
    hide Tick;
    if n > 0 {
      TickConfined(v, decode);
      var r := Tick(v, decode);
      if !r.thrown { TicksConfined(r.vm, decode, n - 1); }
    }
  }

  // ----- coming back from an interrupt -----

  predicate HandlerPresent(v: Vm, t: InterruptType)
  {
    var entry := Plus(v.s.table, 8 * t);
    v.s.table != 0 && Inside(v.s.mem, entry, Whole) && Get(v.s.mem, entry, Whole) != 0 && (CanDisable(t) ==> v.hardware)
  }

  /** A handler that leaves by popping the paging state and jumping through $e0 gives back the paging, the page table
      and the paging stack, with hardware interrupts on, if it runs in ring zero; the program resumes where it was
      exactly when it was not at address zero, which ppop takes for `no jump`. A handler entered from another ring
      cannot leave this way: the ring is not changed on entry, and the pop is refused. */
  lemma {:induction false} HandlerReturns(v: Vm, t: InterruptType)
    requires HandlerPresent(v, t)
    ensures !Interrupt(v, t).thrown
    ensures var inside := Interrupt(v, t).vm; var back := PagePop(inside, E0);
      if v.s.ring == 0 then
        !back.thrown && back.vm.s.paging == v.s.paging && back.vm.s.p0 == v.s.p0 && back.vm.pagingStack == v.pagingStack
        && (back.vm.s.pc == v.s.pc <==> v.s.pc != 0 || Plus(inside.s.pc, 8) == 0)
        && (v.s.pc != 0 ==> back.vm.hardware)
      else
        |back.vm.pagingStack| > |inside.pagingStack|
  {
    hide Get;
    var inside := Interrupt(v, t).vm;
    Entered(v, t);
    if v.s.ring == 0 {
      ZeroRingPop(inside, v);
    } else {
      hide Interrupt;
      RefusedPushes(inside);
    }
  }

  lemma {:induction false} Entered(v: Vm, t: InterruptType)
    requires HandlerPresent(v, t)
    ensures var r := Interrupt(v, t);
      !r.thrown && r.vm.s.regs[E0] == v.s.pc && r.vm.s.regs[E1] == v.s.ring && r.vm.s.ring == v.s.ring
      && r.vm.pagingStack == v.pagingStack + [(v.s.paging, v.s.p0)] && !r.vm.s.paging
      && r.vm.s.pc == Get(v.s.mem, Plus(v.s.table, 8 * t), Whole)
  { hide Get; }

  lemma {:induction false} ZeroRingPop(inside: Vm, v: Vm)
    requires inside.s.ring == 0 && inside.pagingStack == v.pagingStack + [(v.s.paging, v.s.p0)] && inside.s.regs[E0] == v.s.pc
    ensures var back := PagePop(inside, E0);
      !back.thrown && back.vm.s.paging == v.s.paging && back.vm.s.p0 == v.s.p0 && back.vm.pagingStack == v.pagingStack
      && back.vm.s.pc == (if v.s.pc != 0 then v.s.pc else Plus(inside.s.pc, 8))
      && (v.s.pc != 0 ==> back.vm.hardware)
  {
    assert inside.pagingStack[..|inside.pagingStack| - 1] == v.pagingStack;
  }

  lemma {:induction false} RefusedPushes(v: Vm)
    requires v.s.ring > 0
    ensures |PagePop(v, E0).vm.pagingStack| > |v.pagingStack|
  {
    hide Interrupt;
    ProtecPushes(v);
    ProtecPushes(IntProtec(v).vm);
  }

  lemma {:induction false} ProtecPushes(v: Vm)
    ensures |IntProtec(v).vm.pagingStack| == |v.pagingStack| + 1
  { hide Get; }

  // ----- conditions -----

  // The signed difference needs no more than 64 bits.
  predicate NoOverflow(x: Long, y: Long) { -TWO63 <= Signed(x) - Signed(y) < TWO63 }

  /** After a comparison exactly one of the three conditions holds; `zero` is equality; and `negative` is the signed
      order exactly when the difference does not overflow. */
  lemma {:induction false} CompareThenCheck(v: Vm, rs: Reg, rt: Reg)
    ensures var w, x, y := Execute(v, Compare(rs, rt)).vm, v.s.regs[rs], v.s.regs[rt];
      && (CheckConditions(w, IfZero) <==> x == y)
      && (CheckConditions(w, IfNonzero) <==> x != y)
      && (CheckConditions(w, IfPositive) <==> !CheckConditions(w, IfZero) && !CheckConditions(w, IfNegative))
      && !(CheckConditions(w, IfZero) && CheckConditions(w, IfNegative))
      && ((CheckConditions(w, IfNegative) <==> Signed(x) < Signed(y)) <==> NoOverflow(x, y))
  {
    var x, y := v.s.regs[rs], v.s.regs[rt];
    hide Increment, Flags, Signed;
    IncrementFlags(UpdateFlags(v, Minus(x, y)));
    FlagsMean(Minus(x, y));
    DifferenceSign(x, y);
  }

  lemma {:induction false} IncrementFlags(v: Vm)
    ensures Increment(v).s.regs == v.s.regs
  {}

  lemma {:induction false} FlagsMean(d: Long)
    ensures Flags(d) % 2 == 1 <==> d == 0
    ensures Flags(d) / 2 % 2 == 1 <==> Signed(d) < 0
  {}

  lemma {:induction false} DifferenceSign(x: Long, y: Long)
    ensures Minus(x, y) == 0 <==> x == y
    ensures (Signed(Minus(x, y)) < 0 <==> Signed(x) < Signed(y)) <==> NoOverflow(x, y)
    ensures Minus(x, y) == 0 ==> Signed(Minus(x, y)) == 0
  {}
}
