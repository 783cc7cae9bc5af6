/** The machine's steps as functions of its whole state: wvm/src/VM.cpp, wvm/src/Interrupts.cpp and the operations
    of wvm/src/Operations.cpp. */
module Operations {
  import opened Words
  import opened Machine
  import opened Paging

  // The machine with its history. `recording` is enableHistory; `printed` is what onPrint has been given.
  datatype Vm = Vm(s: State, meta: PageMeta, lastVirtual: Long, pagingStack: seq<(bool, Long)>, hardware: bool,
                   printed: seq<Byte>, recording: bool, undoStack: seq<seq<Change>>, buffer: seq<Change>, pointer: nat)

  // The machine after a call, and whether an exception ended it there.
  datatype Outcome = Outcome(vm: Vm, thrown: bool)

  // ----- recording -----

  function BufferChange(v: Vm, c: Change): Vm
  { if v.recording then v.(buffer := v.buffer + [c]) else v }

  function FinishChange(v: Vm): Vm
  {
    if !v.recording || v.buffer == [] then v else
    v.(undoStack := (if v.pointer < |v.undoStack| then v.undoStack[..v.pointer] else v.undoStack) + [v.buffer],
       pointer := v.pointer + 1, buffer := [])
  }

  function RecordChange(v: Vm, c: Change): Vm { FinishChange(BufferChange(v, c)) }

  // ----- registers, jumps, halting -----

  function WithReg(v: Vm, r: Reg, value: Long): Vm { v.(s := v.s.(regs := v.s.regs[r := value])) }

  function Flags(result: Long): Long { if result == 0 then 1 else if Signed(result) < 0 then 2 else 0 }

  // st() = 0, then Z or N
  function UpdateFlags(v: Vm, result: Long): Vm { WithReg(v, ST, Flags(result)) }

  function SetReg(v: Vm, rd: Reg, value: Long, flags: bool): Vm
  {
    var w := WithReg(BufferChange(v, RegisterChange(rd, v.s.regs[rd], value)), rd, value);
    if flags then UpdateFlags(w, value) else w
  }

  function JumpTo(v: Vm, address: Long, link: bool): Change
  { JumpChange(v.s.pc, address, v.s.regs[RT], Plus(v.s.pc, 8), link) }

  function Jump(v: Vm, address: Long, link: bool): Vm
  {
    var w := if link then WithReg(v, RT, Plus(v.s.pc, 8)) else v;
    var x := RecordChange(w, JumpTo(w, address, link));
    x.(s := x.s.(pc := address))
  }

  function Increment(v: Vm): Vm
  {
    var x := RecordChange(v, JumpTo(v, Plus(v.s.pc, 8), false));
    x.(s := x.s.(pc := Plus(v.s.pc, 8)))
  }

  function Halt(v: Vm): Vm
  { var x := RecordChange(v, HaltChange); x.(s := x.s.(active := false)) }

  function Positive(v: Vm): bool { v.s.regs[ST] / 2 % 2 == 0 && v.s.regs[ST] % 2 == 0 }

  // Conditions other than these five values throw.
  datatype Conditions = Disabled | IfPositive | IfNegative | IfZero | IfNonzero

  function CheckConditions(v: Vm, c: Conditions): bool
  {
    match c
    case Disabled => true
    case IfPositive => Positive(v)
    case IfNegative => v.s.regs[ST] / 2 % 2 == 1
    case IfZero => v.s.regs[ST] % 2 == 1
    case IfNonzero => v.s.regs[ST] % 2 == 0
  }

  // ----- interrupts -----

  type InterruptType = x: int | 1 <= x < 8 witness 1
  const TIMER: InterruptType := 2
  const PROTEC: InterruptType := 3
  const PFAULT: InterruptType := 4
  const BWRITE: InterruptType := 6
  const KEYBRD: InterruptType := 7

  predicate CanDisable(t: InterruptType) { t == TIMER || t == KEYBRD }

  function Halted(v: Vm): Outcome { Outcome(Halt(v), false) }

  // Interrupt::operator()
  function Enter(v: Vm, t: InterruptType): Outcome
  {
    if v.s.table == 0 then Halted(v) else
    var entry := Plus(v.s.table, 8 * t);
    if !Inside(v.s.mem, entry, Whole) then Outcome(v, true) else
    var destination := Get(v.s.mem, entry, Whole);
    if destination == 0 then Halted(v) else
    var e0, e1 := RegisterChange(E0, v.s.regs[E0], v.s.pc), RegisterChange(E1, v.s.regs[E1], v.s.ring);
    var w := WithReg(WithReg(BufferChange(BufferChange(v, e0), e1), E0, v.s.pc), E1, v.s.ring);
    Outcome(Jump(w, destination, false), false)
  }

  // VM::interrupt: paging is switched off behind the history's back.
  function Interrupt(v: Vm, t: InterruptType): Outcome
  {
    if CanDisable(t) && !v.hardware then Outcome(v, false) else
    Enter(v.(hardware := v.hardware && !CanDisable(t), pagingStack := v.pagingStack + [(v.s.paging, v.s.p0)],
             s := v.s.(paging := false)), t)
  }

  function IntProtec(v: Vm): Outcome { Interrupt(v, PROTEC) }

  function Noted(v: Vm, value: Long): Vm
  { WithReg(BufferChange(v, RegisterChange(E2, v.s.regs[E2], value)), E2, value) }

  function IntPfault(v: Vm): Outcome { Interrupt(Noted(v, v.lastVirtual), PFAULT) }

  function IntBwrite(v: Vm, address: Long): Outcome { Interrupt(Noted(v, address), BWRITE) }

  // ----- memory -----

  // What a translation leaves behind besides its result.
  function Walked(v: Vm, address: Long): Vm
  {
    if !v.s.paging then v else
    match Translate(v.s, address)
    case Mapped(_, Some(leaf)) => v.(lastVirtual := address, meta := MetaOf(leaf))
    case Fault(Some(leaf)) => v.(lastVirtual := address, meta := MetaOf(leaf))
    case _ => v.(lastVirtual := address)
  }

  predicate CheckWritable(v: Vm) { !v.s.paging || v.meta.writable }

  function StoreChange(v: Vm, address: Long, value: Long, size: Size): Change
    requires Inside(v.s.mem, address, size)
  { MemoryChange(address, Get(v.s.mem, address, size), value, size) }

  // bufferChange<MemoryChange>, then the accessor
  function Stored(v: Vm, address: Long, value: Long, size: Size): Vm
    requires Inside(v.s.mem, address, size)
  {
    var w := BufferChange(v, StoreChange(v, address, value, size));
    w.(s := w.s.(mem := Put(w.s.mem, address, size, value)))
  }

  // The common shape of every store: translate, fault, check, write, move on.
  function Store(v: Vm, address: Long, value: Long, size: Size): Outcome
  {
    var w := Walked(v, address);
    match Translate(v.s, address)
    case Thrown => Outcome(w, true)
    case Fault(_) => IntPfault(w)
    case Mapped(physical, _) =>
      if !CheckWritable(w) then IntBwrite(w, physical)
      else if !Inside(w.s.mem, physical, size) then Outcome(w, true)
      else Outcome(Increment(Stored(w, physical, value, size)), false)
  }

  // ... and of every load.
  function Load(v: Vm, rd: Reg, address: Long, size: Size): Outcome
  {
    var w := Walked(v, address);
    match Translate(v.s, address)
    case Thrown => Outcome(w, true)
    case Fault(_) => IntPfault(w)
    case Mapped(physical, _) =>
      if !Inside(w.s.mem, physical, size) then Outcome(w, true)
      else Outcome(Increment(SetReg(w, rd, Get(w.s.mem, physical, size), false)), false)
  }

  // A narrow value passes through a signed variable on its way.
  function Extended(value: Long, size: Size): Long
  {
    match size
    case Byte1 => if value % 0x100 >= 0x80 then Wrap(value % 0x100 - 0x100) else value % 0x100
    case Quarter => if value % 0x1_0000 >= 0x8000 then Wrap(value % 0x1_0000 - 0x1_0000) else value % 0x1_0000
    case Half => if value % 0x1_0000_0000 >= 0x8000_0000 then Wrap(value % 0x1_0000_0000 - 0x1_0000_0000) else value % 0x1_0000_0000
    case Whole => value
  }

  function Copy(v: Vm, source: Long, target: Long, size: Size): Outcome
  {
    var w := Walked(v, source);
    match Translate(v.s, source)
    case Thrown => Outcome(w, true)
    case Fault(_) => IntPfault(w)
    case Mapped(physical, _) =>
      if !Inside(w.s.mem, physical, size) then Outcome(w, true)
      else Store(w, target, Extended(Get(w.s.mem, physical, size), size), size)
  }

  // lni and lbni write to an untranslated address.
  function LoadIndirect(v: Vm, rd: Reg, address: Long, size: Size): Outcome
  {
    var w := Walked(v, address);
    match Translate(v.s, address)
    case Thrown => Outcome(w, true)
    case Fault(_) => IntPfault(w)
    case Mapped(physical, _) =>
      if !Inside(w.s.mem, physical, size) || !Inside(w.s.mem, w.s.regs[rd], size) then Outcome(w, true)
      else Outcome(Increment(Stored(w, w.s.regs[rd], Extended(Get(w.s.mem, physical, size), size), size)), false)
  }

  // msOp's loop from byte i on.
  function Fill(v: Vm, start: Long, value: Long, i: nat, count: nat): Outcome
    decreases count - i
  {
    if i >= count then Outcome(Increment(v), false) else
    var address := Plus(start, Wrap(i));
    var w := Walked(v, address);
    match Translate(v.s, address)
    case Thrown => Outcome(w, true)
    case Fault(_) => IntPfault(w)
    case Mapped(physical, _) =>
      if !CheckWritable(w) then IntBwrite(w, physical)
      else if !Inside(w.s.mem, physical, Byte1) then Outcome(w, true)
      else Fill(Stored(w, physical, value % 0x100, Byte1), start, value, i + 1, count)
  }

  function MemSet(v: Vm, rs: Reg, rt: Reg, rd: Reg): Outcome
  {
    var count := Signed(v.s.regs[rs]);
    Fill(v, v.s.regs[rd], v.s.regs[rt], 0, if count > 0 then count else 0)
  }

  function SizeOf(amount: Long): Option<Size>
  {
    if amount == 1 then Some(Byte1) else if amount == 2 then Some(Quarter)
    else if amount == 4 then Some(Half) else if amount == 8 then Some(Whole) else None
  }

  // spush and sspush: the stack pointer moves before anything else.
  function Push(v0: Vm, rs: Reg, amount: Long): Outcome
  {
    var v := SetReg(v0, SP, Minus(v0.s.regs[SP], amount), false);
    var address := v.s.regs[SP];
    var w := Walked(v, address);
    match Translate(v.s, address)
    case Thrown => Outcome(w, true)
    case Fault(_) => IntPfault(w)
    case Mapped(physical, _) =>
      if !CheckWritable(w) then IntBwrite(w, physical)
      else if SizeOf(amount).None? || !Inside(w.s.mem, physical, SizeOf(amount).value) then Outcome(w, true)
      else Outcome(Increment(Stored(w, physical, w.s.regs[rs], SizeOf(amount).value)), false)
  }

  // spop and sspop
  function Pop(v: Vm, rd: Reg, amount: Long): Outcome
  {
    var address := v.s.regs[SP];
    var w := Walked(v, address);
    match Translate(v.s, address)
    case Thrown => Outcome(w, true)
    case Fault(_) => IntPfault(w)
    case Mapped(physical, _) =>
      if SizeOf(amount).None? || !Inside(w.s.mem, physical, SizeOf(amount).value) then Outcome(w, true)
      else
        var x := SetReg(w, rd, Get(w.s.mem, physical, SizeOf(amount).value), false);
        Outcome(Increment(SetReg(x, SP, Plus(x.s.regs[SP], amount), false)), false)
  }

  // ----- privileged operations -----

  // `if (vm.checkRing(Ring::Zero)) ... else vm.intProtec()`, so a failure raises Protec twice.
  function Refused(v: Vm): Outcome
  {
    var first := IntProtec(v);
    if first.thrown then first else IntProtec(first.vm)
  }

  function Moved(v: Vm): Outcome { Outcome(Increment(v), false) }

  function SetPaging(v: Vm, on: bool): Outcome
  {
    if v.s.ring > 0 then Refused(v) else
    var w := BufferChange(v, PagingChange(v.s.paging, on));
    Moved(w.(s := w.s.(paging := on)))
  }

  // Leaving for the address in a register; through $e0 hardware interrupts come back on.
  function LeaveBy(v: Vm, r: Reg): Outcome
  {
    if r == E0 && v.s.ring > 0 then
      var refused := IntProtec(v);
      if refused.thrown then refused else Outcome(Jump(refused.vm, refused.vm.s.regs[r], false), false)
    else
      Outcome(Jump(v.(hardware := v.hardware || r == E0), v.s.regs[r], false), false)
  }

  // setpt and the end of ppop
  function LeaveOrMove(v: Vm, r: Reg): Outcome
  { if v.s.regs[r] != 0 then LeaveBy(v, r) else Moved(v) }

  function SetTable(v: Vm, rs: Reg, rt: Reg): Outcome
  {
    if v.s.ring > 0 then Refused(v) else
    var w := BufferChange(v, P0Change(v.s.p0, v.s.regs[rs]));
    LeaveOrMove(w.(s := w.s.(p0 := v.s.regs[rs])), rt)
  }

  function PagePush(v: Vm): Outcome
  { if v.s.ring > 0 then Refused(v) else Moved(v.(pagingStack := v.pagingStack + [(v.s.paging, v.s.p0)])) }

  function PagePop(v: Vm, rs: Reg): Outcome
  {
    if v.s.ring > 0 then Refused(v)
    else if v.pagingStack == [] then LeaveOrMove(v, rs)
    else
      var (enabled, p0) := v.pagingStack[|v.pagingStack| - 1];
      var w := BufferChange(BufferChange(v, PagingChange(v.s.paging, enabled)), P0Change(v.s.p0, p0));
      LeaveOrMove(w.(s := w.s.(paging := enabled, p0 := p0), pagingStack := v.pagingStack[..|v.pagingStack| - 1]), rs)
  }

  // rit
  function SetInterruptTable(v: Vm, address: Long): Outcome
  {
    if v.s.ring > 0 then Refused(v) else
    var w := Walked(v, address);
    match Translate(v.s, address)
    case Thrown => Outcome(w, true)
    case Fault(_) => IntPfault(w)
    case Mapped(physical, _) =>
      var x := BufferChange(w, TableChange(w.s.table, physical));
      Moved(x.(s := x.s.(table := physical)))
  }

  // ring and ringi: the value is converted to Ring, an int.
  function RingValue(value: Long): int
  { var low := value % 0x1_0000_0000; if low < 0x8000_0000 then low else low - 0x1_0000_0000 }

  function ChangeRing(v: Vm, value: Long): Outcome
  {
    var r := RingValue(value);
    if r < 0 || 3 < r || r < v.s.ring then IntProtec(v) else
    var w := BufferChange(v, RingChange(v.s.ring, r));
    Moved(w.(s := w.s.(ring := r)))
  }

  // ----- all operations -----

  // Where an operation finds an address: a register, an immediate, or the frame pointer less an immediate.
  datatype Place = At(r: Reg) | Immediate(imm: Long) | BelowFrame(offset: Long)

  function AddressOf(v: Vm, p: Place): Long
  {
    match p
    case At(r) => v.s.regs[r]
    case Immediate(imm) => imm
    case BelowFrame(offset) => Minus(v.s.regs[FP], offset)
  }

  datatype Operation =
    | Nop
    | Compute(rd: Reg, rs: Reg, rt: Reg, f: (Long, Long) -> Long, flags: bool)
    | Set(rd: Reg, imm: Long)
    | Compare(rs: Reg, rt: Reg)
    | Multiply(rs: Reg, rt: Reg)
    | LoadOp(rd: Reg, place: Place, size: Size)
    | StoreOp(rs: Reg, place: Place, size: Size)
    | CopyOp(rs: Reg, rd: Reg, size: Size)
    | LoadIndirectOp(rd: Reg, imm: Long, size: Size)
    | MemSetOp(rs: Reg, rt: Reg, rd: Reg)
    | PushOp(rs: Reg, amount: Long)
    | PopOp(rd: Reg, amount: Long)
    | JumpOp(address: Long, link: bool, conditions: Conditions)
    | JumpIf(rs: Reg, address: Long, link: bool)
    | JumpReg(rd: Reg, conditions: Conditions)
    | JumpRegIf(rs: Reg, rd: Reg)
    | JumpRegLink(rd: Reg, conditions: Conditions)
    | JumpRegLinkIf(rs: Reg, rd: Reg)
    | PrintChar(rs: Reg)
    | HaltOp
    | Int(imm: Long)
    | SetInterruptTableOp(imm: Long)
    | ChangeRingOp(place: Place)
    | SetPagingOp(on: bool)
    | SetTableOp(rs: Reg, rt: Reg)
    | PagePushOp
    | PagePopOp(rs: Reg)
    | TranslateOp(rs: Reg, rd: Reg)

  // Memory accesses, jumps, and operations of ring zero.
  predicate IsJump(op: Operation)
  { op.JumpOp? || op.JumpIf? || op.JumpReg? || op.JumpRegIf? || op.JumpRegLink? || op.JumpRegLinkIf? }

  predicate IsAccess(op: Operation)
  {
    op.LoadOp? || op.StoreOp? || op.CopyOp? || op.LoadIndirectOp? || op.MemSetOp? || op.PushOp? || op.PopOp? || op.TranslateOp?
  }

  predicate Privileged(op: Operation)
  { op.SetInterruptTableOp? || op.SetPagingOp? || op.SetTableOp? || op.PagePushOp? || op.PagePopOp? }

  // The 128-bit product of two sign-extended words.
  function HighProduct(x: Long, y: Long): Long { Wrap(Signed(x) * Signed(y) / TWO64) }
  function LowProduct(x: Long, y: Long): Long { Wrap(Signed(x) * Signed(y)) }

  function Product(v: Vm, x: Long, y: Long): Vm
  {
    var hi, lo := RegisterChange(HI, v.s.regs[HI], HighProduct(x, y)), RegisterChange(LO, v.s.regs[LO], LowProduct(x, y));
    WithReg(WithReg(BufferChange(BufferChange(v, hi), lo), LO, LowProduct(x, y)), HI, HighProduct(x, y))
  }

  function JumpRegLinkIfOp(v: Vm, rs: Reg, rd: Reg): Outcome
  {
    if v.s.regs[rs] == 0 then Moved(v) else
    var w := Walked(v, v.s.regs[rd]);
    match Translate(v.s, v.s.regs[rd])
    case Thrown => Outcome(w, true)
    case Fault(_) => IntPfault(w)
    case Mapped(physical, _) => Outcome(Jump(w, physical, true), false)
  }

  function TranslateReg(v: Vm, rs: Reg, rd: Reg): Outcome
  {
    var w := Walked(v, v.s.regs[rs]);
    match Translate(v.s, v.s.regs[rs])
    case Thrown => Outcome(w, true)
    case Fault(_) => IntPfault(w)
    case Mapped(physical, _) => Moved(SetReg(w, rd, physical, false))
  }

  function Execute(v: Vm, op: Operation): Outcome
  {
    match op
    case Nop => Moved(v)
    case Compute(rd, rs, rt, f, flags) => Moved(SetReg(v, rd, f(v.s.regs[rs], v.s.regs[rt]), flags))
    case Set(rd, imm) => Moved(SetReg(v, rd, imm, false))
    case Compare(rs, rt) => Moved(UpdateFlags(v, Minus(v.s.regs[rs], v.s.regs[rt])))
    case Multiply(rs, rt) => Moved(Product(v, v.s.regs[rs], v.s.regs[rt]))
    case LoadOp(rd, place, size) => Load(v, rd, AddressOf(v, place), size)
    case StoreOp(rs, place, size) => Store(v, AddressOf(v, place), v.s.regs[rs], size)
    case CopyOp(rs, rd, size) => Copy(v, v.s.regs[rs], v.s.regs[rd], size)
    case LoadIndirectOp(rd, imm, size) => LoadIndirect(v, rd, imm, size)
    case MemSetOp(rs, rt, rd) => MemSet(v, rs, rt, rd)
    case PushOp(rs, amount) => Push(v, rs, amount)
    case PopOp(rd, amount) => Pop(v, rd, amount)
    case JumpOp(address, link, c) => if CheckConditions(v, c) then Outcome(Jump(v, address, link), false) else Moved(v)
    case JumpIf(rs, address, link) => if v.s.regs[rs] != 0 then Outcome(Jump(v, address, link), false) else Moved(v)
    case JumpReg(rd, c) => if CheckConditions(v, c) then LeaveBy(v, rd) else Moved(v)
    case JumpRegIf(rs, rd) => if v.s.regs[rs] != 0 then LeaveBy(v, rd) else Moved(v)
    case JumpRegLink(rd, c) => if CheckConditions(v, c) then Outcome(Jump(v, v.s.regs[rd], true), false) else Moved(v)
    case JumpRegLinkIf(rs, rd) => JumpRegLinkIfOp(v, rs, rd)
    case PrintChar(rs) => Moved(v.(printed := v.printed + [v.s.regs[rs] % 0x100]))
    case HaltOp => Halted(v)
    case Int(imm) => if 1 <= imm < 8 then Interrupt(v, imm) else Outcome(v, true)
    case SetInterruptTableOp(imm) => SetInterruptTable(v, imm)
    case ChangeRingOp(place) => ChangeRing(v, AddressOf(v, place))
    case SetPagingOp(on) => SetPaging(v, on)
    case SetTableOp(rs, rt) => SetTable(v, rs, rt)
    case PagePushOp => PagePush(v)
    case PagePopOp(rs) => PagePop(v, rs)
    case TranslateOp(rs, rd) => TranslateReg(v, rs, rd)
  }

  // VM::tick, for any decoding of instruction words: fetch through the page tables and execute, or halt where the
  // program counter does not translate.
  function Tick(v: Vm, decode: Long -> Option<Operation>): Outcome
  {
    var w := Walked(v, v.s.pc);
    match Translate(v.s, v.s.pc)
    case Thrown => Outcome(w, true)
    case Fault(_) => Halted(w)
    case Mapped(physical, _) =>
      if !Inside(w.s.mem, physical, Whole) then Outcome(w, true) else
      match decode(Get(w.s.mem, physical, Whole))
      case None => Outcome(w, true)
      case Some(op) => Execute(w, op)
  }

  // ----- undo and redo -----

  predicate AllReach(cs: seq<Change>, s: State) { forall i :: 0 <= i < |cs| ==> Reaches(cs[i], s) }

  lemma {:induction false} ReachesSize(cs: seq<Change>, s: State, t: State)
    requires AllReach(cs, s) && |s.mem| == |t.mem|
    ensures AllReach(cs, t)
  { assert forall i :: 0 <= i < |cs| ==> Reaches(cs[i], s); }

  function ApplyAll(cs: seq<Change>, s: State): (t: State)
    requires AllReach(cs, s)
    ensures |t.mem| == |s.mem|
  {
    if cs == [] then s else
    var t := Apply(cs[0], s);
    ReachesSize(cs, s, t);
    ApplyAll(cs[1..], t)
  }

  // Last change first.
  function UndoAll(cs: seq<Change>, s: State): (t: State)
    requires AllReach(cs, s)
    ensures |t.mem| == |s.mem|
  {
    if cs == [] then s else
    var n := |cs| - 1;
    var t := Undo(cs[n], s);
    ReachesSize(cs, s, t);
    UndoAll(cs[..n], t)
  }

  // A group whose memory is gone throws halfway; the state it leaves then is not described.
  predicate CanUndo(v: Vm)
  { 0 < v.pointer <= |v.undoStack| && AllReach(v.undoStack[v.pointer - 1], v.s) }

  predicate CanRedo(v: Vm)
  { v.pointer < |v.undoStack| && AllReach(v.undoStack[v.pointer], v.s) }

  function UndoStep(v: Vm): Vm
    requires CanUndo(v)
  { v.(s := UndoAll(v.undoStack[v.pointer - 1], v.s), pointer := v.pointer - 1) }

  function RedoStep(v: Vm): Vm
    requires CanRedo(v)
  { v.(s := ApplyAll(v.undoStack[v.pointer], v.s), pointer := v.pointer + 1) }
}
