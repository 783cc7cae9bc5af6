/** Which operations raise an interrupt, told from the machine they start on; and which of them the records of the
    history describe completely. */
module Raises {
  import opened Words
  import opened Machine
  import opened Paging
  import opened Operations
  import V = VirtualMemory

  // The machine at the point where an interrupt is raised, and the interrupt.
  type Raise = Option<(Vm, InterruptType)>

  // ----- memory accesses -----

  // A load raises when its page is missing.
  function LoadRaise(v: Vm, address: Long): Raise
  {
    if !Translate(v.s, address).Fault? then None else
    var w := Walked(v, address);
    Some((Noted(w, w.lastVirtual), PFAULT))
  }

  // A store also when its page may not be written.
  function StoreRaise(v: Vm, address: Long): Raise
  {
    if Translate(v.s, address).Mapped? && !V.WritablePage(v.s, address)
    then Some((Noted(Walked(v, address), Translate(v.s, address).address), BWRITE))
    else LoadRaise(v, address)
  }

  function CopyRaise(v: Vm, source: Long, target: Long, size: Size): Raise
  { if V.Readable(v.s, source, size) then StoreRaise(Walked(v, source), target) else LoadRaise(v, source) }

  function PushRaise(v: Vm, amount: Long): Raise
  {
    var x := SetReg(v, SP, Minus(v.s.regs[SP], amount), false);
    StoreRaise(x, x.s.regs[SP])
  }

  // A fill raises at the first byte, if any, whose page is missing or may not be written once the bytes before it are.
  function FillRaise(v: Vm, start: Long, value: Long, i: nat, count: nat): Raise
    decreases count - i
  {
    if i >= count then None else
    var address := Plus(start, Wrap(i));
    if V.Writable(v.s, address, Byte1)
    then FillRaise(Stored(Walked(v, address), Translate(v.s, address).address, value % 0x100, Byte1), start, value, i + 1, count)
    else StoreRaise(v, address)
  }

  // ----- operations -----

  // A jump through $e0 that is taken outside ring zero.
  predicate LeavesRefused(v: Vm, op: Operation)
  {
    v.s.ring > 0 &&
    match op
    case JumpReg(rd, c) => rd == E0 && CheckConditions(v, c)
    case JumpRegIf(rs, rd) => rd == E0 && v.s.regs[rs] != 0
    case _ => false
  }

  predicate Refuses(v: Vm, op: Operation) { Privileged(op) && v.s.ring > 0 }

  function Raised(v: Vm, op: Operation): Raise
  {
    if Refuses(v, op) || LeavesRefused(v, op) then Some((v, PROTEC)) else
    match op
    case LoadOp(_, place, _) => LoadRaise(v, AddressOf(v, place))
    case StoreOp(_, place, _) => StoreRaise(v, AddressOf(v, place))
    case CopyOp(rs, rd, size) => CopyRaise(v, v.s.regs[rs], v.s.regs[rd], size)
    case LoadIndirectOp(_, imm, _) => LoadRaise(v, imm)
    case MemSetOp(rs, rt, rd) =>
      var count := Signed(v.s.regs[rs]);
      FillRaise(v, v.s.regs[rd], v.s.regs[rt], 0, if count > 0 then count else 0)
    case PushOp(_, amount) => PushRaise(v, amount)
    case PopOp(_, _) => LoadRaise(v, v.s.regs[SP])
    case TranslateOp(rs, _) => LoadRaise(v, v.s.regs[rs])
    case JumpRegLinkIf(rs, rd) => if v.s.regs[rs] != 0 then LoadRaise(v, v.s.regs[rd]) else None
    case SetInterruptTableOp(imm) => LoadRaise(v, imm)
    case Int(imm) => if 1 <= imm < 8 && Admitted(v, imm) then Some((v, imm)) else None
    case ChangeRingOp(place) => if RingAdmitted(v, AddressOf(v, place)) then None else Some((v, PROTEC))
    case _ => None
  }

  // Hardware interrupts can be switched off.
  predicate Admitted(v: Vm, t: InterruptType) { CanDisable(t) ==> v.hardware }

  predicate RingAdmitted(v: Vm, value: Long) { v.s.ring <= RingValue(value) <= 3 }

  // An interrupt without a handler halts the machine.
  predicate HaltsAt(v: Vm, t: InterruptType)
  {
    var entry := Plus(v.s.table, 8 * t);
    v.s.table == 0 || (Inside(v.s.mem, entry, Whole) && Get(v.s.mem, entry, Whole) == 0)
  }

  // ----- what can be taken back -----

  predicate Links(v: Vm, op: Operation)
  {
    match op
    case JumpOp(_, link, c) => link && CheckConditions(v, c)
    case JumpIf(rs, _, link) => link && v.s.regs[rs] != 0
    case JumpRegLink(_, c) => CheckConditions(v, c)
    case JumpRegLinkIf(rs, rd) => v.s.regs[rs] != 0 && Translate(v.s, v.s.regs[rd]).Mapped?
    case _ => false
  }

  /** Steps that undoing everything they recorded takes back: a link finds its own return address already in $rt, an
      interrupt is not raised out of paging, and nothing halts a machine that has halted. */
  predicate Reversible(v: Vm, op: Operation)
  {
    && (Links(v, op) ==> v.s.regs[RT] == Plus(v.s.pc, 8))
    && (op.HaltOp? ==> v.s.active)
    && match Raised(v, op)
       case None => true
       case Some((w, t)) => !v.s.paging && (HaltsAt(w, t) ==> v.s.active)
  }

  /** Steps that every single undo and redo takes back and forth: a refused privileged operation raises Protec twice,
      and must not halt twice. */
  predicate Clean(v: Vm, op: Operation)
  { Reversible(v, op) && (Refuses(v, op) ==> !HaltsAt(v, PROTEC)) }
}
