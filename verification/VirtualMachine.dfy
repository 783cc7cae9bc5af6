/** The machine itself: its fields, and the methods that update them in place (wvm/src/VM.cpp, wvm/src/Interrupts.cpp,
    wvm/src/Operations.cpp). Each method is held to the function of the same name on the machine's whole state. */
module VirtualMachine {
  import opened Words
  import opened Longs
  import opened Machine
  import opened Paging
  import ObjectText
  import O = Operations
  import V = VirtualMemory
  import Protection

  class VM {
    var memory: seq<Byte>
    const registers: array<Long>
    var programCounter: Long
    var ring: Ring
    var p0: Long
    var pagingOn: bool
    var interruptTableAddress: Long
    var active: bool
    var lastMeta: PageMeta
    var lastVirtual: Long
    var pagingStack: seq<(bool, Long)>
    var hardwareInterruptsEnabled: bool
    var printed: seq<Byte>
    var enableHistory: bool
    var undoStack: seq<seq<Change>>
    var changeBuffer: seq<Change>
    var undoPointer: nat

    ghost predicate Valid()
      reads this
    { registers.Length == 128 }

    ghost function View(): O.Vm
      reads this, registers
      requires Valid()
    {
      O.Vm(State(memory, registers[..], programCounter, ring, p0, pagingOn, interruptTableAddress, active), lastMeta,
           lastVirtual, pagingStack, hardwareInterruptsEnabled, printed, enableHistory, undoStack, changeBuffer, undoPointer)
    }

    constructor (memorySize: nat, enableHistory: bool)
      ensures Valid() && fresh(registers)
      ensures View() == O.Vm(State(Repeat(0, memorySize), seq(128, _ => 0), TWO64 - 1, 0, 0, false, 0, false),
        PageMeta(false, false, false, false, false, false), 0, [], true, [], enableHistory, [], [], 0)
    {
      memory := Repeat(0, memorySize);
      registers := new Long[128](_ => 0);
      programCounter, ring, p0, pagingOn, interruptTableAddress, active := TWO64 - 1, 0, 0, false, 0, false;
      lastMeta, lastVirtual := PageMeta(false, false, false, false, false, false), 0;
      pagingStack, hardwareInterruptsEnabled, printed := [], true, [];
      this.enableHistory, undoStack, changeBuffer, undoPointer := enableHistory, [], [], 0;
      new;
      assert registers[..] == seq(128, _ => 0);
    }

    // ----- memory -----

    /** getByte, getQuarterword, getHalfword and getWord, little-endian. */
    method GetMemory(address: Long, size: Size) returns (r: Option<Long>)
      requires Valid()
      ensures r == if Inside(memory, address, size) then Some(Get(memory, address, size)) else None
    {
      if !Inside(memory, address, size) { return None; }
      var out: nat := 0;
      ghost var bytes := memory[address..address + Bytes(size)];
      for i := 0 to Bytes(size)
        invariant out == Join(bytes[..i])
      {
        OrNextByte(bytes, i);
        out := BitOr(out, Shl(memory[address + i], 8 * i));
      }
      assert bytes[..Bytes(size)] == bytes;
      Join8Bound(bytes);
      JoinSplit(Get(memory, address, size), Bytes(size));
      r := Some(out);
    }

    /** setByte, setQuarterword, setHalfword and setWord, little-endian. */
    method SetMemory(address: Long, value: Long, size: Size) returns (thrown: bool)
      requires Valid()
      modifies `memory
      ensures thrown <==> !old(Inside(memory, address, size))
      ensures memory == if thrown then old(memory) else Put(old(memory), address, size, value)
    {
      if !Inside(memory, address, size) { return true; }
      var bytes := Split(value, Bytes(size));
      for i := 0 to Bytes(size)
        invariant |memory| == |old(memory)|
        invariant forall k :: 0 <= k < |memory| ==>
          memory[k] == if address <= k < address + i then bytes[k - address] else old(memory)[k]
      {
        memory := memory[address + i := ByteOf(value, i)];
      }
      thrown := false;
    }

    /** translateAddress: the result, and what it leaves in lastVirtual and lastMeta. */
    method TranslateAddress(address: Long) returns (r: Translation)
      requires Valid()
      modifies `lastVirtual, `lastMeta
      ensures r == Translate(old(View()).s, address)
      ensures View() == O.Walked(old(View()), address)
    {
      hide Lookup, Digits;
      if !pagingOn { return Mapped(address, None); }
      lastVirtual := address;
      if p0 == 0 { return Fault(None); }
      var walk := WalkSixLevels(memory, p0, address);
      if walk.OutOfMemory? { return Thrown; }
      if walk.Missing? { return Fault(None); }
      lastMeta := MetaOf(walk.entry);
      r := if Present(walk.entry) then Mapped(PageAddress(walk.entry, address), Some(walk.entry)) else Fault(Some(walk.entry));
    }

    // ----- history -----

    method BufferChange(c: Change)
      requires Valid()
      modifies `changeBuffer
      ensures View() == O.BufferChange(old(View()), c)
    {
      if enableHistory { changeBuffer := changeBuffer + [c]; }
    }

    /** Closes the buffered group, if there is one: what could still be redone is dropped, the group becomes the last
        of the stack, and the buffer is empty again. */
    method FinishChange()
      requires Valid()
      modifies `undoStack, `undoPointer, `changeBuffer
      ensures View() == O.FinishChange(old(View()))
      ensures !enableHistory || old(changeBuffer) == [] ==> View() == old(View())
      ensures enableHistory ==> changeBuffer == []
      ensures enableHistory && old(changeBuffer) != [] && old(undoPointer) <= |old(undoStack)| ==>
        undoPointer == |undoStack| == old(undoPointer) + 1
        && undoStack[..old(undoPointer)] == old(undoStack)[..old(undoPointer)] && undoStack[old(undoPointer)] == old(changeBuffer)
    {
      if !enableHistory || changeBuffer == [] { return; }
      if undoPointer < |undoStack| { undoStack := undoStack[..undoPointer]; }
      undoPointer := undoPointer + 1;
      undoStack := undoStack + [changeBuffer];
      changeBuffer := [];
    }

    method RecordChange(c: Change)
      requires Valid()
      modifies `undoStack, `undoPointer, `changeBuffer
      ensures View() == O.RecordChange(old(View()), c)
    {
      BufferChange(c);
      FinishChange();
    }

    method Assign(r: Reg, value: Long)
      requires Valid()
      modifies registers
      ensures View() == O.WithReg(old(View()), r, value)
    { registers[r] := value; }

    /** Change::apply. */
    method ApplyChange(c: Change) returns (thrown: bool)
      requires Valid()
      modifies this, registers
      ensures thrown <==> !Reaches(c, old(View()).s)
      ensures !thrown ==> View() == old(View()).(s := Apply(c, old(View()).s))
    {
      hide Put, Inside;
      thrown := false;
      match c
      case MemoryChange(address, _, will, size) => thrown := SetMemory(address, will, size);
      case RegisterChange(reg, _, will) => Assign(reg, will);
      case JumpChange(_, will, _, returnWill, link) =>
        programCounter := will;
        if link { Assign(RT, returnWill); }
      case _ => ApplySwitch(c);
    }

    // The changes of a single field.
    method ApplySwitch(c: Change)
      requires Valid() && !c.MemoryChange? && !c.RegisterChange? && !c.JumpChange?
      modifies `interruptTableAddress, `ring, `active, `pagingOn, `p0
      ensures View() == old(View()).(s := Apply(c, old(View()).s))
    {
      match c
      case TableChange(_, will) => interruptTableAddress := will;
      case RingChange(_, will) => ring := will;
      case HaltChange => active := false;
      case PagingChange(_, will) => pagingOn := will;
      case P0Change(_, will) => p0 := will;
    }

    /** Change::undo. */
    method UndoChange(c: Change) returns (thrown: bool)
      requires Valid()
      modifies this, registers
      ensures thrown <==> !Reaches(c, old(View()).s)
      ensures !thrown ==> View() == old(View()).(s := Machine.Undo(c, old(View()).s))
    {
      hide Put, Inside;
      thrown := false;
      match c
      case MemoryChange(address, was, _, size) => thrown := SetMemory(address, was, size);
      case RegisterChange(reg, was, _) => Assign(reg, was);
      case JumpChange(was, _, returnWas, _, link) =>
        programCounter := was;
        if link { Assign(RT, returnWas); }
      case _ => UndoSwitch(c);
    }

    // The changes of a single field.
    method UndoSwitch(c: Change)
      requires Valid() && !c.MemoryChange? && !c.RegisterChange? && !c.JumpChange?
      modifies `interruptTableAddress, `ring, `active, `pagingOn, `p0
      ensures View() == old(View()).(s := Machine.Undo(c, old(View()).s))
    {
      match c
      case TableChange(was, _) => interruptTableAddress := was;
      case RingChange(was, _) => ring := was;
      case HaltChange => active := true;
      case PagingChange(was, _) => pagingOn := was;
      case P0Change(was, _) => p0 := was;
    }

    /** VM::undo: the last group's changes, last first. */
    method Undo() returns (done: bool)
      requires Valid()
      modifies this, registers
      ensures O.CanUndo(old(View())) ==> done && View() == O.UndoStep(old(View()))
      ensures old(undoPointer) == 0 ==> !done && View() == old(View())
    {
      hide Apply, Machine.Undo, Reaches;
      if undoPointer == 0 { return false; }
      if undoPointer > |undoStack| { return false; }
      undoPointer := undoPointer - 1;
      var changes := undoStack[undoPointer];
      ghost var can := O.CanUndo(old(View()));
      ghost var v := View();
      var i := |changes|;
      assert changes[..i] == changes;
      while i > 0
        invariant 0 <= i <= |changes|
        invariant can ==> View() == v.(s := View().s) && O.AllReach(changes[..i], View().s)
        invariant can ==> O.UndoAll(changes[..i], View().s) == O.UndoAll(changes, v.s)
      {
        ghost var s := View().s;
        i := i - 1;
        assert changes[..i + 1][..i] == changes[..i] && changes[..i + 1][i] == changes[i];
        var thrown := UndoChange(changes[i]);
        if thrown { return false; }
        if can { O.ReachesSize(changes[..i], s, View().s); }
      }
      done := true;
    }

    /** VM::redo: the next group's changes in order. */
    method Redo() returns (done: bool)
      requires Valid()
      modifies this, registers
      ensures O.CanRedo(old(View())) ==> done && View() == O.RedoStep(old(View()))
      ensures old(undoPointer) == |old(undoStack)| ==> !done && View() == old(View())
    {
      hide Apply, Machine.Undo, Reaches;
      if undoPointer == |undoStack| { return false; }
      if undoPointer > |undoStack| { return false; }
      var changes := undoStack[undoPointer];
      undoPointer := undoPointer + 1;
      ghost var can := O.CanRedo(old(View()));
      ghost var v := View();
      assert changes[0..] == changes;
      for i := 0 to |changes|
        invariant Valid()
        invariant can ==> View() == v.(s := View().s) && O.AllReach(changes[i..], View().s)
        invariant can ==> O.ApplyAll(changes[i..], View().s) == O.ApplyAll(changes, v.s)
      {
        ghost var s := View().s;
        assert changes[i..][0] == changes[i] && changes[i..][1..] == changes[i + 1..];
        var thrown := ApplyChange(changes[i]);
        if thrown { return false; }
        if can { Later(changes, i, s, View().s); }
      }
      done := true;
    }

    // ----- registers, jumps, halting -----

    method UpdateFlags(result: Long)
      requires Valid()
      modifies registers
      ensures View() == O.UpdateFlags(old(View()), result)
    {
      registers[ST] := 0;
      if result == 0 { registers[ST] := 1; }
      else if Signed(result) < 0 { registers[ST] := 2; }
    }

    method SetReg(rd: Reg, value: Long, flags: bool)
      requires Valid()
      modifies registers, `changeBuffer
      ensures View() == O.SetReg(old(View()), rd, value, flags)
    {
      BufferChange(RegisterChange(rd, registers[rd], value));
      registers[rd] := value;
      if flags { UpdateFlags(value); }
    }

    method Jump(address: Long, link: bool)
      requires Valid()
      modifies this, registers
      ensures View() == O.Jump(old(View()), address, link)
    {
      if link { registers[RT] := Plus(programCounter, 8); }
      RecordChange(JumpChange(programCounter, address, registers[RT], Plus(programCounter, 8), link));
      programCounter := address;
    }

    method Increment()
      requires Valid()
      modifies this
      ensures View() == O.Increment(old(View()))
    {
      RecordChange(JumpChange(programCounter, Plus(programCounter, 8), registers[RT], Plus(programCounter, 8), false));
      programCounter := Plus(programCounter, 8);
    }

    method Halt()
      requires Valid()
      modifies this
      ensures View() == O.Halt(old(View()))
    {
      RecordChange(HaltChange);
      active := false;
    }

    // ----- interrupts -----

    method EnterInterrupt(t: O.InterruptType) returns (thrown: bool)
      requires Valid()
      modifies this, registers
      ensures O.Outcome(View(), thrown) == O.Enter(old(View()), t)
    {
      hide O.Jump, O.Halt, Get;
      if interruptTableAddress == 0 {
        Halt();
        return false;
      }
      var destination := GetMemory(Plus(interruptTableAddress, 8 * t), Whole);
      if destination.None? { return true; }
      if destination.value == 0 {
        Halt();
        return false;
      }
      BufferChange(RegisterChange(E0, registers[E0], programCounter));
      BufferChange(RegisterChange(E1, registers[E1], ring));
      registers[E0] := programCounter;
      registers[E1] := ring;
      Jump(destination.value, false);
      thrown := false;
    }

    // The handler's address, if the table is set and the word is there.
    function Handler(t: O.InterruptType): Option<Long>
      reads this
    {
      var entry := Plus(interruptTableAddress, 8 * t);
      if interruptTableAddress == 0 then Some(0) else if Inside(memory, entry, Whole) then Some(Get(memory, entry, Whole)) else None
    }

    /** VM::interrupt. A hardware interrupt that is switched off does nothing. Any other saves paging and turns it off,
        and leaves memory, ring and tables alone; then the machine goes to the handler with its position and ring in
        $e0 and $e1, or halts where it stands for want of a handler. */
    method Interrupt(t: O.InterruptType) returns (thrown: bool)
      requires Valid()
      modifies this, registers
      ensures O.Outcome(View(), thrown) == O.Interrupt(old(View()), t)
      ensures memory == old(memory) && ring == old(ring) && p0 == old(p0) && interruptTableAddress == old(interruptTableAddress)
      ensures O.CanDisable(t) && !old(hardwareInterruptsEnabled) ==> !thrown && View() == old(View())
      ensures !O.CanDisable(t) || old(hardwareInterruptsEnabled) ==>
        !pagingOn && pagingStack == old(pagingStack) + [(old(pagingOn), old(p0))] && (thrown <==> Handler(t).None?)
      ensures (!O.CanDisable(t) || old(hardwareInterruptsEnabled)) && !thrown ==>
        if Handler(t).value == 0 then !active && programCounter == old(programCounter) && registers[..] == old(registers[..])
        else active == old(active) && programCounter == Handler(t).value
             && registers[..] == old(registers[..])[E0 := old(programCounter)][E1 := old(ring)]
    {
      hide O.Enter;
      if !O.CanDisable(t) || hardwareInterruptsEnabled { InterruptMeans(View(), t); }
      if O.CanDisable(t) {
        if !hardwareInterruptsEnabled { return false; }
        hardwareInterruptsEnabled := false;
      }
      pagingStack := pagingStack + [(pagingOn, p0)];
      pagingOn := false;
      thrown := EnterInterrupt(t);
    }

    method IntProtec() returns (thrown: bool)
      requires Valid()
      modifies this, registers
      ensures O.Outcome(View(), thrown) == O.IntProtec(old(View()))
    { thrown := Interrupt(O.PROTEC); }

    method IntPfault() returns (thrown: bool)
      requires Valid()
      modifies this, registers
      ensures O.Outcome(View(), thrown) == O.IntPfault(old(View()))
    {
      hide O.Interrupt;
      BufferChange(RegisterChange(E2, registers[E2], lastVirtual));
      registers[E2] := lastVirtual;
      thrown := Interrupt(O.PFAULT);
    }

    method IntBwrite(address: Long) returns (thrown: bool)
      requires Valid()
      modifies this, registers
      ensures O.Outcome(View(), thrown) == O.IntBwrite(old(View()), address)
    {
      hide O.Interrupt;
      BufferChange(RegisterChange(E2, registers[E2], address));
      registers[E2] := address;
      thrown := Interrupt(O.BWRITE);
    }

    // `checkRing(Ring::Zero)` and, where it fails, the second Protec of its caller.
    method Refuse() returns (thrown: bool)
      requires Valid()
      modifies this, registers
      ensures O.Outcome(View(), thrown) == O.Refused(old(View()))
    {
      hide O.Interrupt;
      thrown := IntProtec();
      if !thrown { thrown := IntProtec(); }
    }

    // ----- operations -----

    // bufferChange<MemoryChange>, then the accessor.
    method StoreAt(address: Long, value: Long, size: Size) returns (thrown: bool)
      requires Valid()
      modifies `memory, `changeBuffer
      ensures thrown <==> !old(Inside(memory, address, size))
      ensures View() == if thrown then old(View()) else O.Stored(old(View()), address, value, size)
    {
      hide Put;
      var was := GetMemory(address, size);
      if was.None? { return true; }
      BufferChange(MemoryChange(address, was.value, value, size));
      thrown := SetMemory(address, value, size);
    }

    method Store(address: Long, value: Long, size: Size) returns (thrown: bool)
      requires Valid()
      modifies this, registers
      ensures O.Outcome(View(), thrown) == O.Store(old(View()), address, value, size)
      ensures memory == if old(V.Writable(View().s, address, size))
                        then old(Put(memory, Translate(View().s, address).address, size, value)) else old(memory)
    {
      V.StoreEffect(View(), address, value, size);
      hide Translate, O.Walked, O.Stored, O.Increment, O.Interrupt, O.Noted, Inside;
      var translated := TranslateAddress(address);
      WalkedSame(old(View()), address);
      match translated
      case Thrown => thrown := true;
      case Fault(_) => thrown := IntPfault();
      case Mapped(physical, _) =>
        if pagingOn && !lastMeta.writable {
          thrown := IntBwrite(physical);
        } else {
          thrown := StoreAt(physical, value, size);
          if !thrown { Increment(); }
        }
    }

    method Load(rd: Reg, address: Long, size: Size) returns (thrown: bool)
      requires Valid()
      modifies this, registers
      ensures O.Outcome(View(), thrown) == O.Load(old(View()), rd, address, size)
      ensures memory == old(memory)
      ensures old(V.Readable(View().s, address, size)) ==>
        !thrown && registers[..] == old(registers[..][rd := Get(memory, Translate(View().s, address).address, size)])
    {
      V.LoadEffect(View(), rd, address, size);
      hide Translate, O.Walked, O.SetReg, O.Increment, O.Interrupt, O.Noted, Inside, Get;
      var translated := TranslateAddress(address);
      WalkedSame(old(View()), address);
      match translated
      case Thrown => thrown := true;
      case Fault(_) => thrown := IntPfault();
      case Mapped(physical, _) =>
        var value := GetMemory(physical, size);
        if value.None? { return true; }
        SetReg(rd, value.value, false);
        Increment();
        thrown := false;
    }

    method Copy(source: Long, target: Long, size: Size) returns (thrown: bool)
      requires Valid()
      modifies this, registers
      ensures O.Outcome(View(), thrown) == O.Copy(old(View()), source, target, size)
    {
      hide Translate, O.Walked, O.Store, O.Interrupt, O.Noted, Inside, Get, O.Extended;
      var translated := TranslateAddress(source);
      WalkedSame(old(View()), source);
      match translated
      case Thrown => thrown := true;
      case Fault(_) => thrown := IntPfault();
      case Mapped(physical, _) =>
        var value := GetMemory(physical, size);
        if value.None? { return true; }
        thrown := Store(target, O.Extended(value.value, size), size);
    }

    method LoadIndirect(rd: Reg, address: Long, size: Size) returns (thrown: bool)
      requires Valid()
      modifies this, registers
      ensures O.Outcome(View(), thrown) == O.LoadIndirect(old(View()), rd, address, size)
    {
      hide Translate, O.Walked, O.Stored, O.Increment, O.Interrupt, O.Noted, Inside, Get, O.Extended;
      var translated := TranslateAddress(address);
      WalkedSame(old(View()), address);
      match translated
      case Thrown => thrown := true;
      case Fault(_) => thrown := IntPfault();
      case Mapped(physical, _) =>
        var value := GetMemory(physical, size);
        if value.None? { return true; }
        thrown := StoreAt(registers[rd], O.Extended(value.value, size), size);
        if !thrown { Increment(); }
    }

    /** msOp. */
    method MemSet(rs: Reg, rt: Reg, rd: Reg) returns (thrown: bool)
      requires Valid()
      modifies this, registers
      ensures O.Outcome(View(), thrown) == O.MemSet(old(View()), rs, rt, rd)
    {
      hide Translate, O.Walked, O.Stored, O.Increment, O.Interrupt, O.Noted, Inside, Get;
      ghost var start, value := registers[rd], registers[rt];
      var i := 0;
      ghost var count := if Signed(registers[rs]) > 0 then Signed(registers[rs]) else 0;
      while i < Signed(registers[rs])
        invariant 0 <= i <= count && registers[..] == old(registers[..])
        invariant O.Fill(View(), start, value, i, count) == O.Fill(old(View()), start, value, 0, count)
        decreases count - i
      {
        ghost var v := View();
        assert registers[rs] == old(registers[rs]) && registers[rt] == value && registers[rd] == start;
        var address := Plus(registers[rd], Wrap(i));
        var translated := TranslateAddress(address);
        WalkedSame(v, address);
        match translated {
          case Thrown => return true;
          case Fault(_) =>
            thrown := IntPfault();
            return;
          case Mapped(physical, _) =>
            if pagingOn && !lastMeta.writable {
              thrown := IntBwrite(physical);
              return;
            }
            var failed := StoreAt(physical, registers[rt] % 0x100, Byte1);
            if failed { return true; }
        }
        i := i + 1;
      }
      Increment();
      thrown := false;
    }

    method Push(rs: Reg, amount: Long) returns (thrown: bool)
      requires Valid()
      modifies this, registers
      ensures O.Outcome(View(), thrown) == O.Push(old(View()), rs, amount)
    {
      hide Translate, O.Walked, O.Stored, O.Increment, O.Interrupt, O.Noted, Inside, Get, O.SetReg, O.SizeOf;
      SetReg(SP, Minus(registers[SP], amount), false);
      ghost var v := View();
      var translated := TranslateAddress(registers[SP]);
      WalkedSame(v, v.s.regs[SP]);
      match translated
      case Thrown => thrown := true;
      case Fault(_) => thrown := IntPfault();
      case Mapped(physical, _) =>
        if pagingOn && !lastMeta.writable { thrown := IntBwrite(physical); return; }
        var size := O.SizeOf(amount);
        if size.None? { return true; }
        thrown := StoreAt(physical, registers[rs], size.value);
        if !thrown { Increment(); }
    }

    method Pop(rd: Reg, amount: Long) returns (thrown: bool)
      requires Valid()
      modifies this, registers
      ensures O.Outcome(View(), thrown) == O.Pop(old(View()), rd, amount)
    {
      hide Translate, O.Walked, O.SetReg, O.Increment, O.Interrupt, O.Noted, Inside, Get, O.SizeOf;
      ghost var v := View();
      var translated := TranslateAddress(registers[SP]);
      WalkedSame(v, v.s.regs[SP]);
      match translated
      case Thrown => thrown := true;
      case Fault(_) => thrown := IntPfault();
      case Mapped(physical, _) =>
        var size := O.SizeOf(amount);
        if size.None? { return true; }
        var value := GetMemory(physical, size.value);
        if value.None? { return true; }
        SetReg(rd, value.value, false);
        SetReg(SP, Plus(registers[SP], amount), false);
        Increment();
        thrown := false;
    }

    method TranslateReg(rs: Reg, rd: Reg) returns (thrown: bool)
      requires Valid()
      modifies this, registers
      ensures O.Outcome(View(), thrown) == O.TranslateReg(old(View()), rs, rd)
    {
      hide Translate, O.Walked, O.SetReg, O.Increment, O.Interrupt, O.Noted;
      var translated := TranslateAddress(registers[rs]);
      match translated
      case Thrown => thrown := true;
      case Fault(_) => thrown := IntPfault();
      case Mapped(physical, _) =>
        SetReg(rd, physical, false);
        Increment();
        thrown := false;
    }

    method LeaveBy(r: Reg) returns (thrown: bool)
      requires Valid()
      modifies this, registers
      ensures O.Outcome(View(), thrown) == O.LeaveBy(old(View()), r)
    {
      hide O.Interrupt, O.Jump;
      if r == E0 {
        if ring > 0 {
          thrown := IntProtec();
          if thrown { return; }
        } else {
          hardwareInterruptsEnabled := true;
        }
      }
      Jump(registers[r], false);
      thrown := false;
    }

    method LeaveOrMove(r: Reg) returns (thrown: bool)
      requires Valid()
      modifies this, registers
      ensures O.Outcome(View(), thrown) == O.LeaveOrMove(old(View()), r)
    {
      hide O.LeaveBy, O.Increment;
      if registers[r] != 0 {
        thrown := LeaveBy(r);
      } else {
        Increment();
        thrown := false;
      }
    }

    method JumpRegLinkIf(rs: Reg, rd: Reg) returns (thrown: bool)
      requires Valid()
      modifies this, registers
      ensures O.Outcome(View(), thrown) == O.JumpRegLinkIfOp(old(View()), rs, rd)
    {
      hide Translate, O.Walked, O.Jump, O.Increment, O.Interrupt, O.Noted;
      if registers[rs] == 0 {
        Increment();
        return false;
      }
      var translated := TranslateAddress(registers[rd]);
      match translated
      case Thrown => thrown := true;
      case Fault(_) => thrown := IntPfault();
      case Mapped(physical, _) =>
        Jump(physical, true);
        thrown := false;
    }

    method SetInterruptTable(address: Long) returns (thrown: bool)
      requires Valid()
      modifies this, registers
      ensures O.Outcome(View(), thrown) == O.SetInterruptTable(old(View()), address)
    {
      hide Translate, O.Walked, O.Increment, O.Interrupt, O.Noted, O.Refused;
      if ring > 0 {
        thrown := Refuse();
        return;
      }
      var translated := TranslateAddress(address);
      match translated
      case Thrown => thrown := true;
      case Fault(_) => thrown := IntPfault();
      case Mapped(physical, _) =>
        BufferChange(TableChange(interruptTableAddress, physical));
        interruptTableAddress := physical;
        Increment();
        thrown := false;
    }

    method SetPaging(on: bool) returns (thrown: bool)
      requires Valid()
      modifies this, registers
      ensures O.Outcome(View(), thrown) == O.SetPaging(old(View()), on)
    {
      hide O.Increment, O.Refused;
      if ring > 0 {
        thrown := Refuse();
        return;
      }
      BufferChange(PagingChange(pagingOn, on));
      pagingOn := on;
      Increment();
      thrown := false;
    }

    method SetTable(rs: Reg, rt: Reg) returns (thrown: bool)
      requires Valid()
      modifies this, registers
      ensures O.Outcome(View(), thrown) == O.SetTable(old(View()), rs, rt)
    {
      hide O.LeaveOrMove, O.Refused;
      if ring > 0 {
        thrown := Refuse();
        return;
      }
      BufferChange(P0Change(p0, registers[rs]));
      p0 := registers[rs];
      thrown := LeaveOrMove(rt);
    }

    method PagePush() returns (thrown: bool)
      requires Valid()
      modifies this, registers
      ensures O.Outcome(View(), thrown) == O.PagePush(old(View()))
    {
      hide O.Increment, O.Refused;
      if ring > 0 {
        thrown := Refuse();
        return;
      }
      pagingStack := pagingStack + [(pagingOn, p0)];
      Increment();
      thrown := false;
    }

    method PagePop(rs: Reg) returns (thrown: bool)
      requires Valid()
      modifies this, registers
      ensures O.Outcome(View(), thrown) == O.PagePop(old(View()), rs)
    {
      hide O.LeaveOrMove, O.Refused;
      if ring > 0 {
        thrown := Refuse();
        return;
      }
      if pagingStack != [] {
        var (enabled, table) := pagingStack[|pagingStack| - 1];
        BufferChange(PagingChange(pagingOn, enabled));
        BufferChange(P0Change(p0, table));
        pagingOn, p0 := enabled, table;
        pagingStack := pagingStack[..|pagingStack| - 1];
      }
      thrown := LeaveOrMove(rs);
    }

    method ChangeRing(value: Long) returns (thrown: bool)
      requires Valid()
      modifies this, registers
      ensures O.Outcome(View(), thrown) == O.ChangeRing(old(View()), value)
    {
      hide O.Increment, O.Interrupt;
      var newRing := O.RingValue(value);
      if newRing < 0 || 3 < newRing || newRing < ring {
        thrown := IntProtec();
        return;
      }
      BufferChange(RingChange(ring, newRing));
      ring := newRing;
      Increment();
      thrown := false;
    }

    method Multiply(rs: Reg, rt: Reg)
      requires Valid()
      modifies this, registers
      ensures View() == O.Increment(O.Product(old(View()), old(registers[rs]), old(registers[rt])))
    {
      hide O.Increment, O.HighProduct, O.LowProduct;
      var x, y := registers[rs], registers[rt];
      var oldHi, oldLo := registers[HI], registers[LO];
      Assign(LO, O.LowProduct(x, y));
      Assign(HI, O.HighProduct(x, y));
      BufferChange(RegisterChange(HI, oldHi, registers[HI]));
      BufferChange(RegisterChange(LO, oldLo, registers[LO]));
      Increment();
    }

    // Jump if the condition holds, else move on.
    method JumpWhen(condition: bool, address: Long, link: bool)
      requires Valid()
      modifies this, registers
      ensures View() == if condition then O.Jump(old(View()), address, link) else O.Increment(old(View()))
    {
      hide O.Jump, O.Increment;
      if condition { Jump(address, link); } else { Increment(); }
    }

    method LeaveWhen(condition: bool, r: Reg) returns (thrown: bool)
      requires Valid()
      modifies this, registers
      ensures O.Outcome(View(), thrown) == if condition then O.LeaveBy(old(View()), r) else O.Moved(old(View()))
    {
      hide O.LeaveBy, O.Increment;
      thrown := false;
      if condition { thrown := LeaveBy(r); } else { Increment(); }
    }

    method AddressOf(p: O.Place) returns (address: Long)
      requires Valid()
      ensures address == O.AddressOf(View(), p)
    {
      match p
      case At(r) => address := registers[r];
      case Immediate(imm) => address := imm;
      case BelowFrame(offset) => address := Minus(registers[FP], offset);
    }

    method Condition(c: O.Conditions) returns (holds: bool)
      requires Valid()
      ensures holds == O.CheckConditions(View(), c)
    {
      var z, n := registers[ST] % 2 == 1, registers[ST] / 2 % 2 == 1;
      holds := match c
        case Disabled => true
        case IfPositive => !n && !z
        case IfNegative => n
        case IfZero => z
        case IfNonzero => !z;
    }

    method ExecuteAccess(op: O.Operation) returns (thrown: bool)
      requires Valid() && O.IsAccess(op)
      modifies this, registers
      ensures O.Outcome(View(), thrown) == O.Execute(old(View()), op)
    {
      hide O.Load, O.Store, O.Copy, O.LoadIndirect, O.MemSet, O.Push, O.Pop, O.TranslateReg, O.AddressOf;
      thrown := false;
      match op
      case LoadOp(rd, place, size) => var address := AddressOf(place); thrown := Load(rd, address, size);
      case StoreOp(rs, place, size) => var address := AddressOf(place); thrown := Store(address, registers[rs], size);
      case CopyOp(rs, rd, size) => thrown := Copy(registers[rs], registers[rd], size);
      case LoadIndirectOp(rd, imm, size) => thrown := LoadIndirect(rd, imm, size);
      case MemSetOp(rs, rt, rd) => thrown := MemSet(rs, rt, rd);
      case PushOp(rs, amount) => thrown := Push(rs, amount);
      case PopOp(rd, amount) => thrown := Pop(rd, amount);
      case TranslateOp(rs, rd) => thrown := TranslateReg(rs, rd);
    }

    method ExecuteJump(op: O.Operation) returns (thrown: bool)
      requires Valid() && O.IsJump(op)
      modifies this, registers
      ensures O.Outcome(View(), thrown) == O.Execute(old(View()), op)
    {
      hide O.Jump, O.LeaveBy, O.Increment, O.CheckConditions, O.JumpRegLinkIfOp;
      thrown := false;
      match op
      case JumpOp(address, link, c) => var holds := Condition(c); JumpWhen(holds, address, link);
      case JumpIf(rs, address, link) => JumpWhen(registers[rs] != 0, address, link);
      case JumpReg(rd, c) => var holds := Condition(c); thrown := LeaveWhen(holds, rd);
      case JumpRegIf(rs, rd) => thrown := LeaveWhen(registers[rs] != 0, rd);
      case JumpRegLink(rd, c) => var holds := Condition(c); JumpWhen(holds, registers[rd], true);
      case JumpRegLinkIf(rs, rd) => thrown := JumpRegLinkIf(rs, rd);
    }

    method ExecutePrivileged(op: O.Operation) returns (thrown: bool)
      requires Valid() && O.Privileged(op)
      modifies this, registers
      ensures O.Outcome(View(), thrown) == O.Execute(old(View()), op)
    {
      hide O.SetInterruptTable, O.SetPaging, O.SetTable, O.PagePush, O.PagePop;
      thrown := false;
      match op
      case SetInterruptTableOp(imm) => thrown := SetInterruptTable(imm);
      case SetPagingOp(on) => thrown := SetPaging(on);
      case SetTableOp(rs, rt) => thrown := SetTable(rs, rt);
      case PagePushOp => thrown := PagePush();
      case PagePopOp(rs) => thrown := PagePop(rs);
    }

    method ExecutePlain(op: O.Operation) returns (thrown: bool)
      requires Valid() && !O.IsAccess(op) && !O.IsJump(op) && !O.Privileged(op)
      modifies this, registers
      ensures O.Outcome(View(), thrown) == O.Execute(old(View()), op)
    {
      hide O.Increment, O.SetReg, O.Interrupt, O.ChangeRing, O.Product, O.UpdateFlags, O.AddressOf, O.Halt;
      thrown := false;
      match op
      case Nop => Increment();
      case Compute(rd, rs, rt, f, flags) => SetReg(rd, f(registers[rs], registers[rt]), flags); Increment();
      case Set(rd, imm) => SetReg(rd, imm, false); Increment();
      case Compare(rs, rt) => UpdateFlags(Minus(registers[rs], registers[rt])); Increment();
      case Multiply(rs, rt) => Multiply(rs, rt);
      case PrintChar(rs) => printed := printed + [registers[rs] % 0x100]; Increment();
      case HaltOp => Halt();
      case Int(imm) => if 1 <= imm < 8 { thrown := Interrupt(imm); } else { thrown := true; }
      case ChangeRingOp(place) => var value := AddressOf(place); thrown := ChangeRing(value);
    }

    /** Operations::execute, for an operation already decoded. */
    method Execute(op: O.Operation) returns (thrown: bool)
      requires Valid()
      modifies this, registers
      ensures O.Outcome(View(), thrown) == O.Execute(old(View()), op)
      ensures Protection.Confined(old(View()), View())
    {
      hide O.Execute;
      Protection.StepConfined(View(), op);
      if O.IsAccess(op) { thrown := ExecuteAccess(op); }
      else if O.IsJump(op) { thrown := ExecuteJump(op); }
      else if O.Privileged(op) { thrown := ExecutePrivileged(op); }
      else { thrown := ExecutePlain(op); }
    }

    /** VM::tick. */
    method Tick(decode: Long -> Option<O.Operation>) returns (thrown: bool)
      requires Valid()
      modifies this, registers
      ensures O.Outcome(View(), thrown) == O.Tick(old(View()), decode)
      ensures Protection.Confined(old(View()), View())
    {
      Protection.TickConfined(View(), decode);
      hide O.Execute, Translate, O.Walked, O.Halt, Split;
      ghost var v := View();
      var translated := TranslateAddress(programCounter);
      WalkedSame(v, v.s.pc);
      match translated
      case Thrown => thrown := true;
      case Fault(_) =>
        Halt();
        thrown := false;
      case Mapped(physical, _) =>
        if !Inside(memory, physical, Whole) { return true; }
        var instruction := ObjectText.FetchInstruction(memory, physical);
        Fetched(memory, physical, instruction);
        var op := decode(instruction);
        if op.None? { return true; }
        thrown := Execute(op.value);
    }
  }

  lemma {:induction false} Fetched(memory: seq<Byte>, address: Long, instruction: Long)
    requires Inside(memory, address, Whole) && Split(instruction, 8) == memory[address..address + 8]
    ensures instruction == Get(memory, address, Whole)
  {
    Fits8(instruction);
    SplitInjective(instruction, Get(memory, address, Whole), 8);
  }

  // What an interrupt does, told on the state.
  lemma {:induction false} InterruptMeans(v: O.Vm, t: O.InterruptType)
    requires !O.CanDisable(t) || v.hardware
    ensures var r := O.Interrupt(v, t); var s := v.s; var entry := Plus(s.table, 8 * t);
      && r.vm.s.mem == s.mem && r.vm.s.ring == s.ring && r.vm.s.p0 == s.p0 && r.vm.s.table == s.table && !r.vm.s.paging
      && r.vm.pagingStack == v.pagingStack + [(s.paging, s.p0)]
      && (r.thrown <==> s.table != 0 && !Inside(s.mem, entry, Whole))
      && (!r.thrown ==>
            var handler := if s.table == 0 then 0 else Get(s.mem, entry, Whole);
            if handler == 0 then !r.vm.s.active && r.vm.s.pc == s.pc && r.vm.s.regs == s.regs
            else r.vm.s.active == s.active && r.vm.s.pc == handler && r.vm.s.regs == s.regs[E0 := s.pc][E1 := s.ring])
  { hide Get; }

  lemma {:induction false} WalkedSame(v: O.Vm, address: Long)
    ensures O.Walked(v, address).s == v.s
  { hide Translate; }

  lemma {:induction false} Later(changes: seq<Change>, i: nat, s: State, t: State)
    requires i < |changes| && O.AllReach(changes[i..], s) && |t.mem| == |s.mem|
    ensures O.AllReach(changes[i + 1..], t)
  {
    O.ReachesSize(changes[i..], s, t);
    hide Reaches;
    var rest := changes[i + 1..];
    forall j | 0 <= j < |rest| ensures Reaches(rest[j], t) { assert rest[j] == changes[i..][j + 1]; }
  }
}
