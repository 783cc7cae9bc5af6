/** What one operation does to an exact history: it commits its own result after the state at the pointer, or raises an
    interrupt from a machine it has reached by recorded changes only. */
module HistorySteps {
  import opened Words
  import opened Machine
  import opened Paging
  import opened Operations
  import opened History
  import opened Raises
  import V = VirtualMemory

  // w has committed one group more than v: its own state follows the one at v's pointer, and the redo tail is gone.
  ghost predicate Commits(v: Vm, states: seq<State>, w: Vm)
  {
    v.pointer < |states| && w.pointer == v.pointer + 1 && w.buffer == [] && Tracks(w, states[..v.pointer + 1] + [w.s])
  }

  // A step that commits unless an exception ends it first.
  ghost predicate Kept(v: Vm, states: seq<State>, r: Outcome)
  { if r.thrown then r.vm.pointer == v.pointer && Tracks(r.vm, states) else Commits(v, states, r.vm) }

  predicate Plain(c: Change) { c.MemoryChange? || c.RegisterChange? }

  predicate AllPlain(cs: seq<Change>) { forall i :: 0 <= i < |cs| ==> Plain(cs[i]) }

  // w is v but for registers and memory, every change of which stands in its buffer.
  ghost predicate Poised(v: Vm, states: seq<State>, w: Vm)
  {
    && Tracks(w, states) && w.pointer == v.pointer && w.hardware == v.hardware
    && w.s.paging == v.s.paging && w.s.active == v.s.active && w.s.table == v.s.table
    && (AllPlain(v.buffer) ==> AllPlain(w.buffer))
  }

  // A step that commits, or raises the interrupt it is said to raise from a poised machine.
  ghost predicate Answers(v: Vm, states: seq<State>, r: Outcome, raise: Raise)
  {
    match raise
    case None => Kept(v, states, r)
    case Some((w, t)) => r == Interrupt(w, t) && Poised(v, states, w) && Admitted(w, t)
  }

  lemma {:induction false} AnswersFrom(v: Vm, states: seq<State>, w: Vm, r: Outcome, raise: Raise)
    requires Poised(v, states, w) && Answers(w, states, r, raise)
    ensures Answers(v, states, r, raise)
  {}

  lemma {:induction false} TracksRecording(v: Vm, states: seq<State>)
    requires Tracks(v, states)
    ensures v.recording && v.pointer < |states| && v.pointer <= |v.undoStack|
  {}

  // ----- changes that stay in the buffer -----

  lemma {:induction false} PoisedSelf(v: Vm, states: seq<State>)
    requires Tracks(v, states)
    ensures Poised(v, states, v)
  {}

  lemma {:induction false} PlainMore(cs: seq<Change>, c: Change)
    requires AllPlain(cs) && Plain(c)
    ensures AllPlain(cs + [c])
  {}

  lemma {:induction false} PoisedWalk(v: Vm, states: seq<State>, address: Long)
    requires Tracks(v, states)
    ensures Poised(v, states, Walked(v, address)) && Walked(v, address).s == v.s
  {
    hide Translate, Tracks;
    TracksRecording(v, states);
    SameRefl(v.s);
    TrackSilent(v, states, Walked(v, address));
  }

  lemma {:induction false} PoisedReg(v: Vm, states: seq<State>, rd: Reg, value: Long)
    requires Tracks(v, states)
    ensures Poised(v, states, SetReg(v, rd, value, false))
  {
    hide Tracks;
    TracksRecording(v, states);
    var c := RegisterChange(rd, v.s.regs[rd], value);
    var w := WithReg(BufferChange(v, c), rd, value);
    TrackBuffer(v, states, c, w);
    if AllPlain(v.buffer) { PlainMore(v.buffer, c); }
  }

  lemma {:induction false} BlankFlags(s: State, x: Long)
    ensures Same(s.(regs := s.regs[ST := x]), s)
  {}

  lemma {:induction false} PoisedFlags(v: Vm, states: seq<State>, result: Long)
    requires Tracks(v, states)
    ensures Poised(v, states, UpdateFlags(v, result))
  {
    hide Tracks, Flags;
    TracksRecording(v, states);
    BlankFlags(v.s, Flags(result));
    TrackSilent(v, states, UpdateFlags(v, result));
  }

  lemma {:induction false} PoisedNoted(v: Vm, states: seq<State>, value: Long)
    requires Tracks(v, states)
    ensures Poised(v, states, Noted(v, value))
  { hide Tracks, Poised; PoisedReg(v, states, E2, value); assert Noted(v, value) == SetReg(v, E2, value, false); }

  lemma {:induction false} PoisedStored(v: Vm, states: seq<State>, address: Long, value: Long, size: Size)
    requires Tracks(v, states) && Inside(v.s.mem, address, size)
    ensures Poised(v, states, Stored(v, address, value, size))
  {
    hide Tracks, Put, Get;
    TracksRecording(v, states);
    var c := StoreChange(v, address, value, size);
    TrackBuffer(v, states, c, Stored(v, address, value, size));
    if AllPlain(v.buffer) { PlainMore(v.buffer, c); }
  }

  lemma {:induction false} PoisedOn(v: Vm, states: seq<State>, w: Vm, x: Vm)
    requires Poised(v, states, w) && Poised(w, states, x)
    ensures Poised(v, states, x)
  {}

  // ----- changes that commit -----

  lemma {:induction false} TrackIncrement(v: Vm, states: seq<State>)
    requires Tracks(v, states)
    ensures Commits(v, states, Increment(v))
  {
    hide Tracks;
    TracksRecording(v, states);
    TrackRecord(v, states, JumpTo(v, Plus(v.s.pc, 8), false), Increment(v));
  }

  lemma {:induction false} TrackJump(v: Vm, states: seq<State>, address: Long, link: bool)
    requires Tracks(v, states) && (link ==> v.s.regs[RT] == Plus(v.s.pc, 8))
    ensures Commits(v, states, Jump(v, address, link))
  {
    hide Tracks;
    TracksRecording(v, states);
    var w := if link then WithReg(v, RT, Plus(v.s.pc, 8)) else v;
    assert w.s.regs == v.s.regs;
    assert w == v;
    TrackRecord(v, states, JumpTo(v, address, link), Jump(v, address, link));
  }

  lemma {:induction false} TrackHalt(v: Vm, states: seq<State>)
    requires Tracks(v, states) && v.s.active
    ensures Commits(v, states, Halt(v))
  {
    hide Tracks;
    TracksRecording(v, states);
    TrackRecord(v, states, HaltChange, Halt(v));
  }

  // ----- interrupts -----

  lemma {:induction false} TrackEnter(v: Vm, states: seq<State>, t: InterruptType)
    requires Tracks(v, states) && (HaltsAt(v, t) ==> v.s.active)
    ensures Kept(v, states, Enter(v, t))
  {
    hide Tracks, Get, Jump, Halt;
    TracksRecording(v, states);
    var entry := Plus(v.s.table, 8 * t);
    if HaltsAt(v, t) {
      TrackHalt(v, states);
    } else if Inside(v.s.mem, entry, Whole) {
      var e0, e1 := RegisterChange(E0, v.s.regs[E0], v.s.pc), RegisterChange(E1, v.s.regs[E1], v.s.ring);
      var w := WithReg(BufferChange(v, e0), E0, v.s.pc);
      TrackBuffer(v, states, e0, w);
      var x := WithReg(BufferChange(w, e1), E1, v.s.ring);
      TrackBuffer(w, states, e1, x);
      TrackJump(x, states, Get(v.s.mem, entry, Whole), false);
    }
  }

  // The machine an admitted interrupt enters its handler from.
  function Shut(v: Vm, t: InterruptType): Vm
  {
    v.(hardware := v.hardware && !CanDisable(t), pagingStack := v.pagingStack + [(v.s.paging, v.s.p0)],
       s := v.s.(paging := false))
  }

  lemma {:induction false} InterruptEnters(v: Vm, t: InterruptType)
    requires Admitted(v, t)
    ensures Interrupt(v, t) == Enter(Shut(v, t), t) && HaltsAt(Shut(v, t), t) == HaltsAt(v, t)
  { hide Enter, Get; }

  // Switching paging off goes unseen only when it was off.
  lemma {:induction false} TrackInterrupt(v: Vm, states: seq<State>, t: InterruptType)
    requires Tracks(v, states) && Admitted(v, t) && !v.s.paging && (HaltsAt(v, t) ==> v.s.active)
    ensures Kept(v, states, Interrupt(v, t))
  {
    hide Tracks, Enter, HaltsAt;
    InterruptEnters(v, t);
    TracksRecording(v, states);
    SameRefl(v.s);
    assert v.s.(paging := false) == v.s;
    TrackSilent(v, states, Shut(v, t));
    TrackEnter(Shut(v, t), states, t);
  }

  // ----- operations -----

  lemma {:induction false} RaisesFault(v: Vm, states: seq<State>, w: Vm, value: Long, t: InterruptType)
    requires Poised(v, states, w) && Tracks(w, states) && !CanDisable(t)
    ensures Answers(v, states, Interrupt(Noted(w, value), t), Some((Noted(w, value), t)))
  {
    hide Tracks, Interrupt, Noted, Poised;
    PoisedNoted(w, states, value);
    PoisedOn(v, states, w, Noted(w, value));
  }

  lemma {:induction false} PoisedTracks(v: Vm, states: seq<State>, w: Vm)
    requires Poised(v, states, w)
    ensures Tracks(w, states) && w.pointer == v.pointer
  {}

  // A poised machine that moves on, or stops at an exception.
  lemma {:induction false} MovesOn(v: Vm, states: seq<State>, w: Vm)
    requires Poised(v, states, w)
    ensures Answers(v, states, Moved(w), None) && Answers(v, states, Outcome(w, true), None)
  {
    hide Tracks, Increment;
    TrackIncrement(w, states);
  }

  lemma {:induction false} AnswersLoad(v: Vm, states: seq<State>, rd: Reg, address: Long, size: Size)
    requires Tracks(v, states)
    ensures Answers(v, states, Load(v, rd, address, size), LoadRaise(v, address))
  {
    hide Tracks, Interrupt, Increment, SetReg, Walked, Noted, Poised, Answers;
    var w := Walked(v, address);
    PoisedWalk(v, states, address);
    PoisedTracks(v, states, w);
    RaisesFault(v, states, w, w.lastVirtual, PFAULT);
    MovesOn(v, states, w);
    if Translate(v.s, address).Mapped? && Inside(w.s.mem, Translate(v.s, address).address, size) {
      var value := Get(w.s.mem, Translate(v.s, address).address, size);
      PoisedReg(w, states, rd, value);
      PoisedOn(v, states, w, SetReg(w, rd, value, false));
      MovesOn(v, states, SetReg(w, rd, value, false));
    }
  }

  lemma {:induction false} AnswersStore(v: Vm, states: seq<State>, address: Long, value: Long, size: Size)
    requires Tracks(v, states)
    ensures Answers(v, states, Store(v, address, value, size), StoreRaise(v, address))
  {
    hide Tracks, Interrupt, Increment, Stored, Walked, Noted, Poised, Answers, CheckWritable, V.WritablePage, Translate;
    var w := Walked(v, address);
    PoisedWalk(v, states, address);
    PoisedTracks(v, states, w);
    V.WalkedState(v, address);
    RaisesFault(v, states, w, w.lastVirtual, PFAULT);
    MovesOn(v, states, w);
    if Translate(v.s, address).Mapped? {
      var physical := Translate(v.s, address).address;
      RaisesFault(v, states, w, physical, BWRITE);
      if Inside(w.s.mem, physical, size) {
        PoisedStored(w, states, physical, value, size);
        PoisedOn(v, states, w, Stored(w, physical, value, size));
        MovesOn(v, states, Stored(w, physical, value, size));
      }
    }
  }

  lemma {:induction false} AnswersCopy(v: Vm, states: seq<State>, source: Long, target: Long, size: Size)
    requires Tracks(v, states)
    ensures Answers(v, states, Copy(v, source, target, size), CopyRaise(v, source, target, size))
  {
    hide Tracks, Interrupt, Store, Walked, Noted, Extended, Poised, Answers, StoreRaise, Translate;
    var w := Walked(v, source);
    PoisedWalk(v, states, source);
    PoisedTracks(v, states, w);
    RaisesFault(v, states, w, w.lastVirtual, PFAULT);
    MovesOn(v, states, w);
    if V.Readable(v.s, source, size) {
      var value := Extended(Get(w.s.mem, Translate(v.s, source).address, size), size);
      AnswersStore(w, states, target, value, size);
      AnswersFrom(v, states, w, Store(w, target, value, size), StoreRaise(w, target));
    }
  }

  lemma {:induction false} AnswersIndirect(v: Vm, states: seq<State>, rd: Reg, address: Long, size: Size)
    requires Tracks(v, states)
    ensures Answers(v, states, LoadIndirect(v, rd, address, size), LoadRaise(v, address))
  {
    hide Tracks, Interrupt, Increment, Stored, Walked, Noted, Extended, Poised, Answers, Translate;
    var w := Walked(v, address);
    PoisedWalk(v, states, address);
    PoisedTracks(v, states, w);
    RaisesFault(v, states, w, w.lastVirtual, PFAULT);
    MovesOn(v, states, w);
    if V.Readable(v.s, address, size) && Inside(w.s.mem, w.s.regs[rd], size) {
      var value := Extended(Get(w.s.mem, Translate(v.s, address).address, size), size);
      PoisedStored(w, states, w.s.regs[rd], value, size);
      PoisedOn(v, states, w, Stored(w, w.s.regs[rd], value, size));
      MovesOn(v, states, Stored(w, w.s.regs[rd], value, size));
    }
  }

  lemma {:induction false} AnswersFill(v: Vm, states: seq<State>, start: Long, value: Long, i: nat, count: nat)
    requires Tracks(v, states)
    ensures Answers(v, states, Fill(v, start, value, i, count), FillRaise(v, start, value, i, count))
    decreases count - i
  {
    hide Tracks, Interrupt, Increment, Stored, Walked, Noted, Poised, Answers, CheckWritable, V.WritablePage, Translate;
    PoisedSelf(v, states);
    if i >= count {
      MovesOn(v, states, v);
    } else {
      var address := Plus(start, Wrap(i));
      var w := Walked(v, address);
      PoisedWalk(v, states, address);
      PoisedTracks(v, states, w);
      V.WalkedState(v, address);
      RaisesFault(v, states, w, w.lastVirtual, PFAULT);
      MovesOn(v, states, w);
      if Translate(v.s, address).Mapped? {
        var physical := Translate(v.s, address).address;
        RaisesFault(v, states, w, physical, BWRITE);
        if V.Writable(v.s, address, Byte1) {
          var x := Stored(w, physical, value % 0x100, Byte1);
          PoisedStored(w, states, physical, value % 0x100, Byte1);
          PoisedOn(v, states, w, x);
          PoisedTracks(v, states, x);
          AnswersFill(x, states, start, value, i + 1, count);
          AnswersFrom(v, states, x, Fill(x, start, value, i + 1, count), FillRaise(x, start, value, i + 1, count));
        }
      }
    }
  }

  // A push is a store at the moved stack pointer, of any width or none.
  lemma {:induction false} AnswersPush(v: Vm, states: seq<State>, rs: Reg, amount: Long)
    requires Tracks(v, states)
    ensures Answers(v, states, Push(v, rs, amount), PushRaise(v, amount))
  {
    hide Tracks, Interrupt, Increment, Stored, Walked, Noted, SetReg, Poised, Answers, CheckWritable, V.WritablePage, Translate, SizeOf;
    var x := SetReg(v, SP, Minus(v.s.regs[SP], amount), false);
    PoisedReg(v, states, SP, Minus(v.s.regs[SP], amount));
    PoisedTracks(v, states, x);
    var address := x.s.regs[SP];
    var w := Walked(x, address);
    PoisedWalk(x, states, address);
    PoisedOn(v, states, x, w);
    PoisedTracks(v, states, w);
    V.WalkedState(x, address);
    RaisesFault(v, states, w, w.lastVirtual, PFAULT);
    MovesOn(v, states, w);
    if Translate(x.s, address).Mapped? {
      var physical := Translate(x.s, address).address;
      RaisesFault(v, states, w, physical, BWRITE);
      if SizeOf(amount).Some? && Inside(w.s.mem, physical, SizeOf(amount).value) {
        var y := Stored(w, physical, w.s.regs[rs], SizeOf(amount).value);
        PoisedStored(w, states, physical, w.s.regs[rs], SizeOf(amount).value);
        PoisedOn(v, states, w, y);
        MovesOn(v, states, y);
      }
    }
  }

  lemma {:induction false} AnswersPop(v: Vm, states: seq<State>, rd: Reg, amount: Long)
    requires Tracks(v, states)
    ensures Answers(v, states, Pop(v, rd, amount), LoadRaise(v, v.s.regs[SP]))
  {
    hide Tracks, Interrupt, Increment, Walked, Noted, SetReg, Poised, Answers, Translate, SizeOf;
    var address := v.s.regs[SP];
    var w := Walked(v, address);
    PoisedWalk(v, states, address);
    PoisedTracks(v, states, w);
    RaisesFault(v, states, w, w.lastVirtual, PFAULT);
    MovesOn(v, states, w);
    if Translate(v.s, address).Mapped? && SizeOf(amount).Some? && Inside(w.s.mem, Translate(v.s, address).address, SizeOf(amount).value) {
      var value := Get(w.s.mem, Translate(v.s, address).address, SizeOf(amount).value);
      var x := SetReg(w, rd, value, false);
      PoisedReg(w, states, rd, value);
      PoisedOn(v, states, w, x);
      PoisedTracks(v, states, x);
      var y := SetReg(x, SP, Plus(x.s.regs[SP], amount), false);
      PoisedReg(x, states, SP, Plus(x.s.regs[SP], amount));
      PoisedOn(v, states, x, y);
      MovesOn(v, states, y);
    }
  }

  lemma {:induction false} AnswersTranslate(v: Vm, states: seq<State>, rs: Reg, rd: Reg)
    requires Tracks(v, states)
    ensures Answers(v, states, TranslateReg(v, rs, rd), LoadRaise(v, v.s.regs[rs]))
  {
    hide Tracks, Interrupt, Increment, Walked, Noted, SetReg, Poised, Answers, Translate;
    var w := Walked(v, v.s.regs[rs]);
    PoisedWalk(v, states, v.s.regs[rs]);
    PoisedTracks(v, states, w);
    RaisesFault(v, states, w, w.lastVirtual, PFAULT);
    MovesOn(v, states, w);
    if Translate(v.s, v.s.regs[rs]).Mapped? {
      var physical := Translate(v.s, v.s.regs[rs]).address;
      PoisedReg(w, states, rd, physical);
      PoisedOn(v, states, w, SetReg(w, rd, physical, false));
      MovesOn(v, states, SetReg(w, rd, physical, false));
    }
  }

  lemma {:induction false} AnswersLinkIf(v: Vm, states: seq<State>, rs: Reg, rd: Reg)
    requires Tracks(v, states)
    requires v.s.regs[rs] != 0 && Translate(v.s, v.s.regs[rd]).Mapped? ==> v.s.regs[RT] == Plus(v.s.pc, 8)
    ensures Answers(v, states, JumpRegLinkIfOp(v, rs, rd), if v.s.regs[rs] != 0 then LoadRaise(v, v.s.regs[rd]) else None)
  {
    hide Tracks, Interrupt, Increment, Walked, Noted, Jump, Poised, Translate;
    if v.s.regs[rs] == 0 {
      PoisedSelf(v, states);
      MovesOn(v, states, v);
    } else {
      var w := Walked(v, v.s.regs[rd]);
      PoisedWalk(v, states, v.s.regs[rd]);
      PoisedTracks(v, states, w);
      RaisesFault(v, states, w, w.lastVirtual, PFAULT);
      MovesOn(v, states, w);
      if Translate(v.s, v.s.regs[rd]).Mapped? { TrackJump(w, states, Translate(v.s, v.s.regs[rd]).address, true); }
    }
  }

  // ----- privileged operations, in ring zero -----

  lemma {:induction false} AnswersTable(v: Vm, states: seq<State>, address: Long)
    requires Tracks(v, states) && v.s.ring == 0
    ensures Answers(v, states, SetInterruptTable(v, address), LoadRaise(v, address))
  {
    hide Tracks, Interrupt, Increment, Walked, Noted, Poised, Translate;
    TracksRecording(v, states);
    var w := Walked(v, address);
    PoisedWalk(v, states, address);
    PoisedTracks(v, states, w);
    TracksRecording(w, states);
    RaisesFault(v, states, w, w.lastVirtual, PFAULT);
    MovesOn(v, states, w);
    if Translate(v.s, address).Mapped? {
      var c := TableChange(w.s.table, Translate(v.s, address).address);
      var x := BufferChange(w, c);
      var y := x.(s := x.s.(table := c.will));
      TrackBuffer(w, states, c, y);
      TrackIncrement(y, states);
    }
  }

  lemma {:induction false} KeptLeave(v: Vm, states: seq<State>, r: Reg)
    requires Tracks(v, states) && (r == E0 ==> v.s.ring == 0)
    ensures Kept(v, states, LeaveBy(v, r))
  {
    hide Tracks, Jump;
    var w := v.(hardware := v.hardware || r == E0);
    TracksRecording(v, states);
    SameRefl(v.s);
    TrackSilent(v, states, w);
    TrackJump(w, states, v.s.regs[r], false);
  }

  lemma {:induction false} KeptLeaveOrMove(v: Vm, states: seq<State>, r: Reg)
    requires Tracks(v, states) && v.s.ring == 0
    ensures Kept(v, states, LeaveOrMove(v, r))
  {
    hide Tracks, LeaveBy, Increment;
    KeptLeave(v, states, r);
    TrackIncrement(v, states);
  }

  lemma {:induction false} KeptFrom(v: Vm, states: seq<State>, w: Vm, r: Outcome)
    requires w.pointer == v.pointer && Kept(w, states, r)
    ensures Kept(v, states, r)
  {}

  lemma {:induction false} KeptSetPaging(v: Vm, states: seq<State>, on: bool)
    requires Tracks(v, states) && v.s.ring == 0
    ensures Kept(v, states, SetPaging(v, on))
  {
    hide Tracks, Increment;
    TracksRecording(v, states);
    var w := BufferChange(v, PagingChange(v.s.paging, on));
    TrackBuffer(v, states, PagingChange(v.s.paging, on), w.(s := w.s.(paging := on)));
    TrackIncrement(w.(s := w.s.(paging := on)), states);
  }

  lemma {:induction false} KeptSetTable(v: Vm, states: seq<State>, rs: Reg, rt: Reg)
    requires Tracks(v, states) && v.s.ring == 0
    ensures Kept(v, states, SetTable(v, rs, rt))
  {
    hide Tracks, LeaveOrMove;
    TracksRecording(v, states);
    var w := BufferChange(v, P0Change(v.s.p0, v.s.regs[rs]));
    var x := w.(s := w.s.(p0 := v.s.regs[rs]));
    TrackBuffer(v, states, P0Change(v.s.p0, v.s.regs[rs]), x);
    KeptLeaveOrMove(x, states, rt);
    KeptFrom(v, states, x, LeaveOrMove(x, rt));
  }

  lemma {:induction false} KeptPagePush(v: Vm, states: seq<State>)
    requires Tracks(v, states) && v.s.ring == 0
    ensures Kept(v, states, PagePush(v))
  {
    hide Tracks, Increment;
    var w := v.(pagingStack := v.pagingStack + [(v.s.paging, v.s.p0)]);
    TracksRecording(v, states);
    SameRefl(v.s);
    TrackSilent(v, states, w);
    TrackIncrement(w, states);
  }

  lemma {:induction false} KeptPagePop(v: Vm, states: seq<State>, rs: Reg)
    requires Tracks(v, states) && v.s.ring == 0
    ensures Kept(v, states, PagePop(v, rs))
  {
    hide Tracks, LeaveOrMove;
    TracksRecording(v, states);
    if v.pagingStack == [] {
      KeptLeaveOrMove(v, states, rs);
    } else {
      var (enabled, p0) := v.pagingStack[|v.pagingStack| - 1];
      var a := BufferChange(v, PagingChange(v.s.paging, enabled));
      var b := a.(s := a.s.(paging := enabled));
      TrackBuffer(v, states, PagingChange(v.s.paging, enabled), b);
      var c := BufferChange(b, P0Change(b.s.p0, p0));
      var d := c.(s := c.s.(p0 := p0), pagingStack := v.pagingStack[..|v.pagingStack| - 1]);
      TrackBuffer(b, states, P0Change(b.s.p0, p0), d);
      KeptLeaveOrMove(d, states, rs);
      KeptFrom(v, states, d, LeaveOrMove(d, rs));
    }
  }

  // ----- the others -----

  lemma {:induction false} AnswersRing(v: Vm, states: seq<State>, value: Long)
    requires Tracks(v, states)
    ensures Answers(v, states, ChangeRing(v, value), if RingAdmitted(v, value) then None else Some((v, PROTEC)))
  {
    hide Tracks, Increment, Interrupt;
    TracksRecording(v, states);
    PoisedSelf(v, states);
    var r := RingValue(value);
    if RingAdmitted(v, value) {
      var w := BufferChange(v, RingChange(v.s.ring, r));
      TrackBuffer(v, states, RingChange(v.s.ring, r), w.(s := w.s.(ring := r)));
      TrackIncrement(w.(s := w.s.(ring := r)), states);
    }
  }

  lemma {:induction false} KeptProduct(v: Vm, states: seq<State>, x: Long, y: Long)
    requires Tracks(v, states)
    ensures Kept(v, states, Moved(Product(v, x, y)))
  {
    hide Tracks, Increment, HighProduct, LowProduct;
    TracksRecording(v, states);
    var hi, lo := RegisterChange(HI, v.s.regs[HI], HighProduct(x, y)), RegisterChange(LO, v.s.regs[LO], LowProduct(x, y));
    var a := WithReg(BufferChange(v, hi), HI, HighProduct(x, y));
    TrackBuffer(v, states, hi, a);
    var b := WithReg(BufferChange(a, lo), LO, LowProduct(x, y));
    TrackBuffer(a, states, lo, b);
    assert v.s.regs[HI := HighProduct(x, y)][LO := LowProduct(x, y)] == v.s.regs[LO := LowProduct(x, y)][HI := HighProduct(x, y)];
    assert b == Product(v, x, y);
    TrackIncrement(b, states);
  }
}
