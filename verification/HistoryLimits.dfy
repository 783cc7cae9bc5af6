/** Exactly which operations the history takes back. */
module HistoryLimits {
  import opened Words
  import opened Machine
  import opened Paging
  import opened Operations
  import opened History
  import opened Raises
  import opened HistorySteps
  import opened HistoryRuns

  // ----- what undoing a group leaves alone -----

  predicate NoPaging(cs: seq<Change>) { forall i :: 0 <= i < |cs| ==> !cs[i].PagingChange? }

  predicate NoHalt(cs: seq<Change>) { forall i :: 0 <= i < |cs| ==> !cs[i].HaltChange? }

  lemma {:induction false} UndoKeepsPaging(cs: seq<Change>, s: State)
    requires AllReach(cs, s) && NoPaging(cs)
    ensures UndoAll(cs, s).paging == s.paging
    decreases |cs|
  {
    if cs != [] {
      var n := |cs| - 1;
      hide Put;
      ReachesSize(cs, s, Undo(cs[n], s));
      UndoKeepsPaging(cs[..n], Undo(cs[n], s));
    }
  }

  lemma {:induction false} ApplyKeepsPaging(cs: seq<Change>, s: State)
    requires AllReach(cs, s) && NoPaging(cs)
    ensures ApplyAll(cs, s).paging == s.paging
    decreases |cs|
  {
    if cs != [] {
      hide Put;
      ReachesSize(cs, s, Apply(cs[0], s));
      ApplyKeepsPaging(cs[1..], Apply(cs[0], s));
    }
  }

  lemma {:induction false} UndoKeepsActive(cs: seq<Change>, s: State)
    requires AllReach(cs, s) && NoHalt(cs)
    ensures UndoAll(cs, s).active == s.active
    decreases |cs|
  {
    if cs != [] {
      var n := |cs| - 1;
      hide Put;
      ReachesSize(cs, s, Undo(cs[n], s));
      UndoKeepsActive(cs[..n], Undo(cs[n], s));
    }
  }

  lemma {:induction false} UndoHalt(cs: seq<Change>, s: State)
    requires AllReach(cs, s) && NoHalt(cs)
    ensures AllReach(cs + [HaltChange], s) && UndoAll(cs + [HaltChange], s).active
  {
    AllReachAppend(cs, HaltChange, s);
    var h := cs + [HaltChange];
    assert h[..|cs|] == cs && h[|cs|] == HaltChange;
    ReachesSize(h, s, Undo(HaltChange, s));
    ReachesSize(cs, s, Undo(HaltChange, s));
    UndoKeepsActive(cs, Undo(HaltChange, s));
  }

  // ----- the group an interrupt commits -----

  function Entered(v: Vm, t: InterruptType): seq<Change>
    requires !HaltsAt(v, t) && Inside(v.s.mem, Plus(v.s.table, 8 * t), Whole)
  {
    [RegisterChange(E0, v.s.regs[E0], v.s.pc), RegisterChange(E1, v.s.regs[E1], v.s.ring),
     JumpChange(v.s.pc, Get(v.s.mem, Plus(v.s.table, 8 * t), Whole), v.s.regs[RT], Plus(v.s.pc, 8), false)]
  }

  // The end of the group: a halt, or the two registers and the jump.
  function Tail(v: Vm, t: InterruptType): seq<Change>
    requires HaltsAt(v, t) || Inside(v.s.mem, Plus(v.s.table, 8 * t), Whole)
  { if HaltsAt(v, t) then [HaltChange] else Entered(v, t) }

  lemma {:induction false} InterruptCommits(v: Vm, t: InterruptType)
    requires v.recording && v.pointer <= |v.undoStack| && Admitted(v, t) && !Interrupt(v, t).thrown
    ensures HaltsAt(v, t) || Inside(v.s.mem, Plus(v.s.table, 8 * t), Whole)
    ensures var r := Interrupt(v, t).vm;
      && r.recording && r.pointer == v.pointer + 1 && r.buffer == []
      && r.undoStack == v.undoStack[..v.pointer] + [v.buffer + Tail(v, t)]
      && r.s.mem == v.s.mem && r.s.table == v.s.table && !r.s.paging
      && r.s.active == (v.s.active && !HaltsAt(v, t))
  {
    hide Get;
    if !HaltsAt(v, t) {
      assert v.buffer + [Entered(v, t)[0]] + [Entered(v, t)[1]] + [Entered(v, t)[2]] == v.buffer + Entered(v, t);
    }
  }

  lemma {:induction false} InterruptThrows(v: Vm, t: InterruptType)
    requires Admitted(v, t) && Interrupt(v, t).thrown
    ensures var r := Interrupt(v, t).vm;
      !HaltsAt(v, t) && !r.s.paging && r.buffer == v.buffer && r.pointer == v.pointer && r.undoStack == v.undoStack && r.s.mem == v.s.mem
  { hide Get; }

  // Undoing the group: paging stays off, and a halt leaves the machine active.
  lemma {:induction false} GroupUndone(g: seq<Change>, v: Vm, t: InterruptType, s: State)
    requires AllPlain(g) && AllReach(g, s)
    requires HaltsAt(v, t) || Inside(v.s.mem, Plus(v.s.table, 8 * t), Whole)
    ensures AllReach(g + Tail(v, t), s)
    ensures UndoAll(g + Tail(v, t), s).paging == s.paging
    ensures HaltsAt(v, t) ==> UndoAll(g + Tail(v, t), s).active
  {
    hide HaltsAt, Undo;
    var h := g + Tail(v, t);
    forall i | 0 <= i < |h| ensures Reaches(h[i], s) && !h[i].PagingChange? {
      if i < |g| { assert Reaches(g[i], s) && Plain(g[i]); }
    }
    UndoKeepsPaging(h, s);
    if HaltsAt(v, t) {
      forall i | 0 <= i < |g| ensures !g[i].HaltChange? { assert Plain(g[i]); }
      UndoHalt(g, s);
    }
  }

  lemma {:induction false} PlainStart()
    ensures AllPlain([])
  {}

  lemma {:induction false} SameFields(s: State, t: State)
    requires Same(s, t)
    ensures s.paging == t.paging && s.active == t.active && |s.mem| == |t.mem|
  { assert Blank(s).paging == Blank(t).paging && Blank(s).active == Blank(t).active && Blank(s).mem == Blank(t).mem; }

  lemma {:induction false} AtPointer(v: Vm, states: seq<State>)
    requires Tracks(v, states) && v.buffer == []
    ensures v.pointer < |states| && Same(states[v.pointer], v.s)
  { LeadsNothing(states[v.pointer], v.s); }

  lemma {:induction false} BufferReaches(v: Vm, states: seq<State>)
    requires Tracks(v, states)
    ensures AllReach(v.buffer, v.s)
  {}

  // ----- one interrupt -----

  /** Undoing an interrupt raised from a poised machine: it never gives back paging that was on, and it wakes a machine
      that was already halted. */
  lemma {:induction false} RaiseUndone(v: Vm, states: seq<State>, w: Vm, t: InterruptType)
    requires Tracks(v, states) && v.buffer == [] && Poised(v, states, w) && Admitted(w, t) && !Interrupt(w, t).thrown
    ensures var r := Interrupt(w, t).vm;
      CanUndo(r) && (Same(UndoStep(r).s, v.s) <==> !v.s.paging && (HaltsAt(w, t) ==> v.s.active))
  {
    hide Tracks, Interrupt, HaltsAt, Leads;
    PoisedTracks(v, states, w);
    TracksRecording(w, states);
    BufferReaches(w, states);
    PlainStart();
    InterruptCommits(w, t);
    var r := Interrupt(w, t).vm;
    ReachesSize(w.buffer, w.s, r.s);
    GroupUndone(w.buffer, w, t, r.s);
    AtPointer(v, states);
    if !v.s.paging && (HaltsAt(w, t) ==> v.s.active) {
      TrackInterrupt(w, states, t);
      var after := states[..w.pointer + 1] + [r.s];
      TrackUndo(r, after);
      SameTrans(UndoStep(r).s, states[v.pointer], v.s);
    } else {
      if Same(UndoStep(r).s, v.s) { SameFields(UndoStep(r).s, v.s); }
    }
  }

  lemma {:induction false} SameTrans(a: State, b: State, c: State)
    requires Same(a, b) && Same(b, c)
    ensures Same(a, c)
  {}

  // An interrupt that throws out of paging leaves a machine its own buffer does not lead to.
  lemma {:induction false} ThrowLeavesPaging(v: Vm, states: seq<State>, w: Vm, t: InterruptType)
    requires Tracks(v, states) && v.buffer == [] && Poised(v, states, w) && Admitted(w, t) && Interrupt(w, t).thrown && v.s.paging
    ensures !Tracks(Interrupt(w, t).vm, states)
  {
    hide Interrupt, HaltsAt, LinkAt;
    PlainStart();
    InterruptThrows(w, t);
    var r := Interrupt(w, t).vm;
    AtPointer(v, states);
    SameFields(states[v.pointer], v.s);
    if Tracks(r, states) {
      PlainPaging(r.buffer);
      ApplyKeepsPaging(r.buffer, states[r.pointer]);
      SameFields(ApplyAll(r.buffer, states[r.pointer]), r.s);
      assert false;
    }
  }

  lemma {:induction false} PlainPaging(cs: seq<Change>)
    requires AllPlain(cs)
    ensures NoPaging(cs)
  { forall i | 0 <= i < |cs| ensures !cs[i].PagingChange? { assert Plain(cs[i]); } }

  // ----- links and halts -----

  lemma {:induction false} LinkIs(v: Vm, op: Operation) returns (w: Vm, address: Long)
    requires Links(v, op)
    ensures Execute(v, op) == Outcome(Jump(w, address, true), false) && w.s == v.s
    ensures w.recording == v.recording && w.undoStack == v.undoStack && w.buffer == v.buffer && w.pointer == v.pointer
    ensures !RaisesTwice(v, op) && !Idle(v, op) && Raised(v, op).None? && !op.HaltOp?
  {
    hide Jump, CheckConditions, Translate;
    w, address := v, 0;
    match op
    case JumpOp(a, _, _) => address := a;
    case JumpIf(_, a, _) => address := a;
    case JumpRegLink(rd, _) => address := v.s.regs[rd];
    case JumpRegLinkIf(_, rd) => w, address := Walked(v, v.s.regs[rd]), Translate(v.s, v.s.regs[rd]).address;
  }

  /** A linking jump is undone exactly when $rt already held its return address. */
  lemma {:induction false} LinkUndone(v: Vm, states: seq<State>, address: Long)
    requires Tracks(v, states) && v.buffer == []
    ensures var r := Jump(v, address, true);
      CanUndo(r) && r.pointer == v.pointer + 1 && (Same(UndoStep(r).s, v.s) <==> v.s.regs[RT] == Plus(v.s.pc, 8))
  {
    hide Tracks, Leads;
    TracksRecording(v, states);
    var r := Jump(v, address, true);
    var linked := v.s.regs[RT := Plus(v.s.pc, 8)];
    var c := JumpChange(v.s.pc, address, Plus(v.s.pc, 8), Plus(v.s.pc, 8), true);
    assert linked[RT] == Plus(v.s.pc, 8);
    assert r.undoStack[r.pointer - 1] == [c];
    assert UndoAll([c], r.s) == Undo(c, r.s) by { assert [c][..0] == []; }
    assert UndoStep(r).s.regs == linked;
    assert Blank(UndoStep(r).s).regs[RT] == Plus(v.s.pc, 8) && Blank(v.s).regs[RT] == v.s.regs[RT];
  }

  lemma {:induction false} HaltCommits(v: Vm)
    requires v.recording && v.buffer == [] && v.pointer <= |v.undoStack|
    ensures var r := Halt(v); r.pointer == v.pointer + 1 && r.pointer <= |r.undoStack| && r.undoStack[v.pointer] == [HaltChange]
    ensures Halt(v).s == v.s.(active := false)
  {}

  lemma {:induction false} HaltUndone(v: Vm, states: seq<State>)
    requires Tracks(v, states) && v.buffer == []
    ensures var r := Halt(v);
      CanUndo(r) && r.pointer == v.pointer + 1 && (Same(UndoStep(r).s, v.s) <==> v.s.active)
  {
    hide Tracks, Same, Halt, UndoAll;
    TracksRecording(v, states);
    HaltCommits(v);
    HaltOnly(Halt(v).s);
    if Same(UndoStep(Halt(v)).s, v.s) { SameFields(UndoStep(Halt(v)).s, v.s); }
    SameRefl(v.s);
  }

  // ----- two interrupts -----

  // Two groups without memory changes, undone.
  lemma {:induction false} UndoTwo(r: Vm, a: seq<Change>, b: seq<Change>)
    requires r.pointer >= 2 && r.pointer <= |r.undoStack| && r.undoStack[r.pointer - 2] == a && r.undoStack[r.pointer - 1] == b
    requires AllReach(a, r.s) && AllReach(b, r.s)
    ensures Undos(r, 2).Some? && CanUndo(r)
    ensures var s := UndoAll(b, r.s); AllReach(a, s) && Undos(r, 2).value.s == UndoAll(a, s)
  {
    ReachesSize(a, r.s, UndoAll(b, r.s));
    var x := UndoStep(r);
    assert CanUndo(x);
    assert Undos(r, 2) == Undos(x, 1) == Undos(UndoStep(x), 0);
  }

  lemma {:induction false} TailReaches(v: Vm, t: InterruptType, s: State)
    requires HaltsAt(v, t) || Inside(v.s.mem, Plus(v.s.table, 8 * t), Whole)
    ensures AllReach(Tail(v, t), s) && NoPaging(Tail(v, t)) && (HaltsAt(v, t) ==> Tail(v, t) == [HaltChange])
  { hide HaltsAt, Get; }

  lemma {:induction false} HaltOnly(s: State)
    ensures AllReach([HaltChange], s) && UndoAll([HaltChange], s) == s.(active := true)
  { assert [HaltChange][..0] == []; }

  // Whatever the second group is, the first interrupt's group undone last decides paging and, if it halted, activity.
  lemma {:induction false} TwiceUndone(v: Vm, r: Vm, b: seq<Change>)
    requires HaltsAt(v, PROTEC) || Inside(v.s.mem, Plus(v.s.table, 8 * PROTEC), Whole)
    requires r.pointer >= 2 && r.pointer <= |r.undoStack| && r.undoStack[r.pointer - 2] == Tail(v, PROTEC) && r.undoStack[r.pointer - 1] == b
    requires AllReach(b, r.s) && NoPaging(b) && !r.s.paging
    ensures Undos(r, 2).Some? && CanUndo(r)
    ensures !Undos(r, 2).value.s.paging && (HaltsAt(v, PROTEC) ==> Undos(r, 2).value.s.active)
  {
    hide HaltsAt, Undo, Undos;
    TailReaches(v, PROTEC, r.s);
    UndoTwo(r, Tail(v, PROTEC), b);
    var s := UndoAll(b, r.s);
    UndoKeepsPaging(b, r.s);
    UndoKeepsPaging(Tail(v, PROTEC), s);
    if HaltsAt(v, PROTEC) { HaltOnly(s); }
  }

  // A refusal's two groups.
  lemma {:induction false} RefusalCommits(v: Vm)
    requires v.recording && v.buffer == [] && v.pointer <= |v.undoStack| && !Refused(v).thrown
    ensures HaltsAt(v, PROTEC) || Inside(v.s.mem, Plus(v.s.table, 8 * PROTEC), Whole)
    ensures !IntProtec(v).thrown
    ensures var w, r := IntProtec(v).vm, Refused(v).vm;
      && r.pointer == v.pointer + 2 && r.pointer <= |r.undoStack| && !r.s.paging && r.buffer == [] && |r.s.mem| == |v.s.mem|
      && (HaltsAt(w, PROTEC) || Inside(w.s.mem, Plus(w.s.table, 8 * PROTEC), Whole)) && HaltsAt(w, PROTEC) == HaltsAt(v, PROTEC)
      && r.undoStack[v.pointer] == Tail(v, PROTEC) && r.undoStack[v.pointer + 1] == Tail(w, PROTEC)
      && w.s.active == (v.s.active && !HaltsAt(v, PROTEC)) && r.recording
  {
    hide Interrupt, HaltsAt;
    InterruptCommits(v, PROTEC);
    var w := IntProtec(v).vm;
    InterruptCommits(w, PROTEC);
    HaltsAlike(v, w);
    assert [] + Tail(v, PROTEC) == Tail(v, PROTEC) && [] + Tail(w, PROTEC) == Tail(w, PROTEC);
  }

  // A refused jump through $e0: an interrupt, then the jump.
  lemma {:induction false} LeavingCommits(v: Vm)
    requires v.recording && v.buffer == [] && v.pointer <= |v.undoStack| && v.s.ring > 0 && !LeaveBy(v, E0).thrown
    ensures HaltsAt(v, PROTEC) || Inside(v.s.mem, Plus(v.s.table, 8 * PROTEC), Whole)
    ensures !IntProtec(v).thrown
    ensures var w, r := IntProtec(v).vm, LeaveBy(v, E0).vm;
      && r.pointer == v.pointer + 2 && r.pointer <= |r.undoStack| && !r.s.paging
      && r.undoStack[v.pointer] == Tail(v, PROTEC) && r.undoStack[v.pointer + 1] == [JumpTo(w, w.s.regs[E0], false)]
  {
    hide Interrupt, HaltsAt;
    InterruptCommits(v, PROTEC);
    assert [] + Tail(v, PROTEC) == Tail(v, PROTEC);
  }

  // Halting twice and waking twice.
  lemma {:induction false} HaltsTwice(v: Vm)
    requires v.recording && v.buffer == [] && v.pointer <= |v.undoStack| && !Refused(v).thrown && HaltsAt(v, PROTEC)
    ensures Undos(Refused(v).vm, 2).Some?
    ensures !v.s.paging && v.s.active ==> Undos(Refused(v).vm, 2).value.s == v.s
  {
    hide HaltsAt, Undos, UndoAll;
    RefusalCommits(v);
    var r := Refused(v).vm;
    HaltingState(v);
    HaltOnly(r.s);
    UndoTwo(r, [HaltChange], [HaltChange]);
    HaltOnly(UndoAll([HaltChange], r.s));
  }

  lemma {:induction false} HaltingState(v: Vm)
    requires HaltsAt(v, PROTEC)
    ensures Refused(v).vm.s == v.s.(paging := false, active := false)
    ensures Tail(v, PROTEC) == [HaltChange] && HaltsAt(IntProtec(v).vm, PROTEC)
  {
    HaltingOnce(v);
    HaltingOnce(IntProtec(v).vm);
    hide Interrupt, HaltsAt;
  }

  lemma {:induction false} HaltingOnce(v: Vm)
    requires HaltsAt(v, PROTEC)
    ensures !IntProtec(v).thrown && IntProtec(v).vm.s == v.s.(paging := false, active := false)
    ensures HaltsAt(IntProtec(v).vm, PROTEC)
  { hide Get; }

  // ----- exactly when -----

  // Undoing what one step committed.
  predicate Restores(v: Vm, r: Vm)
  { v.pointer <= r.pointer && Undos(r, r.pointer - v.pointer).Some? && Same(Undos(r, r.pointer - v.pointer).value.s, v.s) }

  lemma {:induction false} CleanUndone(v: Vm, states: seq<State>, op: Operation)
    requires Tracks(v, states) && v.buffer == [] && Clean(v, op) && !Execute(v, op).thrown
    ensures Restores(v, Execute(v, op).vm)
  {
    hide Tracks, Execute, Clean, StepStates, Undos, Undo;
    TrackExecute(v, states, op);
    var r := Execute(v, op).vm;
    var after := Extend(states, v.pointer, StepStates(v, op));
    TracksRecording(v, states);
    UndosReach(r, after, r.pointer - v.pointer);
    var w := Undos(r, r.pointer - v.pointer).value;
    AtPointer(v, states);
    AtPointer(w, after);
    SameSym(after[v.pointer], w.s);
    SameTrans(w.s, states[v.pointer], v.s);
  }

  lemma {:induction false} SameSym(a: State, b: State)
    requires Same(a, b)
    ensures Same(b, a)
  {}

  lemma {:induction false} RestoresOne(v: Vm, r: Vm)
    requires r.pointer == v.pointer + 1 && CanUndo(r)
    ensures Restores(v, r) <==> Same(UndoStep(r).s, v.s)
  {
    hide UndoStep, CanUndo, Same;
    assert Undos(r, 1) == Undos(UndoStep(r), 0);
  }

  /** Undoing everything an operation committed gives back the state before it exactly when the operation is
      reversible: a link finds its return address in $rt, an interrupt is not raised out of paging, nothing halts that
      has halted. */
  lemma {:induction false} StepUndone(v: Vm, states: seq<State>, op: Operation)
    requires Tracks(v, states) && v.buffer == [] && !Execute(v, op).thrown
    ensures Restores(v, Execute(v, op).vm) <==> Reversible(v, op)
  {
    hide Tracks, Execute, Undos, Refuses, LeavesRefused, Raised, Links, HaltsAt, Same, CanUndo, UndoStep, Interrupt;
    TracksRecording(v, states);
    if Clean(v, op) {
      CleanUndone(v, states, op);
    } else if Links(v, op) {
      var w, address := LinkIs(v, op);
      SameRefl(v.s);
      TrackSilent(v, states, w);
      LinkUndone(w, states, address);
      RestoresOne(v, Jump(w, address, true));
    } else if op.HaltOp? && !v.s.active {
      HaltIs(v, op);
      HaltUndone(v, states);
      RestoresOne(v, Halt(v));
    } else if Refuses(v, op) {
      RefusedUndone(v, op);
    } else if LeavesRefused(v, op) {
      LeftUndone(v, op);
    } else {
      SingleUndone(v, states, op);
    }
  }

  lemma {:induction false} HaltIs(v: Vm, op: Operation)
    requires op.HaltOp?
    ensures Execute(v, op) == Halted(v) && Raised(v, op).None? && !RaisesTwice(v, op) && !Links(v, op)
  { hide Halt; }

  lemma {:induction false} RefusedUndone(v: Vm, op: Operation)
    requires v.recording && v.buffer == [] && v.pointer <= |v.undoStack| && !Execute(v, op).thrown && Refuses(v, op) && !Clean(v, op)
    ensures Restores(v, Execute(v, op).vm) <==> Reversible(v, op)
  {
    RefusedIs(v, op);
    TwiceReversible(v, op);
    hide *;
    RefusedRestores(v);
  }

  lemma {:induction false} RefusedRestores(v: Vm)
    requires v.recording && v.buffer == [] && v.pointer <= |v.undoStack| && !Refused(v).thrown
    requires v.s.paging || HaltsAt(v, PROTEC)
    ensures Restores(v, Refused(v).vm) <==> !v.s.paging && (HaltsAt(v, PROTEC) ==> v.s.active)
  {
    hide Undos, HaltsAt, Refused, Interrupt, UndoAll, Same;
    RefusedGroups(v);
    var r := Refused(v).vm;
    if HaltsAt(v, PROTEC) { HaltsTwice(v); SameRefl(v.s); }
    if Same(Undos(r, 2).value.s, v.s) { SameFields(Undos(r, 2).value.s, v.s); }
  }

  lemma {:induction false} RefusedGroups(v: Vm)
    requires v.recording && v.buffer == [] && v.pointer <= |v.undoStack| && !Refused(v).thrown
    ensures Refused(v).vm.pointer == v.pointer + 2 && Undos(Refused(v).vm, 2).Some?
    ensures var s := Undos(Refused(v).vm, 2).value.s; !s.paging && (HaltsAt(v, PROTEC) ==> s.active)
  {
    hide Undos, HaltsAt, Refused, Interrupt, UndoAll;
    RefusalCommits(v);
    var w, r := IntProtec(v).vm, Refused(v).vm;
    TailReaches(w, PROTEC, r.s);
    TwiceUndone(v, r, Tail(w, PROTEC));
  }

  // What the conditions come to for a refusal.
  lemma {:induction false} TwiceReversible(v: Vm, op: Operation)
    requires RaisesTwice(v, op)
    ensures Reversible(v, op) <==> !v.s.paging && (HaltsAt(v, PROTEC) ==> v.s.active)
    ensures Clean(v, op) <==> Reversible(v, op) && (Refuses(v, op) ==> !HaltsAt(v, PROTEC))
  {
    hide HaltsAt;
    RefusedPlain(v, op);
    if Refuses(v, op) { RefusedIs(v, op); } else { LeftIs(v, op); }
    hide Raised, Refuses, LeavesRefused, Links, Execute;
  }

  lemma {:induction false} RefusedPlain(v: Vm, op: Operation)
    requires RaisesTwice(v, op)
    ensures !Links(v, op) && !op.HaltOp?
  {}

  lemma {:induction false} LeftUndone(v: Vm, op: Operation)
    requires v.recording && v.buffer == [] && v.pointer <= |v.undoStack| && !Execute(v, op).thrown && LeavesRefused(v, op) && !Clean(v, op)
    ensures Restores(v, Execute(v, op).vm) <==> Reversible(v, op)
  {
    LeftIs(v, op);
    TwiceReversible(v, op);
    hide *;
    LeftForGood(v);
  }

  lemma {:induction false} LeftForGood(v: Vm)
    requires v.recording && v.buffer == [] && v.pointer <= |v.undoStack| && v.s.ring > 0 && !LeaveBy(v, E0).thrown
    requires v.s.paging || (HaltsAt(v, PROTEC) && !v.s.active)
    ensures !Restores(v, LeaveBy(v, E0).vm)
  {
    hide Undos, HaltsAt, LeaveBy, Interrupt, UndoAll, Same;
    LeavingCommits(v);
    var w, r := IntProtec(v).vm, LeaveBy(v, E0).vm;
    TwiceUndone(v, r, [JumpTo(w, w.s.regs[E0], false)]);
    if Same(Undos(r, 2).value.s, v.s) { SameFields(Undos(r, 2).value.s, v.s); }
  }

  lemma {:induction false} SingleUndone(v: Vm, states: seq<State>, op: Operation)
    requires Tracks(v, states) && v.buffer == [] && !Execute(v, op).thrown && !Clean(v, op)
    requires !Links(v, op) && !(op.HaltOp? && !v.s.active) && !RaisesTwice(v, op)
    ensures Restores(v, Execute(v, op).vm) <==> Reversible(v, op)
  {
    hide Tracks, Execute, Undos, LeavesRefused, Raised, Links, HaltsAt, Same, CanUndo, UndoStep, Interrupt, Poised;
    SingleRaise(v, states, op);
    var (w, t) := Raised(v, op).value;
    RaiseUndone(v, states, w, t);
    InterruptPointer(v, states, w, t);
    RestoresOne(v, Interrupt(w, t).vm);
  }

  lemma {:induction false} InterruptPointer(v: Vm, states: seq<State>, w: Vm, t: InterruptType)
    requires Poised(v, states, w) && Admitted(w, t) && !Interrupt(w, t).thrown
    ensures Interrupt(w, t).vm.pointer == v.pointer + 1
  {
    hide Interrupt, Tracks;
    TracksRecording(w, states);
    InterruptCommits(w, t);
  }

  // What is left of the unclean operations raises one interrupt.
  lemma {:induction false} SingleRaise(v: Vm, states: seq<State>, op: Operation)
    requires Tracks(v, states) && !Clean(v, op)
    requires !Links(v, op) && !(op.HaltOp? && !v.s.active) && !RaisesTwice(v, op)
    ensures Raised(v, op).Some?
    ensures var (w, t) := Raised(v, op).value;
      Execute(v, op) == Interrupt(w, t) && Poised(v, states, w) && Admitted(w, t)
  {
    if Idle(v, op) { IdleIsQuiet(v, op); }
    hide Tracks, Execute, LeavesRefused, Raised, Links, HaltsAt, Interrupt, Poised, Kept;
    AnswersOp(v, states, op);
  }

  lemma {:induction false} IdleIsQuiet(v: Vm, op: Operation)
    requires Idle(v, op)
    ensures Raised(v, op).None? && !Links(v, op) && !op.HaltOp? && !RaisesTwice(v, op)
  {}

  // ----- exactly which operations keep the history exact -----

  /** An operation keeps the history exact if and only if it is clean. */
  lemma {:induction false} CleanExactly(v: Vm, states: seq<State>, op: Operation)
    requires Tracks(v, states) && v.buffer == []
    ensures Advances(v, states, Execute(v, op), StepStates(v, op)) <==> Clean(v, op)
  {
    hide Tracks, Execute, Clean, Advances, StepStates;
    if Clean(v, op) {
      TrackExecute(v, states, op);
    } else if Advances(v, states, Execute(v, op), StepStates(v, op)) {
      TracksRecording(v, states);
      if Execute(v, op).thrown {
        UncleanThrow(v, states, op);
      } else {
        AdvancesRestores(v, states, Execute(v, op), StepStates(v, op));
        StepUndone(v, states, op);
        HaltedTwice(v, states, op);
      }
      assert false;
    }
  }

  lemma {:induction false} AdvancesRestores(v: Vm, states: seq<State>, r: Outcome, more: seq<State>)
    requires Tracks(v, states) && v.buffer == [] && !r.thrown && Advances(v, states, r, more)
    ensures Restores(v, r.vm)
  {
    hide Tracks, Undos;
    TracksRecording(v, states);
    var after := Extend(states, v.pointer, more);
    UndosReach(r.vm, after, |more|);
    var w := Undos(r.vm, |more|).value;
    AtPointer(v, states);
    AtPointer(w, after);
    SameSym(after[v.pointer], w.s);
    SameTrans(w.s, states[v.pointer], v.s);
  }

  // A refusal that halts twice can be taken back, but not step by step.
  lemma {:induction false} HaltedTwice(v: Vm, states: seq<State>, op: Operation)
    requires Tracks(v, states) && v.buffer == [] && !Execute(v, op).thrown
    requires Reversible(v, op) && !Clean(v, op)
    ensures !Advances(v, states, Execute(v, op), StepStates(v, op))
  {
    assert Refuses(v, op) && HaltsAt(v, PROTEC) by { hide Reversible, Refuses, HaltsAt, Execute; }
    RefusedIs(v, op);
    TracksRecording(v, states);
    hide *;
    RefusalCommits(v);
    RefusedStates(v, op);
    AsleepBetween(v, states);
  }

  lemma {:induction false} RefusedStates(v: Vm, op: Operation)
    requires Refuses(v, op) && Execute(v, op) == Refused(v) && Refused(v).vm.pointer > v.pointer
    ensures StepStates(v, op) == [IntProtec(v).vm.s, Refused(v).vm.s]
  { hide Refuses, LeavesRefused, Execute, Refused, Interrupt; }

  // The state between the two halts is inactive, so the second halt does not lead on from it.
  lemma {:induction false} AsleepBetween(v: Vm, states: seq<State>)
    requires Tracks(v, states) && v.buffer == [] && !Refused(v).thrown && HaltsAt(v, PROTEC)
    ensures !Advances(v, states, Refused(v), [IntProtec(v).vm.s, Refused(v).vm.s])
  {
    hide HaltsAt, Tracks, Refused, Interrupt;
    TracksRecording(v, states);
    RefusalCommits(v);
    HaltingState(v);
    var mid, r := IntProtec(v).vm, Refused(v).vm;
    if Advances(v, states, Refused(v), [mid.s, r.s]) {
      SleepingLink(r, Extend(states, v.pointer, [mid.s, r.s]), v.pointer + 1);
      assert false;
    }
  }

  // A lone halt leads from an active state.
  lemma {:induction false} SleepingLink(w: Vm, states: seq<State>, i: nat)
    requires Tracks(w, states) && i < |w.undoStack| && w.undoStack[i] == [HaltChange]
    ensures states[i].active
  {
    assert LinkAt(w.undoStack, states, i);
    HaltOnly(states[i + 1]);
    SameFields(UndoAll([HaltChange], states[i + 1]), states[i]);
  }

  lemma {:induction false} RefusalThrows(v: Vm)
    requires Refused(v).thrown
    ensures Refused(v) == IntProtec(v)
  {
    hide Interrupt, HaltsAt;
    ProtecKeeps(v);
    if !IntProtec(v).thrown {
      ProtecKeeps(IntProtec(v).vm);
      HaltsAlike(v, IntProtec(v).vm);
    }
  }

  lemma {:induction false} ThrowRaises(v: Vm, states: seq<State>, op: Operation)
    requires Tracks(v, states) && Execute(v, op).thrown && !Clean(v, op) && !Links(v, op) && !op.HaltOp?
    ensures Raised(v, op).Some?
    ensures var (w, t) := Raised(v, op).value;
      Execute(v, op) == Interrupt(w, t) && Poised(v, states, w) && Admitted(w, t)
  {
    hide Tracks, Interrupt, LeavesRefused, Refuses, Execute, Refused, Links, Raised, Clean, Poised;
    if Refuses(v, op) {
      RefusedIs(v, op);
      RefusalThrows(v);
      PoisedSelf(v, states);
    } else if LeavesRefused(v, op) {
      LeftIs(v, op);
      PoisedSelf(v, states);
    } else {
      SingleRaise(v, states, op);
    }
  }

  // An unclean operation that throws does so out of paging.
  lemma {:induction false} UncleanThrow(v: Vm, states: seq<State>, op: Operation)
    requires Tracks(v, states) && v.buffer == [] && Execute(v, op).thrown && !Clean(v, op)
    ensures !Advances(v, states, Execute(v, op), StepStates(v, op))
  {
    hide Tracks, Execute, Links, Raised, LeavesRefused, Refuses, HaltsAt, Interrupt;
    if Links(v, op) {
      var w, address := LinkIs(v, op);
      assert false;
    } else if op.HaltOp? {
      HaltIs(v, op);
      assert false;
    } else {
      TracksRecording(v, states);
      ThrowRaises(v, states, op);
      var (w, t) := Raised(v, op).value;
      InterruptThrows(w, t);
      if Refuses(v, op) { RefusedIs(v, op); }
      ThrowLeavesPaging(v, states, w, t);
    }
  }
}
