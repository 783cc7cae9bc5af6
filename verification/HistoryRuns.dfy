/** Whole runs of operations, ticks, undos and redos: the states they commit, as a function of the run, and where undo
    and redo lead. */
module HistoryRuns {
  import opened Words
  import opened Machine
  import opened Paging
  import opened Operations
  import opened History
  import opened Raises
  import opened HistorySteps

  // ----- what one operation commits -----

  // The machine right after a refusal's first interrupt, which commits a group of its own.
  predicate RaisesTwice(v: Vm, op: Operation) { Refuses(v, op) || LeavesRefused(v, op) }

  // The states an operation commits: its result, after that of the first interrupt where it has two groups to commit.
  function StepStates(v: Vm, op: Operation): seq<State>
  {
    var r := Execute(v, op).vm;
    if r.pointer <= v.pointer then [] else if RaisesTwice(v, op) then [IntProtec(v).vm.s, r.s] else [r.s]
  }

  // Committed states follow the one at the pointer; those past it are gone.
  function Extend(states: seq<State>, pointer: nat, more: seq<State>): seq<State>
  { if more == [] || pointer >= |states| then states else states[..pointer + 1] + more }

  // A switched-off hardware interrupt does nothing.
  predicate Idle(v: Vm, op: Operation) { op.Int? && 1 <= op.imm < 8 && !Admitted(v, op.imm) }

  lemma {:induction false} AnswersAccess(v: Vm, states: seq<State>, op: Operation)
    requires Tracks(v, states) && IsAccess(op)
    ensures Answers(v, states, Execute(v, op), Raised(v, op))
  {
    hide Tracks, Answers, Load, Store, Copy, LoadIndirect, Fill, Push, Pop, TranslateReg, AddressOf,
      LoadRaise, StoreRaise, CopyRaise, FillRaise, PushRaise;
    match op
    case LoadOp(rd, place, size) => AnswersLoad(v, states, rd, AddressOf(v, place), size);
    case StoreOp(rs, place, size) => AnswersStore(v, states, AddressOf(v, place), v.s.regs[rs], size);
    case CopyOp(rs, rd, size) => AnswersCopy(v, states, v.s.regs[rs], v.s.regs[rd], size);
    case LoadIndirectOp(rd, imm, size) => AnswersIndirect(v, states, rd, imm, size);
    case MemSetOp(rs, rt, rd) =>
      var count := Signed(v.s.regs[rs]);
      AnswersFill(v, states, v.s.regs[rd], v.s.regs[rt], 0, if count > 0 then count else 0);
    case PushOp(rs, amount) => AnswersPush(v, states, rs, amount);
    case PopOp(rd, amount) => AnswersPop(v, states, rd, amount);
    case TranslateOp(rs, rd) => AnswersTranslate(v, states, rs, rd);
  }

  lemma {:induction false} AnswersJump(v: Vm, states: seq<State>, op: Operation)
    requires Tracks(v, states) && IsJump(op) && !LeavesRefused(v, op) && (Links(v, op) ==> v.s.regs[RT] == Plus(v.s.pc, 8))
    ensures Answers(v, states, Execute(v, op), Raised(v, op))
  {
    hide Tracks, Jump, LeaveBy, Increment, JumpRegLinkIfOp, CheckConditions, Translate, LoadRaise;
    PoisedSelf(v, states);
    MovesOn(v, states, v);
    match op
    case JumpOp(address, link, c) => if CheckConditions(v, c) { TrackJump(v, states, address, link); }
    case JumpIf(rs, address, link) => if v.s.regs[rs] != 0 { TrackJump(v, states, address, link); }
    case JumpReg(rd, c) => if CheckConditions(v, c) { KeptLeave(v, states, rd); }
    case JumpRegIf(rs, rd) => if v.s.regs[rs] != 0 { KeptLeave(v, states, rd); }
    case JumpRegLink(rd, c) => if CheckConditions(v, c) { TrackJump(v, states, v.s.regs[rd], true); }
    case JumpRegLinkIf(rs, rd) => AnswersLinkIf(v, states, rs, rd);
  }

  lemma {:induction false} AnswersPrivileged(v: Vm, states: seq<State>, op: Operation)
    requires Tracks(v, states) && Privileged(op) && v.s.ring == 0
    ensures Answers(v, states, Execute(v, op), Raised(v, op))
  {
    hide Tracks, Kept, SetInterruptTable, SetPaging, SetTable, PagePush, PagePop, LoadRaise;
    match op
    case SetInterruptTableOp(imm) => AnswersTable(v, states, imm);
    case SetPagingOp(on) => KeptSetPaging(v, states, on);
    case SetTableOp(rs, rt) => KeptSetTable(v, states, rs, rt);
    case PagePushOp => KeptPagePush(v, states);
    case PagePopOp(rs) => KeptPagePop(v, states, rs);
  }

  lemma {:induction false} AnswersPlain(v: Vm, states: seq<State>, op: Operation)
    requires Tracks(v, states) && !IsAccess(op) && !IsJump(op) && !Privileged(op) && !Idle(v, op)
    requires op.HaltOp? ==> v.s.active
    ensures Answers(v, states, Execute(v, op), Raised(v, op))
  {
    hide Tracks, Increment, SetReg, ChangeRing, Product, AddressOf, UpdateFlags, Halt, Interrupt, Poised, Kept, RingAdmitted;
    PoisedSelf(v, states);
    MovesOn(v, states, v);
    match op
    case Nop =>
    case Compute(rd, rs, rt, f, flags) => AnswersCompute(v, states, rd, f(v.s.regs[rs], v.s.regs[rt]), flags);
    case Set(rd, imm) => AnswersCompute(v, states, rd, imm, false);
    case Compare(rs, rt) =>
      var d := Minus(v.s.regs[rs], v.s.regs[rt]);
      PoisedFlags(v, states, d);
      MovesOn(v, states, UpdateFlags(v, d));
    case Multiply(rs, rt) => KeptProduct(v, states, v.s.regs[rs], v.s.regs[rt]);
    case PrintChar(rs) => AnswersPrint(v, states, rs);
    case HaltOp => KeptHalt(v, states);
    case ChangeRingOp(place) => AnswersRing(v, states, AddressOf(v, place));
    case Int(imm) =>
  }

  lemma {:induction false} KeptHalt(v: Vm, states: seq<State>)
    requires Tracks(v, states) && v.s.active
    ensures Kept(v, states, Halted(v))
  { hide Tracks, Halt; TrackHalt(v, states); }

  lemma {:induction false} AnswersCompute(v: Vm, states: seq<State>, rd: Reg, value: Long, flags: bool)
    requires Tracks(v, states)
    ensures Answers(v, states, Moved(SetReg(v, rd, value, flags)), None)
  {
    hide Tracks, Increment, Poised;
    var w := SetReg(v, rd, value, false);
    PoisedReg(v, states, rd, value);
    PoisedTracks(v, states, w);
    if flags {
      PoisedFlags(w, states, value);
      PoisedOn(v, states, w, UpdateFlags(w, value));
    }
    MovesOn(v, states, SetReg(v, rd, value, flags));
  }

  lemma {:induction false} AnswersPrint(v: Vm, states: seq<State>, rs: Reg)
    requires Tracks(v, states)
    ensures Answers(v, states, Moved(v.(printed := v.printed + [v.s.regs[rs] % 0x100])), None)
  {
    hide Tracks, Increment;
    var w := v.(printed := v.printed + [v.s.regs[rs] % 0x100]);
    TracksRecording(v, states);
    SameRefl(v.s);
    TrackSilent(v, states, w);
    MovesOn(v, states, w);
  }

  lemma {:induction false} AnswersOp(v: Vm, states: seq<State>, op: Operation)
    requires Tracks(v, states) && !RaisesTwice(v, op) && !Idle(v, op)
    requires (Links(v, op) ==> v.s.regs[RT] == Plus(v.s.pc, 8)) && (op.HaltOp? ==> v.s.active)
    ensures Answers(v, states, Execute(v, op), Raised(v, op))
  {
    hide Tracks, Execute, Links, Answers, Raised, LeavesRefused, Idle;
    if IsAccess(op) { AnswersAccess(v, states, op); }
    else if IsJump(op) { AnswersJump(v, states, op); }
    else if Privileged(op) { AnswersPrivileged(v, states, op); }
    else { AnswersPlain(v, states, op); }
  }

  // ----- one operation -----

  // What a step has kept exact: its states follow the one at the pointer.
  ghost predicate Advances(v: Vm, states: seq<State>, r: Outcome, more: seq<State>)
  {
    && r.vm.pointer == v.pointer + |more| && Tracks(r.vm, Extend(states, v.pointer, more))
    && (!r.thrown && v.buffer == [] ==> r.vm.buffer == [])
  }

  lemma {:induction false} KeptAdvances(v: Vm, states: seq<State>, r: Outcome)
    requires Kept(v, states, r)
    ensures Advances(v, states, r, if r.vm.pointer <= v.pointer then [] else [r.vm.s])
  { hide Tracks; }

  lemma {:induction false} AdvancesOnce(v: Vm, states: seq<State>, op: Operation)
    requires Tracks(v, states) && Clean(v, op) && !RaisesTwice(v, op) && !Idle(v, op)
    ensures Advances(v, states, Execute(v, op), StepStates(v, op))
  {
    hide Tracks, Execute, Raised, Links, HaltsAt, LeavesRefused, Interrupt;
    AnswersOp(v, states, op);
    if Raised(v, op).Some? {
      var (w, t) := Raised(v, op).value;
      TrackInterrupt(w, states, t);
      KeptFrom(v, states, w, Interrupt(w, t));
    }
    KeptAdvances(v, states, Execute(v, op));
  }

  // A halt or a handler meets the second interrupt of a refusal as it met the first.
  lemma {:induction false} ProtecKeeps(v: Vm)
    ensures var w := IntProtec(v).vm; w.s.mem == v.s.mem && w.s.table == v.s.table && w.s.ring == v.s.ring && !w.s.paging
    ensures IntProtec(v).thrown <==> !HaltsAt(v, PROTEC) && !Inside(v.s.mem, Plus(v.s.table, 8 * PROTEC), Whole)
  { hide Get; }

  lemma {:induction false} AdvancesRefused(v: Vm, states: seq<State>)
    requires Tracks(v, states) && !v.s.paging && !HaltsAt(v, PROTEC)
    ensures var r := Refused(v);
      Advances(v, states, r, if r.vm.pointer <= v.pointer then [] else [IntProtec(v).vm.s, r.vm.s])
  {
    hide Tracks, Interrupt, HaltsAt;
    ProtecKeeps(v);
    TrackInterrupt(v, states, PROTEC);
    var first := IntProtec(v);
    if !first.thrown {
      ProtecKeeps(first.vm);
      HaltsAlike(v, first.vm);
      TrackInterrupt(first.vm, states[..v.pointer + 1] + [first.vm.s], PROTEC);
      SecondAdvances(v, states, first.vm, IntProtec(first.vm));
    }
  }

  lemma {:induction false} AdvancesLeft(v: Vm, states: seq<State>)
    requires Tracks(v, states) && v.s.ring > 0 && !v.s.paging && (HaltsAt(v, PROTEC) ==> v.s.active)
    ensures var r := LeaveBy(v, E0);
      Advances(v, states, r, if r.vm.pointer <= v.pointer then [] else [IntProtec(v).vm.s, r.vm.s])
  {
    hide Tracks, Interrupt, HaltsAt, Jump;
    TrackInterrupt(v, states, PROTEC);
    var first := IntProtec(v);
    if !first.thrown {
      TrackJump(first.vm, states[..v.pointer + 1] + [first.vm.s], first.vm.s.regs[E0], false);
      SecondAdvances(v, states, first.vm, Outcome(Jump(first.vm, first.vm.s.regs[E0], false), false));
    }
  }

  lemma {:induction false} AdvancesTwice(v: Vm, states: seq<State>, op: Operation)
    requires Tracks(v, states) && Clean(v, op) && RaisesTwice(v, op)
    ensures Advances(v, states, Execute(v, op), StepStates(v, op))
  {
    hide Tracks, HaltsAt, Refused, LeaveBy, Interrupt, Advances;
    if Refuses(v, op) {
      RefusedIs(v, op);
      hide Execute, Raised, LeavesRefused, Refuses, Links;
      AdvancesRefused(v, states);
    } else {
      LeftIs(v, op);
      hide Execute, Raised, LeavesRefused, Refuses, Links;
      AdvancesLeft(v, states);
    }
  }

  lemma {:induction false} HaltsAlike(v: Vm, w: Vm)
    requires w.s.mem == v.s.mem && w.s.table == v.s.table
    ensures HaltsAt(w, PROTEC) == HaltsAt(v, PROTEC)
  { hide Get; }

  lemma {:induction false} RefusedIs(v: Vm, op: Operation)
    requires Refuses(v, op)
    ensures Raised(v, op) == Some((v, PROTEC)) && Execute(v, op) == Refused(v)
  { hide Refused; }

  lemma {:induction false} LeftIs(v: Vm, op: Operation)
    requires LeavesRefused(v, op)
    ensures Raised(v, op) == Some((v, PROTEC)) && Execute(v, op) == LeaveBy(v, E0) && v.s.ring > 0 && !Refuses(v, op)
  { hide LeaveBy, CheckConditions; }

  lemma {:induction false} SecondAdvances(v: Vm, states: seq<State>, w: Vm, r: Outcome)
    requires Commits(v, states, w) && Kept(w, states[..v.pointer + 1] + [w.s], r) && !r.thrown
    ensures Advances(v, states, r, [w.s, r.vm.s])
  {
    hide Tracks;
    var once := states[..v.pointer + 1] + [w.s];
    assert once[..w.pointer + 1] == once;
    assert once + [r.vm.s] == states[..v.pointer + 1] + [w.s, r.vm.s];
  }

  /** A clean operation keeps the history exact: the states it commits are its own, they follow the one at the pointer,
      and nothing but the redo tail is dropped. */
  lemma {:induction false} TrackExecute(v: Vm, states: seq<State>, op: Operation)
    requires Tracks(v, states) && Clean(v, op)
    ensures Advances(v, states, Execute(v, op), StepStates(v, op))
  {
    hide Tracks, Execute, Clean, LeavesRefused, Refuses;
    if RaisesTwice(v, op) {
      AdvancesTwice(v, states, op);
    } else if Idle(v, op) {
      IdleDoesNothing(v, op);
    } else {
      AdvancesOnce(v, states, op);
    }
  }

  lemma {:induction false} IdleDoesNothing(v: Vm, op: Operation)
    requires Idle(v, op)
    ensures Execute(v, op) == Outcome(v, false)
  { hide Enter; }

  // ----- one tick -----

  // The operation a tick would execute.
  function Fetched(v: Vm, decode: Long -> Option<Operation>): Option<Operation>
  {
    match Translate(v.s, v.s.pc)
    case Mapped(physical, _) => if Inside(v.s.mem, physical, Whole) then decode(Get(v.s.mem, physical, Whole)) else None
    case _ => None
  }

  // A tick halts where the program counter does not translate.
  predicate CleanTick(v: Vm, decode: Long -> Option<Operation>)
  {
    if Translate(v.s, v.s.pc).Fault? then v.s.active
    else match Fetched(v, decode) case Some(op) => Clean(Walked(v, v.s.pc), op) case None => true
  }

  function TickStates(v: Vm, decode: Long -> Option<Operation>): seq<State>
  {
    if Translate(v.s, v.s.pc).Fault? then [Tick(v, decode).vm.s]
    else match Fetched(v, decode) case Some(op) => StepStates(Walked(v, v.s.pc), op) case None => []
  }

  /** A clean tick keeps the history exact, as does one that ends in an exception before it executes anything. */
  lemma {:induction false} TrackTick(v: Vm, states: seq<State>, decode: Long -> Option<Operation>)
    requires Tracks(v, states) && CleanTick(v, decode)
    ensures Advances(v, states, Tick(v, decode), TickStates(v, decode))
  {
    hide Tracks, Execute, Clean, Walked, Halt, Translate, StepStates;
    var w := Walked(v, v.s.pc);
    WalkedBuffer(v, v.s.pc);
    PoisedWalk(v, states, v.s.pc);
    PoisedTracks(v, states, w);
    if Translate(v.s, v.s.pc).Fault? {
      TrackHalt(w, states);
    } else if Fetched(v, decode).Some? {
      TrackExecute(w, states, Fetched(v, decode).value);
    }
  }

  lemma {:induction false} WalkedBuffer(v: Vm, address: Long)
    ensures Walked(v, address).buffer == v.buffer && Walked(v, address).pointer == v.pointer && Walked(v, address).s == v.s
  { hide Translate; }

  // ----- runs -----

  datatype Event = Do(op: Operation) | Ticking(decode: Long -> Option<Operation>) | Undoing | Redoing

  function Step(v: Vm, e: Event): Outcome
  {
    match e
    case Do(op) => Execute(v, op)
    case Ticking(decode) => Tick(v, decode)
    case Undoing => Outcome(if CanUndo(v) then UndoStep(v) else v, false)
    case Redoing => Outcome(if CanRedo(v) then RedoStep(v) else v, false)
  }

  predicate CleanEvent(v: Vm, e: Event)
  { match e case Do(op) => Clean(v, op) case Ticking(decode) => CleanTick(v, decode) case _ => true }

  function Run(v: Vm, events: seq<Event>): Vm
    decreases |events|
  { if events == [] then v else Run(Step(v, events[0]).vm, events[1..]) }

  // Every step is clean and none ends in an exception.
  predicate CleanRun(v: Vm, events: seq<Event>)
    decreases |events|
  {
    events == [] || (CleanEvent(v, events[0]) && !Step(v, events[0]).thrown && CleanRun(Step(v, events[0]).vm, events[1..]))
  }

  function EventStates(v: Vm, e: Event): seq<State>
  { match e case Do(op) => StepStates(v, op) case Ticking(decode) => TickStates(v, decode) case _ => [] }

  /** The states committed by a run: each step's own states follow the one at the pointer, and undo and redo only move
      the pointer. */
  function Committed(states: seq<State>, v: Vm, events: seq<Event>): seq<State>
    decreases |events|
  {
    if events == [] then states else
    Committed(Extend(states, v.pointer, EventStates(v, events[0])), Step(v, events[0]).vm, events[1..])
  }

  predicate Fresh(v: Vm) { v.recording && v.undoStack == [] && v.buffer == [] && v.pointer == 0 }

  lemma {:induction false} TrackFresh(v: Vm)
    requires Fresh(v)
    ensures Tracks(v, [v.s])
  { LeadsNowhere(v.s, v.s); }

  lemma {:induction false} TrackEvent(v: Vm, states: seq<State>, e: Event)
    requires Tracks(v, states) && v.buffer == [] && CleanEvent(v, e) && !Step(v, e).thrown
    ensures Tracks(Step(v, e).vm, Extend(states, v.pointer, EventStates(v, e))) && Step(v, e).vm.buffer == []
  {
    hide Execute, Tick, Clean, CleanTick, CanUndo, CanRedo, Leads, StepStates, TickStates;
    match e
    case Do(op) => TrackExecute(v, states, op);
    case Ticking(decode) => TrackTick(v, states, decode);
    case Undoing => NoneToUndo(v); if CanUndo(v) { TrackUndo(v, states); }
    case Redoing => NoneToRedo(v); if CanRedo(v) { TrackRedo(v, states); }
  }

  lemma {:induction false} NoneToUndo(v: Vm)
    ensures v.pointer == 0 ==> !CanUndo(v)
  {}

  lemma {:induction false} NoneToRedo(v: Vm)
    ensures v.pointer >= |v.undoStack| ==> !CanRedo(v)
  {}

  /** Over any clean run the history stays exact, and the states it holds are those the run committed. */
  lemma {:induction false} RunHistory(v: Vm, states: seq<State>, events: seq<Event>)
    requires Tracks(v, states) && v.buffer == [] && CleanRun(v, events)
    ensures Tracks(Run(v, events), Committed(states, v, events)) && Run(v, events).buffer == []
    decreases |events|
  {
    hide Tracks, Step, CleanEvent, EventStates, Extend;
    if events != [] {
      TrackEvent(v, states, events[0]);
      RunHistory(Step(v, events[0]).vm, Extend(states, v.pointer, EventStates(v, events[0])), events[1..]);
    }
  }

  // ----- the states are the run's -----

  // No step of the run starts below pointer p, so none drops the state committed there.
  predicate StaysAbove(v: Vm, events: seq<Event>, p: nat)
    decreases |events|
  {
    events == [] || ((EventStates(v, events[0]) != [] ==> v.pointer >= p) && StaysAbove(Step(v, events[0]).vm, events[1..], p))
  }

  lemma {:induction false} CommittedKeeps(states: seq<State>, v: Vm, events: seq<Event>, p: nat)
    requires p < |states| && StaysAbove(v, events, p)
    ensures p < |Committed(states, v, events)| && Committed(states, v, events)[p] == states[p]
    decreases |events|
  {
    hide Step, EventStates;
    if events != [] { CommittedKeeps(Extend(states, v.pointer, EventStates(v, events[0])), Step(v, events[0]).vm, events[1..], p); }
  }

  lemma {:induction false} RunSplit(v: Vm, states: seq<State>, a: seq<Event>, b: seq<Event>)
    ensures Run(v, a + b) == Run(Run(v, a), b)
    ensures Committed(states, v, a + b) == Committed(Committed(states, v, a), Run(v, a), b)
    ensures CleanRun(v, a + b) <==> CleanRun(v, a) && CleanRun(Run(v, a), b)
    decreases |a|
  {
    hide Step, EventStates, CleanEvent;
    if a == [] {
      assert a + b == b;
    } else {
      assert (a + b)[1..] == a[1..] + b;
      RunSplit(Step(v, a[0]).vm, Extend(states, v.pointer, EventStates(v, a[0])), a[1..], b);
    }
  }

  // m undos and j redos end at the committed state they should.
  predicate LandsOn(w: Vm, s: State, m: nat, j: nat)
  { Undos(w, m).Some? && Redos(Undos(w, m).value, j).Some? && Same(Redos(Undos(w, m).value, j).value.s, s) }

  predicate LandsAt(w: Vm, states: seq<State>, m: nat, j: nat)
    requires m <= w.pointer && w.pointer - m + j < |states|
  { LandsOn(w, states[w.pointer - m + j], m, j) }

  /** From a fresh machine, after any clean run, any m undos and j redos that stay within the stack land on the state
      the run committed there; the first of these is the starting state. */
  lemma {:induction false} RunIsReversible(v: Vm, events: seq<Event>)
    requires Fresh(v) && CleanRun(v, events)
    ensures var w, states := Run(v, events), Committed([v.s], v, events);
      && |states| == |w.undoStack| + 1 && w.pointer <= |w.undoStack| && states[0] == v.s && Same(w.s, states[w.pointer])
      && forall m: nat, j: nat :: m <= w.pointer && w.pointer - m + j <= |w.undoStack| ==> LandsAt(w, states, m, j)
  {
    hide Undos, Redos, Run, CleanRun, Committed;
    TrackFresh(v);
    RunHistory(v, [v.s], events);
    CommittedFirst(v, [v.s], events);
    var w, states := Run(v, events), Committed([v.s], v, events);
    LeadsNothing(states[w.pointer], w.s);
    forall m: nat, j: nat | m <= w.pointer && w.pointer - m + j <= |w.undoStack| ensures LandsAt(w, states, m, j) {
      UndosThenRedos(w, states, m, j);
    }
  }

  lemma {:induction false} CommittedFirst(v: Vm, states: seq<State>, events: seq<Event>)
    requires states != []
    ensures Committed(states, v, events) != [] && Committed(states, v, events)[0] == states[0]
    decreases |events|
  {
    hide Step, EventStates;
    if events != [] { CommittedFirst(Step(v, events[0]).vm, Extend(states, v.pointer, EventStates(v, events[0])), events[1..]); }
  }

  /** Any earlier point of the run is reached again: if `before` is a prefix of the run and no later step was taken
      further back, then m undos and j redos that bring the pointer to where it stood lead to the very state the machine
      was in then, on memory, registers but $st, program counter, ring, page tables, paging, interrupt table and activity. */
  lemma {:induction false} RunReturns(v: Vm, before: seq<Event>, later: seq<Event>, m: nat, j: nat)
    requires Fresh(v) && CleanRun(v, before + later)
    requires StaysAbove(Run(v, before), later, Run(v, before).pointer)
    requires var w := Run(v, before + later); m <= w.pointer && w.pointer - m + j == Run(v, before).pointer
    ensures LandsOn(Run(v, before + later), Run(v, before).s, m, j)
  {
    hide Undos, Redos, Run, CleanRun, Committed, StaysAbove;
    var mid, w := Run(v, before), Run(v, before + later);
    RunSplit(v, [v.s], before, later);
    TrackFresh(v);
    RunHistory(v, [v.s], before);
    var states := Committed([v.s], v, before);
    LeadsNothing(states[mid.pointer], mid.s);
    CommittedKeeps(states, mid, later, mid.pointer);
    RunIsReversible(v, before + later);
    PointerWithin(w, Committed([v.s], v, before + later), mid.pointer);
    assert LandsAt(w, Committed([v.s], v, before + later), m, j);
  }

  lemma {:induction false} PointerWithin(w: Vm, states: seq<State>, p: nat)
    requires |states| == |w.undoStack| + 1 && p < |states|
    ensures p <= |w.undoStack|
  {}

  // Steps alone never move the pointer back.
  lemma {:induction false} StepsStayAbove(v: Vm, states: seq<State>, events: seq<Event>, p: nat)
    requires Tracks(v, states) && v.buffer == [] && CleanRun(v, events) && p <= v.pointer
    requires forall i :: 0 <= i < |events| ==> events[i].Do? || events[i].Ticking?
    ensures StaysAbove(v, events, p) && p <= Run(v, events).pointer
    decreases |events|
  {
    hide Tracks, Execute, Tick, Clean, CleanTick, StepStates, TickStates;
    if events != [] {
      TrackEvent(v, states, events[0]);
      match events[0] {
        case Do(op) => TrackExecute(v, states, op);
        case Ticking(decode) => TrackTick(v, states, decode);
      }
      StepsStayAbove(Step(v, events[0]).vm, Extend(states, v.pointer, EventStates(v, events[0])), events[1..], p);
    }
  }

  /** After any clean steps, undoing what the last of them committed gives back the state before them. */
  lemma {:induction false} UndoReturns(v: Vm, before: seq<Event>, later: seq<Event>)
    requires Fresh(v) && CleanRun(v, before + later)
    requires forall i :: 0 <= i < |later| ==> later[i].Do? || later[i].Ticking?
    ensures Run(v, before).pointer <= Run(v, before + later).pointer
    ensures LandsOn(Run(v, before + later), Run(v, before).s, Run(v, before + later).pointer - Run(v, before).pointer, 0)
  {
    hide Undos, Redos, Run, CleanRun, Committed, StaysAbove, LandsOn;
    RunSplit(v, [v.s], before, later);
    TrackFresh(v);
    RunHistory(v, [v.s], before);
    StepsStayAbove(Run(v, before), Committed([v.s], v, before), later, Run(v, before).pointer);
    RunReturns(v, before, later, Run(v, before + later).pointer - Run(v, before).pointer, 0);
  }
}
