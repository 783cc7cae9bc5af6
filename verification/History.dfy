/** Undo and redo as an exact inverse over whole runs (wvm/src/VM.cpp, undo, redo, finishChange). */
module History {
  import opened Words
  import opened Machine
  import opened Operations

  // ----- groups of changes -----

  // The group leads from s to t and back, but for $st.
  ghost predicate Leads(g: seq<Change>, s: State, t: State)
  { |s.mem| == |t.mem| && AllReach(g, s) && AllReach(g, t) && Same(ApplyAll(g, s), t) && Same(UndoAll(g, t), s) }

  lemma {:induction false} ApplyAppend(g: seq<Change>, c: Change, s: State)
    requires AllReach(g + [c], s)
    ensures AllReach(g, s) && Reaches(c, ApplyAll(g, s))
    ensures ApplyAll(g + [c], s) == Apply(c, ApplyAll(g, s))
  {
    hide Apply;
    assert forall i :: 0 <= i < |g| ==> (g + [c])[i] == g[i];
    assert (g + [c])[|g|] == c;
    if g != [] {
      var t := Apply(g[0], s);
      ReachesSize(g + [c], s, t);
      assert (g + [c])[1..] == g[1..] + [c];
      assert AllReach(g[1..] + [c], t) by { assert forall i :: 0 <= i < |g[1..] + [c]| ==> (g[1..] + [c])[i] == (g + [c])[i + 1]; }
      ApplyAppend(g[1..], c, t);
    }
  }

  lemma {:induction false} SameApplyAll(g: seq<Change>, s: State, t: State)
    requires Same(s, t) && AllReach(g, s)
    ensures AllReach(g, t) && Same(ApplyAll(g, s), ApplyAll(g, t)) && Same(UndoAll(g, s), UndoAll(g, t))
    decreases |g|
  {
    hide Apply, Undo;
    assert Blank(s).mem == Blank(t).mem;
    ReachesSize(g, s, t);
    if g != [] {
      var n := |g| - 1;
      assert Reaches(g[0], s) && Reaches(g[n], s);
      SameApply(g[0], s, t);
      SameApply(g[n], s, t);
      ReachesSize(g, s, Apply(g[0], s));
      ReachesSize(g, s, Undo(g[n], s));
      assert AllReach(g[1..], Apply(g[0], s)) by { assert forall i :: 0 <= i < |g[1..]| ==> g[1..][i] == g[i + 1]; }
      assert AllReach(g[..n], Undo(g[n], s));
      SameApplyAll(g[1..], Apply(g[0], s), Apply(g[0], t));
      SameApplyAll(g[..n], Undo(g[n], s), Undo(g[n], t));
    }
  }

  lemma {:induction false} LeadsNowhere(s: State, t: State)
    requires Same(s, t)
    ensures Leads([], s, t)
  { assert Blank(s).mem == Blank(t).mem; }

  lemma {:induction false} LeadsSame(g: seq<Change>, s: State, t: State, s': State, t': State)
    requires Leads(g, s, t) && Same(s, s') && Same(t, t')
    ensures Leads(g, s', t')
  {
    assert Blank(s).mem == Blank(s').mem && Blank(t).mem == Blank(t').mem;
    SameApplyAll(g, s, s');
    SameApplyAll(g, t, t');
  }

  // One more captured change at the end of a group.
  lemma {:induction false} LeadsOn(g: seq<Change>, c: Change, s: State, t: State, u: State)
    requires Leads(g, s, t) && Captured(c, t) && Reaches(c, t) && Same(u, Apply(c, t))
    ensures Leads(g + [c], s, u)
  {
    hide Apply, Undo, Captured;
    var h := g + [c];
    assert |u.mem| == |t.mem| by { assert Blank(u).mem == Blank(Apply(c, t)).mem; }
    assert Reaches(c, s) && Reaches(c, u);
    AllReachAppend(g, c, s);
    ReachesSize(h, s, u);
    ApplyAppend(g, c, s);
    SameApply(c, t, ApplyAll(g, s));
    CapturedFits(c, t);
    CapturedIsUndone(c, t);
    SameApply(c, Apply(c, t), u);
    assert h[..|g|] == g;
    assert Same(Undo(c, u), t);
    ReachesSize(g, t, Undo(c, u));
    SameApplyAll(g, t, Undo(c, u));
    assert UndoAll(h, u) == UndoAll(g, Undo(c, u));
  }

  lemma {:induction false} AllReachAppend(g: seq<Change>, c: Change, s: State)
    requires AllReach(g, s) && Reaches(c, s)
    ensures AllReach(g + [c], s)
  { assert forall i :: 0 <= i < |g| ==> Reaches(g[i], s); }

  lemma {:induction false} CapturedFits(c: Change, s: State)
    requires Captured(c, s)
    ensures c.MemoryChange? ==> Fits(c.was, Bytes(c.size))
    ensures Reaches(c, s)
  {}

  // ----- the history of a run -----

  /** The states a run has committed, oldest first: each group of the undo stack leads from one to the next, and the
      buffer leads from the one at the pointer to the present. */
  ghost predicate Tracks(v: Vm, states: seq<State>)
  {
    && v.recording && |states| == |v.undoStack| + 1 && v.pointer <= |v.undoStack|
    && (forall i :: 0 <= i < |v.undoStack| ==> LinkAt(v.undoStack, states, i))
    && Leads(v.buffer, states[v.pointer], v.s)
  }

  ghost predicate LinkAt(stack: seq<seq<Change>>, states: seq<State>, i: nat)
    requires i < |stack| && |states| == |stack| + 1
  { Leads(stack[i], states[i], states[i + 1]) }

  // A change of the state that history does not see.
  lemma {:induction false} TrackSilent(v: Vm, states: seq<State>, w: Vm)
    requires Tracks(v, states) && Same(w.s, v.s)
    requires w.recording && w.undoStack == v.undoStack && w.buffer == v.buffer && w.pointer == v.pointer
    ensures Tracks(w, states)
  { LeadsSame(v.buffer, states[v.pointer], v.s, states[v.pointer], w.s); }

  // A buffered change, applied.
  lemma {:induction false} TrackBuffer(v: Vm, states: seq<State>, c: Change, w: Vm)
    requires Tracks(v, states) && Captured(c, v.s) && Reaches(c, v.s) && Same(w.s, Apply(c, v.s))
    requires w.recording && w.undoStack == v.undoStack && w.buffer == v.buffer + [c] && w.pointer == v.pointer
    ensures Tracks(w, states)
  { LeadsOn(v.buffer, c, states[v.pointer], v.s, w.s); }

  /** A recorded change, applied: the buffered group becomes the last of the stack, the state it leads to the last of
      the committed states, and the redo tail is gone. */
  lemma {:induction false} TrackRecord(v: Vm, states: seq<State>, c: Change, w: Vm)
    requires Tracks(v, states) && Captured(c, v.s) && Reaches(c, v.s) && Same(w.s, Apply(c, v.s))
    requires w.recording && w.undoStack == RecordChange(v, c).undoStack && w.buffer == [] && w.pointer == RecordChange(v, c).pointer
    ensures w.pointer == v.pointer + 1 && Tracks(w, states[..v.pointer + 1] + [w.s])
  {
    hide Leads, Captured, Apply;
    var p := v.pointer;
    var after := states[..p + 1] + [w.s];
    LeadsOn(v.buffer, c, states[p], v.s, w.s);
    assert w.undoStack == v.undoStack[..p] + [v.buffer + [c]];
    forall i | 0 <= i < |w.undoStack| ensures LinkAt(w.undoStack, after, i) {
      if i < p { assert LinkAt(v.undoStack, states, i); }
    }
    SameRefl(w.s);
    LeadsNowhere(w.s, w.s);
  }

  lemma {:induction false} SameRefl(s: State)
    ensures Same(s, s)
  {}

  // ----- undo and redo -----

  /** An undo between steps goes through, to the state before the last group. */
  lemma {:induction false} TrackUndo(v: Vm, states: seq<State>)
    requires Tracks(v, states) && v.buffer == [] && 0 < v.pointer
    ensures CanUndo(v) && Tracks(UndoStep(v), states) && UndoStep(v).buffer == []
    ensures Same(UndoStep(v).s, states[v.pointer - 1])
  {
    var p := v.pointer - 1;
    assert LinkAt(v.undoStack, states, p);
    var g := v.undoStack[p];
    SameApplyAll(g, states[p + 1], v.s);
    LeadsNowhere(states[p], UndoStep(v).s);
  }

  lemma {:induction false} TrackRedo(v: Vm, states: seq<State>)
    requires Tracks(v, states) && v.buffer == [] && v.pointer < |v.undoStack|
    ensures CanRedo(v) && Tracks(RedoStep(v), states) && RedoStep(v).buffer == []
    ensures Same(RedoStep(v).s, states[v.pointer + 1])
  {
    var p := v.pointer;
    assert LinkAt(v.undoStack, states, p);
    var g := v.undoStack[p];
    SameApplyAll(g, states[p], v.s);
    LeadsNowhere(states[p + 1], RedoStep(v).s);
  }

  // m undos, then j redos; either stops where there is nothing left, as undo() and redo() return false.
  function Undos(v: Vm, m: nat): Option<Vm>
    decreases m
  { if m == 0 then Some(v) else if CanUndo(v) then Undos(UndoStep(v), m - 1) else None }

  function Redos(v: Vm, j: nat): Option<Vm>
    decreases j
  { if j == 0 then Some(v) else if CanRedo(v) then Redos(RedoStep(v), j - 1) else None }

  lemma {:induction false} UndosReach(v: Vm, states: seq<State>, m: nat)
    requires Tracks(v, states) && v.buffer == [] && m <= v.pointer
    ensures Undos(v, m).Some?
    ensures var w := Undos(v, m).value; Tracks(w, states) && w.buffer == [] && w.pointer == v.pointer - m && w.undoStack == v.undoStack
    decreases m
  {
    hide Leads, CanUndo;
    if m > 0 {
      TrackUndo(v, states);
      UndosReach(UndoStep(v), states, m - 1);
    }
  }

  lemma {:induction false} RedosReach(v: Vm, states: seq<State>, j: nat)
    requires Tracks(v, states) && v.buffer == [] && v.pointer + j <= |v.undoStack|
    ensures Redos(v, j).Some?
    ensures var w := Redos(v, j).value; Tracks(w, states) && w.buffer == [] && w.pointer == v.pointer + j && w.undoStack == v.undoStack
    decreases j
  {
    hide Leads, CanRedo;
    if j > 0 {
      TrackRedo(v, states);
      RedosReach(RedoStep(v), states, j - 1);
    }
  }

  /** From any point of a tracked run, m undos and then j redos give the state committed j - m groups away, on
      everything the state holds but $st. */
  lemma {:induction false} UndosThenRedos(v: Vm, states: seq<State>, m: nat, j: nat)
    requires Tracks(v, states) && v.buffer == [] && m <= v.pointer && v.pointer - m + j <= |v.undoStack|
    ensures Undos(v, m).Some? && Redos(Undos(v, m).value, j).Some?
    ensures var w := Redos(Undos(v, m).value, j).value;
      w.pointer == v.pointer - m + j && Same(w.s, states[v.pointer - m + j]) && Tracks(w, states) && w.undoStack == v.undoStack
  {
    hide Undos, Redos;
    UndosReach(v, states, m);
    RedosReach(Undos(v, m).value, states, j);
    var w := Redos(Undos(v, m).value, j).value;
    LeadsNothing(states[w.pointer], w.s);
  }

  lemma {:induction false} LeadsNothing(s: State, t: State)
    requires Leads([], s, t)
    ensures Same(t, s)
  {}
}
