/** What Linker::link does to symbol tables: dropping a subunit's `.end`, rebasing, detecting collisions, merging. */
module SymbolMerge {
  import opened Words
  import opened SymbolTable
  import opened SymbolReader
  import R = Relocation

  const END: Label := [46, 101, 110, 100]

  // Every key names the entry it points at.
  ghost predicate Pointing(table: seq<SymbolEntry>, m: map<Label, nat>)
  { forall k :: k in m ==> m[k] < |table| && table[m[k]].name == k }

  // ... and every entry is the one its name points at.
  ghost predicate Agree(table: seq<SymbolEntry>, m: map<Label, nat>)
  { Pointing(table, m) && forall i :: 0 <= i < |table| ==> table[i].name in m && m[table[i].name] == i }

  lemma {:induction false} IndexMapAgrees(table: seq<SymbolEntry>)
    ensures Pointing(table, IndexMap(table))
    ensures Distinct(table) ==> Agree(table, IndexMap(table))
  { if Distinct(table) { IndexMapExact(table); } }

  // ----- dropping `.end` -----

  function Remove<T>(s: seq<T>, i: nat): (r: seq<T>)
    requires i < |s|
    ensures |r| == |s| - 1
    ensures forall j :: 0 <= j < |r| ==> r[j] == if j < i then s[j] else s[j + 1]
  { s[..i] + s[i + 1..] }

  function DropIndex(index: int, end: nat): int
  { if end <= index then index - 1 else index }

  function DropIndices(table: seq<SymbolEntry>, m: map<Label, nat>): (r: map<Label, nat>)
    requires Pointing(table, m) && END in m
    ensures r.Keys == m.Keys - {END}
  {
    assert forall k :: k in m && k != END ==> table[m[k]].name != table[m[END]].name;
    map k | k in m && k != END :: DropIndex(m[k], m[END])
  }

  // The table, the index map and one relocation after the drop; a unit without `.end` keeps all three.
  function TableDrop(table: seq<SymbolEntry>, m: map<Label, nat>): seq<SymbolEntry>
    requires Pointing(table, m)
  { if END in m then Remove(table, m[END]) else table }

  function MapDrop(table: seq<SymbolEntry>, m: map<Label, nat>): map<Label, nat>
    requires Pointing(table, m)
  { if END in m then DropIndices(table, m) else m }

  function RelocDrop(m: map<Label, nat>, e: R.Entry): R.Entry
  { if END in m then e.(index := DropIndex(e.index, m[END])) else e }

  lemma {:induction false} DropPointing(table: seq<SymbolEntry>, m: map<Label, nat>)
    requires Pointing(table, m)
    ensures Pointing(TableDrop(table, m), MapDrop(table, m))
    ensures Agree(table, m) ==> Agree(TableDrop(table, m), MapDrop(table, m))
    ensures END !in MapDrop(table, m)
  {
    if END in m {
      var t, d := Remove(table, m[END]), DropIndices(table, m);
      forall k | k in d ensures d[k] < |t| && t[d[k]].name == k {
        assert table[m[k]].name == k && m[k] != m[END];
      }
      if Agree(table, m) {
        forall i | 0 <= i < |t| ensures t[i].name in d && d[t[i].name] == i {
          var j := if i < m[END] then i else i + 1;
          assert t[i] == table[j] && m[table[j].name] == j;
        }
      }
    }
  }

  /** After the drop a relocation still names its label exactly when it did not name `.end`. */
  lemma {:induction false} RelocationKeepsLabel(table: seq<SymbolEntry>, m: map<Label, nat>, e: R.Entry)
    requires Agree(table, m) && 0 <= e.index < |table|
    ensures var t, index := TableDrop(table, m), RelocDrop(m, e).index;
      (0 <= index < |t| && t[index].name == table[e.index].name) <==> table[e.index].name != END
  {
    if END in m {
      var t, index := Remove(table, m[END]), RelocDrop(m, e).index;
      if table[e.index].name == END {
        assert e.index == m[END];
        if 0 <= index { assert t[index] == table[index]; }
      }
    }
  }

  method DropFromMap(table: seq<SymbolEntry>, m: map<Label, nat>) returns (r: map<Label, nat>)
    requires Pointing(table, m) && END in m
    ensures r == DropIndices(table, m)
  {
    ghost var goal := DropIndices(table, m);
    r := m - {END};
    var todo := r.Keys;
    while todo != {}
      invariant todo <= r.Keys == m.Keys - {END}
      invariant forall k :: k in r ==> r[k] == if k in todo then m[k] else goal[k]
    {
      var k :| k in todo;
      if m[END] <= r[k] {
        assert table[m[k]].name == k && m[k] != m[END];
        r := r[k := r[k] - 1];
      }
      todo := todo - {k};
    }
  }

  method DropFromRelocs(relocs: seq<R.Entry>, end: nat) returns (r: seq<R.Entry>)
    ensures |r| == |relocs|
    ensures forall i :: 0 <= i < |relocs| ==> r[i] == relocs[i].(index := DropIndex(relocs[i].index, end))
  {
    r := relocs;
    for i := 0 to |relocs|
      invariant |r| == |relocs|
      invariant forall j :: 0 <= j < |relocs| ==>
        r[j] == if j < i then relocs[j].(index := DropIndex(relocs[j].index, end)) else relocs[j]
    {
      if end <= r[i].index { r := r[i := r[i].(index := r[i].index - 1)]; }
    }
  }

  /** The block of link() that erases a subunit's `.end`. */
  method EraseEnd(table: seq<SymbolEntry>, m: map<Label, nat>, relocs: seq<R.Entry>)
    returns (t: seq<SymbolEntry>, d: map<Label, nat>, rs: seq<R.Entry>)
    requires Pointing(table, m)
    ensures t == TableDrop(table, m) && d == MapDrop(table, m)
    ensures |rs| == |relocs| && forall i :: 0 <= i < |rs| ==> rs[i] == RelocDrop(m, relocs[i])
  {
    t, d, rs := table, m, relocs;
    if END in m {
      t := Remove(table, m[END]);
      d := DropFromMap(table, m);
      rs := DropFromRelocs(relocs, m[END]);
    }
  }

  // ----- rebasing -----

  function Rebase(e: SymbolEntry, codeBase: Long, dataBase: Long): SymbolEntry
  {
    if e.kind == CODE then e.(address := Plus(e.address, codeBase))
    else if e.kind == DATA then e.(address := Plus(e.address, dataBase))
    else e
  }

  // Entries the map points at are rebased.
  ghost predicate Rebased(table: seq<SymbolEntry>, m: map<Label, nat>, codeBase: Long, dataBase: Long, r: seq<SymbolEntry>)
  {
    && |r| == |table|
    && (forall i :: 0 <= i < |table| ==> r[i].name == table[i].name)
    && (forall k :: k in m ==> m[k] < |table| && r[m[k]] == Rebase(table[m[k]], codeBase, dataBase))
  }

  method RebaseSymbols(table: seq<SymbolEntry>, m: map<Label, nat>, codeBase: Long, dataBase: Long)
    returns (r: seq<SymbolEntry>)
    requires Pointing(table, m)
    ensures Rebased(table, m, codeBase, dataBase, r)
  {
    hide Rebase;
    r := table;
    var todo := m.Keys;
    while todo != {}
      invariant todo <= m.Keys && |r| == |table|
      invariant forall i :: 0 <= i < |table| ==> r[i].name == table[i].name
      invariant forall k :: k in m ==>
        r[m[k]] == if k in todo then table[m[k]] else Rebase(table[m[k]], codeBase, dataBase)
    {
      var k :| k in todo;
      RebaseKeepsName(r[m[k]], codeBase, dataBase);
      assert forall j :: j in m && j != k ==> m[j] != m[k] by {
        assert forall j :: j in m ==> table[m[j]].name == j;
      }
      r := r[m[k] := Rebase(r[m[k]], codeBase, dataBase)];
      todo := todo - {k};
    }
  }

  lemma {:induction false} RebaseKeepsName(e: SymbolEntry, codeBase: Long, dataBase: Long)
    ensures Rebase(e, codeBase, dataBase).name == e.name
    ensures Rebase(e, codeBase, dataBase).kind == e.kind
    ensures Rebase(e, 0, 0) == e
  {}

  // ----- collisions -----

  predicate CollidesAt(one: map<Label, nat>, two: map<Label, nat>, t1: seq<SymbolEntry>, t2: seq<SymbolEntry>, k: Label)
  {
    && k != END && k in one && k in two && one[k] < |t1| && two[k] < |t2|
    && !IsUnknown(t1[one[k]].kind) && !IsUnknown(t2[two[k]].kind)
  }

  ghost predicate Collides(one: map<Label, nat>, two: map<Label, nat>, t1: seq<SymbolEntry>, t2: seq<SymbolEntry>)
  { exists k :: CollidesAt(one, two, t1, t2, k) }

  /** Linker::detectSymbolCollisions: throws exactly when a label other than `.end` is defined on both sides. */
  method DetectSymbolCollisions(one: map<Label, nat>, two: map<Label, nat>, t1: seq<SymbolEntry>, t2: seq<SymbolEntry>)
    returns (collision: bool)
    requires Pointing(t1, one) && Pointing(t2, two)
    ensures collision <==> Collides(one, two, t1, t2)
  {
    var todo := one.Keys;
    while todo != {}
      invariant todo <= one.Keys
      invariant forall k :: k in one && k !in todo ==> !CollidesAt(one, two, t1, t2, k)
    {
      var key :| key in todo;
      if key != END && key in two {
        var first, second := t1[one[key]], t2[two[key]];
        if !IsUnknown(first.kind) && !IsUnknown(second.kind) {
          assert CollidesAt(one, two, t1, t2, key);
          return true;
        }
      }
      assert !CollidesAt(one, two, t1, t2, key);
      todo := todo - {key};
    }
    collision := false;
  }

  // ----- merging -----

  // A definition replaces an entry that is there only for relocation; otherwise the first stays.
  function Winner(first: SymbolEntry, second: SymbolEntry): SymbolEntry
  { if IsUnknown(first.kind) && !IsUnknown(second.kind) then second else first }

  // The combined table after the subunit's keys in `done` have been merged.
  ghost predicate Merging(cs0: seq<SymbolEntry>, ci0: map<Label, nat>, st: seq<SymbolEntry>, si: map<Label, nat>,
                          done: set<Label>, cs: seq<SymbolEntry>, ci: map<Label, nat>)
    requires Pointing(cs0, ci0) && Pointing(st, si) && done <= si.Keys
  {
    && |cs0| <= |cs| && Pointing(cs, ci) && ci.Keys == ci0.Keys + done
    && (forall i :: 0 <= i < |cs0| ==> cs[i].name == cs0[i].name)
    && (forall k :: k in ci0 ==> ci[k] == ci0[k])
    && (forall k :: k in ci0 ==> cs[ci0[k]] == if k in done then Winner(cs0[ci0[k]], st[si[k]]) else cs0[ci0[k]])
    && (forall k :: k in done && k !in ci0 ==> cs[ci[k]] == st[si[k]])
    && (Agree(cs0, ci0) ==> Agree(cs, ci))
  }

  // Every entry of the table was there before or is one the subunit's map points at, and each label adds at most one.
  ghost predicate Drawn(cs0: seq<SymbolEntry>, st: seq<SymbolEntry>, si: map<Label, nat>, done: set<Label>, cs: seq<SymbolEntry>)
    requires Pointing(st, si)
  { |cs| <= |cs0| + |done| && forall q :: 0 <= q < |cs| ==> cs[q] in cs0 || DrawnFrom(st, si, cs[q]) }

  ghost predicate DrawnFrom(st: seq<SymbolEntry>, si: map<Label, nat>, e: SymbolEntry)
    requires Pointing(st, si)
  { exists k :: k in si && e == st[si[k]] }

  lemma {:induction false} DrawnStep(cs0: seq<SymbolEntry>, st: seq<SymbolEntry>, si: map<Label, nat>, done: set<Label>,
                    cs: seq<SymbolEntry>, k: Label, next: seq<SymbolEntry>)
    requires Pointing(st, si) && k in si && k !in done && Drawn(cs0, st, si, done, cs)
    requires |next| <= |cs| + 1
    requires forall q :: 0 <= q < |next| ==> next[q] in cs || next[q] == st[si[k]]
    ensures Drawn(cs0, st, si, done + {k}, next)
  {
    forall q | 0 <= q < |next| ensures next[q] in cs0 || DrawnFrom(st, si, next[q]) {
      if next[q] in cs { var p :| 0 <= p < |cs| && cs[p] == next[q]; }
    }
  }

  lemma {:induction false} MergeAppend(cs0: seq<SymbolEntry>, ci0: map<Label, nat>, st: seq<SymbolEntry>, si: map<Label, nat>,
                    done: set<Label>, cs: seq<SymbolEntry>, ci: map<Label, nat>, k: Label)
    requires Pointing(cs0, ci0) && Pointing(st, si) && done <= si.Keys && k in si && k !in done && k !in ci
    requires Merging(cs0, ci0, st, si, done, cs, ci)
    ensures Merging(cs0, ci0, st, si, done + {k}, cs + [st[si[k]]], ci[k := |cs|])
  { hide Winner; }

  lemma {:induction false} AgreeRenamed(cs: seq<SymbolEntry>, r: seq<SymbolEntry>, ci: map<Label, nat>)
    requires |r| == |cs| && forall i :: 0 <= i < |cs| ==> r[i].name == cs[i].name
    requires Agree(cs, ci)
    ensures Agree(r, ci)
  {}

  lemma {:induction false} MergeReplace(cs0: seq<SymbolEntry>, ci0: map<Label, nat>, st: seq<SymbolEntry>, si: map<Label, nat>,
                     done: set<Label>, cs: seq<SymbolEntry>, ci: map<Label, nat>, k: Label)
    requires Pointing(cs0, ci0) && Pointing(st, si) && done <= si.Keys && k in si && k !in done && k in ci
    requires Merging(cs0, ci0, st, si, done, cs, ci)
    ensures Merging(cs0, ci0, st, si, done + {k}, cs[ci[k] := Winner(cs[ci[k]], st[si[k]])], ci)
  {
    var w := Winner(cs[ci[k]], st[si[k]]);
    assert w.name == k;
    hide Winner, Agree;
    var r := cs[ci[k] := w];
    assert forall j :: j in ci && j != k ==> ci[j] != ci[k] by {
      assert forall j :: j in ci ==> cs[ci[j]].name == j;
    }
    assert forall i :: 0 <= i < |cs| ==> r[i].name == cs[i].name;
    if Agree(cs, ci) { AgreeRenamed(cs, r, ci); }
  }

  lemma {:induction false} MergeStart(cs0: seq<SymbolEntry>, ci0: map<Label, nat>, st: seq<SymbolEntry>, si: map<Label, nat>)
    requires Pointing(cs0, ci0) && Pointing(st, si)
    ensures Merging(cs0, ci0, st, si, {}, cs0, ci0)
  {}

  lemma {:induction false} DrawnStart(cs0: seq<SymbolEntry>, st: seq<SymbolEntry>, si: map<Label, nat>)
    requires Pointing(st, si)
    ensures Drawn(cs0, st, si, {}, cs0)
  {}

  lemma {:induction false} MergingPoints(cs0: seq<SymbolEntry>, ci0: map<Label, nat>, st: seq<SymbolEntry>, si: map<Label, nat>,
                      done: set<Label>, cs: seq<SymbolEntry>, ci: map<Label, nat>)
    requires Pointing(cs0, ci0) && Pointing(st, si) && done <= si.Keys
    requires Merging(cs0, ci0, st, si, done, cs, ci)
    ensures Pointing(cs, ci)
  {}

  lemma {:induction false} Separate(st: seq<SymbolEntry>, si: map<Label, nat>, key: Label)
    requires Pointing(st, si) && key in si
    ensures si[key] < |st| && forall k :: k in si && k != key ==> si[k] < |st| && si[k] != si[key]
  { assert forall k :: k in si ==> st[si[k]].name == k; }

  // One turn of the merge.
  ghost predicate Settled(cs0: seq<SymbolEntry>, ci0: map<Label, nat>, e: SymbolEntry, key: Label,
                          cs: seq<SymbolEntry>, ci: map<Label, nat>)
    requires Pointing(cs0, ci0)
  {
    && (key in ci0 ==> ci == ci0 && cs == cs0[ci0[key] := Winner(cs0[ci0[key]], e)])
    && (key !in ci0 ==> ci == ci0[key := |cs0|] && cs == cs0 + [e])
  }

  lemma {:induction false} MergeTurn(cs0: seq<SymbolEntry>, ci0: map<Label, nat>, st: seq<SymbolEntry>, si: map<Label, nat>,
                                     done: set<Label>, cs: seq<SymbolEntry>, ci: map<Label, nat>, key: Label,
                                     next: seq<SymbolEntry>, nexti: map<Label, nat>)
    requires Pointing(cs0, ci0) && Pointing(st, si) && done <= si.Keys && key in si && key !in done
    requires Pointing(cs, ci) && Merging(cs0, ci0, st, si, done, cs, ci) && Drawn(cs0, st, si, done, cs)
    requires Settled(cs, ci, st[si[key]], key, next, nexti)
    ensures Merging(cs0, ci0, st, si, done + {key}, next, nexti) && Drawn(cs0, st, si, done + {key}, next)
    ensures Pointing(next, nexti)
  {
    hide Merging, Drawn, Winner, Agree;
    if key in ci { MergeReplace(cs0, ci0, st, si, done, cs, ci, key); } else { MergeAppend(cs0, ci0, st, si, done, cs, ci, key); }
    MergingPoints(cs0, ci0, st, si, done + {key}, next, nexti);
    SettledDraws(cs, ci, st[si[key]], key, next, nexti);
    hide Settled;
    DrawnStep(cs0, st, si, done, cs, key, next);
  }

  lemma {:induction false} SettledDraws(cs: seq<SymbolEntry>, ci: map<Label, nat>, e: SymbolEntry, key: Label,
                                        next: seq<SymbolEntry>, nexti: map<Label, nat>)
    requires Pointing(cs, ci) && Settled(cs, ci, e, key, next, nexti)
    ensures |next| <= |cs| + 1 && forall q :: 0 <= q < |next| ==> next[q] in cs || next[q] == e
  {
    if key in ci { assert cs[ci[key]] in cs; }
    assert forall q :: 0 <= q < |cs| ==> cs[q] in cs;
  }

  /** One label of the merge: append it, or settle it against the entry already there. */
  method MergeOne(cs0: seq<SymbolEntry>, ci0: map<Label, nat>, st0: seq<SymbolEntry>, at: nat, key: Label)
    returns (cs: seq<SymbolEntry>, ci: map<Label, nat>, st: seq<SymbolEntry>)
    requires Pointing(cs0, ci0) && at < |st0|
    ensures Settled(cs0, ci0, st0[at], key, cs, ci)
    ensures |st| == |st0| && forall j :: 0 <= j < |st| && j != at ==> st[j] == st0[j]
  {
    cs, ci, st := cs0, ci0, st0;
    var entry := st[at];
    if key !in ci {
      ci := ci[key := |cs|];
      cs := cs + [entry];
    } else {
      var existing := cs[ci[key]];
      var entryUnknown, existingUnknown := IsUnknown(entry.kind), IsUnknown(existing.kind);
      if existingUnknown && !entryUnknown {
        cs := cs[ci[key] := entry];
      } else if !existingUnknown && entryUnknown {
        st := st[at := existing];
      }
    }
  }

  /** The loop of link() that merges a subunit's symbols into the combined table. The labels may be visited in
      any order; the source visits them sorted. */
  method MergeSymbols(cs0: seq<SymbolEntry>, ci0: map<Label, nat>, st0: seq<SymbolEntry>, si: map<Label, nat>)
    returns (cs: seq<SymbolEntry>, ci: map<Label, nat>)
    requires Pointing(cs0, ci0) && Pointing(st0, si)
    ensures Merging(cs0, ci0, st0, si, si.Keys, cs, ci) && Drawn(cs0, st0, si, si.Keys, cs)
  {
    hide Merging, Drawn, Settled;
    cs, ci := cs0, ci0;
    var st := st0;
    var todo := si.Keys;
    ghost var done: set<Label> := {};
    MergeStart(cs0, ci0, st0, si);
    DrawnStart(cs0, st0, si);
    while todo != {}
      invariant todo <= si.Keys && done == si.Keys - todo
      invariant Pointing(cs, ci) && Merging(cs0, ci0, st0, si, done, cs, ci) && Drawn(cs0, st0, si, done, cs)
      invariant |st| == |st0| && forall k :: k in todo ==> st[si[k]] == st0[si[k]]
    {
      var key :| key in todo;
      Separate(st0, si, key);
      ghost var was, wasi := cs, ci;
      cs, ci, st := MergeOne(cs, ci, st, si[key], key);
      MergeTurn(cs0, ci0, st0, si, done, was, wasi, key, cs, ci);
      todo, done := todo - {key}, done + {key};
    }
    assert done == si.Keys;
  }
}
