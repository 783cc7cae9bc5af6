/** The combined symbol table after any number of subunits. */
module LinkSymbols {
  import opened Words
  import opened SymbolTable
  import opened SymbolReader
  import opened SymbolMerge
  import opened BinaryParser
  import opened LinkModel

  predicate AllDistinct(us: seq<Unit>) { forall j :: 0 <= j < |us| ==> Distinct(us[j].symbols) }

  // Entry i of unit j, named k.
  predicate Names(us: seq<Unit>, j: nat, i: nat, k: Label)
  { j < |us| && i < |us[j].symbols| && us[j].symbols[i].name == k && k != END }

  predicate Defines(us: seq<Unit>, j: nat, i: nat, k: Label)
  { Names(us, j, i, k) && !IsUnknown(us[j].symbols[i].kind) }

  function Rebased(us: seq<Unit>, j: nat, i: nat): SymbolEntry
    requires j < |us| && i < |us[j].symbols|
  { Rebase(us[j].symbols[i], CodeBase(us, j), DataBase(us, j)) }

  // Every label of a merged unit is in the table, and a defined one has exactly its definition, rebased.
  ghost predicate Complete(us: seq<Unit>, n: nat, cs: seq<SymbolEntry>, ci: map<Label, nat>)
    requires Pointing(cs, ci)
  {
    forall j: nat, i: nat, k: Label :: j < n && Names(us, j, i, k) ==>
      k in ci && (Defines(us, j, i, k) ==> cs[ci[k]] == Rebased(us, j, i))
  }

  // Nothing in the table is defined unless some merged unit defines it.
  ghost predicate Sound(us: seq<Unit>, n: nat, cs: seq<SymbolEntry>, ci: map<Label, nat>)
    requires Pointing(cs, ci)
  {
    forall k :: k in ci && k != END && !IsUnknown(cs[ci[k]].kind) ==> exists j: nat, i: nat :: j < n && Defines(us, j, i, k)
  }

  // No label is defined by two merged units.
  ghost predicate Unique(us: seq<Unit>, n: nat)
  { forall j: nat, i: nat, j': nat, i': nat, k: Label :: j < j' < n && Defines(us, j, i, k) ==> !Defines(us, j', i', k) }

  // The main unit's entries keep their places.
  predicate MainFirst(us: seq<Unit>, cs: seq<SymbolEntry>)
    requires us != []
  { |us[0].symbols| <= |cs| && forall i :: 0 <= i < |us[0].symbols| ==> cs[i].name == us[0].symbols[i].name }

  ghost predicate SymbolsMerged(us: seq<Unit>, n: nat, cs: seq<SymbolEntry>, ci: map<Label, nat>)
    requires us != []
  { Agree(cs, ci) && Complete(us, n, cs, ci) && Sound(us, n, cs, ci) && Unique(us, n) && MainFirst(us, cs) }

  lemma {:induction false} MergedStart(us: seq<Unit>)
    requires us != [] && Distinct(us[0].symbols)
    ensures SymbolsMerged(us, 1, us[0].symbols, IndexMap(us[0].symbols))
  {
    hide Rebase;
    var cs, ci := us[0].symbols, IndexMap(us[0].symbols);
    IndexMapAgrees(cs);
    forall j: nat, i: nat, k: Label | j < 1 && Names(us, j, i, k) ensures k in ci && cs[ci[k]] == Rebased(us, j, i) {
      RebaseKeepsName(cs[i], 0, 0);
    }
    forall k | k in ci && k != END && !IsUnknown(cs[ci[k]].kind) ensures exists j: nat, i: nat :: j < 1 && Defines(us, j, i, k) {
      assert Defines(us, 0, ci[k], k);
    }
  }

  // The subunit's own table once its `.end` is erased and its addresses are rebased.
  ghost predicate SubTable(us: seq<Unit>, n: nat, st: seq<SymbolEntry>, si: map<Label, nat>)
    requires n < |us|
  {
    Pointing(st, si)
    && (forall i: nat, k: Label :: Names(us, n, i, k) ==> k in si && st[si[k]] == Rebased(us, n, i))
    && (forall k :: k in si ==> k != END && exists i: nat :: Names(us, n, i, k))
  }

  lemma {:induction false} SubTableOf(us: seq<Unit>, n: nat, st: seq<SymbolEntry>)
    requires n < |us| && Distinct(us[n].symbols)
    requires var u := us[n]; var m := EndMap(u);
      SymbolMerge.Rebased(TableDrop(u.symbols, m), MapDrop(u.symbols, m), CodeBase(us, n), DataBase(us, n), st)
    ensures SubTable(us, n, st, MapDrop(us[n].symbols, EndMap(us[n])))
  {
    hide Rebased, SymbolMerge.Rebased, EndMap, MapDrop, TableDrop, Distinct;
    var d := MapDrop(us[n].symbols, EndMap(us[n]));
    SubPointing(us, n, st);
    forall i: nat, k: Label | Names(us, n, i, k) ensures k in d && st[d[k]] == Rebased(us, n, i) { SubEntry(us, n, st, i, k); }
    forall k | k in d ensures k != END && exists i: nat :: Names(us, n, i, k) { var i := SubName(us, n, k); }
  }

  lemma {:induction false} SubPointing(us: seq<Unit>, n: nat, st: seq<SymbolEntry>)
    requires n < |us| && var u := us[n]; var m := EndMap(u);
      SymbolMerge.Rebased(TableDrop(u.symbols, m), MapDrop(u.symbols, m), CodeBase(us, n), DataBase(us, n), st)
    ensures Pointing(st, MapDrop(us[n].symbols, EndMap(us[n])))
  {
    hide Rebase, CodeBase, DataBase, TableDrop, MapDrop;
    DropPointing(us[n].symbols, EndMap(us[n]));
  }

  lemma {:induction false} SubName(us: seq<Unit>, n: nat, k: Label) returns (i: nat)
    requires n < |us| && k in MapDrop(us[n].symbols, EndMap(us[n]))
    ensures k != END && Names(us, n, i, k)
  {
    hide TableDrop;
    var u, m := us[n], EndMap(us[n]);
    DropPointing(u.symbols, m);
    i := m[k];
  }

  lemma {:induction false} SubEntry(us: seq<Unit>, n: nat, st: seq<SymbolEntry>, i: nat, k: Label)
    requires n < |us| && Distinct(us[n].symbols) && Names(us, n, i, k)
    requires var u := us[n]; var m := EndMap(u);
      SymbolMerge.Rebased(TableDrop(u.symbols, m), MapDrop(u.symbols, m), CodeBase(us, n), DataBase(us, n), st)
    ensures var d := MapDrop(us[n].symbols, EndMap(us[n])); k in d && d[k] < |st| && st[d[k]] == Rebased(us, n, i)
  {
    hide Rebase, CodeBase, DataBase, TableDrop, MapDrop, Distinct;
    var u, m := us[n], EndMap(us[n]);
    IndexMapAgrees(u.symbols);
    assert m[k] == i;
    DroppedEntry(u.symbols, m, k);
  }

  lemma {:induction false} DroppedEntry(table: seq<SymbolEntry>, m: map<Label, nat>, k: Label)
    requires Pointing(table, m) && k in m && k != END
    ensures k in MapDrop(table, m) && MapDrop(table, m)[k] < |TableDrop(table, m)|
    ensures TableDrop(table, m)[MapDrop(table, m)[k]] == table[m[k]]
  {
    if END in m { assert m[k] != m[END]; }
  }

  // One subunit more: what was known of each label before, and of the subunit's own labels, settles it.
  lemma {:induction false} MergedStep(us: seq<Unit>, n: nat, cs0: seq<SymbolEntry>, ci0: map<Label, nat>,
      st: seq<SymbolEntry>, si: map<Label, nat>, cs: seq<SymbolEntry>, ci: map<Label, nat>)
    requires 1 <= n < |us| && SymbolsMerged(us, n, cs0, ci0) && SubTable(us, n, st, si)
    requires !Collides(ci0, si, cs0, st)
    requires Merging(cs0, ci0, st, si, si.Keys, cs, ci)
    ensures SymbolsMerged(us, n + 1, cs, ci)
  {
    AgreePoints(cs0, ci0);
    CompleteStep(us, n, cs0, ci0, st, si, cs, ci);
    SoundStep(us, n, cs0, ci0, st, si, cs, ci);
    UniqueStep(us, n, cs0, ci0, st, si);
  }

  lemma {:induction false} RebasedKind(us: seq<Unit>, j: nat, i: nat)
    requires j < |us| && i < |us[j].symbols|
    ensures Rebased(us, j, i).kind == us[j].symbols[i].kind && Rebased(us, j, i).name == us[j].symbols[i].name
  { RebaseKeepsName(us[j].symbols[i], CodeBase(us, j), DataBase(us, j)); }

  // What the merge leaves for one label.
  ghost predicate SettledAt(cs0: seq<SymbolEntry>, ci0: map<Label, nat>, st: seq<SymbolEntry>, si: map<Label, nat>,
                            cs: seq<SymbolEntry>, ci: map<Label, nat>, k: Label)
    requires Pointing(cs0, ci0) && Pointing(st, si) && Pointing(cs, ci)
  {
    && (k in ci <==> k in ci0 || k in si)
    && (k in ci ==> cs[ci[k]] == if k !in si then cs0[ci0[k]]
                                 else if k in ci0 then Winner(cs0[ci0[k]], st[si[k]]) else st[si[k]])
  }

  lemma {:induction false} MergedAt(cs0: seq<SymbolEntry>, ci0: map<Label, nat>, st: seq<SymbolEntry>, si: map<Label, nat>,
                                    cs: seq<SymbolEntry>, ci: map<Label, nat>, k: Label)
    requires Agree(cs0, ci0) && Pointing(st, si) && Merging(cs0, ci0, st, si, si.Keys, cs, ci)
    ensures Agree(cs, ci) && SettledAt(cs0, ci0, st, si, cs, ci, k)
  { hide Winner, Agree; assert Agree(cs0, ci0) ==> Pointing(cs0, ci0) by { AgreePoints(cs0, ci0); } }

  lemma {:induction false} AgreePoints(cs: seq<SymbolEntry>, ci: map<Label, nat>)
    requires Agree(cs, ci)
    ensures Pointing(cs, ci)
  {}

  // Looking a label up in the combined table and in the subunit's.
  lemma {:induction false} CompleteAt(us: seq<Unit>, n: nat, cs: seq<SymbolEntry>, ci: map<Label, nat>, j: nat, i: nat, k: Label)
    requires Pointing(cs, ci) && Complete(us, n, cs, ci) && j < n && Names(us, j, i, k)
    ensures k in ci && (Defines(us, j, i, k) ==> cs[ci[k]] == Rebased(us, j, i))
    ensures Rebased(us, j, i).kind == us[j].symbols[i].kind
  { hide Rebased; RebasedKind(us, j, i); }

  lemma {:induction false} SubAt(us: seq<Unit>, n: nat, st: seq<SymbolEntry>, si: map<Label, nat>, i: nat, k: Label)
    requires n < |us| && SubTable(us, n, st, si) && Names(us, n, i, k)
    ensures k in si && st[si[k]] == Rebased(us, n, i) && st[si[k]].kind == us[n].symbols[i].kind
  { hide Rebased; RebasedKind(us, n, i); }

  lemma {:induction false} SoundAt(us: seq<Unit>, n: nat, cs: seq<SymbolEntry>, ci: map<Label, nat>, k: Label)
    returns (j: nat, i: nat)
    requires Pointing(cs, ci) && Sound(us, n, cs, ci) && k in ci && k != END && !IsUnknown(cs[ci[k]].kind)
    ensures j < n && Defines(us, j, i, k)
  { hide IsUnknown; j, i :| j < n && Defines(us, j, i, k); }

  lemma {:induction false} SubSoundAt(us: seq<Unit>, n: nat, st: seq<SymbolEntry>, si: map<Label, nat>, k: Label) returns (i: nat)
    requires n < |us| && SubTable(us, n, st, si) && k in si
    ensures Names(us, n, i, k) && st[si[k]].kind == us[n].symbols[i].kind
  { hide Rebased; i :| Names(us, n, i, k); RebasedKind(us, n, i); }

  lemma {:induction false} CompleteStep(us: seq<Unit>, n: nat, cs0: seq<SymbolEntry>, ci0: map<Label, nat>,
      st: seq<SymbolEntry>, si: map<Label, nat>, cs: seq<SymbolEntry>, ci: map<Label, nat>)
    requires 1 <= n < |us| && Agree(cs0, ci0) && Complete(us, n, cs0, ci0) && SubTable(us, n, st, si)
    requires !Collides(ci0, si, cs0, st)
    requires Merging(cs0, ci0, st, si, si.Keys, cs, ci)
    ensures Agree(cs, ci) && Complete(us, n + 1, cs, ci)
  {
    hide Rebased, Agree, Merging, Complete, Pointing;
    MergedAt(cs0, ci0, st, si, cs, ci, END);
    AgreePoints(cs0, ci0); AgreePoints(cs, ci);
    forall j: nat, i: nat, k: Label | j < n + 1 && Names(us, j, i, k)
      ensures k in ci && (Defines(us, j, i, k) ==> cs[ci[k]] == Rebased(us, j, i))
    {
      CompleteStepAt(us, n, cs0, ci0, st, si, cs, ci, j, i, k);
    }
    CompleteFrom(us, n + 1, cs, ci);
  }

  lemma {:induction false} CompleteFrom(us: seq<Unit>, n: nat, cs: seq<SymbolEntry>, ci: map<Label, nat>)
    requires Pointing(cs, ci)
    requires forall j: nat, i: nat, k: Label :: j < n && Names(us, j, i, k) ==>
      k in ci && (Defines(us, j, i, k) ==> cs[ci[k]] == Rebased(us, j, i))
    ensures Complete(us, n, cs, ci)
  { hide Rebased; }

  lemma {:induction false} CompleteStepAt(us: seq<Unit>, n: nat, cs0: seq<SymbolEntry>, ci0: map<Label, nat>,
      st: seq<SymbolEntry>, si: map<Label, nat>, cs: seq<SymbolEntry>, ci: map<Label, nat>, j: nat, i: nat, k: Label)
    requires 1 <= n < |us| && Agree(cs0, ci0) && Pointing(cs0, ci0) && Complete(us, n, cs0, ci0) && SubTable(us, n, st, si)
    requires !Collides(ci0, si, cs0, st)
    requires Merging(cs0, ci0, st, si, si.Keys, cs, ci) && Pointing(cs, ci)
    requires j < n + 1 && Names(us, j, i, k)
    ensures k in ci && (Defines(us, j, i, k) ==> cs[ci[k]] == Rebased(us, j, i))
  {
    hide Rebased, Agree, Merging, Complete, IsUnknown;
    MergedAt(cs0, ci0, st, si, cs, ci, k);
    assert !CollidesAt(ci0, si, cs0, st, k);
    if j < n { CompleteAt(us, n, cs0, ci0, j, i, k); } else { SubAt(us, n, st, si, i, k); }
  }

  lemma {:induction false} SoundStep(us: seq<Unit>, n: nat, cs0: seq<SymbolEntry>, ci0: map<Label, nat>,
      st: seq<SymbolEntry>, si: map<Label, nat>, cs: seq<SymbolEntry>, ci: map<Label, nat>)
    requires 1 <= n < |us| && Agree(cs0, ci0) && Sound(us, n, cs0, ci0) && SubTable(us, n, st, si)
    requires Merging(cs0, ci0, st, si, si.Keys, cs, ci)
    ensures Sound(us, n + 1, cs, ci)
  {
    hide Rebased, Agree, Sound, Pointing, Merging, IsUnknown, SubTable, SettledAt, Defines;
    AgreePoints(cs0, ci0);
    SubPoints(us, n, st, si);
    MergedAt(cs0, ci0, st, si, cs, ci, END);
    AgreePoints(cs, ci);
    assert PointsIn(cs, ci) by { PointsInside(cs, ci); }
    forall k | k in ci && k != END && !IsUnknown(cs[ci[k]].kind) ensures exists j: nat, i: nat :: j < n + 1 && Defines(us, j, i, k) {
      var j, i := SoundStepAt(us, n, cs0, ci0, st, si, cs, ci, k);
    }
    SoundFrom(us, n + 1, cs, ci);
  }

  ghost predicate PointsIn(cs: seq<SymbolEntry>, ci: map<Label, nat>) { forall k :: k in ci ==> ci[k] < |cs| }

  lemma {:induction false} PointsInside(cs: seq<SymbolEntry>, ci: map<Label, nat>)
    requires Pointing(cs, ci)
    ensures PointsIn(cs, ci)
  {}

  lemma {:induction false} SubPoints(us: seq<Unit>, n: nat, st: seq<SymbolEntry>, si: map<Label, nat>)
    requires n < |us| && SubTable(us, n, st, si)
    ensures Pointing(st, si)
  {}

  lemma {:induction false} SoundFrom(us: seq<Unit>, n: nat, cs: seq<SymbolEntry>, ci: map<Label, nat>)
    requires Pointing(cs, ci)
    requires forall k :: k in ci && k != END && !IsUnknown(cs[ci[k]].kind) ==> exists j: nat, i: nat :: j < n && Defines(us, j, i, k)
    ensures Sound(us, n, cs, ci)
  { hide IsUnknown, Defines; }

  lemma {:induction false} SoundStepAt(us: seq<Unit>, n: nat, cs0: seq<SymbolEntry>, ci0: map<Label, nat>,
      st: seq<SymbolEntry>, si: map<Label, nat>, cs: seq<SymbolEntry>, ci: map<Label, nat>, k: Label) returns (j: nat, i: nat)
    requires 1 <= n < |us| && Agree(cs0, ci0) && Pointing(cs0, ci0) && Sound(us, n, cs0, ci0) && SubTable(us, n, st, si)
    requires Merging(cs0, ci0, st, si, si.Keys, cs, ci) && Pointing(cs, ci)
    requires k in ci && k != END && !IsUnknown(cs[ci[k]].kind)
    ensures j < n + 1 && Defines(us, j, i, k)
  {
    hide Rebased, Agree, Sound, Merging, IsUnknown;
    MergedAt(cs0, ci0, st, si, cs, ci, k);
    if k in ci0 && !IsUnknown(cs0[ci0[k]].kind) {
      j, i := SoundAt(us, n, cs0, ci0, k);
    } else {
      j := n;
      i := SubSoundAt(us, n, st, si, k);
    }
  }

  lemma {:induction false} UniqueStep(us: seq<Unit>, n: nat, cs0: seq<SymbolEntry>, ci0: map<Label, nat>,
      st: seq<SymbolEntry>, si: map<Label, nat>)
    requires 1 <= n < |us| && Pointing(cs0, ci0) && Complete(us, n, cs0, ci0) && Unique(us, n) && SubTable(us, n, st, si)
    requires !Collides(ci0, si, cs0, st)
    ensures Unique(us, n + 1)
  {
    hide Rebased, IsUnknown, SubTable, Complete, CollidesAt;
    forall j: nat, i: nat, j': nat, i': nat, k: Label | j < j' < n + 1 && Defines(us, j, i, k) ensures !Defines(us, j', i', k) {
      if j' == n && Defines(us, n, i', k) {
        BothDefine(us, n, cs0, ci0, st, si, j, i, i', k);
        assert false;
      }
    }
  }

  lemma {:induction false} BothDefine(us: seq<Unit>, n: nat, cs0: seq<SymbolEntry>, ci0: map<Label, nat>,
      st: seq<SymbolEntry>, si: map<Label, nat>, j: nat, i: nat, i': nat, k: Label)
    requires n < |us| && Pointing(cs0, ci0) && Complete(us, n, cs0, ci0) && SubTable(us, n, st, si)
    requires j < n && Defines(us, j, i, k) && Defines(us, n, i', k)
    ensures CollidesAt(ci0, si, cs0, st, k)
  {
    hide Rebased, IsUnknown, Complete;
    CompleteAt(us, n, cs0, ci0, j, i, k);
    SubAt(us, n, st, si, i', k);
  }

  // The collision check runs before rebasing; rebasing keeps names and types, so it could run after.
  lemma {:induction false} CollisionAfterRebase(one: map<Label, nat>, two: map<Label, nat>, t1: seq<SymbolEntry>,
      t2: seq<SymbolEntry>, codeBase: Long, dataBase: Long, st: seq<SymbolEntry>)
    requires Pointing(t1, one) && Pointing(t2, two) && SymbolMerge.Rebased(t2, two, codeBase, dataBase, st)
    ensures Collides(one, two, t1, t2) <==> Collides(one, two, t1, st)
  {
    hide Rebase;
    forall k ensures CollidesAt(one, two, t1, t2, k) <==> CollidesAt(one, two, t1, st, k) {
      if k in two { RebaseKeepsName(t2[two[k]], codeBase, dataBase); }
    }
    if Collides(one, two, t1, t2) {
      var k :| CollidesAt(one, two, t1, t2, k);
      assert CollidesAt(one, two, t1, st, k);
    }
    if Collides(one, two, t1, st) {
      var k :| CollidesAt(one, two, t1, st, k);
      assert CollidesAt(one, two, t1, t2, k);
    }
  }

  /** A subunit is refused for a collision exactly when it defines a label that an earlier unit defines. */
  lemma {:induction false} CollisionMeans(us: seq<Unit>, n: nat, cs0: seq<SymbolEntry>, ci0: map<Label, nat>,
      st: seq<SymbolEntry>, si: map<Label, nat>)
    requires 1 <= n < |us| && SymbolsMerged(us, n, cs0, ci0) && SubTable(us, n, st, si)
    ensures Collides(ci0, si, cs0, st)
      <==> exists j: nat, i: nat, i': nat, k: Label :: j < n && Defines(us, j, i, k) && Defines(us, n, i', k)
  {
    hide Rebased, Agree, Unique, IsUnknown, Complete, Sound;
    AgreePoints(cs0, ci0);
    if Collides(ci0, si, cs0, st) {
      var k :| CollidesAt(ci0, si, cs0, st, k);
      var j, i := SoundAt(us, n, cs0, ci0, k);
      var i' := SubSoundAt(us, n, st, si, k);
      assert j < n && Defines(us, j, i, k) && Defines(us, n, i', k);
    }
    if exists j: nat, i: nat, i': nat, k: Label :: j < n && Defines(us, j, i, k) && Defines(us, n, i', k) {
      var j: nat, i: nat, i': nat, k: Label :| j < n && Defines(us, j, i, k) && Defines(us, n, i', k);
      BothDefine(us, n, cs0, ci0, st, si, j, i, i', k);
    }
  }

  // ----- where the table's entries come from, whether or not labels are distinct -----

  function TotalSymbols(us: seq<Unit>, n: nat): nat
    requires n <= |us|
  { if n == 0 then 0 else TotalSymbols(us, n - 1) + |us[n - 1].symbols| }

  // e is entry i of unit j, rebased; of the units only the first keeps its `.end`.
  predicate EntryOf(us: seq<Unit>, n: nat, j: nat, i: nat, e: SymbolEntry)
  { j < n && j < |us| && i < |us[j].symbols| && e == Rebased(us, j, i) && (e.name == END ==> j == 0) }

  ghost predicate Comes(us: seq<Unit>, n: nat, e: SymbolEntry)
  { exists j: nat, i: nat :: EntryOf(us, n, j, i, e) }

  ghost predicate AllCome(us: seq<Unit>, n: nat, cs: seq<SymbolEntry>)
  { forall q :: 0 <= q < |cs| ==> Comes(us, n, cs[q]) }

  ghost predicate AllListed(us: seq<Unit>, n: nat, ci: map<Label, nat>)
  { forall j: nat, i: nat, k: Label :: j < n && Names(us, j, i, k) ==> k in ci }

  /** The combined table holds the units' own entries, rebased, and nothing else; every label but `.end` has one. */
  ghost predicate Gathered(us: seq<Unit>, n: nat, cs: seq<SymbolEntry>, ci: map<Label, nat>)
    requires n <= |us|
  { AllCome(us, n, cs) && AllListed(us, n, ci) && |cs| <= TotalSymbols(us, n) && (us != [] ==> MainFirst(us, cs)) }

  lemma {:induction false} GatheredStart(us: seq<Unit>)
    requires us != []
    ensures Gathered(us, 1, us[0].symbols, IndexMap(us[0].symbols))
  {
    hide Rebase;
    var cs := us[0].symbols;
    assert TotalSymbols(us, 1) == TotalSymbols(us, 0) + |cs|;
    forall q | 0 <= q < |cs| ensures Comes(us, 1, cs[q]) {
      RebaseKeepsName(cs[q], 0, 0);
      assert EntryOf(us, 1, 0, q, cs[q]);
    }
  }

  // What the subunit's pruned table and map hold.
  ghost predicate SubSource(us: seq<Unit>, n: nat, st: seq<SymbolEntry>, si: map<Label, nat>)
    requires n < |us|
  {
    Pointing(st, si) && |si| <= |us[n].symbols|
    && (forall i: nat, k: Label :: Names(us, n, i, k) ==> k in si)
    && (forall k :: k in si ==> Comes(us, n + 1, st[si[k]]))
  }

  lemma {:induction false} IndexMapSize(table: seq<SymbolEntry>)
    ensures |IndexMap(table)| <= |table|
  {
    if table != [] {
      var last := |table| - 1;
      IndexMapSize(table[..last]);
      var m := IndexMap(table[..last]);
      if table[last].name !in m { assert m[table[last].name := last].Keys == m.Keys + {table[last].name}; }
    }
  }

  lemma {:induction false} DropSize(table: seq<SymbolEntry>)
    ensures Pointing(table, IndexMap(table)) && |MapDrop(table, IndexMap(table))| <= |table|
  {
    IndexMapAgrees(table);
    IndexMapSize(table);
    var m := IndexMap(table);
    Smaller(MapDrop(table, m).Keys, m.Keys);
    assert |m.Keys| == |m|;
  }

  lemma {:induction false} Smaller<T>(a: set<T>, b: set<T>)
    requires a <= b
    ensures |a| <= |b|
  { if a != {} { var x :| x in a; Smaller(a - {x}, b - {x}); } }

  lemma {:induction false} SubSourceOf(us: seq<Unit>, n: nat, st: seq<SymbolEntry>)
    requires n < |us|
    requires var u := us[n]; var m := EndMap(u);
      SymbolMerge.Rebased(TableDrop(u.symbols, m), MapDrop(u.symbols, m), CodeBase(us, n), DataBase(us, n), st)
    ensures SubSource(us, n, st, MapDrop(us[n].symbols, EndMap(us[n])))
  {
    hide Rebase, CodeBase, DataBase, TableDrop, IndexMap;
    var u, m := us[n], EndMap(us[n]);
    var d := MapDrop(u.symbols, m);
    SubPointing(us, n, st);
    DropSize(u.symbols);
    forall k | k in d ensures Comes(us, n + 1, st[d[k]]) {
      DropPointing(u.symbols, m);
      DroppedEntry(u.symbols, m, k);
      RebaseKeepsName(u.symbols[m[k]], CodeBase(us, n), DataBase(us, n));
      assert EntryOf(us, n + 1, n, m[k], st[d[k]]);
    }
  }

  lemma {:induction false} GatheredStep(us: seq<Unit>, n: nat, cs0: seq<SymbolEntry>, ci0: map<Label, nat>,
      st: seq<SymbolEntry>, si: map<Label, nat>, cs: seq<SymbolEntry>, ci: map<Label, nat>)
    requires 1 <= n < |us| && Pointing(cs0, ci0) && Gathered(us, n, cs0, ci0) && SubSource(us, n, st, si)
    requires Merging(cs0, ci0, st, si, si.Keys, cs, ci) && Drawn(cs0, st, si, si.Keys, cs)
    ensures Gathered(us, n + 1, cs, ci)
  {
    AllComeStep(us, n, cs0, st, si, cs);
    MergingShape(cs0, ci0, st, si, si.Keys, cs, ci);
    AllListedStep(us, n, ci0, st, si, ci);
    DrawnSize(cs0, st, si, cs);
    hide Merging, Drawn, AllCome, AllListed, Pointing;
    assert |si| <= |us[n].symbols| by { hide Comes, Names; }
  }

  lemma {:induction false} MergingShape(cs0: seq<SymbolEntry>, ci0: map<Label, nat>, st: seq<SymbolEntry>, si: map<Label, nat>,
      done: set<Label>, cs: seq<SymbolEntry>, ci: map<Label, nat>)
    requires Pointing(cs0, ci0) && Pointing(st, si) && done <= si.Keys && Merging(cs0, ci0, st, si, done, cs, ci)
    ensures |cs0| <= |cs| && ci.Keys == ci0.Keys + done && forall i :: 0 <= i < |cs0| ==> cs[i].name == cs0[i].name
  { hide Pointing, Winner, Agree; }

  lemma {:induction false} DrawnSize(cs0: seq<SymbolEntry>, st: seq<SymbolEntry>, si: map<Label, nat>, cs: seq<SymbolEntry>)
    requires Pointing(st, si) && Drawn(cs0, st, si, si.Keys, cs)
    ensures |cs| <= |cs0| + |si|
  { hide Pointing, DrawnFrom; assert |si.Keys| == |si|; }

  lemma {:induction false} AllListedStep(us: seq<Unit>, n: nat, ci0: map<Label, nat>, st: seq<SymbolEntry>, si: map<Label, nat>,
      ci: map<Label, nat>)
    requires n < |us| && AllListed(us, n, ci0) && SubSource(us, n, st, si) && ci.Keys == ci0.Keys + si.Keys
    ensures AllListed(us, n + 1, ci)
  {
    hide SubSource, Names;
    forall j: nat, i: nat, k: Label | j < n + 1 && Names(us, j, i, k) ensures k in ci {
      ListedNext(us, n, ci0, st, si, ci, j, i, k);
    }
  }

  lemma {:induction false} ListedNext(us: seq<Unit>, n: nat, ci0: map<Label, nat>, st: seq<SymbolEntry>, si: map<Label, nat>,
      ci: map<Label, nat>, j: nat, i: nat, k: Label)
    requires n < |us| && AllListed(us, n, ci0) && SubSource(us, n, st, si) && ci.Keys == ci0.Keys + si.Keys
    requires j < n + 1 && Names(us, j, i, k)
    ensures k in ci
  {
    hide Names, SubSource, AllListed;
    if j < n { ListedAt(us, n, ci0, j, i, k); assert k in ci0.Keys; } else { SubListed(us, n, st, si, i, k); assert k in si.Keys; }
    assert k in ci.Keys;
  }

  lemma {:induction false} ListedAt(us: seq<Unit>, n: nat, ci: map<Label, nat>, j: nat, i: nat, k: Label)
    requires AllListed(us, n, ci) && j < n && Names(us, j, i, k)
    ensures k in ci
  {}

  lemma {:induction false} SubListed(us: seq<Unit>, n: nat, st: seq<SymbolEntry>, si: map<Label, nat>, i: nat, k: Label)
    requires n < |us| && SubSource(us, n, st, si) && Names(us, n, i, k)
    ensures k in si
  { hide Comes; }

  lemma {:induction false} AllComeStep(us: seq<Unit>, n: nat, cs0: seq<SymbolEntry>, st: seq<SymbolEntry>, si: map<Label, nat>,
      cs: seq<SymbolEntry>)
    requires n < |us| && AllCome(us, n, cs0) && SubSource(us, n, st, si) && Drawn(cs0, st, si, si.Keys, cs)
    ensures AllCome(us, n + 1, cs)
  {
    hide Comes;
    forall q | 0 <= q < |cs| ensures Comes(us, n + 1, cs[q]) {
      if cs[q] in cs0 {
        var p :| 0 <= p < |cs0| && cs0[p] == cs[q];
        ComesLater(us, n, cs0[p]);
      } else {
        var k :| k in si && cs[q] == st[si[k]];
      }
    }
  }

  lemma {:induction false} ComesLater(us: seq<Unit>, n: nat, e: SymbolEntry)
    requires Comes(us, n, e)
    ensures Comes(us, n + 1, e)
  {
    hide Rebased;
    var j: nat, i: nat :| EntryOf(us, n, j, i, e);
    assert EntryOf(us, n + 1, j, i, e);
  }
}
