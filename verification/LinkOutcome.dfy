/** Exactly which units Linker::link can link. */
module LinkOutcome {
  import opened Words
  import opened SymbolTable
  import opened SymbolReader
  import opened SymbolMerge
  import opened DebugData
  import opened DebugMerge
  import opened BinaryParser
  import opened LinkModel
  import opened LinkSymbols
  import opened LinkImage
  import opened RelocationPass
  import R = Relocation

  // The combined state after the first n units.
  ghost predicate CombinedAfter(us: seq<Unit>, n: nat, c: Combined)
    requires 1 <= n <= |us|
  {
    && Pointing(c.symbols, c.indices)
    && c.code == AllCode(us, n) && c.data == AllData(us, n)
    && c.codeLength == CodeBase(us, n) && c.dataLength == DataBase(us, n)
    && c.debug == DebugAfter(us, n) && c.strings == |AllStrings(us, n)|
    && AllNamed(us, n) && c.relocs == RelocsAfter(us, n)
    && Gathered(us, n, c.symbols, c.indices)
    && (AllDistinct(us) ==> SymbolsMerged(us, n, c.symbols, c.indices))
  }

  // ----- what a reference needs -----

  // Entry i of unit d gives the label k its final type. Only the main unit's `.end` counts.
  predicate Settles(us: seq<Unit>, d: nat, i: nat, k: Label)
  {
    d < |us| && i < |us[d].symbols| && us[d].symbols[i].name == k && !IsUnknown(us[d].symbols[i].kind)
    && (k == END ==> d == 0)
  }

  // The relocation has a label: a main unit's by its own table, a subunit's by its table once `.end` is erased.
  predicate HasLabel(us: seq<Unit>, j: nat, t: nat)
    requires j < |us| && t < |us[j].relocs|
  { if j == 0 then 0 <= us[0].relocs[t].index < |us[0].symbols| else RelocNamed(us[j], us[j].relocs[t]) }

  function LabelOf(us: seq<Unit>, j: nat, t: nat): Label
    requires j < |us| && t < |us[j].relocs| && HasLabel(us, j, t)
  {
    if j == 0 then us[0].symbols[us[0].relocs[t].index].name
    else TableDrop(us[j].symbols, EndMap(us[j]))[RelocDrop(EndMap(us[j]), us[j].relocs[t]).index].name
  }

  // Its site, moved by the earlier units' lengths, lies in the combined section.
  predicate SiteHolds(us: seq<Unit>, j: nat, t: nat)
    requires j < |us| && t < |us[j].relocs|
  {
    var e := us[j].relocs[t];
    e.kind != R.INVALID
    && R.SiteInside(if e.isData then |AllData(us, |us|)| else |AllCode(us, |us|)|,
                    if j == 0 then e.site else Plus(e.site, if e.isData then DataBase(us, j) else CodeBase(us, j)))
  }

  // A label that gets a type has to be code or data, and then the patch has to fit. -1 is the main unit's way to say
  // that there is no label.
  ghost predicate GoodReference(us: seq<Unit>, j: nat, t: nat)
    requires j < |us| && t < |us[j].relocs|
  {
    if !HasLabel(us, j, t) then j == 0 && us[0].relocs[t].index == -1 else
    forall d: nat, i: nat :: Settles(us, d, i, LabelOf(us, j, t)) ==> IsDefined(us[d].symbols[i].kind) && SiteHolds(us, j, t)
  }

  ghost predicate GoodReferences(us: seq<Unit>)
  { forall j: nat, t: nat :: j < |us| && t < |us[j].relocs| ==> GoodReference(us, j, t) }

  predicate AllNonEmpty(us: seq<Unit>) { forall j: nat :: j < |us| ==> Labelled(us[j].symbols) }

  // Units that link: no label defined twice, no label empty, every reference good.
  ghost predicate LinkOk(us: seq<Unit>)
  { Unique(us, |us|) && AllNonEmpty(us) && GoodReferences(us) }

  // No unit repeats a label, and the main unit's relocations stay inside its table, as an assembler leaves them.
  predicate Regular(us: seq<Unit>)
  {
    && us != [] && AllDistinct(us) && TotalSymbols(us, |us|) < R.INDEX_SPAN / 2
    && forall t :: 0 <= t < |us[0].relocs| ==> us[0].relocs[t].index < |us[0].symbols|
  }

  // Units as the parser leaves them.
  predicate AsParsed(us: seq<Unit>) { us != [] && us[0].meta != [] && Unnamed(us) && AllWritable(us) }

  predicate Unnamed(us: seq<Unit>)
    requires us != []
  { forall t :: 0 <= t < |us[0].relocs| ==> us[0].relocs[t].name.None? }

  predicate AllWritable(us: seq<Unit>) { forall j: nat :: j < |us| ==> Writable(us[j].debug) }

  // ----- labels -----

  lemma {:induction false} LabelledExactly(us: seq<Unit>, c: Combined, hash: Hash)
    requires us != [] && Pointing(c.symbols, c.indices) && Gathered(us, |us|, c.symbols, c.indices)
    ensures Labelled(EndedSymbols(c, hash)) <==> AllNonEmpty(us)
  {
    hide Rebase;
    if AllNonEmpty(us) {
      forall e | e in c.symbols ensures e.name != [] {
        var q :| 0 <= q < |c.symbols| && c.symbols[q] == e;
        NameComes(us, |us|, c.symbols, q);
      }
    }
    if Labelled(EndedSymbols(c, hash)) {
      forall j: nat, e | j < |us| && e in us[j].symbols ensures e.name != [] {
        var i :| 0 <= i < |us[j].symbols| && us[j].symbols[i] == e;
        if e.name != END {
          assert Names(us, j, i, e.name);
          assert c.symbols[c.indices[e.name]] in EndedSymbols(c, hash);
        }
      }
    }
  }

  lemma {:induction false} NameComes(us: seq<Unit>, n: nat, cs: seq<SymbolEntry>, q: nat)
    requires AllCome(us, n, cs) && q < |cs|
    ensures exists j: nat, i: nat :: j < n && j < |us| && i < |us[j].symbols| && us[j].symbols[i].name == cs[q].name
  {
    assert Comes(us, n, cs[q]);
    var j: nat, i: nat :| EntryOf(us, n, j, i, cs[q]);
    RebaseKeepsName(us[j].symbols[i], CodeBase(us, j), DataBase(us, j));
  }

  // ----- the type a label ends up with -----

  lemma {:induction false} EndComes(us: seq<Unit>, n: nat, cs: seq<SymbolEntry>, q: nat, i: nat)
    requires AllCome(us, n, cs) && q < |cs| && cs[q].name == END
    requires us != [] && Distinct(us[0].symbols) && i < |us[0].symbols| && us[0].symbols[i].name == END
    ensures cs[q].kind == us[0].symbols[i].kind
  {
    assert Comes(us, n, cs[q]);
    var j: nat, p: nat :| EntryOf(us, n, j, p, cs[q]);
    RebaseKeepsName(us[0].symbols[p], CodeBase(us, 0), DataBase(us, 0));
  }

  // The combined table's type for a label is known exactly when some entry settles it, and then it is that entry's.
  lemma {:induction false} KindSettled(us: seq<Unit>, n: nat, cs: seq<SymbolEntry>, ci: map<Label, nat>, k: Label, d: nat, i: nat)
    requires us != [] && n == |us| && AllDistinct(us) && SymbolsMerged(us, n, cs, ci) && AllCome(us, n, cs)
    requires Pointing(cs, ci) && k in ci && Settles(us, d, i, k)
    ensures cs[ci[k]].kind == us[d].symbols[i].kind
  {
    hide Complete, Sound, Unique, MainFirst, AllCome, LinkSymbols.Rebased, IsUnknown, Agree;
    if k == END {
      EndComes(us, n, cs, ci[k], i);
    } else {
      assert Defines(us, d, i, k);
      CompleteAt(us, n, cs, ci, d, i, k);
    }
  }

  lemma {:induction false} KindSettles(us: seq<Unit>, n: nat, cs: seq<SymbolEntry>, ci: map<Label, nat>, k: Label) returns (d: nat, i: nat)
    requires us != [] && n == |us| && SymbolsMerged(us, n, cs, ci) && AllCome(us, n, cs)
    requires Pointing(cs, ci) && k in ci && !IsUnknown(cs[ci[k]].kind)
    ensures Settles(us, d, i, k)
  {
    hide Complete, Sound, Unique, MainFirst, IsUnknown, Agree, Rebase;
    if k == END {
      assert Comes(us, n, cs[ci[k]]);
      d, i :| EntryOf(us, n, d, i, cs[ci[k]]);
      RebaseKeepsName(us[d].symbols[i], CodeBase(us, d), DataBase(us, d));
    } else {
      d, i := SoundAt(us, n, cs, ci, k);
    }
  }

  // ----- the entry a reference is resolved to -----

  // The pass finds the combined table's entry q for the relocation.
  predicate Finds(m: R.Entry, context: Context, q: nat)
  { Resolve(m, context).Ok? && Resolve(m, context).value == m.(index := Resolve(m, context).value.index, name := Resolve(m, context).value.name)
    && Resolve(m, context).value.index == q < |context.symbols| }

  // ... and what it makes of it depends on the entry's type alone.
  lemma {:induction false} FoundOk(m: R.Entry, context: Context, q: nat, code: nat, data: nat)
    requires Finds(m, context, q)
    ensures EntryOk(m, context, code, data)
      <==> IsUnknown(context.symbols[q].kind) || (IsDefined(context.symbols[q].kind) && m.kind != R.INVALID
                                                  && R.SiteInside(if m.isData then data else code, m.site))
  { hide R.SiteInside, Resolve, Plus; }

  lemma {:induction false} FinalKind(meta: seq<Long>, c: Combined, hash: Hash, q: nat)
    requires Pointing(c.symbols, c.indices) && q < |c.symbols|
    ensures q < |FinalSymbols(meta, c, hash)| && FinalSymbols(meta, c, hash)[q].kind == c.symbols[q].kind
  { hide FinalSymbols; }

  lemma {:induction false} MainFinds(us: seq<Unit>, c: Combined, hash: Hash, t: nat)
    requires Regular(us) && AsParsed(us) && t < |us[0].relocs| && HasLabel(us, 0, t)
    requires Agree(c.symbols, c.indices) && MainFirst(us, c.symbols)
    ensures var k := LabelOf(us, 0, t);
      k in c.indices && Finds(us[0].relocs[t], PassContext(us[0].meta, c, hash), c.indices[k])
  {
    hide FinalSymbols, AllDistinct;
    var e := us[0].relocs[t];
    assert c.symbols[e.index].name == LabelOf(us, 0, t);
    FinalKind(us[0].meta, c, hash, e.index);
  }

  // A subunit's relocation that kept a label names one of its unit's own.
  lemma {:induction false} SubLabel(us: seq<Unit>, j: nat, t: nat)
    requires AllDistinct(us) && 1 <= j < |us| && t < |us[j].relocs| && HasLabel(us, j, t)
    ensures LabelOf(us, j, t) != END && exists i: nat :: Names(us, j, i, LabelOf(us, j, t))
  {
    hide TableDrop, MapDrop, IndexMap, Distinct;
    var u, m := us[j], EndMap(us[j]);
    assert Distinct(u.symbols);
    IndexMapAgrees(u.symbols);
    DropPointing(u.symbols, m);
    var index := RelocDrop(m, u.relocs[t]).index;
    assert TableDrop(u.symbols, m)[index].name in MapDrop(u.symbols, m);
    var i := SubName(us, j, LabelOf(us, j, t));
  }

  lemma {:induction false} SubFinds(us: seq<Unit>, c: Combined, hash: Hash, j: nat, t: nat)
    requires Regular(us) && AsParsed(us) && 1 <= j < |us| && t < |us[j].relocs| && HasLabel(us, j, t)
    requires Pointing(c.symbols, c.indices) && Gathered(us, |us|, c.symbols, c.indices)
    ensures var k := LabelOf(us, j, t);
      k in c.indices
      && Finds(MoveReloc(us[j], us[j].relocs[t], CodeBase(us, j), DataBase(us, j)), PassContext(us[0].meta, c, hash), c.indices[k])
  {
    hide TableDrop, FinalSymbols, EndedIndices, AllDistinct, CodeBase, DataBase, AllCome, Names, EndMap, PassContext, Finds,
      Pointing, RelocNamed;
    SubLabel(us, j, t);
    var k := LabelOf(us, j, t);
    var i: nat :| Names(us, j, i, k);
    ListedAt(us, |us|, c.indices, j, i, k);
    NameFinds(us[0].meta, c, hash, MoveReloc(us[j], us[j].relocs[t], CodeBase(us, j), DataBase(us, j)), k);
  }

  lemma {:induction false} NameFinds(meta: seq<Long>, c: Combined, hash: Hash, m: R.Entry, k: Label)
    requires meta != [] && Pointing(c.symbols, c.indices) && |c.symbols| < R.INDEX_SPAN / 2
    requires k in c.indices && k != END && m.name == Some(k)
    ensures Finds(m, PassContext(meta, c, hash), c.indices[k])
  {
    hide FinalSymbols, EndedIndices;
    FinalEntry(meta, c, hash, k);
    IndexInside(c.symbols, c.indices, k);
    FinalKind(meta, c, hash, c.indices[k]);
  }

  // ----- references -----

  predicate MovedFrom(us: seq<Unit>, j: nat, t: nat, m: R.Entry)
    requires j < |us| && t < |us[j].relocs|
  {
    var e := us[j].relocs[t];
    && m.isData == e.isData && m.kind == e.kind
    && m.site == if j == 0 then e.site else Plus(e.site, if e.isData then DataBase(us, j) else CodeBase(us, j))
  }

  lemma {:induction false} FoundExactly(us: seq<Unit>, c: Combined, hash: Hash, j: nat, t: nat, m: R.Entry)
    requires Regular(us) && AsParsed(us) && CombinedAfter(us, |us|, c)
    requires j < |us| && t < |us[j].relocs| && HasLabel(us, j, t)
    requires MovedFrom(us, j, t, m)
    requires var k := LabelOf(us, j, t);
      k in c.indices && Pointing(c.symbols, c.indices) && Finds(m, PassContext(us[0].meta, c, hash), c.indices[k])
    ensures EntryOk(m, PassContext(us[0].meta, c, hash), |c.code|, |c.data|) <==> GoodReference(us, j, t)
  {
    hide SymbolsMerged, Gathered, Pointing, Finds, EntryOk, CodeBase, DataBase, R.SiteInside, LabelOf, HasLabel, FinalSymbols,
      IsUnknown, Settles, DebugAfter, RelocsAfter, AllNamed;
    var k := LabelOf(us, j, t);
    var q := c.indices[k];
    assert q < |c.symbols| by { IndexInside(c.symbols, c.indices, k); }
    FinalKind(us[0].meta, c, hash, q);
    FoundOk(m, PassContext(us[0].meta, c, hash), q, |c.code|, |c.data|);
    MergedParts(us, c);
    KindExactly(us, c, k, SiteHolds(us, j, t));
  }

  lemma {:induction false} IndexInside(cs: seq<SymbolEntry>, ci: map<Label, nat>, k: Label)
    requires Pointing(cs, ci) && k in ci
    ensures ci[k] < |cs|
  {}

  lemma {:induction false} MergedParts(us: seq<Unit>, c: Combined)
    requires us != [] && AllDistinct(us) && CombinedAfter(us, |us|, c)
    ensures Pointing(c.symbols, c.indices) && Gathered(us, |us|, c.symbols, c.indices) && SymbolsMerged(us, |us|, c.symbols, c.indices)
    ensures AllCome(us, |us|, c.symbols) && Agree(c.symbols, c.indices) && MainFirst(us, c.symbols)
  { hide Complete, Sound, Unique, AllCome, AllListed; }

  lemma {:induction false} KindExactly(us: seq<Unit>, c: Combined, k: Label, holds: bool)
    requires us != [] && AllDistinct(us) && CombinedAfter(us, |us|, c)
    requires Pointing(c.symbols, c.indices) && k in c.indices
    ensures var kind := c.symbols[c.indices[k]].kind;
      IsUnknown(kind) || (IsDefined(kind) && holds)
      <==> forall d: nat, i: nat :: Settles(us, d, i, k) ==> IsDefined(us[d].symbols[i].kind) && holds
  {
    MergedParts(us, c);
    hide SymbolsMerged, Pointing, CombinedAfter, AllCome, Settles;
    var kind := c.symbols[c.indices[k]].kind;
    forall d: nat, i: nat | Settles(us, d, i, k) ensures !IsUnknown(kind) && kind == us[d].symbols[i].kind {
      KindSettled(us, |us|, c.symbols, c.indices, k, d, i);
      SettlesKnown(us, d, i, k);
    }
    if !IsUnknown(kind) { var d, i := KindSettles(us, |us|, c.symbols, c.indices, k); }
  }

  lemma {:induction false} SettlesKnown(us: seq<Unit>, d: nat, i: nat, k: Label)
    requires Settles(us, d, i, k)
    ensures d < |us| && i < |us[d].symbols| && !IsUnknown(us[d].symbols[i].kind)
  {}

  lemma {:induction false} ReferenceExactly(us: seq<Unit>, c: Combined, hash: Hash, j: nat, t: nat)
    requires Regular(us) && AsParsed(us) && CombinedAfter(us, |us|, c)
    requires j < |us| && t < |us[j].relocs|
    ensures AllNamed(us, |us|) && Pointing(c.symbols, c.indices)
    ensures EntryOk(RelocAt(us, j, t), PassContext(us[0].meta, c, hash), |c.code|, |c.data|) <==> GoodReference(us, j, t)
  {
    MergedParts(us, c);
    hide SymbolsMerged, Gathered, Pointing, Finds, CodeBase, DataBase, R.SiteInside, FinalSymbols, MoveReloc, RelocNamed,
      Settles, DebugAfter, RelocsAfter, SiteHolds, AllWritable, Plus, Agree, MainFirst, AllCome, LabelOf, Applicable, EffectOf;
    assert AllNamed(us, |us|);
    if !HasLabel(us, j, t) {
      if j > 0 { NamedAt(us, j, t); assert false; }
      assert us[0].relocs[t].name.None?;
      MainUnfound(us[0].relocs[t], PassContext(us[0].meta, c, hash), |c.code|, |c.data|);
    } else if j == 0 {
      MainFinds(us, c, hash, t);
      FoundExactly(us, c, hash, 0, t, us[0].relocs[t]);
    } else {
      SubFinds(us, c, hash, j, t);
      MovedSame(us, j, t);
      FoundExactly(us, c, hash, j, t, RelocAt(us, j, t));
    }
  }

  lemma {:induction false} MovedSame(us: seq<Unit>, j: nat, t: nat)
    requires 1 <= j < |us| && t < |us[j].relocs| && RelocNamed(us[j], us[j].relocs[t])
    ensures MovedFrom(us, j, t, MoveReloc(us[j], us[j].relocs[t], CodeBase(us, j), DataBase(us, j)))
  { hide TableDrop, EndMap, CodeBase, DataBase; }

  lemma {:induction false} MainUnfound(e: R.Entry, context: Context, code: nat, data: nat)
    requires e.name.None? && e.index < 0
    ensures EntryOk(e, context, code, data) <==> e.index == -1
  {}

  lemma {:induction false} NamedAt(us: seq<Unit>, j: nat, t: nat)
    requires AllNamed(us, |us|) && 1 <= j < |us| && t < |us[j].relocs|
    ensures RelocNamed(us[j], us[j].relocs[t])
  { hide RelocNamed; assert RelocsNamed(us[j]); }

  lemma {:induction false} GoodNamed(us: seq<Unit>, j: nat)
    requires GoodReferences(us) && 1 <= j < |us|
    ensures RelocsNamed(us[j])
  {
    hide RelocNamed, Settles, SiteHolds;
    forall t | 0 <= t < |us[j].relocs| ensures RelocNamed(us[j], us[j].relocs[t]) { assert GoodReference(us, j, t); }
  }

  // Every entry of the combined list is some unit's.
  lemma {:induction false} RelocFind(us: seq<Unit>, n: nat, p: nat) returns (j: nat, t: nat)
    requires n <= |us| && p < RelocStart(us, n)
    ensures j < n && t < |us[j].relocs| && p == RelocStart(us, j) + t
    decreases n
  {
    if p < RelocStart(us, n - 1) { j, t := RelocFind(us, n - 1, p); } else { j, t := n - 1, p - RelocStart(us, n - 1); }
  }

  lemma {:induction false} RelocatableExactly(us: seq<Unit>, c: Combined, hash: Hash)
    requires Regular(us) && AsParsed(us) && CombinedAfter(us, |us|, c)
    ensures Pointing(c.symbols, c.indices)
    ensures Relocatable(c.relocs, PassContext(us[0].meta, c, hash), |c.code|, |c.data|) <==> GoodReferences(us)
  {
    RelocParts(us, c);
    AllPlaced(us, c);
    hide *;
    if GoodReferences(us) { GoodRelocatable(us, c, hash); }
    if Relocatable(c.relocs, PassContext(us[0].meta, c, hash), |c.code|, |c.data|) { RelocatableGood(us, c, hash); }
  }

  ghost predicate AllRelocsPlaced(us: seq<Unit>, c: Combined)
  {
    |c.relocs| == RelocStart(us, |us|) && forall j: nat, t: nat :: j < |us| && t < |us[j].relocs| ==> RelocPlaced(us, c, j, t)
  }

  lemma {:induction false} GoodRelocatable(us: seq<Unit>, c: Combined, hash: Hash)
    requires Regular(us) && AsParsed(us) && CombinedAfter(us, |us|, c) && Pointing(c.symbols, c.indices)
    requires AllRelocsPlaced(us, c) && GoodReferences(us)
    ensures Relocatable(c.relocs, PassContext(us[0].meta, c, hash), |c.code|, |c.data|)
  {
    hide CombinedAfter, EntryOk, GoodReference, PassContext, RelocStart, Regular, Unnamed, AllWritable, Pointing, RelocPlaced;
    var context := PassContext(us[0].meta, c, hash);
    forall p | 0 <= p < |c.relocs| ensures EntryOk(c.relocs[p], context, |c.code|, |c.data|) {
      var j, t := RelocFind(us, |us|, p);
      PlacedExactly(us, c, hash, j, t);
    }
  }

  lemma {:induction false} RelocatableGood(us: seq<Unit>, c: Combined, hash: Hash)
    requires Regular(us) && AsParsed(us) && CombinedAfter(us, |us|, c) && Pointing(c.symbols, c.indices)
    requires AllRelocsPlaced(us, c) && Relocatable(c.relocs, PassContext(us[0].meta, c, hash), |c.code|, |c.data|)
    ensures GoodReferences(us)
  {
    hide CombinedAfter, EntryOk, GoodReference, PassContext, RelocStart, Regular, AsParsed, Pointing, RelocPlaced;
    forall j: nat, t: nat | j < |us| && t < |us[j].relocs| ensures GoodReference(us, j, t) { PlacedExactly(us, c, hash, j, t); }
  }

  // Unit j's relocation t in the combined list.
  predicate RelocPlaced(us: seq<Unit>, c: Combined, j: nat, t: nat)
    requires j < |us| && t < |us[j].relocs|
  { AllNamed(us, |us|) && RelocStart(us, j) + t < |c.relocs| && c.relocs[RelocStart(us, j) + t] == RelocAt(us, j, t) }

  lemma {:induction false} AllPlaced(us: seq<Unit>, c: Combined)
    requires us != [] && CombinedAfter(us, |us|, c)
    ensures AllRelocsPlaced(us, c)
  {
    RelocParts(us, c);
    hide CombinedAfter, RelocsAfter, RelocAt, RelocStart, AllNamed;
    RelocCount(us, |us|);
    forall j: nat, t: nat | j < |us| && t < |us[j].relocs| ensures RelocPlaced(us, c, j, t) { RelocPlace(us, |us|, j, t); }
  }

  lemma {:induction false} PlacedExactly(us: seq<Unit>, c: Combined, hash: Hash, j: nat, t: nat)
    requires Regular(us) && AsParsed(us) && CombinedAfter(us, |us|, c)
    requires j < |us| && t < |us[j].relocs| && RelocPlaced(us, c, j, t)
    ensures Pointing(c.symbols, c.indices) && RelocStart(us, j) + t < |c.relocs|
    ensures EntryOk(c.relocs[RelocStart(us, j) + t], PassContext(us[0].meta, c, hash), |c.code|, |c.data|) <==> GoodReference(us, j, t)
  {
    hide CombinedAfter, EntryOk, GoodReference, PassContext, RelocAt, RelocStart, Regular, AsParsed, Pointing, AllNamed;
    ReferenceExactly(us, c, hash, j, t);
  }

  lemma {:induction false} RelocParts(us: seq<Unit>, c: Combined)
    requires us != [] && CombinedAfter(us, |us|, c)
    ensures Pointing(c.symbols, c.indices) && AllNamed(us, |us|) && c.relocs == RelocsAfter(us, |us|)
  { hide Pointing, Gathered, SymbolsMerged, RelocsAfter, AllNamed, DebugAfter; }

  // ----- debug strings -----

  lemma {:induction false} WritableConcat(a: seq<DebugEntry>, b: seq<DebugEntry>)
    ensures Writable(a + b) <==> Writable(a) && Writable(b)
  {
    var c := a + b;
    if Writable(c) {
      forall i | 0 <= i < |a| && IsString(a[i]) ensures |a[i].text| <= 0xffffff { assert c[i] == a[i]; }
      forall i | 0 <= i < |b| && IsString(b[i]) ensures |b[i].text| <= 0xffffff { assert c[|a| + i] == b[i]; }
    }
  }

  lemma {:induction false} WritableParts(es: seq<DebugEntry>)
    requires Writable(es)
    ensures Writable(Strings(es)) && Writable(Locations(es))
  {
    if es != [] {
      ConsInRange(es);
      WritableParts(es[1..]);
      WritableConcat(if IsString(es[0]) then [es[0]] else [], Strings(es[1..]));
      WritableConcat(if es[0].Location? then [es[0]] else [], Locations(es[1..]));
    }
  }

  // A link writes no string that its units could not hold.
  lemma {:induction false} DebugWritable(us: seq<Unit>, n: nat)
    requires 1 <= n <= |us| && AllWritable(us)
    ensures Writable(DebugAfter(us, n))
  {
    hide Strings, Locations, Writable, Move, Delta, AllStrings;
    assert Writable(us[n - 1].debug);
    if n > 1 {
      DebugWritable(us, n - 1);
      var before, extra := DebugAfter(us, n - 1), |AllStrings(us, n - 1)|;
      var moved := Move(us[n - 1].debug, Delta(us, n - 1), extra);
      MovedWritable(us[n - 1].debug, Delta(us, n - 1), extra);
      WritableParts(moved);
      assert before[..extra] + before[extra..] == before;
      WritableConcat(before[..extra], before[extra..]);
      WritableConcat(before[..extra], Strings(moved));
      WritableConcat(before[..extra] + Strings(moved), before[extra..]);
      WritableConcat(before[..extra] + Strings(moved) + before[extra..], Locations(moved));
    }
  }

  lemma {:induction false} MovedWritable(es: seq<DebugEntry>, delta: Long, strings: nat)
    requires Writable(es)
    ensures Writable(Move(es, delta, strings))
  {}

  lemma {:induction false} ReadWritable(image: seq<Byte>, p: nat, end: nat)
    requires ReadDebug(image, p, end).Ok?
    ensures Writable(ReadDebug(image, p, end).value)
    decreases if p < end then end - p else 0
  {
    hide EntryAt;
    if p < end {
      var (entry, next) := EntryAt(image, p).value;
      ReadWritable(image, next, end);
      EntryWritable(image, p);
      WritableConcat([entry], ReadDebug(image, next, end).value);
    }
  }

  lemma {:induction false} EntryWritable(image: seq<Byte>, p: nat)
    requires EntryAt(image, p).Ok?
    ensures var e := EntryAt(image, p).value.0; IsString(e) ==> |e.text| <= 0xffffff
  {
    if p + 8 <= |image| && (image[p] == 1 || image[p] == 2) {
      var b := image[p + 1..p + 4];
      Join3Bound(b);
    }
  }

  lemma {:induction false} Join3Bound(b: seq<Byte>)
    requires |b| == 3
    ensures Join(b) <= 0xffffff
  {
    assert Join(b) == b[0] + 256 * Join(b[1..]);
    assert Join(b[1..]) == b[1] + 256 * Join(b[2..]);
    assert Join(b[2..]) == b[2] + 256 * Join(b[3..]);
    assert b[3..] == [];
  }

  // ----- exactly when the closing steps go through -----

  lemma {:induction false} ClosableExactly(us: seq<Unit>, c: Combined, hash: Hash)
    requires Regular(us) && AsParsed(us) && CombinedAfter(us, |us|, c)
    ensures Pointing(c.symbols, c.indices)
    ensures Closable(us[0].meta, c, hash) <==> AllNonEmpty(us) && GoodReferences(us)
  {
    MergedParts(us, c);
    RelocatableExactly(us, c, hash);
    LabelledExactly(us, c, hash);
    DebugWritable(us, |us|);
    assert c.debug == DebugAfter(us, |us|) by { hide Gathered, SymbolsMerged, Pointing, DebugAfter; }
    hide CombinedAfter, GoodReferences, AllNonEmpty, Relocatable, Labelled, Writable, Gathered, SymbolsMerged, DebugAfter, AllWritable, Regular;
  }
}
