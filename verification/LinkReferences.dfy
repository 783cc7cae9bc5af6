/** Where every reference of a linked image points, and what the rest of the image holds. */
module LinkReferences {
  import opened Words
  import opened SymbolTable
  import opened SymbolReader
  import opened SymbolMerge
  import opened BinaryParser
  import opened LinkModel
  import opened LinkSymbols
  import opened LinkImage
  import opened LinkOutcome
  import opened ImageLayout
  import opened Linker
  import opened RelocationPass
  import R = Relocation
  import DebugData

  // Relocation t of unit j names k, a label other than `.end`.
  predicate Refers(us: seq<Unit>, j: nat, t: nat, k: Label)
  {
    j < |us| && t < |us[j].relocs| && 0 <= us[j].relocs[t].index < |us[j].symbols|
    && Names(us, j, us[j].relocs[t].index, k)
  }

  // Units as read from files that link.
  ghost predicate Linkable(us: seq<Unit>, c: Combined, hash: Hash)
  {
    && us != [] && AllDistinct(us) && Unnamed(us) && CombinedAfter(us, |us|, c)
    && |us[0].meta| >= 7 && Closable(us[0].meta, c, hash) && |c.symbols| < R.INDEX_SPAN / 2
  }

  lemma {:induction false} LinkableParts(us: seq<Unit>, c: Combined, hash: Hash)
    requires Linkable(us, c, hash)
    ensures Agree(c.symbols, c.indices) && Complete(us, |us|, c.symbols, c.indices) && Sound(us, |us|, c.symbols, c.indices)
    ensures MainFirst(us, c.symbols) && AllNamed(us, |us|) && c.relocs == RelocsAfter(us, |us|)
    ensures us != [] && |us[0].meta| >= 7 && |c.symbols| < R.INDEX_SPAN / 2
  { hide Complete, Sound, Closable, MainFirst; }

  /** A successful link of units with distinct labels is of this kind. */
  lemma {:induction false} LinkedIsLinkable(files: seq<seq<Long>>, hash: Hash, c: Combined, linked: seq<Long>)
    requires LinkedFrom(files, hash, c, linked) && AllDistinct(UnitsOf(files, hash)) && |c.symbols| < R.INDEX_SPAN / 2
    ensures Linkable(UnitsOf(files, hash), c, hash)
    ensures var main := UnitsOf(files, hash)[0]; main.meta[0] == main.metaBytes && main.meta[0] / 8 == |main.meta|
  {
    hide CombinedAfter, Closable, AllDistinct, ParseUnit, Joined, PiecesOf;
    UnitAt(files, hash, 0);
    UnitShape(files[0], hash);
    ParsedUnnamed(files[0], hash);
  }

  // Where unit j's relocation t stands in the combined list.
  function Position(us: seq<Unit>, j: nat, t: nat): nat
    requires j < |us|
  { RelocStart(us, j) + t }

  // The final symbol entry a reference to k is resolved to.
  ghost predicate ResolvesTo(e: R.Entry, c: Context, k: Label, s: SymbolEntry)
  {
    && Resolve(e, c).Ok? && var r := Resolve(e, c).value;
       r.name == Some(k) && Known(r.index, c.symbols) && c.symbols[r.index] == s
       && r.isData == e.isData && r.site == e.site && r.kind == e.kind && r.offset == e.offset
  }

  // Through the renumbering, the merge and the pass, the relocation still means its unit's label.
  lemma {:induction false} ReferenceResolves(us: seq<Unit>, c: Combined, hash: Hash, j: nat, t: nat, k: Label)
    requires Linkable(us, c, hash) && Refers(us, j, t, k)
    ensures Position(us, j, t) < |c.relocs| && k in c.indices && c.indices[k] < |c.symbols|
    ensures ResolvesTo(c.relocs[Position(us, j, t)], PassContext(us[0].meta, c, hash), k, c.symbols[c.indices[k]])
    ensures var e, m := us[j].relocs[t], c.relocs[Position(us, j, t)];
      m.isData == e.isData && m.kind == e.kind && m.offset == e.offset
      && m.site == if j == 0 then e.site else Plus(e.site, if e.isData then DataBase(us, j) else CodeBase(us, j))
  {
    hide Complete, Sound, Closable, CombinedAfter, MainFirst, FinalSymbols, EndedIndices, RelocsAfter, RelocAt, Distinct, Agree,
      Pointing, Plus, Linkable, AllDistinct, ResolvesTo, RelocStart, PassContext, AllNamed, CodeBase, DataBase;
    LinkableParts(us, c, hash);
    AgreePoints(c.symbols, c.indices);
    CompleteAt(us, |us|, c.symbols, c.indices, j, us[j].relocs[t].index, k);
    IndexBound(c.symbols, c.indices, k);
    RelocPlace(us, |us|, j, t);
    RelocCount(us, |us|);
    LabelledReference(us, c, hash, j, t, k);
    ResolveStep(us, c, hash, RelocAt(us, j, t), k);
  }

  // The combined entry of a reference: named, or still carrying the index of its label.
  lemma {:induction false} LabelledReference(us: seq<Unit>, c: Combined, hash: Hash, j: nat, t: nat, k: Label)
    requires Linkable(us, c, hash) && Refers(us, j, t, k) && AllNamed(us, |us|)
    ensures var e, m := us[j].relocs[t], RelocAt(us, j, t);
      && m.isData == e.isData && m.kind == e.kind && m.offset == e.offset
      && m.site == (if j == 0 then e.site else Plus(e.site, if e.isData then DataBase(us, j) else CodeBase(us, j)))
      && (m.name == Some(k) || (m.name.None? && k in c.indices && c.indices[k] == m.index))
  {
    hide Complete, Sound, Closable, CombinedAfter, MainFirst, RelocAt, Plus, Distinct;
    if j == 0 { MainReference(us, c, hash, t, k); } else { SubReference(us, j, t, k); }
  }

  lemma {:induction false} ResolveStep(us: seq<Unit>, c: Combined, hash: Hash, m: R.Entry, k: Label)
    requires us != [] && |us[0].meta| >= 7 && Pointing(c.symbols, c.indices) && |c.symbols| < R.INDEX_SPAN / 2
    requires k in c.indices && k != END && (m.name == Some(k) || (m.name.None? && c.indices[k] == m.index))
    ensures c.indices[k] < |c.symbols|
    ensures ResolvesTo(m, PassContext(us[0].meta, c, hash), k, c.symbols[c.indices[k]])
  {
    hide FinalSymbols, EndedIndices, Wrap;
    IndexBound(c.symbols, c.indices, k);
    FinalEntry(us[0].meta, c, hash, k);
    FinalLength(us[0].meta, c, hash);
  }

  lemma {:induction false} IndexBound(symbols: seq<SymbolEntry>, indices: map<Label, nat>, k: Label)
    requires Pointing(symbols, indices) && k in indices
    ensures indices[k] < |symbols| && symbols[indices[k]].name == k
  {}

  lemma {:induction false} FinalLength(meta: seq<Long>, c: Combined, hash: Hash)
    requires Pointing(c.symbols, c.indices)
    ensures |c.symbols| <= |FinalSymbols(meta, c, hash)|
  {}

  lemma {:induction false} MainReference(us: seq<Unit>, c: Combined, hash: Hash, t: nat, k: Label)
    requires Linkable(us, c, hash) && Refers(us, 0, t, k) && AllNamed(us, |us|)
    ensures RelocAt(us, 0, t) == us[0].relocs[t] && RelocAt(us, 0, t).name.None?
    ensures k in c.indices && c.indices[k] == us[0].relocs[t].index
  {
    hide Complete, Sound, Closable, Distinct;
    LinkableParts(us, c, hash);
    assert c.symbols[us[0].relocs[t].index].name == k;
  }

  lemma {:induction false} SubReference(us: seq<Unit>, j: nat, t: nat, k: Label)
    requires 1 <= j < |us| && AllDistinct(us) && Refers(us, j, t, k) && AllNamed(us, |us|)
    ensures var e, m := us[j].relocs[t], RelocAt(us, j, t);
      && m.name == Some(k) && m.isData == e.isData && m.kind == e.kind && m.offset == e.offset
      && m.site == Plus(e.site, if e.isData then DataBase(us, j) else CodeBase(us, j))
  {
    hide TableDrop, Plus, CodeBase, DataBase, Distinct;
    var u, e := us[j], us[j].relocs[t];
    assert RelocsNamed(u);
    assert RelocNamed(u, e);
    assert Distinct(u.symbols);
    IndexMapAgrees(u.symbols);
    RelocationKeepsLabel(u.symbols, EndMap(u), e);
  }

  // ----- the value at a site -----

  // The final address of unit d's entry i: its section's offset in the image, the lengths of the earlier units'
  // same section, and its local address.
  function Home(us: seq<Unit>, d: nat, i: nat): Long
    requires us != [] && d < |us| && i < |us[d].symbols|
  {
    var s := us[d].symbols[i];
    if s.kind == CODE then Wrap(us[0].metaBytes + 8 * |AllCode(us, d)| + s.address)
    else Wrap(us[0].metaBytes + 8 * |AllCode(us, |us|)| + 8 * |AllData(us, d)| + s.address)
  }

  // A definition that addresses code or data.
  predicate Places(us: seq<Unit>, d: nat, i: nat, k: Label)
  { Names(us, d, i, k) && IsDefined(us[d].symbols[i].kind) }

  /** A reference to a label that some unit places in code or data patches its own site, moved with its section,
      with the final address of that definition plus the addend. */
  lemma {:induction false} ReferenceValue(us: seq<Unit>, c: Combined, hash: Hash, j: nat, t: nat, k: Label, d: nat, i: nat)
    requires Linkable(us, c, hash) && WholeHeaders(us) && us[0].meta[0] == us[0].metaBytes
    requires Refers(us, j, t, k) && Places(us, d, i, k)
    ensures Position(us, j, t) < |c.relocs|
    ensures var e, m := us[j].relocs[t], c.relocs[Position(us, j, t)]; var context := PassContext(us[0].meta, c, hash);
      && Resolve(m, context).Ok?
      && EffectOf(Resolve(m, context).value, context) == Ok(Patch(e.isData, m.site, e.kind, Wrap(Home(us, d, i) + e.offset)))
      && m.site == if j == 0 then e.site else Wrap(e.site + if e.isData then 8 * |AllData(us, j)| else 8 * |AllCode(us, j)|)
  {
    hide Complete, Sound, Closable, CombinedAfter, MainFirst, FinalSymbols, EndedIndices, RelocsAfter, Agree, Pointing, Plus,
      Wrap, Rebase, CodeBase, DataBase, AllDistinct, Home, Linkable, AllCode, AllData, WholeHeaders, RelocStart, ResolvesTo,
      LinkSymbols.Rebased, Resolve, EffectOf, Defines;
    ReferenceResolves(us, c, hash, j, t, k);
    DefinitionFound(us, c, hash, d, i, k);
    HomeValue(us, c, d, i, us[j].relocs[t].offset);
    MovedSite(us, j, us[j].relocs[t].site);
    ValueStep(c.relocs[Position(us, j, t)], PassContext(us[0].meta, c, hash), k, c.symbols[c.indices[k]]);
  }

  lemma {:induction false} DefinitionFound(us: seq<Unit>, c: Combined, hash: Hash, d: nat, i: nat, k: Label)
    requires Linkable(us, c, hash) && Places(us, d, i, k)
    ensures k in c.indices && c.indices[k] < |c.symbols| && c.symbols[c.indices[k]] == LinkSymbols.Rebased(us, d, i)
    ensures c.code == AllCode(us, |us|) && Pointing(c.symbols, c.indices) && us != [] && us[0].meta != []
  {
    hide Complete, Sound, Closable, CombinedAfter, MainFirst, RelocsAfter, Agree, Pointing, LinkSymbols.Rebased, Linkable;
    LinkableParts(us, c, hash);
    LinkableCode(us, c, hash);
    AgreePoints(c.symbols, c.indices);
    CompleteAt(us, |us|, c.symbols, c.indices, d, i, k);
    IndexBound(c.symbols, c.indices, k);
  }

  lemma {:induction false} ValueStep(m: R.Entry, c: Context, k: Label, s: SymbolEntry)
    requires ResolvesTo(m, c, k, s) && IsDefined(s.kind)
    ensures Resolve(m, c).Ok?
    ensures EffectOf(Resolve(m, c).value, c)
      == Ok(Patch(m.isData, m.site, m.kind, Plus(Plus(s.address, m.offset), if s.kind == CODE then c.codeOffset else c.dataOffset)))
  { hide Plus; }

  lemma {:induction false} LinkableCode(us: seq<Unit>, c: Combined, hash: Hash)
    requires Linkable(us, c, hash)
    ensures c.code == AllCode(us, |us|) && c.data == AllData(us, |us|)
    ensures Pointing(c.symbols, c.indices) && us != [] && |us[0].meta| >= 7 && Closable(us[0].meta, c, hash)
  { hide Complete, Sound, Closable, MainFirst; }

  lemma {:induction false} MovedSite(us: seq<Unit>, j: nat, site: Long)
    requires j < |us| && WholeHeaders(us)
    ensures Plus(site, CodeBase(us, j)) == Wrap(site + 8 * |AllCode(us, j)|)
    ensures Plus(site, DataBase(us, j)) == Wrap(site + 8 * |AllData(us, j)|)
  {
    hide Plus, Wrap, CodeBase, DataBase;
    BasesAreLengths(us, j);
    PlusWrapped(site, 8 * |AllCode(us, j)|);
    PlusWrapped(site, 8 * |AllData(us, j)|);
  }

  lemma {:induction false} PlusWrapped(a: Long, x: int)
    ensures Plus(a, Wrap(x)) == Wrap(a + x)
  {
    hide Wrap, Plus;
    WrapMinus(a, 0);
    WrapPlus(a, x);
  }

  lemma {:induction false} HomeValue(us: seq<Unit>, c: Combined, d: nat, i: nat, offset: Long)
    requires us != [] && d < |us| && i < |us[d].symbols| && IsDefined(us[d].symbols[i].kind) && WholeHeaders(us)
    requires c.code == AllCode(us, |us|)
    ensures var s := LinkSymbols.Rebased(us, d, i);
      && s.kind == us[d].symbols[i].kind
      && Plus(Plus(s.address, offset), if s.kind == CODE then us[0].metaBytes else Wrap(us[0].metaBytes + 8 * |c.code|))
         == Wrap(Home(us, d, i) + offset)
  {
    hide Wrap, Plus, CodeBase, DataBase;
    var s, meta := us[d].symbols[i], us[0].metaBytes;
    BasesAreLengths(us, d);
    if s.kind == CODE {
      FourTerms(s.address, 8 * |AllCode(us, d)|, offset, meta, meta + 8 * |AllCode(us, d)| + s.address);
    } else {
      FourTerms(s.address, 8 * |AllData(us, d)|, offset, meta + 8 * |c.code|, meta + 8 * |c.code| + 8 * |AllData(us, d)| + s.address);
    }
    WrapMinus(meta, 0);
  }

  lemma {:induction false} FourTerms(address: Long, base: int, offset: Long, section: int, sum: int)
    requires sum == section + base + address
    ensures Plus(Plus(Plus(address, Wrap(base)), offset), Wrap(section)) == Wrap(Wrap(sum) + offset)
  {
    hide Wrap;
    PlusWrapped(address, base);
    WrapMinus(offset, 0);
    WrapPlus(address + base, offset);
    WrapPlus(address + base + offset, section);
    WrapPlus(sum, offset);
  }

  /** A reference to a label no unit defines is left alone. */
  lemma {:induction false} UndefinedIsSkipped(us: seq<Unit>, c: Combined, hash: Hash, j: nat, t: nat, k: Label)
    requires Linkable(us, c, hash) && Refers(us, j, t, k)
    requires forall d: nat, i: nat :: !Defines(us, d, i, k)
    ensures Position(us, j, t) < |c.relocs|
    ensures var m, context := c.relocs[Position(us, j, t)], PassContext(us[0].meta, c, hash);
      Resolve(m, context).Ok? && EffectOf(Resolve(m, context).value, context) == Ok(Skip)
  {
    hide Complete, Sound, Closable, CombinedAfter, MainFirst, FinalSymbols, EndedIndices, RelocsAfter, Agree, Pointing, AllDistinct, Defines;
    ReferenceResolves(us, c, hash, j, t, k);
    LinkableParts(us, c, hash);
    AgreePoints(c.symbols, c.indices);
    if !IsUnknown(c.symbols[c.indices[k]].kind) {
      var d, i := SoundAt(us, |us|, c.symbols, c.indices, k);
      assert false;
    }
  }

  /** The main unit's own reference to `.end` is left alone exactly when its table does not define `.end`. */
  lemma {:induction false} EndReference(us: seq<Unit>, c: Combined, hash: Hash, t: nat)
    requires Linkable(us, c, hash) && t < |us[0].relocs| && 0 <= us[0].relocs[t].index < |us[0].symbols|
    requires us[0].symbols[us[0].relocs[t].index].name == END
    ensures Position(us, 0, t) < |c.relocs|
    ensures var m, context := c.relocs[Position(us, 0, t)], PassContext(us[0].meta, c, hash);
      && m == us[0].relocs[t] && Resolve(m, context).Ok? && Resolve(m, context).value.name == Some(END)
      && (EffectOf(Resolve(m, context).value, context) == Ok(Skip) <==> IsUnknown(us[0].symbols[m.index].kind))
  {
    LinkableParts(us, c, hash);
    EndFound(us, c, hash, us[0].relocs[t].index);
    hide *;
    MainPlace(us, t);
    UnnamedRelocation(us, c, hash, t);
    SkipStep(us[0].relocs[t], PassContext(us[0].meta, c, hash));
  }

  lemma {:induction false} MainPlace(us: seq<Unit>, t: nat)
    requires us != [] && t < |us[0].relocs| && AllNamed(us, |us|)
    ensures Position(us, 0, t) == t < |RelocsAfter(us, |us|)| && RelocsAfter(us, |us|)[t] == us[0].relocs[t]
  {
    hide RelocsAfter, AllNamed, MoveReloc, RelocNamed;
    RelocPlace(us, |us|, 0, t);
    RelocCount(us, |us|);
  }

  lemma {:induction false} UnnamedRelocation(us: seq<Unit>, c: Combined, hash: Hash, t: nat)
    requires Linkable(us, c, hash) && t < |us[0].relocs|
    ensures us[0].relocs[t].name.None? && Pointing(c.symbols, c.indices)
  { hide CombinedAfter, Closable; LinkableCode(us, c, hash); }

  // The pass's entry for the main unit's `.end`.
  lemma {:induction false} EndFound(us: seq<Unit>, c: Combined, hash: Hash, q: nat)
    requires Linkable(us, c, hash) && q < |us[0].symbols| && us[0].symbols[q].name == END
    ensures Pointing(c.symbols, c.indices)
    ensures var symbols := PassContext(us[0].meta, c, hash).symbols;
      q < |symbols| && symbols[q].name == END && symbols[q].kind == us[0].symbols[q].kind
  {
    LinkableParts(us, c, hash);
    LinkableComes(us, c, hash);
    hide Linkable, FinalSymbols, AllCome, Complete, Sound, Distinct, RelocsAfter;
    AgreePoints(c.symbols, c.indices);
    assert c.symbols[q].name == END;
    EndComes(us, |us|, c.symbols, q, q);
    FinalKind(us[0].meta, c, hash, q);
    FinalName(us[0].meta, c, hash, q);
  }

  // A relocation that carries its index alone is skipped exactly when the symbol there has no type.
  lemma {:induction false} SkipStep(m: R.Entry, context: Context)
    requires m.name.None? && 0 <= m.index < |context.symbols|
    ensures Resolve(m, context).Ok? && Resolve(m, context).value.name == Some(context.symbols[m.index].name)
    ensures EffectOf(Resolve(m, context).value, context) == Ok(Skip) <==> IsUnknown(context.symbols[m.index].kind)
  { hide Plus; }

  lemma {:induction false} FinalName(meta: seq<Long>, c: Combined, hash: Hash, q: nat)
    requires Pointing(c.symbols, c.indices) && q < |c.symbols|
    ensures q < |FinalSymbols(meta, c, hash)| && FinalSymbols(meta, c, hash)[q].name == c.symbols[q].name
  { hide FinalSymbols; }

  lemma {:induction false} LinkableComes(us: seq<Unit>, c: Combined, hash: Hash)
    requires Linkable(us, c, hash)
    ensures AllCome(us, |us|, c.symbols) && us != [] && Distinct(us[0].symbols)
  { hide Complete, Sound, Closable, MainFirst, AllCome; }

  /** Relocating a linked image once more changes neither its relocations nor its code and data. */
  lemma {:induction false} SecondPass(us: seq<Unit>, c: Combined, hash: Hash)
    requires Linkable(us, c, hash) && |c.symbols| + 1 < R.INDEX_SPAN / 2
    ensures Pointing(c.symbols, c.indices)
    ensures var context, rs, s := PassContext(us[0].meta, c, hash), FinalRelocs(us[0].meta, c, hash), PatchedSections(us[0].meta, c, hash);
      && Relocatable(rs, context, |s.code|, |s.data|) && Resolved(rs, context, |s.code|, |s.data|) == rs
      && ApplyEffects(Effects(rs, context, |s.code|, |s.data|), s) == s
  {
    LinkableParts(us, c, hash);
    LinkableCode(us, c, hash);
    FinalAgrees(us[0].meta, c, hash);
    EndedSize(c, hash);
    hide Linkable, FinalSymbols, EndedIndices, Agree, Relocatable, Resolved, Effects, ApplyEffects, Complete, Sound, MainFirst;
    PassIdempotent(c.relocs, PassContext(us[0].meta, c, hash), Sections(c.code, c.data));
  }

  lemma {:induction false} EndedSize(c: Combined, hash: Hash)
    ensures |EndedSymbols(c, hash)| <= |c.symbols| + 1
  {}

  // ----- the bytes of the image -----

  predicate SiteCovers(e: R.Entry, isData: bool, p: nat)
  { e.isData == isData && e.site <= p < e.site + R.Width(e.kind) }

  // Entry n's site is not touched by any later entry.
  predicate Unspoiled(rs: seq<R.Entry>, n: nat)
    requires n < |rs|
  { forall q :: n < q < |rs| ==> !Overlap(rs[n], rs[q]) }

  predicate Overlap(a: R.Entry, b: R.Entry)
  { a.isData == b.isData && a.site < b.site + R.Width(b.kind) && b.site < a.site + R.Width(a.kind) }

  predicate Untouched(rs: seq<R.Entry>, isData: bool, p: nat)
  { forall q :: 0 <= q < |rs| ==> !SiteCovers(rs[q], isData, p) }

  lemma {:induction false} EffectSite(e: R.Entry, c: Context, isData: bool, p: nat)
    requires Resolve(e, c).Ok? && EffectOf(Resolve(e, c).value, c).Ok?
    ensures Covers(EffectOf(Resolve(e, c).value, c).value, isData, p) ==> SiteCovers(e, isData, p)
  { hide ValueOf; }

  // A byte that no effect from position n on covers is decided by the effects before n.
  lemma {:induction false} LastCover(fs: seq<Effect>, n: nat, isData: bool, p: nat, original: Byte)
    requires n < |fs| && Covers(fs[n], isData, p)
    requires forall q :: n < q < |fs| ==> !Covers(fs[q], isData, p)
    ensures FinalByte(fs, isData, p, original) == ByteBy(fs[n], isData, p)
  {
    hide Covers, ByteBy;
    if |fs| - 1 > n { LastCover(fs[..|fs| - 1], n, isData, p, original); }
  }

  lemma {:induction false} NoCover(fs: seq<Effect>, isData: bool, p: nat, original: Byte)
    requires forall q :: 0 <= q < |fs| ==> !Covers(fs[q], isData, p)
    ensures FinalByte(fs, isData, p, original) == original
  {
    hide Covers, ByteBy;
    if fs != [] { NoCover(fs[..|fs| - 1], isData, p, original); }
  }

  // Patching as a whole, at the site of entry n and away from all sites.
  lemma {:induction false} PassAtSite(rs: seq<R.Entry>, c: Context, s: Sections, n: nat, p: nat)
    requires Relocatable(rs, c, |s.code|, |s.data|) && n < |rs| && Unspoiled(rs, n)
    requires EntryOk(rs[n], c, |s.code|, |s.data|)
    requires var f := EffectOf(Resolve(rs[n], c).value, c).value; f.Patch? && Covers(f, f.isData, p)
    ensures var f := EffectOf(Resolve(rs[n], c).value, c).value;
      var after := SectionBytes(ApplyEffects(Effects(rs, c, |s.code|, |s.data|), s), f.isData);
      p < |after| && after[p] == ByteBy(f, f.isData, p)
  {
    hide Resolve, EffectOf, ByteBy, ApplyEffects, Flatten, SiteCovers, R.SiteInside;
    var f := EffectOf(Resolve(rs[n], c).value, c).value;
    var fs := Effects(rs, c, |s.code|, |s.data|);
    EffectSite(rs[n], c, f.isData, p);
    CoveredInside(f, s, p);
    forall q | n < q < |fs| ensures !Covers(fs[q], f.isData, p) {
      assert EntryOk(rs[q], c, |s.code|, |s.data|);
      EffectSite(rs[q], c, f.isData, p);
      if SiteCovers(rs[q], f.isData, p) { BothCover(rs[n], rs[q], f.isData, p); }
    }
    PassBytes(fs, s, f.isData, p);
    LastCover(fs, n, f.isData, p, SectionBytes(s, f.isData)[p]);
  }

  lemma {:induction false} BothCover(a: R.Entry, b: R.Entry, isData: bool, p: nat)
    requires SiteCovers(a, isData, p) && SiteCovers(b, isData, p)
    ensures Overlap(a, b)
  {}

  lemma {:induction false} CoveredInside(f: Effect, s: Sections, p: nat)
    requires Applicable(f, |s.code|, |s.data|) && f.Patch? && Covers(f, f.isData, p)
    ensures p < |SectionBytes(s, f.isData)|
  { R.SiteFits(if f.isData then |s.data| else |s.code|, f.site, f.kind); }

  lemma {:induction false} PassElsewhere(rs: seq<R.Entry>, c: Context, s: Sections, isData: bool, p: nat)
    requires Relocatable(rs, c, |s.code|, |s.data|) && Untouched(rs, isData, p) && p < |SectionBytes(s, isData)|
    ensures var after := SectionBytes(ApplyEffects(Effects(rs, c, |s.code|, |s.data|), s), isData);
      p < |after| && after[p] == SectionBytes(s, isData)[p]
  {
    hide Resolve, EffectOf, ByteBy, ApplyEffects, Flatten, SiteCovers, Applicable, Covers;
    var fs := Effects(rs, c, |s.code|, |s.data|);
    forall q | 0 <= q < |fs| ensures !Covers(fs[q], isData, p) {
      assert EntryOk(rs[q], c, |s.code|, |s.data|);
      EffectSite(rs[q], c, isData, p);
    }
    PassBytes(fs, s, isData, p);
    NoCover(fs, isData, p, SectionBytes(s, isData)[p]);
  }

  // The first byte of a section in the image.
  function SectionAt(us: seq<Unit>, isData: bool): nat
    requires us != []
  { 8 * (|us[0].meta| + if isData then |AllCode(us, |us|)| else 0) }

  // The image's code and data are the patched sections, where the header puts them.
  lemma {:induction false} ImageBytes(us: seq<Unit>, c: Combined, hash: Hash, isData: bool, p: nat)
    requires Linkable(us, c, hash)
    requires var s := PatchedSections(us[0].meta, c, hash); p < |SectionBytes(s, isData)|
    ensures var image, s := Flatten(Joined(PiecesOf(us[0].meta, c, hash))), PatchedSections(us[0].meta, c, hash);
      SectionAt(us, isData) + p < |image| && image[SectionAt(us, isData) + p] == SectionBytes(s, isData)[p]
  {
    hide CombinedAfter, Closable, EncodeTable, R.EncodeAll, FinalSymbols, FinalRelocs, AllDistinct, Joined, Flatten, Header,
      Linkable, Pointing, PatchedSections, AllCode;
    LinkableCode(us, c, hash);
    PiecesBytes(PiecesOf(us[0].meta, c, hash), isData, p);
  }

  lemma {:induction false} PiecesBytes(q: Pieces, isData: bool, p: nat)
    requires p < |SectionBytes(Sections(q.code, q.data), isData)|
    ensures var image, at := Flatten(Joined(q)), 8 * (|q.meta| + if isData then |q.code| else 0) + p;
      at < |image| && image[at] == SectionBytes(Sections(q.code, q.data), isData)[p]
  {
    hide Joined, Flatten, Start;
    JoinedSlices(q);
    StartsAdd(q);
    var from := if isData then Start(q, 2) else Start(q, 1);
    var to := if isData then Start(q, 3) else Start(q, 2);
    FlattenSlice(Joined(q), from, to);
    assert Flatten(Joined(q))[8 * from..8 * to][p] == Flatten(Joined(q))[8 * from + p];
  }

  /** Every reference to a label that some unit places in code or data points where it should in the image: its own
      site, moved with its section, holds the bytes of that definition's final address plus the addend, unless a
      later relocation overlaps the site. */
  lemma {:induction false} ReferencesPointHome(us: seq<Unit>, c: Combined, hash: Hash, j: nat, t: nat, k: Label, d: nat, i: nat)
    requires Linkable(us, c, hash) && WholeHeaders(us) && us[0].meta[0] == us[0].metaBytes
    requires Refers(us, j, t, k) && Places(us, d, i, k)
    requires Position(us, j, t) < |c.relocs| ==> Unspoiled(c.relocs, Position(us, j, t))
    ensures Position(us, j, t) < |c.relocs|
    ensures var e, m := us[j].relocs[t], c.relocs[Position(us, j, t)];
      var image, at := Flatten(Joined(PiecesOf(us[0].meta, c, hash))), SectionAt(us, e.isData) + m.site;
      && e.kind != R.INVALID && at + R.Width(e.kind) <= |image|
      && image[at..at + R.Width(e.kind)] == R.PatchBytes(e.kind, Wrap(Home(us, d, i) + e.offset))
      && R.Shows(image, at, e.kind, Wrap(Home(us, d, i) + e.offset))
      && m.site == if j == 0 then e.site else Wrap(e.site + if e.isData then 8 * |AllData(us, j)| else 8 * |AllCode(us, j)|)
  {
    hide CombinedAfter, Linkable, Closable, Joined, Flatten, PiecesOf, Home, Wrap, AllData, AllCode, PatchedSections, SectionAt,
      R.PatchBytes, R.Shows, Pointing, AllDistinct, Resolve, EffectOf, RelocStart;
    LinkableCode(us, c, hash);
    ReferenceValue(us, c, hash, j, t, k, d, i);
    var n, context := Position(us, j, t), PassContext(us[0].meta, c, hash);
    var f := EffectOf(Resolve(c.relocs[n], context).value, context).value;
    forall x: nat | x < R.Width(f.kind) ensures Shows(Flatten(Joined(PiecesOf(us[0].meta, c, hash))), SectionAt(us, f.isData), f, x) {
      SiteByte(us, c, hash, n, x);
    }
    ShowsAll(Flatten(Joined(PiecesOf(us[0].meta, c, hash))), SectionAt(us, f.isData), f);
    R.PatchShows(Flatten(Joined(PiecesOf(us[0].meta, c, hash))), SectionAt(us, f.isData) + f.site, f.kind, f.value);
  }

  // Byte x of a patch stands in the image.
  predicate Shows(image: seq<Byte>, start: nat, f: Effect, x: nat)
  {
    f.Patch? && f.kind != R.INVALID && x < R.Width(f.kind)
    && start + f.site + x < |image| && image[start + f.site + x] == R.PatchBytes(f.kind, f.value)[x]
  }

  lemma {:induction false} ShowsAll(image: seq<Byte>, start: nat, f: Effect)
    requires f.Patch? && forall x: nat :: x < R.Width(f.kind) ==> Shows(image, start, f, x)
    ensures var at := start + f.site;
      f.kind != R.INVALID && at + R.Width(f.kind) <= |image|
      && image[at..at + R.Width(f.kind)] == R.PatchBytes(f.kind, f.value)
  {
    hide R.PatchBytes;
    assert Shows(image, start, f, R.Width(f.kind) - 1);
    forall x: nat | x < R.Width(f.kind)
      ensures image[start + f.site..start + f.site + R.Width(f.kind)][x] == R.PatchBytes(f.kind, f.value)[x]
    { assert Shows(image, start, f, x); }
  }

  lemma {:induction false} SiteByte(us: seq<Unit>, c: Combined, hash: Hash, n: nat, x: nat)
    requires Linkable(us, c, hash) && n < |c.relocs| && Unspoiled(c.relocs, n)
    requires us != [] && |us[0].meta| >= 7 && Pointing(c.symbols, c.indices) && Closable(us[0].meta, c, hash)
    requires var context := PassContext(us[0].meta, c, hash);
      && Resolve(c.relocs[n], context).Ok? && EffectOf(Resolve(c.relocs[n], context).value, context).Ok?
      && var f := EffectOf(Resolve(c.relocs[n], context).value, context).value; f.Patch? && x < R.Width(f.kind)
    ensures var context := PassContext(us[0].meta, c, hash);
      var f := EffectOf(Resolve(c.relocs[n], context).value, context).value;
      Shows(Flatten(Joined(PiecesOf(us[0].meta, c, hash))), SectionAt(us, f.isData), f, x)
  {
    hide CombinedAfter, Linkable, Joined, Flatten, PiecesOf, Wrap, R.PatchBytes, Pointing, AllDistinct, Resolve, EffectOf,
      ApplyEffects, Effects, SectionAt, DebugData.Writable, Labelled, Unspoiled, FinalSymbols, EndedIndices;
    var context := PassContext(us[0].meta, c, hash);
    assert EntryOk(c.relocs[n], context, |c.code|, |c.data|);
    var f := EffectOf(Resolve(c.relocs[n], context).value, context).value;
    assert Covers(f, f.isData, f.site + x);
    PassAtSite(c.relocs, context, Sections(c.code, c.data), n, f.site + x);
    ImageBytes(us, c, hash, f.isData, f.site + x);
  }

  /** Every byte of code and data outside the relocation sites is the plain concatenation of the units. */
  lemma {:induction false} ElsewhereIsConcatenation(us: seq<Unit>, c: Combined, hash: Hash, isData: bool, p: nat)
    requires Linkable(us, c, hash) && Untouched(c.relocs, isData, p)
    requires p < |Flatten(if isData then AllData(us, |us|) else AllCode(us, |us|))|
    ensures var image := Flatten(Joined(PiecesOf(us[0].meta, c, hash)));
      && SectionAt(us, isData) + p < |image|
      && image[SectionAt(us, isData) + p] == Flatten(if isData then AllData(us, |us|) else AllCode(us, |us|))[p]
  {
    hide CombinedAfter, Linkable, Joined, Flatten, PiecesOf, Pointing, ApplyEffects, Effects, SectionAt, DebugData.Writable, Labelled, AllCode, AllData,
      Untouched, Relocatable, FinalSymbols, EndedIndices;
    LinkableCode(us, c, hash);
    PassElsewhere(c.relocs, PassContext(us[0].meta, c, hash), Sections(c.code, c.data), isData, p);
    ImageBytes(us, c, hash, isData, p);
  }
}
