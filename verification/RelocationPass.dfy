/** Linker::applyRelocation over a whole relocation list. */
module RelocationPass {
  import opened Words
  import opened SymbolTable
  import opened Relocation
  import opened SymbolMerge

  datatype Sections = Sections(code: seq<Long>, data: seq<Long>)

  // What the pass reads and never changes.
  datatype Context = Context(symbols: seq<SymbolEntry>, indices: map<Label, nat>, dataOffset: Long, codeOffset: Long)

  datatype Effect = Skip | Patch(isData: bool, site: Long, kind: PatchKind, value: Long)

  // Storing a table index in the signed 61-bit field.
  function ToIndex(n: nat): SymbolIndex
  { var m := n % INDEX_SPAN; if m < INDEX_SPAN / 2 then m else m - INDEX_SPAN }

  predicate Known(index: SymbolIndex, symbols: seq<SymbolEntry>) { 0 <= index < |symbols| }

  // An entry without a label takes it from its index; one with a label takes its index from it.
  function Resolve(e: Entry, c: Context): Result<Entry>
  {
    if e.name.None? then
      if e.index == -1 then Ok(e)
      else if Known(e.index, c.symbols) then Ok(e.(name := Some(c.symbols[e.index].name)))
      else Err(OutOfRange)
    else if e.name.value in c.indices then Ok(e.(index := ToIndex(c.indices[e.name.value])))
    else Err(OutOfRange)
  }

  function ValueOf(s: SymbolEntry, e: Entry, base: Long): Long { Plus(Plus(s.address, e.offset), base) }

  function EffectOf(e: Entry, c: Context): Result<Effect>
  {
    if e.index == -1 then Ok(Skip) else
    if !Known(e.index, c.symbols) then Err(OutOfRange) else
    var s := c.symbols[e.index];
    if s.kind == CODE then Ok(Patch(e.isData, e.site, e.kind, ValueOf(s, e, c.codeOffset)))
    else if s.kind == DATA then Ok(Patch(e.isData, e.site, e.kind, ValueOf(s, e, c.dataOffset)))
    else if IsUnknown(s.kind) then Ok(Skip)
    else Err(BadSymbolType)
  }

  predicate Applicable(f: Effect, code: nat, data: nat)
  { f.Patch? ==> f.kind != INVALID && SiteInside(if f.isData then data else code, f.site) }

  function ApplyEffect(f: Effect, s: Sections): (r: Sections)
    requires Applicable(f, |s.code|, |s.data|)
    ensures |r.code| == |s.code| && |r.data| == |s.data|
  {
    if f.Skip? then s
    else if f.isData then s.(data := Patched(s.data, f.site, f.kind, f.value))
    else s.(code := Patched(s.code, f.site, f.kind, f.value))
  }

  predicate AllApplicable(fs: seq<Effect>, code: nat, data: nat)
  { forall i :: 0 <= i < |fs| ==> Applicable(fs[i], code, data) }

  function ApplyEffects(fs: seq<Effect>, s: Sections): (r: Sections)
    requires AllApplicable(fs, |s.code|, |s.data|)
    ensures |r.code| == |s.code| && |r.data| == |s.data|
  {
    if fs == [] then s else
    var n := |fs| - 1;
    assert AllApplicable(fs[..n], |s.code|, |s.data|);
    ApplyEffect(fs[n], ApplyEffects(fs[..n], s))
  }

  // The pass goes through: every entry resolves, has a usable symbol type, and fits its section.
  predicate EntryOk(e: Entry, c: Context, code: nat, data: nat)
  {
    Resolve(e, c).Ok? && EffectOf(Resolve(e, c).value, c).Ok?
    && Applicable(EffectOf(Resolve(e, c).value, c).value, code, data)
  }

  predicate Relocatable(rs: seq<Entry>, c: Context, code: nat, data: nat)
  { forall i :: 0 <= i < |rs| ==> EntryOk(rs[i], c, code, data) }

  function Resolved(rs: seq<Entry>, c: Context, code: nat, data: nat): (r: seq<Entry>)
    requires Relocatable(rs, c, code, data)
    ensures |r| == |rs|
  { seq(|rs|, i requires 0 <= i < |rs| => assert EntryOk(rs[i], c, code, data); Resolve(rs[i], c).value) }

  function Effects(rs: seq<Entry>, c: Context, code: nat, data: nat): (r: seq<Effect>)
    requires Relocatable(rs, c, code, data)
    ensures |r| == |rs| && AllApplicable(r, code, data)
  {
    var fs := seq(|rs|, i requires 0 <= i < |rs| =>
      assert EntryOk(rs[i], c, code, data); EffectOf(Resolve(rs[i], c).value, c).value);
    assert forall i :: 0 <= i < |rs| ==> EntryOk(rs[i], c, code, data);
    fs
  }

  /** One entry: resolve it, then patch its section in place. */
  method ApplyEntry(e: Entry, c: Context, s: Sections) returns (r: Result<(Entry, Sections)>)
    ensures r.Ok? <==> EntryOk(e, c, |s.code|, |s.data|)
    ensures r.Ok? ==> r.value == (Resolve(e, c).value, ApplyEffect(EffectOf(Resolve(e, c).value, c).value, s))
  {
    hide SiteInside, Patched;
    var entry := e;
    if entry.name.None? {
      if entry.index != -1 {
        if !Known(entry.index, c.symbols) { return Err(OutOfRange); }
        entry := entry.(name := Some(c.symbols[entry.index].name));
      }
    } else {
      if entry.name.value !in c.indices { return Err(OutOfRange); }
      entry := entry.(index := ToIndex(c.indices[entry.name.value]));
    }
    if entry.index == -1 { return Ok((entry, s)); }
    if !Known(entry.index, c.symbols) { return Err(OutOfRange); }
    var symbol := c.symbols[entry.index];
    var value := Plus(symbol.address, entry.offset);
    if symbol.kind == CODE { value := Plus(value, c.codeOffset); }
    else if symbol.kind == DATA { value := Plus(value, c.dataOffset); }
    else if IsUnknown(symbol.kind) { return Ok((entry, s)); }
    else { return Err(BadSymbolType); }
    var longs := PatchSite(if entry.isData then s.data else s.code, entry.site, entry.kind, value);
    if longs.Err? { return Err(longs.error); }
    r := Ok((entry, if entry.isData then s.(data := longs.value) else s.(code := longs.value)));
  }

  lemma {:induction false} ApplyStep(rs: seq<Entry>, i: nat, c: Context, s: Sections)
    requires i < |rs|
    requires Relocatable(rs[..i + 1], c, |s.code|, |s.data|)
    ensures Relocatable(rs[..i], c, |s.code|, |s.data|) && EntryOk(rs[i], c, |s.code|, |s.data|)
    ensures var done := ApplyEffects(Effects(rs[..i], c, |s.code|, |s.data|), s);
      ApplyEffects(Effects(rs[..i + 1], c, |s.code|, |s.data|), s)
        == ApplyEffect(EffectOf(Resolve(rs[i], c).value, c).value, done)
    ensures Resolved(rs[..i + 1], c, |s.code|, |s.data|) == Resolved(rs[..i], c, |s.code|, |s.data|) + [Resolve(rs[i], c).value]
  {
    hide EntryOk, ApplyEffect, Applicable, Resolve, EffectOf;
    var n, m := |s.code|, |s.data|;
    assert EntryOk(rs[..i + 1][i], c, n, m);
    var shorter := rs[..i];
    forall j | 0 <= j < |shorter| ensures EntryOk(shorter[j], c, n, m) { assert EntryOk(rs[..i + 1][j], c, n, m); }
    assert Effects(rs[..i + 1], c, n, m)[..i] == Effects(rs[..i], c, n, m);
  }

  /** Linker::applyRelocation: goes through exactly when every entry is in order; then each entry is resolved and
      the sections are patched by the entries' effects in list order. */
  method ApplyRelocation(rs: seq<Entry>, c: Context, s0: Sections) returns (r: Result<(seq<Entry>, Sections)>)
    ensures r.Ok? <==> Relocatable(rs, c, |s0.code|, |s0.data|)
    ensures r.Ok? ==> r.value.0 == Resolved(rs, c, |s0.code|, |s0.data|)
    ensures r.Ok? ==> r.value.1 == ApplyEffects(Effects(rs, c, |s0.code|, |s0.data|), s0)
  {
    hide EntryOk, ApplyEffect, Applicable, Resolve, EffectOf, ApplyEffects, Resolved;
    var relocation, s := rs, s0;
    NoEffects(rs, c, s0);
    for i := 0 to |rs|
      invariant Relocatable(rs[..i], c, |s0.code|, |s0.data|)
      invariant |relocation| == |rs| && relocation[i..] == rs[i..]
      invariant relocation[..i] == Resolved(rs[..i], c, |s0.code|, |s0.data|)
      invariant s == ApplyEffects(Effects(rs[..i], c, |s0.code|, |s0.data|), s0)
      invariant |s.code| == |s0.code| && |s.data| == |s0.data|
    {
      assert relocation[i] == relocation[i..][0] == rs[i];
      var step := ApplyEntry(relocation[i], c, s);
      if step.Err? { return Err(step.error); }
      RelocatableNext(rs, i, c, |s0.code|, |s0.data|);
      ApplyStep(rs, i, c, s0);
      relocation := relocation[i := step.value.0];
      s := step.value.1;
      assert relocation[i + 1..] == rs[i..][1..];
    }
    assert rs[..|rs|] == rs && relocation[..|rs|] == relocation;
    r := Ok((relocation, s));
  }

  lemma {:induction false} NoEffects(rs: seq<Entry>, c: Context, s: Sections)
    ensures ApplyEffects(Effects(rs[..0], c, |s.code|, |s.data|), s) == s
    ensures Resolved(rs[..0], c, |s.code|, |s.data|) == []
  {}

  lemma {:induction false} RelocatableNext(rs: seq<Entry>, i: nat, c: Context, code: nat, data: nat)
    requires i < |rs| && Relocatable(rs[..i], c, code, data) && EntryOk(rs[i], c, code, data)
    ensures Relocatable(rs[..i + 1], c, code, data)
  {
    hide EntryOk;
    var longer := rs[..i + 1];
    forall j | 0 <= j < |longer| ensures EntryOk(longer[j], c, code, data) {
      if j < i { assert EntryOk(rs[..i][j], c, code, data); }
    }
  }

  // ----- the bytes after the pass -----

  predicate Covers(f: Effect, isData: bool, p: nat)
  { f.Patch? && f.kind != INVALID && f.isData == isData && f.site <= p < f.site + Width(f.kind) }

  function ByteBy(f: Effect, isData: bool, p: nat): Byte
    requires Covers(f, isData, p)
  { PatchBytes(f.kind, f.value)[p - f.site] }

  /** The last effect that covers a byte decides it; an uncovered byte keeps its value. */
  function FinalByte(fs: seq<Effect>, isData: bool, p: nat, original: Byte): Byte
  {
    if fs == [] then original
    else if Covers(fs[|fs| - 1], isData, p) then ByteBy(fs[|fs| - 1], isData, p)
    else FinalByte(fs[..|fs| - 1], isData, p, original)
  }

  function SectionBytes(s: Sections, isData: bool): seq<Byte>
  { Flatten(if isData then s.data else s.code) }

  lemma {:induction false} EffectByte(f: Effect, s: Sections, isData: bool, p: nat)
    requires Applicable(f, |s.code|, |s.data|) && p < |SectionBytes(s, isData)|
    ensures SectionBytes(ApplyEffect(f, s), isData)[p]
      == if Covers(f, isData, p) then ByteBy(f, isData, p) else SectionBytes(s, isData)[p]
  {
    hide Flatten, PatchBytes, Patched;
    if f.Patch? && f.isData == isData {
      var ws := if isData then s.data else s.code;
      SiteFits(|ws|, f.site, f.kind);
      assert Flatten(Patched(ws, f.site, f.kind, f.value)) == Splice(Flatten(ws), f.site, PatchBytes(f.kind, f.value));
    }
  }

  /** Word-by-word patching refines byte overwriting: after the whole pass each byte is the one the last covering
      relocation writes, and every other byte is untouched. */
  lemma {:induction false} PassBytes(fs: seq<Effect>, s: Sections, isData: bool, p: nat)
    requires AllApplicable(fs, |s.code|, |s.data|) && p < |SectionBytes(s, isData)|
    ensures SectionBytes(ApplyEffects(fs, s), isData)[p] == FinalByte(fs, isData, p, SectionBytes(s, isData)[p])
  {
    if fs != [] {
      hide Covers, ByteBy, Applicable, ApplyEffect, Flatten;
      var n := |fs| - 1;
      assert AllApplicable(fs[..n], |s.code|, |s.data|);
      PassBytes(fs[..n], s, isData, p);
      EffectByte(fs[n], ApplyEffects(fs[..n], s), isData, p);
    }
  }

  lemma {:induction false} FinalTwice(fs: seq<Effect>, isData: bool, p: nat, b: Byte)
    ensures FinalByte(fs, isData, p, FinalByte(fs, isData, p, b)) == FinalByte(fs, isData, p, b)
  {
    hide Covers, ByteBy;
    if fs != [] && !Covers(fs[|fs| - 1], isData, p) {
      FinalTwice(fs[..|fs| - 1], isData, p, b);
    } else if fs != [] {
      FinalAny(fs, isData, p, b, FinalByte(fs, isData, p, b));
    }
  }

  lemma {:induction false} FinalAny(fs: seq<Effect>, isData: bool, p: nat, a: Byte, b: Byte)
    requires fs != [] && Covers(fs[|fs| - 1], isData, p)
    ensures FinalByte(fs, isData, p, a) == FinalByte(fs, isData, p, b)
  {}

  lemma {:induction false} EffectsTwice(fs: seq<Effect>, s: Sections)
    requires AllApplicable(fs, |s.code|, |s.data|)
    ensures ApplyEffects(fs, ApplyEffects(fs, s)) == ApplyEffects(fs, s)
  {
    hide Covers, FinalByte, Applicable, ApplyEffects, Flatten;
    var t := ApplyEffects(fs, s);
    var u := ApplyEffects(fs, t);
    forall isData: bool ensures SectionBytes(u, isData) == SectionBytes(t, isData) {
      forall p | 0 <= p < |SectionBytes(s, isData)| ensures SectionBytes(u, isData)[p] == SectionBytes(t, isData)[p] {
        PassBytes(fs, s, isData, p);
        PassBytes(fs, t, isData, p);
        FinalTwice(fs, isData, p, SectionBytes(s, isData)[p]);
      }
    }
    assert SectionBytes(u, true) == SectionBytes(t, true);
    assert SectionBytes(u, false) == SectionBytes(t, false);
    FlattenInjective(u.data, t.data);
    FlattenInjective(u.code, t.code);
  }

  lemma {:induction false} ResolveTwice(e: Entry, c: Context)
    requires Agree(c.symbols, c.indices) && |c.symbols| < INDEX_SPAN / 2
    requires Resolve(e, c).Ok?
    ensures Resolve(Resolve(e, c).value, c) == Resolve(e, c)
  {}

  /** Running the pass a second time over its own output changes nothing, even when sites overlap. */
  lemma {:induction false} PassIdempotent(rs: seq<Entry>, c: Context, s: Sections)
    requires Agree(c.symbols, c.indices) && |c.symbols| < INDEX_SPAN / 2
    requires Relocatable(rs, c, |s.code|, |s.data|)
    ensures var n, m := |s.code|, |s.data|;
      var rs', s' := Resolved(rs, c, n, m), ApplyEffects(Effects(rs, c, n, m), s);
      && Relocatable(rs', c, n, m) && Resolved(rs', c, n, m) == rs'
      && ApplyEffects(Effects(rs', c, n, m), s') == s'
  {
    hide Resolve, EffectOf, Applicable, ApplyEffects, Agree;
    var n, m := |s.code|, |s.data|;
    var rs' := Resolved(rs, c, n, m);
    forall i | 0 <= i < |rs| ensures EntryOk(rs'[i], c, n, m) && Resolve(rs'[i], c) == Ok(rs'[i]) {
      assert EntryOk(rs[i], c, n, m);
      ResolveTwice(rs[i], c);
    }
    assert Resolved(rs', c, n, m) == rs';
    assert Effects(rs', c, n, m) == Effects(rs, c, n, m);
    EffectsTwice(Effects(rs, c, n, m), s);
  }
}
