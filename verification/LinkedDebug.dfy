/** The debug section of a linked image in the machine that has loaded it. */
module LinkedDebug {
  import opened Words
  import opened DebugData
  import opened DebugMerge
  import opened BinaryParser
  import opened LinkModel
  import opened LinkImage
  import opened ImageLayout
  import opened LinkReferences
  import opened EndToEnd
  import opened VmDebug
  import opened SymbolTable
  import opened SymbolMerge
  import Machine
  import R = Relocation

  // ----- which linked sections load -----

  // Every unit's own section has its strings first and names only those.
  predicate UnitsResolve(us: seq<Unit>)
  { forall j: nat :: j < |us| ==> StringsFirst(us[j].debug) && Resolves(us[j].debug) }

  // Every place past the strings is some unit's location.
  lemma {:induction false} LocationFind(us: seq<Unit>, n: nat, p: nat) returns (j: nat, t: nat)
    requires n <= |us| && p < |AllLocations(us, n)|
    ensures j < n && t < |Locations(us[j].debug)| && p == |AllLocations(us, j)| + t
    decreases n
  {
    hide Locations, Move, Delta;
    if p < |AllLocations(us, n - 1)| { j, t := LocationFind(us, n - 1, p); } else { j, t := n - 1, p - |AllLocations(us, n - 1)|; }
  }

  // A unit's location in its own list.
  lemma {:induction false} OwnLocation(es: seq<DebugEntry>, t: nat)
    requires StringsFirst(es) && t < |Locations(es)|
    ensures |Strings(es)| + t < |es| && es[|Strings(es)| + t] == Locations(es)[t] && es[|Strings(es)| + t].Location?
  {
    hide Strings, Locations;
    assert (Strings(es) + Locations(es))[|Strings(es)| + t] == Locations(es)[t];
  }

  lemma {:induction false} OwnTexts(es: seq<DebugEntry>, t: nat)
    requires StringsFirst(es) && Resolves(es) && t < |Locations(es)| && Locations(es)[t].count > 0
    ensures var e := Locations(es)[t];
      e.file < |es| && es[e.file].Filename? && e.func < |es| && es[e.func].FunctionName?
  {
    hide Strings, Locations, StringsFirst;
    OwnLocation(es, t);
    assert ResolvesAt(es, |Strings(es)| + t);
  }

  // What merging did to a location's two names.
  lemma {:induction false} NamesMoved(us: seq<Unit>, j: nat, t: nat)
    requires j < |us| && StringsFirst(us[0].debug) && StringsFirst(us[j].debug) && Resolves(us[j].debug)
    requires WholeHeaders(us) && |AllStrings(us, |us|)| <= TWO32
    requires t < |Locations(us[j].debug)| && Locations(us[j].debug)[t].count > 0
    ensures var all, k := DebugAfter(us, |us|), |AllStrings(us, |us|)| + |AllLocations(us, j)| + t;
      var own, e := us[j].debug, Locations(us[j].debug)[t];
      && k < |all| && all[k].Location? && e.file < |own| && e.func < |own| && IsString(own[e.file]) && IsString(own[e.func])
      && all[k].file < |AllStrings(us, |us|)| && all[all[k].file] == own[e.file] && own[e.file].Filename?
      && all[k].func < |AllStrings(us, |us|)| && all[all[k].func] == own[e.func] && own[e.func].FunctionName?
      && all[k].line == e.line && all[k].column == e.column && all[k].count == e.count
      && SameInstruction(us, j, e.address, all[k].address)
  {
    hide Strings, Locations, DebugAfter, AllLocations, AllStrings, SameInstruction, Resolves, WholeHeaders;
    DebugMeaning(us, j, t);
    OwnTexts(us[j].debug, t);
    var all, k := DebugAfter(us, |us|), |AllStrings(us, |us|)| + |AllLocations(us, j)| + t;
    DebugIsSorted(us, |us|);
    hide StringsFirst;
    StringsAreFirst(all, all[k].file);
    StringsAreFirst(all, all[k].func);
  }

  /** If every unit's debug section would load by itself, the linked one loads. */
  lemma {:induction false} LinkedDebugLoads(us: seq<Unit>)
    requires us != [] && UnitsResolve(us) && WholeHeaders(us) && |AllStrings(us, |us|)| <= TWO32
    ensures Load(DebugAfter(us, |us|)).Ok?
  {
    hide Strings, Locations, DebugAfter, AllLocations, AllStrings, SameInstruction, Resolves, WholeHeaders, Load, StringsFirst;
    var all, n := DebugAfter(us, |us|), |AllStrings(us, |us|)|;
    DebugShape(us);
    forall k | 0 <= k < |all| ensures ResolvesAt(all, k) {
      if n <= k && all[k].Location? && all[k].count > 0 {
        var j, t := LocationFind(us, |us|, k - n);
        CountKept(us, j, t);
        NamesMoved(us, j, t);
      }
    }
    assert Resolves(all) by { AllResolve(all); }
    LoadMeaning(all);
  }

  lemma {:induction false} AllResolve(es: seq<DebugEntry>)
    requires forall k :: 0 <= k < |es| ==> ResolvesAt(es, k)
    ensures Resolves(es)
  { hide ResolvesAt; }

  lemma {:induction false} DebugShape(us: seq<Unit>)
    requires us != [] && UnitsResolve(us)
    ensures StringsFirst(us[0].debug)
    ensures var all, n := DebugAfter(us, |us|), |AllStrings(us, |us|)|;
      |all| == n + |AllLocations(us, |us|)| && forall k :: 0 <= k < n ==> IsString(all[k])
  {
    hide Resolves, DebugAfter, AllLocations, AllStrings, Strings, Locations;
    assert StringsFirst(us[0].debug);
    DebugIsSorted(us, |us|);
    var all, s, l := DebugAfter(us, |us|), AllStrings(us, |us|), AllLocations(us, |us|);
    forall k | 0 <= k < |s| ensures IsString(all[k]) { assert all[k] == (s + l)[k] == Strings(all)[k]; }
  }

  lemma {:induction false} CountKept(us: seq<Unit>, j: nat, t: nat)
    requires j < |us| && UnitsResolve(us) && WholeHeaders(us) && |AllStrings(us, |us|)| <= TWO32
    requires t < |Locations(us[j].debug)|
    ensures var all, k := DebugAfter(us, |us|), |AllStrings(us, |us|)| + |AllLocations(us, j)| + t;
      k < |all| && all[k].Location? && all[k].count == Locations(us[j].debug)[t].count
  {
    hide Strings, Locations, DebugAfter, AllLocations, AllStrings, SameInstruction, Resolves, WholeHeaders, StringsFirst;
    assert StringsFirst(us[0].debug) && StringsFirst(us[j].debug);
    DebugMeaning(us, j, t);
  }

  // ----- in the machine -----

  lemma {:induction false} ImageHead(us: seq<Unit>, c: Combined, hash: Hash, k: nat)
    requires Linkable(us, c, hash) && k < 6
    ensures us != [] && k < |ImageOf(us, c, hash)|
    ensures ImageOf(us, c, hash)[k] == PiecesOf(us[0].meta, c, hash).meta[k]
  {
    LinkableCode(us, c, hash);
    hide Linkable, Closable, PatchedSections, FinalRelocs, FinalSymbols, EncodeTable, EncodeDebug, R.EncodeAll, Wrap, Pointing;
  }

  // Header word k.
  lemma {:induction false} HeaderWord(us: seq<Unit>, c: Combined, hash: Hash, memory: seq<Byte>, k: nat)
    requires Holds(us, c, hash, memory) && k < 6
    ensures Machine.Inside(memory, 8 * k, Machine.Whole)
    ensures Machine.Get(memory, 8 * k, Machine.Whole) == PiecesOf(us[0].meta, c, hash).meta[k]
  {
    hide Linkable, PiecesOf, Flatten, Closable, ImageOf;
    HoldsParts(us, c, hash, memory);
    ImageHead(us, c, hash, k);
    var image := ImageOf(us, c, hash);
    assert memory[..|Flatten(image)|] == memory[0..|Flatten(image)|];
    FlattenWord(image, k);
    Fits8(image[k]);
    SliceSlice(memory, 0, |Flatten(image)|, 8 * k, 8 * k + 8);
    SplitInjective(Machine.Get(memory, 8 * k, Machine.Whole), image[k], 8);
  }

  // A link whose main header counts whole words and whose image is addressable.
  ghost predicate Placed(us: seq<Unit>, c: Combined, hash: Hash)
  {
    Linkable(us, c, hash) && WholeHeaders(us) && us[0].meta[0] == us[0].metaBytes && Addressable(PiecesOf(us[0].meta, c, hash))
  }

  lemma {:induction false} DebugPlace(us: seq<Unit>, c: Combined, hash: Hash)
    requires Placed(us, c, hash)
    ensures us != [] && Pointing(c.symbols, c.indices) && |us[0].meta| >= 7 && Closable(us[0].meta, c, hash) && Writable(c.debug)
    ensures var p := PiecesOf(us[0].meta, c, hash); var image := ImageOf(us, c, hash); var ws := EncodeDebug(c.debug);
      && |p.meta| >= 7 && p.meta[3] % 8 == 0 && p.meta[4] == p.meta[3] + 8 * |ws| && p.meta[4] <= 8 * |image|
      && image[p.meta[3] / 8..p.meta[4] / 8] == ws
  {
    LinkableCode(us, c, hash);
    assert WholeHeader(us[0]);
    PiecesHeaded(us[0].meta, c, hash);
    hide Linkable, Closable, PatchedSections, FinalRelocs, FinalSymbols, EncodeTable, EncodeDebug, R.EncodeAll, Wrap, Pointing,
      Joined, Headed, Writable;
    var p := PiecesOf(us[0].meta, c, hash);
    PrefixSums(p);
    ImageSections(p);
    StartsAdd(p);
  }

  /** What the machine decodes between its header's debug and relocation offsets is the combined list exactly when the
      format's three-byte fields can hold that list. */
  lemma {:induction false} DebugInMemory(us: seq<Unit>, c: Combined, hash: Hash, memory: seq<Byte>)
    requires Placed(us, c, hash) && Holds(us, c, hash, memory)
    ensures Machine.Inside(memory, 24, Machine.Whole) && Machine.Inside(memory, 32, Machine.Whole)
    ensures var section := ReadDebug(memory, Machine.Get(memory, 24, Machine.Whole), Machine.Get(memory, 32, Machine.Whole));
      section.Ok? && (section.value == c.debug <==> AllInRange(c.debug))
  {
    hide Placed, Linkable, ImageOf, Holds, PiecesOf, Closable, Flatten, EncodeDebug, ReadDebug, AllInRange, Writable, Pointing;
    HoldsParts(us, c, hash, memory);
    DebugPlace(us, c, hash);
    HeaderWord(us, c, hash, memory, 3);
    HeaderWord(us, c, hash, memory, 4);
    var image, p, q := ImageOf(us, c, hash), PiecesOf(us[0].meta, c, hash).meta[3], PiecesOf(us[0].meta, c, hash).meta[4];
    FlattenSlice(image, p / 8, q / 8);
    assert memory[..|Flatten(image)|] == memory[0..|Flatten(image)|];
    SliceSlice(memory, 0, |Flatten(image)|, p, q);
    DebugRoundTrip(memory, p, c.debug);
  }

  lemma {:induction false} CombinedDebug(us: seq<Unit>, c: Combined, hash: Hash)
    requires Linkable(us, c, hash)
    ensures us != [] && c.debug == DebugAfter(us, |us|)
  { hide DebugAfter, Closable; LinkableCode(us, c, hash); }

  // The location of unit j that describes an instruction of its own covers that instruction where the link has put it.
  lemma {:induction false} LinkedCover(us: seq<Unit>, j: nat, t: nat, i: nat, m: nat)
    requires j < |us| && UnitsResolve(us) && WholeHeaders(us) && |AllStrings(us, |us|)| <= TWO32
    requires t < |Locations(us[j].debug)| && i < |us[j].code|
    requires var e := Locations(us[j].debug)[t]; m < e.count && e.address == us[j].metaBytes + 8 * i && e.address != 0
    ensures var all, k := DebugAfter(us, |us|), |AllStrings(us, |us|)| + |AllLocations(us, j)| + t;
      k < |all| && Covers(all[k], Wrap(us[0].metaBytes + 8 * (|AllCode(us, j)| + i) + 8 * m))
  {
    hide Strings, Locations, DebugAfter, AllLocations, AllStrings, Resolves, WholeHeaders, StringsFirst, Wrap, AllCode;
    assert StringsFirst(us[0].debug) && StringsFirst(us[j].debug) && Resolves(us[j].debug);
    NamesMoved(us, j, t);
    var all, k := DebugAfter(us, |us|), |AllStrings(us, |us|)| + |AllLocations(us, j)| + t;
    NthWrapped(all[k], us[0].metaBytes + 8 * (|AllCode(us, j)| + i), m);
  }

  lemma {:induction false} NthWrapped(e: DebugEntry, x: int, m: nat)
    requires e.Location? && e.address == Wrap(x)
    ensures Nth(e, m) == Wrap(x + 8 * m)
  {}

  /** The whole chain: in the machine that has loaded the linked image, the line of an address is the first location that
      covers it, with the texts that location named in its own unit. */
  lemma {:induction false} LinkedLines(us: seq<Unit>, c: Combined, hash: Hash, memory: seq<Byte>, j: nat, t: nat, a: Long)
    requires Placed(us, c, hash) && Holds(us, c, hash, memory) && AllInRange(c.debug)
    requires UnitsResolve(us) && |AllStrings(us, |us|)| <= TWO32 && j < |us| && t < |Locations(us[j].debug)|
    requires FirstCover(c.debug, a, |AllStrings(us, |us|)| + |AllLocations(us, j)| + t)
    ensures Machine.Inside(memory, 24, Machine.Whole) && Machine.Inside(memory, 32, Machine.Whole)
    ensures var section := ReadDebug(memory, Machine.Get(memory, 24, Machine.Whole), Machine.Get(memory, 32, Machine.Whole));
      section.Ok? && LineFrom(Load(section.value), us[j].debug, Locations(us[j].debug)[t], a)
  {
    hide Placed, Linkable, ImageOf, Holds, ReadDebug, AllInRange, Strings, Locations, DebugAfter, AllLocations, AllStrings, Resolves, Load,
      WholeHeaders, StringsFirst, Covers;
    HoldsParts(us, c, hash, memory);
    DebugInMemory(us, c, hash, memory);
    CombinedDebug(us, c, hash);
    LinkedDebugLoads(us);
    LineLoaded(us, j, t, a);
  }

  // The loaded line for a is the location's, with the texts it names in its own list.
  predicate LineFrom(r: Result<Tables>, own: seq<DebugEntry>, e: DebugEntry, a: Long)
  {
    && r.Ok? && a in r.value.lines && e.Location? && e.file < |own| && e.func < |own| && IsString(own[e.file]) && IsString(own[e.func])
    && r.value.lines[a] == DebugLine(own[e.file].text, own[e.func].text, e.line, e.column, e.count, a)
  }

  lemma {:induction false} LineLoaded(us: seq<Unit>, j: nat, t: nat, a: Long)
    requires us != [] && UnitsResolve(us) && WholeHeaders(us) && |AllStrings(us, |us|)| <= TWO32
    requires j < |us| && t < |Locations(us[j].debug)| && Load(DebugAfter(us, |us|)).Ok?
    requires FirstCover(DebugAfter(us, |us|), a, |AllStrings(us, |us|)| + |AllLocations(us, j)| + t)
    ensures LineFrom(Load(DebugAfter(us, |us|)), us[j].debug, Locations(us[j].debug)[t], a)
  {
    hide Strings, Locations, DebugAfter, AllLocations, AllStrings, Resolves, Load, WholeHeaders, StringsFirst;
    var all, k := DebugAfter(us, |us|), |AllStrings(us, |us|)| + |AllLocations(us, j)| + t;
    assert StringsFirst(us[0].debug) && StringsFirst(us[j].debug) && Resolves(us[j].debug);
    CountKept(us, j, t);
    NamesMoved(us, j, t);
    LoadMeaning(all);
    var k' :| FirstCover(all, a, k') && Described(all, a, k', Load(all).value.lines[a]);
    assert k' == k;
  }
}
