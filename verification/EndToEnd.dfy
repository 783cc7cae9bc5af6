/** From separate units to a running machine: link, print, load. */
module EndToEnd {
  import opened Words
  import opened Longs
  import opened SymbolTable
  import opened BinaryParser
  import opened LinkModel
  import opened LinkImage
  import opened LinkReferences
  import opened Arithmetic
  import ObjectText
  import Machine
  import O = Operations
  import R = Relocation

  // The words link() writes.
  function ImageOf(us: seq<Unit>, c: Combined, hash: Hash): seq<Long>
    requires Linkable(us, c, hash)
  { Joined(PiecesOf(us[0].meta, c, hash)) }

  // The machine's memory once words, printed as text, have been loaded.
  function Loaded(ws: seq<Long>, size: nat): (memory: seq<Byte>)
    requires 8 * |ws| <= size
    ensures |memory| == size && Flatten(ws) <= memory
  {
    ObjectText.LoadPrinted(ws, size);
    ObjectText.LinesBytes(ObjectText.SplitLines(ObjectText.Text(ws))) + Repeat(0, size - 8 * |ws|)
  }

  /** Without paging, a machine whose memory starts with words, wherever they came from, executes at the address of
      the k-th exactly the operation that word decodes to. */
  lemma {:induction false} TickExecutesWord(v: O.Vm, ws: seq<Long>, k: nat, decode: Long -> Option<O.Operation>)
    requires !v.s.paging && k < |ws| && v.s.pc == 8 * k && Flatten(ws) <= v.s.mem && |v.s.mem| <= TWO63
    ensures O.Tick(v, decode) == match decode(ws[k])
      case Some(op) => O.Execute(v, op)
      case None => O.Outcome(v, true)
  {
    hide O.Execute, Flatten;
    FlattenWord(ws, k);
    SliceSlice(v.s.mem, 0, |Flatten(ws)|, 8 * k, 8 * k + 8);
    assert v.s.mem[0..|Flatten(ws)|] == Flatten(ws);
    var w := Machine.Get(v.s.mem, v.s.pc, Machine.Whole);
    Fits8(ws[k]);
    SplitInjective(w, ws[k], 8);
  }

  // Unit d's own code or data.
  function UnitSection(u: Unit, isData: bool): seq<Long> { if isData then u.data else u.code }

  function AllSection(us: seq<Unit>, n: nat, isData: bool): seq<Long>
    requires n <= |us|
  { if isData then AllData(us, n) else AllCode(us, n) }

  lemma {:induction false} SectionPlace(us: seq<Unit>, n: nat, d: nat, i: nat, isData: bool)
    requires d < n <= |us| && i < |UnitSection(us[d], isData)|
    ensures |AllSection(us, d, isData)| + i < |AllSection(us, n, isData)|
    ensures AllSection(us, n, isData)[|AllSection(us, d, isData)| + i] == UnitSection(us[d], isData)[i]
  { if isData { DataPlace(us, n, d, i); } else { CodePlace(us, n, d, i); } }

  // A byte of a unit's section, in the concatenation.
  lemma {:induction false} BytePlace(us: seq<Unit>, d: nat, a: nat, isData: bool)
    requires d < |us| && a < |Flatten(UnitSection(us[d], isData))|
    ensures 8 * |AllSection(us, d, isData)| + a < |Flatten(AllSection(us, |us|, isData))|
    ensures Flatten(AllSection(us, |us|, isData))[8 * |AllSection(us, d, isData)| + a] == Flatten(UnitSection(us[d], isData))[a]
  {
    hide AllSection, UnitSection;
    SectionPlace(us, |us|, d, a / 8, isData);
    ByteOfWord(AllSection(us, |us|, isData), |AllSection(us, d, isData)| + a / 8, a % 8);
    ByteOfWord(UnitSection(us[d], isData), a / 8, a % 8);
  }

  lemma {:induction false} ByteOfWord(ws: seq<Long>, i: nat, j: nat)
    requires i < |ws| && j < 8
    ensures 8 * i + j < |Flatten(ws)| && Flatten(ws)[8 * i + j] == ByteOf(ws[i], j)
  {}

  predicate IsData(us: seq<Unit>, d: nat, i: nat)
    requires d < |us| && i < |us[d].symbols|
  { us[d].symbols[i].kind == DATA }

  // Where in its section's concatenation a definition lies.
  function DefinedAt(us: seq<Unit>, d: nat, i: nat): nat
    requires d < |us| && i < |us[d].symbols|
  { 8 * |AllSection(us, d, IsData(us, d, i))| + us[d].symbols[i].address }

  // The definition lies inside its unit's section, at a byte no relocation is applied to.
  predicate Plain(us: seq<Unit>, relocs: seq<R.Entry>, d: nat, i: nat)
    requires d < |us| && i < |us[d].symbols|
  {
    us[d].symbols[i].address < |Flatten(UnitSection(us[d], IsData(us, d, i)))|
    && Untouched(relocs, IsData(us, d, i), DefinedAt(us, d, i))
  }

  // The byte a label names in its own unit.
  function DefinedByte(us: seq<Unit>, relocs: seq<R.Entry>, d: nat, i: nat): Byte
    requires d < |us| && i < |us[d].symbols| && Plain(us, relocs, d, i)
  { Flatten(UnitSection(us[d], IsData(us, d, i)))[us[d].symbols[i].address] }

  // Memory that starts with the linked image, and is addressable with non-negative words.
  ghost predicate Holds(us: seq<Unit>, c: Combined, hash: Hash, memory: seq<Byte>)
  { Linkable(us, c, hash) && WholeHeaders(us) && Flatten(ImageOf(us, c, hash)) <= memory && |memory| <= TWO63 }

  /** A machine that loads the linked image as link() prints it holds it. */
  lemma {:induction false} LoadedHolds(us: seq<Unit>, c: Combined, hash: Hash, size: nat)
    requires Linkable(us, c, hash) && WholeHeaders(us) && 8 * |ImageOf(us, c, hash)| <= size <= TWO63
    ensures Holds(us, c, hash, Loaded(ImageOf(us, c, hash), size))
  { hide Linkable, ImageOf, WholeHeaders; }

  lemma {:induction false} HoldsParts(us: seq<Unit>, c: Combined, hash: Hash, memory: seq<Byte>)
    requires Holds(us, c, hash, memory)
    ensures us != [] && Linkable(us, c, hash) && WholeHeaders(us) && |memory| <= TWO63
    ensures var image := Flatten(ImageOf(us, c, hash)); |image| <= |memory| && memory[..|image|] == image
  { hide Linkable, Flatten, ImageOf; NonEmpty(us, c, hash); }

  lemma {:induction false} NonEmpty(us: seq<Unit>, c: Combined, hash: Hash)
    requires Linkable(us, c, hash)
    ensures us != [] && us[0].meta != []
  {}

  /** In the loaded machine, the final address of a label is the address of the very byte it named in its own
      unit, if no relocation was applied there. */
  lemma {:induction false} HomeHoldsDefinition(us: seq<Unit>, c: Combined, hash: Hash, memory: seq<Byte>, d: nat, i: nat, k: Label)
    requires Holds(us, c, hash, memory) && Places(us, d, i, k) && Plain(us, c.relocs, d, i)
    ensures us != [] && Home(us, d, i) < |memory| && memory[Home(us, d, i)] == DefinedByte(us, c.relocs, d, i)
  {
    hide Holds, Linkable, Joined, PiecesOf, Flatten, Untouched, AllCode, AllData, Wrap, UnitSection;
    HoldsParts(us, c, hash, memory);
    var isData, p := IsData(us, d, i), DefinedAt(us, d, i);
    BytePlace(us, d, us[d].symbols[i].address, isData);
    ElsewhereIsConcatenation(us, c, hash, isData, p);
    var image := Flatten(ImageOf(us, c, hash));
    assert memory[SectionAt(us, isData) + p] == memory[..|image|][SectionAt(us, isData) + p];
    HomeIsPlace(us, |memory|, d, i);
  }

  lemma {:induction false} HomeIsPlace(us: seq<Unit>, size: nat, d: nat, i: nat)
    requires us != [] && WholeHeaders(us) && d < |us| && i < |us[d].symbols| && IsDefined(us[d].symbols[i].kind)
    requires SectionAt(us, IsData(us, d, i)) + DefinedAt(us, d, i) < size < TWO64
    ensures Home(us, d, i) == SectionAt(us, IsData(us, d, i)) + DefinedAt(us, d, i)
  {
    hide AllCode, AllData, Wrap;
    assert WholeHeader(us[0]);
    NoWrap(SectionAt(us, IsData(us, d, i)) + DefinedAt(us, d, i));
  }

  // A full-width reference without addend, overlapped by no later relocation.
  predicate FullReference(us: seq<Unit>, relocs: seq<R.Entry>, j: nat, t: nat, k: Label)
  {
    && Refers(us, j, t, k) && us[j].relocs[t].kind == R.FULL && us[j].relocs[t].offset == 0
    && Position(us, j, t) < |relocs| && Unspoiled(relocs, Position(us, j, t))
  }

  // Where the reference's word stands in memory.
  function SiteAt(us: seq<Unit>, relocs: seq<R.Entry>, j: nat, t: nat, k: Label): nat
    requires us != [] && FullReference(us, relocs, j, t, k)
  { SectionAt(us, us[j].relocs[t].isData) + relocs[Position(us, j, t)].site }

  /** The whole chain: in the loaded machine, the word read at the site of a full-width reference is the address of
      the byte its label named in the unit that defines it. */
  lemma {:induction false} ReferenceReachesDefinition(us: seq<Unit>, c: Combined, hash: Hash, memory: seq<Byte>,
      j: nat, t: nat, k: Label, d: nat, i: nat)
    requires Holds(us, c, hash, memory) && FullReference(us, c.relocs, j, t, k)
    requires Places(us, d, i, k) && Plain(us, c.relocs, d, i)
    requires us != [] && us[0].meta != [] && us[0].meta[0] == us[0].metaBytes
    ensures var site := SiteAt(us, c.relocs, j, t, k);
      && site < TWO63 && Machine.Inside(memory, site, Machine.Whole)
      && Machine.Get(memory, site, Machine.Whole) < |memory|
      && memory[Machine.Get(memory, site, Machine.Whole)] == DefinedByte(us, c.relocs, d, i)
  {
    hide Holds, Linkable, Joined, PiecesOf, Flatten, Untouched, Unspoiled, AllCode, AllData, Wrap, UnitSection, Home, SectionAt,
      Position, DefinedAt, IsData, Refers, Plain, DefinedByte, R.PatchBytes;
    HoldsParts(us, c, hash, memory);
    ReferencesPointHome(us, c, hash, j, t, k, d, i);
    HomeHoldsDefinition(us, c, hash, memory, d, i, k);
    var image := Flatten(ImageOf(us, c, hash));
    ReadHome(image, memory, SiteAt(us, c.relocs, j, t, k), Home(us, d, i));
  }

  lemma {:induction false} ReadHome(image: seq<Byte>, memory: seq<Byte>, site: nat, home: Long)
    requires |image| <= |memory| <= TWO63 && memory[..|image|] == image
    requires site + 8 <= |image| && image[site..site + 8] == R.PatchBytes(R.FULL, Wrap(home + 0))
    ensures site < TWO63 && Machine.Inside(memory, site, Machine.Whole) && Machine.Get(memory, site, Machine.Whole) == home
  {
    NoWrap(home);
    assert memory[..|image|] == memory[0..|image|];
    SliceSlice(memory, 0, |image|, site, site + 8);
    Fits8(home);
    SplitInjective(Machine.Get(memory, site, Machine.Whole), home, 8);
  }

  // A reference, of any width and addend, overlapped by no later relocation.
  predicate ClearReference(us: seq<Unit>, relocs: seq<R.Entry>, j: nat, t: nat, k: Label)
  { Refers(us, j, t, k) && Position(us, j, t) < |relocs| && Unspoiled(relocs, Position(us, j, t)) }

  // The accessors find the value's half that a relocation of this type leaves: all of it, the lower or the upper.
  predicate FoundAt(memory: seq<Byte>, site: nat, kind: int, value: Long)
  {
    site < TWO63 &&
    if kind == 0 then Machine.Inside(memory, site, Machine.Whole) && Machine.Get(memory, site, Machine.Whole) == value
    else if kind == 2 then Machine.Inside(memory, site, Machine.Half) && Machine.Get(memory, site, Machine.Half) == value % 0x1_0000_0000
    else kind == 3 && Machine.Inside(memory, site, Machine.Half) && Machine.Get(memory, site, Machine.Half) == value / 0x1_0000_0000
  }

  lemma {:induction false} ShownFound(image: seq<Byte>, memory: seq<Byte>, site: nat, kind: int, value: Long)
    requires |image| <= |memory| <= TWO63 && memory[..|image|] == image && R.Shows(image, site, kind, value)
    ensures FoundAt(memory, site, kind, value)
  {
    hide Machine.Get;
    var n, size, w := if kind == 0 then 8 else 4, if kind == 0 then Machine.Whole else Machine.Half,
                      if kind == 0 then value else if kind == 2 then value % 0x1_0000_0000 else value / 0x1_0000_0000;
    assert Reads(image, site, n, w) && Reads(memory, site, n, w) by { PrefixReads(image, memory, site, n, w); }
    hide Reads;
    GetReads(memory, site, size, n);
    ReadsOnce(memory, site, n, w, Machine.Get(memory, site, size));
  }

  lemma {:induction false} PrefixReads(image: seq<Byte>, memory: seq<Byte>, site: nat, n: nat, w: nat)
    requires |image| <= |memory| && memory[..|image|] == image && Reads(image, site, n, w)
    ensures Reads(memory, site, n, w)
  {
    hide Four;
    assert forall x :: 0 <= x < |image| ==> memory[x] == image[x];
  }

  /** In the loaded machine, what stands at a reference is the final address of its label's definition plus the addend:
      the whole of it, or its value below 2^32, or how often 2^32 goes into it. */
  lemma {:induction false} ReferenceInMemory(us: seq<Unit>, c: Combined, hash: Hash, memory: seq<Byte>,
      j: nat, t: nat, k: Label, d: nat, i: nat)
    requires Holds(us, c, hash, memory) && ClearReference(us, c.relocs, j, t, k) && Places(us, d, i, k)
    requires us != [] && us[0].meta != [] && us[0].meta[0] == us[0].metaBytes
    ensures var e := us[j].relocs[t];
      FoundAt(memory, SectionAt(us, e.isData) + c.relocs[Position(us, j, t)].site, e.kind, Wrap(Home(us, d, i) + e.offset))
  {
    hide Holds, Linkable, Joined, PiecesOf, Flatten, Unspoiled, Wrap, Home, SectionAt, Position, R.PatchBytes, R.Shows, FoundAt;
    HoldsParts(us, c, hash, memory);
    ReferencesPointHome(us, c, hash, j, t, k, d, i);
    var e := us[j].relocs[t];
    ShownFound(Flatten(ImageOf(us, c, hash)), memory, SectionAt(us, e.isData) + c.relocs[Position(us, j, t)].site, e.kind,
               Wrap(Home(us, d, i) + e.offset));
  }
}
