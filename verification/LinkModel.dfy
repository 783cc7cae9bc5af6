/** What a link of a main unit (us[0]) and subunits (us[1..]) has combined after its first n units. */
module LinkModel {
  import opened Words
  import opened SymbolTable
  import opened SymbolReader
  import opened SymbolMerge
  import opened DebugData
  import opened DebugMerge
  import opened BinaryParser
  import R = Relocation

  // ----- running lengths -----

  function CodeBase(us: seq<Unit>, n: nat): Long
    requires n <= |us|
  { if n == 0 then 0 else Plus(CodeBase(us, n - 1), us[n - 1].codeBytes) }

  function DataBase(us: seq<Unit>, n: nat): Long
    requires n <= |us|
  { if n == 0 then 0 else Plus(DataBase(us, n - 1), us[n - 1].dataBytes) }

  function AllCode(us: seq<Unit>, n: nat): seq<Long>
    requires n <= |us|
  { if n == 0 then [] else AllCode(us, n - 1) + us[n - 1].code }

  function AllData(us: seq<Unit>, n: nat): seq<Long>
    requires n <= |us|
  { if n == 0 then [] else AllData(us, n - 1) + us[n - 1].data }

  function AllStrings(us: seq<Unit>, n: nat): seq<DebugEntry>
    requires n <= |us|
  { if n == 0 then [] else AllStrings(us, n - 1) + Strings(us[n - 1].debug) }

  // How far unit j's locations move.
  function Delta(us: seq<Unit>, j: nat): Long
    requires j < |us|
  { Plus(Minus(us[0].metaBytes, us[j].metaBytes), CodeBase(us, j)) }

  function AllLocations(us: seq<Unit>, n: nat): seq<DebugEntry>
    requires n <= |us|
  {
    if n == 0 then [] else
    AllLocations(us, n - 1) + Move(Locations(us[n - 1].debug), Delta(us, n - 1), |AllStrings(us, n - 1)|)
  }

  // A unit whose header offsets are whole words.
  predicate WholeHeader(u: Unit)
  {
    && u.metaBytes == 8 * |u.meta| && u.codeBytes == Wrap(8 * |u.code|) && u.dataBytes == Wrap(8 * |u.data|)
  }

  predicate WholeHeaders(us: seq<Unit>) { forall j :: 0 <= j < |us| ==> WholeHeader(us[j]) }

  /** A file whose first three header offsets are whole words, as an assembler writes them, parses to such a unit: its
      sections are the words between those offsets. */
  lemma {:induction false} ParsedWhole(raw: seq<Long>, hash: Hash)
    requires ParseUnit(raw, hash).Ok? && raw[0] % 8 == 0 && raw[1] % 8 == 0 && raw[2] % 8 == 0
    ensures var u := ParseUnit(raw, hash).value;
      && 8 * |u.meta| == raw[0] <= 8 * (|u.meta| + |u.code|) == raw[1] <= 8 * (|u.meta| + |u.code| + |u.data|) == raw[2]
      && u.meta + u.code + u.data == raw[..raw[2] / 8] && WholeHeader(u)
  {
    hide SymbolReader.ReadTable, ReadDebug, R.DecodeAll, CodeParses, ThreeStrings, Minus, Wrap;
    var a, b, c := raw[0] / 8, raw[1] / 8, raw[2] / 8;
    assert raw[..a] + raw[a..b] + raw[b..c] == raw[..c];
    WholeLength(raw[1], raw[0]);
    WholeLength(raw[2], raw[1]);
  }

  lemma {:induction false} WholeLength(x: Long, y: Long)
    requires x % 8 == 0 && y % 8 == 0
    ensures Minus(x, y) == Wrap(8 * (x / 8 - y / 8))
  {}

  lemma {:induction false} WrapPlus(x: int, y: int)
    ensures Plus(Wrap(x), Wrap(y)) == Wrap(x + y)
  {
    var a, b := x / TWO64, y / TWO64;
    assert x + y == Wrap(x) + Wrap(y) + TWO64 * (a + b);
    WrapTurns(Wrap(x) + Wrap(y), a + b);
  }

  // The running lengths are the lengths of what has been concatenated.
  lemma {:induction false} BasesAreLengths(us: seq<Unit>, n: nat)
    requires n <= |us| && WholeHeaders(us)
    ensures CodeBase(us, n) == Wrap(8 * |AllCode(us, n)|)
    ensures DataBase(us, n) == Wrap(8 * |AllData(us, n)|)
  {
    if n > 0 {
      hide Plus, Wrap;
      assert WholeHeader(us[n - 1]);
      BasesAreLengths(us, n - 1);
      WrapPlus(8 * |AllCode(us, n - 1)|, 8 * |us[n - 1].code|);
      WrapPlus(8 * |AllData(us, n - 1)|, 8 * |us[n - 1].data|);
    } else {
      assert Wrap(0) == 0;
    }
  }

  // ----- debug lists -----

  // The combined list after n units, and how many strings it is taken to start with.
  function DebugAfter(us: seq<Unit>, n: nat): (r: seq<DebugEntry>)
    requires 1 <= n <= |us|
    ensures |AllStrings(us, n)| <= |r|
  {
    if n == 1 then FilterLength(us[0].debug); us[0].debug else
    MoveFilters(us[n - 1].debug, Delta(us, n - 1), |AllStrings(us, n - 1)|);
    Spliced(DebugAfter(us, n - 1), |AllStrings(us, n - 1)|,
            Move(us[n - 1].debug, Delta(us, n - 1), |AllStrings(us, n - 1)|))
  }

  lemma {:induction false} FilterLength(es: seq<DebugEntry>)
    ensures |Strings(es)| <= |es|
  { if es != [] { FilterLength(es[1..]); } }

  lemma {:induction false} DeltaZero(us: seq<Unit>)
    requires us != []
    ensures Delta(us, 0) == 0
  {}

  lemma {:induction false} MoveNothing(es: seq<DebugEntry>)
    ensures Move(es, 0, 0) == es
  {}

  /** When the main unit's list has its strings first, the combined list is all strings in unit order, then all
      locations in unit order, each moved by its own unit's offsets. */
  lemma {:induction false} DebugIsSorted(us: seq<Unit>, n: nat)
    requires 1 <= n <= |us| && StringsFirst(us[0].debug)
    ensures DebugAfter(us, n) == AllStrings(us, n) + AllLocations(us, n)
    ensures StringsFirst(DebugAfter(us, n)) && Strings(DebugAfter(us, n)) == AllStrings(us, n)
    ensures Locations(DebugAfter(us, n)) == AllLocations(us, n)
  {
    hide Move, Strings, Locations, Plus, Minus;
    if n == 1 {
      assert CodeBase(us, 0) == 0;
      DeltaZero(us);
      MoveNothing(Locations(us[0].debug));
      assert AllStrings(us, 1) == [] + Strings(us[0].debug);
      assert AllStrings(us, 0) == [];
      assert AllLocations(us, 1) == [] + Locations(us[0].debug);
    } else {
      DebugIsSorted(us, n - 1);
      var before := DebugAfter(us, n - 1);
      SplicedShape(before, us[n - 1].debug, Delta(us, n - 1));
      ConcatAssoc(AllStrings(us, n), AllLocations(us, n - 1),
                  Move(Locations(us[n - 1].debug), Delta(us, n - 1), |AllStrings(us, n - 1)|));
    }
  }

  // ----- where a unit's own parts sit in the whole -----

  lemma {:induction false} CodePlace(us: seq<Unit>, n: nat, j: nat, i: nat)
    requires j < n <= |us| && i < |us[j].code|
    ensures |AllCode(us, j)| + i < |AllCode(us, n)| && AllCode(us, n)[|AllCode(us, j)| + i] == us[j].code[i]
  { if j < n - 1 { CodePlace(us, n - 1, j, i); } }

  lemma {:induction false} DataPlace(us: seq<Unit>, n: nat, j: nat, i: nat)
    requires j < n <= |us| && i < |us[j].data|
    ensures |AllData(us, j)| + i < |AllData(us, n)| && AllData(us, n)[|AllData(us, j)| + i] == us[j].data[i]
  { if j < n - 1 { DataPlace(us, n - 1, j, i); } }

  lemma {:induction false} StringPlace(us: seq<Unit>, n: nat, j: nat, i: nat)
    requires j < n <= |us| && i < |Strings(us[j].debug)|
    ensures |AllStrings(us, j)| + i < |AllStrings(us, n)|
    ensures AllStrings(us, n)[|AllStrings(us, j)| + i] == Strings(us[j].debug)[i]
  {
    hide Strings;
    if j < n - 1 { StringPlace(us, n - 1, j, i); }
  }

  lemma {:induction false} LocationPlace(us: seq<Unit>, n: nat, j: nat, i: nat)
    requires j < n <= |us| && i < |Locations(us[j].debug)|
    ensures |AllLocations(us, j)| + i < |AllLocations(us, n)|
    ensures AllLocations(us, n)[|AllLocations(us, j)| + i]
      == MoveLocation(Locations(us[j].debug)[i], Delta(us, j), |AllStrings(us, j)|)
  {
    hide Locations, MoveLocation, Delta;
    if j < n - 1 { LocationPlace(us, n - 1, j, i); }
  }

  // Entry i of a list with its strings first.
  lemma {:induction false} StringAt(es: seq<DebugEntry>, i: nat)
    requires StringsFirst(es) && i < |Strings(es)|
    ensures i < |es| && es[i] == Strings(es)[i] && IsString(es[i])
  {
    hide Strings, Locations;
    assert (Strings(es) + Locations(es))[i] == Strings(es)[i];
  }

  // A moved index names the entry the unit's own list has at the old index.
  predicate SameText(own: seq<DebugEntry>, index: UInt32, all: seq<DebugEntry>, moved: UInt32)
  { index < |own| && IsString(own[index]) ==> moved < |all| && all[moved] == own[index] }

  // An address of unit j's instruction i has become the address of that instruction in the combined code.
  predicate SameInstruction(us: seq<Unit>, j: nat, address: Long, moved: Long)
    requires j < |us|
  {
    && (address == 0 ==> moved == 0)
    && forall i :: 0 <= i < |us[j].code| && address == us[j].metaBytes + 8 * i && address != 0 ==>
         moved == Wrap(us[0].metaBytes + 8 * (|AllCode(us, j)| + i))
  }

  /** Merging keeps the meaning of every location: its file and function are the very entries its unit named, its
      position in the source is unchanged, and an address that pointed at an instruction of its unit points at
      that instruction in the combined code. */
  lemma {:induction false} DebugMeaning(us: seq<Unit>, j: nat, t: nat)
    requires j < |us| && StringsFirst(us[0].debug) && StringsFirst(us[j].debug)
    requires WholeHeaders(us) && |AllStrings(us, |us|)| <= TWO32
    requires t < |Locations(us[j].debug)|
    ensures var all, place := DebugAfter(us, |us|), |AllStrings(us, |us|)| + |AllLocations(us, j)| + t;
      var before := Locations(us[j].debug)[t];
      && place < |all| && all[place].Location?
      && SameText(us[j].debug, before.file, all, all[place].file)
      && SameText(us[j].debug, before.func, all, all[place].func)
      && all[place].line == before.line && all[place].column == before.column && all[place].count == before.count
      && SameInstruction(us, j, before.address, all[place].address)
  {
    hide Strings, Locations, DebugAfter, AllLocations, AllStrings, Delta, SameText, SameInstruction;
    var before := Locations(us[j].debug)[t];
    var s, l := AllStrings(us, |us|), AllLocations(us, |us|);
    DebugIsSorted(us, |us|);
    LocationPlace(us, |us|, j, t);
    assert (s + l)[|s| + (|AllLocations(us, j)| + t)] == l[|AllLocations(us, j)| + t];
    MovedTexts(us, j, before.file);
    MovedTexts(us, j, before.func);
    MovedAddresses(us, j, before.address);
  }

  lemma {:induction false} MovedTexts(us: seq<Unit>, j: nat, index: UInt32)
    requires j < |us| && StringsFirst(us[0].debug) && StringsFirst(us[j].debug) && |AllStrings(us, |us|)| <= TWO32
    ensures SameText(us[j].debug, index, DebugAfter(us, |us|), Narrow(index + |AllStrings(us, j)|))
  {
    hide Strings, Locations, DebugAfter, AllLocations, AllStrings;
    if index < |us[j].debug| && IsString(us[j].debug[index]) {
      var s, l := AllStrings(us, |us|), AllLocations(us, |us|);
      StringsAreFirst(us[j].debug, index);
      DebugIsSorted(us, |us|);
      StringPlace(us, |us|, j, index);
      StringAt(us[j].debug, index);
      assert (s + l)[|AllStrings(us, j)| + index] == s[|AllStrings(us, j)| + index];
    }
  }

  lemma {:induction false} StringsAreFirst(es: seq<DebugEntry>, i: nat)
    requires StringsFirst(es) && i < |es| && IsString(es[i])
    ensures i < |Strings(es)|
  {
    var l := Locations(es);
    assert forall k :: |Strings(es)| <= k < |es| ==> es[k] == l[k - |Strings(es)|];
  }

  lemma {:induction false} MovedAddresses(us: seq<Unit>, j: nat, address: Long)
    requires j < |us| && WholeHeaders(us)
    ensures SameInstruction(us, j, address, if address != 0 then Plus(address, Delta(us, j)) else 0)
  {
    hide Plus, Delta, Wrap;
    forall i | 0 <= i < |us[j].code| && address == us[j].metaBytes + 8 * i
      ensures Plus(address, Delta(us, j)) == Wrap(us[0].metaBytes + 8 * (|AllCode(us, j)| + i))
    { MovedAddress(us, j, address, i); }
  }

  lemma {:induction false} WrapMinus(a: Long, b: Long)
    ensures Minus(a, b) == Wrap(a as int - b as int) && Wrap(a) == a
  {}

  lemma {:induction false} MovedAddress(us: seq<Unit>, j: nat, address: Long, i: nat)
    requires j < |us| && WholeHeaders(us) && address == us[j].metaBytes + 8 * i
    ensures Plus(address, Delta(us, j)) == Wrap(us[0].metaBytes + 8 * (|AllCode(us, j)| + i))
  {
    hide Wrap, Plus, Minus, CodeBase, AllCode;
    BasesAreLengths(us, j);
    var c := 8 * |AllCode(us, j)|;
    var d := us[0].metaBytes as int - us[j].metaBytes as int;
    WrapMinus(us[0].metaBytes, us[j].metaBytes);
    WrapMinus(address, 0);
    WrapPlus(d, c);
    WrapPlus(address, d + c);
  }

  // ----- relocations -----

  function EndMap(u: Unit): map<Label, nat>
    ensures Pointing(u.symbols, EndMap(u))
  { IndexMapAgrees(u.symbols); IndexMap(u.symbols) }

  // The entry of the subunit's table, `.end` erased, that a relocation points at afterwards.
  predicate RelocNamed(u: Unit, e: R.Entry)
  { 0 <= RelocDrop(EndMap(u), e).index < |TableDrop(u.symbols, EndMap(u))| }

  predicate RelocsNamed(u: Unit) { forall i :: 0 <= i < |u.relocs| ==> RelocNamed(u, u.relocs[i]) }

  function MoveReloc(u: Unit, e: R.Entry, codeBase: Long, dataBase: Long): R.Entry
    requires RelocNamed(u, e)
  {
    var d := RelocDrop(EndMap(u), e);
    d.(site := Plus(d.site, if d.isData then dataBase else codeBase),
       name := Some(TableDrop(u.symbols, EndMap(u))[d.index].name))
  }

  function MoveRelocs(u: Unit, codeBase: Long, dataBase: Long): (r: seq<R.Entry>)
    requires RelocsNamed(u)
    ensures |r| == |u.relocs|
  {
    seq(|u.relocs|, i requires 0 <= i < |u.relocs| =>
      assert RelocNamed(u, u.relocs[i]); MoveReloc(u, u.relocs[i], codeBase, dataBase))
  }

  predicate AllNamed(us: seq<Unit>, n: nat) { forall j :: 1 <= j < n <= |us| ==> RelocsNamed(us[j]) }

  // The main unit's relocations stay as they are.
  function RelocsAfter(us: seq<Unit>, n: nat): seq<R.Entry>
    requires 1 <= n <= |us| && AllNamed(us, n)
  {
    if n == 1 then us[0].relocs else
    assert RelocsNamed(us[n - 1]);
    assert AllNamed(us, n - 1);
    RelocsAfter(us, n - 1) + MoveRelocs(us[n - 1], CodeBase(us, n - 1), DataBase(us, n - 1))
  }

  function RelocAt(us: seq<Unit>, j: nat, t: nat): R.Entry
    requires j < |us| && t < |us[j].relocs| && AllNamed(us, |us|)
  {
    if j == 0 then us[0].relocs[t] else
    assert RelocsNamed(us[j]);
    assert RelocNamed(us[j], us[j].relocs[t]);
    MoveReloc(us[j], us[j].relocs[t], CodeBase(us, j), DataBase(us, j))
  }

  function RelocStart(us: seq<Unit>, j: nat): nat
    requires j <= |us|
  { if j == 0 then 0 else RelocStart(us, j - 1) + |us[j - 1].relocs| }

  lemma {:induction false} RelocPlace(us: seq<Unit>, n: nat, j: nat, t: nat)
    requires j < n <= |us| && t < |us[j].relocs| && AllNamed(us, |us|)
    ensures AllNamed(us, n) && |RelocsAfter(us, n)| == RelocStart(us, n)
    ensures RelocStart(us, j) + t < RelocStart(us, n)
    ensures RelocsAfter(us, n)[RelocStart(us, j) + t] == RelocAt(us, j, t)
  {
    hide MoveReloc, RelocNamed, RelocsNamed, CodeBase, DataBase, MoveRelocs;
    assert AllNamed(us, n) by { assert forall k :: 1 <= k < n ==> RelocsNamed(us[k]); }
    RelocCount(us, n);
    if j < n - 1 {
      RelocPlace(us, n - 1, j, t);
    } else if j > 0 {
      RelocCount(us, j);
      MoveRelocsAt(us[j], t, CodeBase(us, j), DataBase(us, j));
    }
  }

  lemma {:induction false} MoveRelocsAt(u: Unit, t: nat, codeBase: Long, dataBase: Long)
    requires RelocsNamed(u) && t < |u.relocs|
    ensures RelocNamed(u, u.relocs[t])
    ensures MoveRelocs(u, codeBase, dataBase)[t] == MoveReloc(u, u.relocs[t], codeBase, dataBase)
  { hide MoveReloc, RelocNamed; }

  lemma {:induction false} RelocCount(us: seq<Unit>, n: nat)
    requires 1 <= n <= |us| && AllNamed(us, n)
    ensures |RelocsAfter(us, n)| == RelocStart(us, n)
  {
    hide MoveReloc, RelocNamed, RelocsNamed;
    if n == 1 { assert RelocStart(us, 1) == RelocStart(us, 0) + |us[0].relocs|; } else {
      assert AllNamed(us, n - 1);
      RelocCount(us, n - 1);
    }
  }
}
