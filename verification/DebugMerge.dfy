/** What Linker::link does to debug lists. */
module DebugMerge {
  import opened Words
  import opened DebugData

  function Strings(es: seq<DebugEntry>): (r: seq<DebugEntry>)
    ensures forall i :: 0 <= i < |r| ==> IsString(r[i])
  { if es == [] then [] else (if IsString(es[0]) then [es[0]] else []) + Strings(es[1..]) }

  function Locations(es: seq<DebugEntry>): (r: seq<DebugEntry>)
    ensures forall i :: 0 <= i < |r| ==> r[i].Location?
  { if es == [] then [] else (if es[0].Location? then [es[0]] else []) + Locations(es[1..]) }

  // Filenames and functions come before locations.
  predicate StringsFirst(es: seq<DebugEntry>) { es == Strings(es) + Locations(es) }

  function Narrow(x: int): UInt32 { x % 0x1_0000_0000 }

  // A location of a subunit, moved: a non-zero address by the metadata difference and the code before it,
  // both indices by the strings before it.
  function MoveLocation(e: DebugEntry, delta: Long, strings: nat): DebugEntry
  {
    if !e.Location? then e else
    e.(address := if e.address != 0 then Plus(e.address, delta) else 0,
       file := Narrow(e.file + strings), func := Narrow(e.func + strings))
  }

  function Move(es: seq<DebugEntry>, delta: Long, strings: nat): (r: seq<DebugEntry>)
    ensures |r| == |es|
  { seq(|es|, i requires 0 <= i < |es| => MoveLocation(es[i], delta, strings)) }

  lemma {:induction false} FilterAppend(a: seq<DebugEntry>, b: seq<DebugEntry>)
    ensures Strings(a + b) == Strings(a) + Strings(b)
    ensures Locations(a + b) == Locations(a) + Locations(b)
  {
    if a == [] {
      assert a + b == b;
    } else {
      assert (a + b)[1..] == a[1..] + b;
      FilterAppend(a[1..], b);
    }
  }

  lemma {:induction false} FilterStep(es: seq<DebugEntry>, i: nat)
    requires i < |es|
    ensures Strings(es[..i + 1]) == Strings(es[..i]) + (if IsString(es[i]) then [es[i]] else [])
    ensures Locations(es[..i + 1]) == Locations(es[..i]) + (if es[i].Location? then [es[i]] else [])
  {
    assert es[..i + 1] == es[..i] + [es[i]];
    FilterAppend(es[..i], [es[i]]);
    assert [es[i]][1..] == [];
  }

  // Moving does not touch the strings and moves every location.
  lemma {:induction false} MoveFilters(es: seq<DebugEntry>, delta: Long, strings: nat)
    ensures Strings(Move(es, delta, strings)) == Strings(es)
    ensures Locations(Move(es, delta, strings)) == Move(Locations(es), delta, strings)
  {
    if es == [] {
      assert Move(es, delta, strings) == [];
    } else {
      MoveFilters(es[1..], delta, strings);
      MoveFirst(es, delta, strings);
      FirstFilters(es);
      FirstFilters(Move(es, delta, strings));
      MoveFirst(Locations(es), delta, strings);
    }
  }

  lemma {:induction false} FirstFilters(es: seq<DebugEntry>)
    requires es != []
    ensures Strings(es) == (if IsString(es[0]) then [es[0]] else []) + Strings(es[1..])
    ensures Locations(es) == (if es[0].Location? then [es[0]] else []) + Locations(es[1..])
  {}

  lemma {:induction false} MoveFirst(es: seq<DebugEntry>, delta: Long, strings: nat)
    ensures es != [] ==> Move(es, delta, strings) == [MoveLocation(es[0], delta, strings)] + Move(es[1..], delta, strings)
    ensures es != [] ==> Move(es, delta, strings)[1..] == Move(es[1..], delta, strings)
  { hide MoveLocation; }

  /** Linker::countStringTypes. */
  method CountStringTypes(es: seq<DebugEntry>) returns (n: nat)
    ensures n == |Strings(es)|
  {
    n := 0;
    for i := 0 to |es|
      invariant n == |Strings(es[..i])|
    {
      FilterStep(es, i);
      if IsString(es[i]) { n := n + 1; }
    }
    assert es[..|es|] == es;
  }

  method MoveAll(es: seq<DebugEntry>, delta: Long, strings: nat) returns (r: seq<DebugEntry>)
    ensures r == Move(es, delta, strings)
  {
    r := es;
    for i := 0 to |es|
      invariant |r| == |es|
      invariant forall j :: 0 <= j < |es| ==> r[j] == if j < i then MoveLocation(es[j], delta, strings) else es[j]
    {
      if r[i].Location? {
        var location := r[i];
        if location.address != 0 { location := location.(address := Plus(location.address, delta)); }
        location := location.(file := Narrow(location.file + strings), func := Narrow(location.func + strings));
        r := r[i := location];
      }
    }
  }

  // combined after one subunit: its strings go in at `extra`, its locations to the end.
  function Spliced(combined: seq<DebugEntry>, extra: nat, moved: seq<DebugEntry>): seq<DebugEntry>
    requires extra <= |combined|
  { combined[..extra] + Strings(moved) + combined[extra..] + Locations(moved) }

  /** The debug part of one turn of link()'s loop. */
  method MergeDebug(combined: seq<DebugEntry>, extra: nat, es: seq<DebugEntry>, delta: Long)
    returns (r: seq<DebugEntry>, newExtra: nat)
    requires extra <= |combined|
    ensures r == Spliced(combined, extra, Move(es, delta, extra))
    ensures newExtra == extra + |Strings(es)| <= |r|
  {
    hide MoveLocation;
    var moved := MoveAll(es, delta, extra);
    MoveFilters(es, delta, extra);
    var strings, locations := [], [];
    for i := 0 to |moved|
      invariant strings == Strings(moved[..i]) && locations == Locations(moved[..i])
    {
      FilterStep(moved, i);
      if IsString(moved[i]) { strings := strings + [moved[i]]; } else { locations := locations + [moved[i]]; }
    }
    assert moved[..|moved|] == moved;
    r := combined[..extra] + strings + combined[extra..] + locations;
    newExtra := extra + |strings|;
  }

  // ----- the meaning of a merged list -----

  // The combined list keeps its strings first, and grows by the new strings and the new locations.
  lemma {:induction false} SplicedShape(combined: seq<DebugEntry>, es: seq<DebugEntry>, delta: Long)
    requires StringsFirst(combined)
    ensures var extra := |Strings(combined)|;
      var r := Spliced(combined, extra, Move(es, delta, extra));
      && r == Strings(combined) + Strings(es) + Locations(combined) + Move(Locations(es), delta, extra)
      && StringsFirst(r) && Strings(r) == Strings(combined) + Strings(es)
      && Locations(r) == Locations(combined) + Move(Locations(es), delta, extra)
  {
    hide Move, Strings, Locations;
    var s, l := Strings(combined), Locations(combined);
    var added, moved := Strings(es), Move(Locations(es), delta, |s|);
    MoveFilters(es, delta, |s|);
    assert combined[..|s|] == s && combined[|s|..] == l;
    MoveKeepsLocations(Locations(es), delta, |s|);
    Regroup(s, added, l, moved);
    Partitioned(s + added, l + moved);
  }

  lemma {:induction false} Regroup<T>(a: seq<T>, b: seq<T>, c: seq<T>, d: seq<T>)
    ensures a + b + c + d == (a + b) + (c + d)
  {}

  // Strings followed by locations filter back into the two parts.
  lemma {:induction false} Partitioned(s: seq<DebugEntry>, l: seq<DebugEntry>)
    requires forall i :: 0 <= i < |s| ==> IsString(s[i])
    requires forall i :: 0 <= i < |l| ==> l[i].Location?
    ensures Strings(s + l) == s && Locations(s + l) == l && StringsFirst(s + l)
  {
    hide Strings, Locations;
    OnlyStrings(s);
    OnlyLocations(l);
    FilterAppend(s, l);
    assert s + [] == s && [] + l == l;
  }

  lemma {:induction false} MoveKeepsLocations(es: seq<DebugEntry>, delta: Long, strings: nat)
    requires forall i :: 0 <= i < |es| ==> es[i].Location?
    ensures forall i :: 0 <= i < |es| ==> Move(es, delta, strings)[i].Location?
  {}

  lemma {:induction false} OnlyStrings(es: seq<DebugEntry>)
    requires forall i :: 0 <= i < |es| ==> IsString(es[i])
    ensures Strings(es) == es && Locations(es) == []
  { if es != [] { OnlyStrings(es[1..]); } }

  lemma {:induction false} OnlyLocations(es: seq<DebugEntry>)
    requires forall i :: 0 <= i < |es| ==> es[i].Location?
    ensures Locations(es) == es && Strings(es) == []
  { if es != [] { OnlyLocations(es[1..]); } }
}
