/** VM::loadDebugData: the tables the machine builds from a debug section. */
module VmDebug {
  import opened Words
  import opened DebugData
  import opened DebugReaders

  datatype DebugLine = DebugLine(file: seq<Byte>, func: seq<Byte>, line: UInt32, column: UInt32, count: Byte, address: Long)

  datatype Tables = Tables(files: map<nat, seq<Byte>>, functions: map<nat, seq<Byte>>, lines: map<Long, DebugLine>)

  const EMPTY: Tables := Tables(map[], map[], map[])

  function LineOf(t: Tables, e: DebugEntry, a: Long): DebugLine
    requires e.Location? && e.file in t.files && e.func in t.functions
  { DebugLine(t.files[e.file], t.functions[e.func], e.line, e.column, e.count, a) }

  function Nth(e: DebugEntry, j: nat): Long
    requires e.Location?
  { Wrap(e.address + 8 * j) }

  // debugMap.try_emplace for the first n instructions of a location: an address keeps its first line.
  function Emplaced(t: Tables, e: DebugEntry, n: nat): (m: map<Long, DebugLine>)
    requires e.Location? && (n > 0 ==> e.file in t.files && e.func in t.functions)
  {
    if n == 0 then t.lines else
    var m := Emplaced(t, e, n - 1);
    if Nth(e, n - 1) in m then m else m[Nth(e, n - 1) := LineOf(t, e, Nth(e, n - 1))]
  }

  // The tables after entry number `index`, or the failed `at` of a missing string.
  function AddEntry(t: Tables, index: nat, e: DebugEntry): Result<Tables>
  {
    match e
    case Filename(text) => Ok(t.(files := if index in t.files then t.files else t.files[index := text]))
    case FunctionName(text) => Ok(t.(functions := if index in t.functions then t.functions else t.functions[index := text]))
    case Location(_, _, _, _, count, _) =>
      if count > 0 && (e.file !in t.files || e.func !in t.functions) then Err(OutOfRange)
      else Ok(t.(lines := Emplaced(t, e, count)))
  }

  function Load(es: seq<DebugEntry>): Result<Tables>
  {
    if es == [] then Ok(EMPTY) else
    var n := |es| - 1;
    match Load(es[..n])
    case Err(x) => Err(x)
    case Ok(t) => AddEntry(t, n, es[n])
  }

  lemma {:induction false} LoadStep(es: seq<DebugEntry>, e: DebugEntry)
    ensures Load(es + [e]) == match Load(es) case Err(x) => Err(x) case Ok(t) => AddEntry(t, |es|, e)
  { hide AddEntry; assert (es + [e])[..|es|] == es; }

  lemma {:induction false} LoadError(es: seq<DebugEntry>, fs: seq<DebugEntry>)
    requires Load(es).Err?
    ensures Load(es + fs) == Load(es)
    decreases |fs|
  {
    hide AddEntry;
    if fs == [] {
      assert es + fs == es;
    } else {
      LoadStep(es, fs[0]);
      LoadError(es + [fs[0]], fs[1..]);
      assert es + [fs[0]] + fs[1..] == es + fs;
    }
  }

  lemma {:induction false} NthNext(e: DebugEntry, j: nat)
    requires e.Location?
    ensures Wrap(Nth(e, j) + 8) == Nth(e, j + 1) && Nth(e, 0) == e.address
  {}

  method EmplaceLines(t: Tables, e: DebugEntry) returns (r: Result<Tables>)
    requires e.Location?
    ensures r == AddEntry(t, 0, e)
  {
    var lines, address: int := t.lines, e.address;
    NthNext(e, 0);
    for j := 0 to e.count
      invariant j > 0 ==> e.file in t.files && e.func in t.functions
      invariant lines == Emplaced(t, e, j) && address == Nth(e, j)
    {
      if e.file !in t.files || e.func !in t.functions { return Err(OutOfRange); }
      if address !in lines { lines := lines[address := LineOf(t, e, address)]; }
      assert lines == Emplaced(t, e, j + 1);
      NthNext(e, j);
      address := Wrap(address + 8);
    }
    r := Ok(t.(lines := lines));
  }

  /** VM::loadDebugData on a machine that has loaded nothing before. Whatever the section decodes to is loaded
      entry by entry; the first bad entry or missing string stops it. */
  method LoadDebugData(memory: seq<Byte>, debugOffset: nat, relocationOffset: nat) returns (r: Result<Tables>)
    ensures ReadDebug(memory, debugOffset, relocationOffset).Ok? ==>
      r == Load(ReadDebug(memory, debugOffset, relocationOffset).value)
    ensures ReadDebug(memory, debugOffset, relocationOffset).Err? ==> r.Err?
  {
    hide EntryAt, AddEntry, Emplaced;
    ghost var whole := ReadDebug(memory, debugOffset, relocationOffset);
    ghost var out: seq<DebugEntry> := [];
    var t, index, i := EMPTY, 0, debugOffset;
    PrependEnds([], whole);
    while i < relocationOffset
      invariant index == |out| && Load(out) == Ok(t)
      invariant whole == Prepend(out, ReadDebug(memory, i, relocationOffset))
      decreases if i < relocationOffset then relocationOffset - i else 0
    {
      var step := VmEntry(memory, i);
      ReadStep(memory, i, relocationOffset, out);
      if step.Err? { return Err(step.error); }
      var (entry, next) := step.value;
      LoadStep(out, entry);
      var added := AddOne(t, index, entry);
      if added.Err? {
        if whole.Ok? { LoadError(out + [entry], whole.value[|out| + 1..]); PrependSplit(out + [entry], whole); }
        return Err(added.error);
      }
      t := added.value;
      out := out + [entry];
      i, index := next, index + 1;
    }
    PrependEnds(out, Ok([]));
    r := Ok(t);
  }

  lemma {:induction false} PrependSplit(out: seq<DebugEntry>, whole: Result<seq<DebugEntry>>)
    requires whole.Ok? && out <= whole.value
    ensures whole.value == out + whole.value[|out|..]
  {}

  method AddOne(t: Tables, index: nat, e: DebugEntry) returns (r: Result<Tables>)
    ensures r == AddEntry(t, index, e)
  {
    match e
    case Filename(text) => r := Ok(if index in t.files then t else t.(files := t.files[index := text]));
    case FunctionName(text) => r := Ok(if index in t.functions then t else t.(functions := t.functions[index := text]));
    case Location(_, _, _, _, _, _) => r := EmplaceLines(t, e);
  }

  // ----- what the tables mean -----

  predicate Covers(e: DebugEntry, a: Long)
  { e.Location? && exists j :: 0 <= j < e.count as int && a == Nth(e, j) }

  // A location that covers anything names an earlier file and an earlier function.
  predicate ResolvesAt(es: seq<DebugEntry>, k: nat)
    requires k < |es|
  {
    es[k].Location? && es[k].count > 0 ==>
      es[k].file < k && es[es[k].file].Filename? && es[k].func < k && es[es[k].func].FunctionName?
  }

  predicate Resolves(es: seq<DebugEntry>) { forall k :: 0 <= k < |es| ==> ResolvesAt(es, k) }

  // k is the first location that covers a.
  predicate FirstCover(es: seq<DebugEntry>, a: Long, k: nat)
  { k < |es| && Covers(es[k], a) && forall i :: 0 <= i < k ==> !Covers(es[i], a) }

  predicate Described(es: seq<DebugEntry>, a: Long, k: nat, d: DebugLine)
  {
    && k < |es| && es[k].Location? && es[k].file < |es| && es[k].func < |es|
    && IsString(es[es[k].file]) && IsString(es[es[k].func])
    && d == DebugLine(es[es[k].file].text, es[es[k].func].text, es[k].line, es[k].column, es[k].count, a)
  }

  ghost predicate StringsLoaded(es: seq<DebugEntry>, t: Tables)
  {
    && (forall i | 0 <= i < |es| :: i in t.files <==> es[i].Filename?)
    && (forall i | 0 <= i < |es| :: i in t.functions <==> es[i].FunctionName?)
    && (forall i :: i in t.files ==> i < |es| && IsString(es[i]) && t.files[i] == es[i].text)
    && (forall i :: i in t.functions ==> i < |es| && IsString(es[i]) && t.functions[i] == es[i].text)
  }

  ghost predicate LinesLoaded(es: seq<DebugEntry>, t: Tables)
  {
    && (forall a :: a in t.lines ==> exists k :: FirstCover(es, a, k) && Described(es, a, k, t.lines[a]))
    && (forall a, k :: 0 <= k < |es| && Covers(es[k], a) ==> a in t.lines)
  }

  lemma {:induction false} EmplacedMeaning(t: Tables, e: DebugEntry, n: nat)
    requires e.Location? && (n > 0 ==> e.file in t.files && e.func in t.functions)
    ensures forall a :: a in Emplaced(t, e, n) <==> a in t.lines || exists j :: 0 <= j < n && a == Nth(e, j)
    ensures forall a :: a in Emplaced(t, e, n) ==>
      if a in t.lines then Emplaced(t, e, n)[a] == t.lines[a]
      else n > 0 && Emplaced(t, e, n)[a] == LineOf(t, e, a)
  {
    if n > 0 { EmplacedMeaning(t, e, n - 1); }
  }

  lemma {:induction false} StringsStep(es: seq<DebugEntry>, t: Tables, e: DebugEntry, u: Tables)
    requires StringsLoaded(es, t) && AddEntry(t, |es|, e) == Ok(u)
    ensures StringsLoaded(es + [e], u)
  {
    hide Emplaced;
    assert |es| !in t.files && |es| !in t.functions;
  }

  // Addresses the new entry adds are described by it; the others keep their first line.
  lemma {:induction false} LineStep(es: seq<DebugEntry>, t: Tables, e: DebugEntry, u: Tables, a: Long)
    requires StringsLoaded(es, t) && LinesLoaded(es, t) && AddEntry(t, |es|, e) == Ok(u)
    requires a in u.lines
    ensures exists k :: FirstCover(es + [e], a, k) && Described(es + [e], a, k, u.lines[a])
  {
    hide Emplaced;
    var n, fs := |es|, es + [e];
    if e.Location? { EmplacedMeaning(t, e, e.count); }
    if a in t.lines {
      var k :| FirstCover(es, a, k) && Described(es, a, k, t.lines[a]);
      assert FirstCover(fs, a, k) && Described(fs, a, k, u.lines[a]);
    } else {
      assert FirstCover(fs, a, n) && Described(fs, a, n, u.lines[a]);
    }
  }

  lemma {:induction false} LinesStep(es: seq<DebugEntry>, t: Tables, e: DebugEntry, u: Tables)
    requires StringsLoaded(es, t) && LinesLoaded(es, t) && AddEntry(t, |es|, e) == Ok(u)
    ensures LinesLoaded(es + [e], u)
  {
    hide Emplaced, FirstCover, Described, StringsLoaded;
    var n, fs := |es|, es + [e];
    forall a | a in u.lines ensures exists k :: FirstCover(fs, a, k) && Described(fs, a, k, u.lines[a]) {
      LineStep(es, t, e, u, a);
    }
    if e.Location? { EmplacedMeaning(t, e, e.count); }
    forall a, k | 0 <= k < |fs| && Covers(fs[k], a) ensures a in u.lines {
      if k < n { assert Covers(es[k], a); }
    }
  }

  /** Loading succeeds exactly when every location that covers an instruction names an earlier file and an
      earlier function, and then each address carries the texts of the first location that covers it. */
  lemma {:induction false} LoadMeaning(es: seq<DebugEntry>)
    ensures Load(es).Ok? <==> Resolves(es)
    ensures Load(es).Ok? ==> StringsLoaded(es, Load(es).value) && LinesLoaded(es, Load(es).value)
  {
    if es != [] {
      var n := |es| - 1;
      var init, e := es[..n], es[n];
      LoadMeaning(init);
      assert es == init + [e];
      assert forall k :: 0 <= k < n ==> ResolvesAt(init, k) == ResolvesAt(es, k);
      if Load(init).Ok? {
        LoadLast(init, Load(init).value, e);
        if Load(es).Ok? {
          StringsStep(init, Load(init).value, e, Load(es).value);
          LinesStep(init, Load(init).value, e, Load(es).value);
        }
      }
    }
  }

  lemma {:induction false} LoadLast(es: seq<DebugEntry>, t: Tables, e: DebugEntry)
    requires StringsLoaded(es, t)
    ensures AddEntry(t, |es|, e).Ok? <==> ResolvesAt(es + [e], |es|)
  { hide Emplaced; }
}
