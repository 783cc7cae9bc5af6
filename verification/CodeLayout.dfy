/** Slot reservation and expansion over a whole code section (Assembler::processText and Assembler::expandCode). */
module CodeLayout {
  import opened Words
  import opened Longs
  import opened Instructions
  import opened Expansion
  import opened Sections
  import opened Arithmetic

  // Where node i's slots start.
  function Start(p: seq<Node>, i: nat): nat
    requires i <= |p|
  { 8 * Slots(p, i) }

  // How many words the first i nodes reserve.
  function Slots(p: seq<Node>, i: nat): nat
    requires i <= |p|
  { if i == 0 then 0 else Slots(p, i - 1) + SlotCount(p[i - 1]) }

  predicate AllExpandable(p: seq<Node>) { forall i :: 0 <= i < |p| ==> Expandable(p[i]) }

  // The program's words, node by node.
  function AllWords(p: seq<Node>, n: nat): seq<Long>
    requires n <= |p| && AllExpandable(p)
  { if n == 0 then [] else AllWords(p, n - 1) + Expand(p[n - 1]) }

  // instructionMap: a later node at the same counter replaces an earlier one, which then had no slots.
  function InstructionMap(p: seq<Node>, n: nat): map<nat, Node>
    requires n <= |p|
  { if n == 0 then map[] else InstructionMap(p, n - 1)[Start(p, n - 1) := p[n - 1]] }

  lemma {:induction false} StartGrows(p: seq<Node>, i: nat, j: nat)
    requires i <= j <= |p|
    ensures Start(p, i) <= Start(p, j)
    ensures i < j ==> Start(p, i) + 8 * SlotCount(p[i]) <= Start(p, j)
    decreases j
  {
    hide SlotCount, Start;
    if i < j {
      StartStep(p, j - 1);
      StartGrows(p, i, j - 1);
    }
  }

  // A node with slots is the one the map holds at its start.
  lemma {:induction false} MapHolds(p: seq<Node>, n: nat, i: nat)
    requires i < n <= |p| && SlotCount(p[i]) > 0
    ensures Start(p, i) in InstructionMap(p, n) && InstructionMap(p, n)[Start(p, i)] == p[i]
  {
    hide SlotCount;
    if i < n - 1 {
      MapHolds(p, n - 1, i);
      StartGrows(p, i, n - 1);
    }
  }

  lemma {:induction false} MapSource(p: seq<Node>, n: nat, offset: nat) returns (i: nat)
    requires n <= |p| && offset in InstructionMap(p, n)
    ensures i < n && Start(p, i) == offset && InstructionMap(p, n)[offset] == p[i]
  {
    hide SlotCount;
    if offset == Start(p, n - 1) { i := n - 1; } else { i := MapSource(p, n - 1, offset); }
  }

  /** The part of processText that reserves slots: as many zero words as every node expands to. */
  method Reserve(p: seq<Node>) returns (code: Section, instructions: map<nat, Node>)
    ensures fresh(code) && code.counter == Start(p, |p|) && code.bytes == Repeat(0, Start(p, |p|))
    ensures instructions == InstructionMap(p, |p|)
  {
    hide SlotCount, Split;
    code := new Section();
    instructions := map[];
    for i := 0 to |p|
      invariant code.counter == Start(p, i) && code.bytes == Repeat(0, Start(p, i)) && fresh(code)
      invariant instructions == InstructionMap(p, i)
    {
      instructions := instructions[code.counter := p[i]];
      var count := ExpandedSize(p[i]);
      ghost var start := code.counter;
      for k := 0 to count
        invariant code.counter == start + 8 * k && code.bytes == Repeat(0, start + 8 * k) && fresh(code)
      {
        ZeroWord();
        assert Repeat(0, start + 8 * k) + Repeat(0, 8) == Repeat(0, start + 8 * (k + 1));
        code.AppendLong(0);
      }
    }
    var aligned := code.AlignUp(8);
    StartAligned(p, |p|);
    AlignAmount(Start(p, |p|), 8);
    assert Repeat(0, Start(p, |p|)) + Repeat(0, 0) == Repeat(0, Start(p, |p|));
  }

  lemma {:induction false} ZeroWord()
    ensures Split(0, 8) == Repeat(0, 8)
  { JoinRepeat(8); SplitJoin(Repeat(0, 8)); }

  lemma {:induction false} StartAligned(p: seq<Node>, i: nat)
    requires i <= |p|
    ensures Start(p, i) % 8 == 0
  { hide Slots; }

  // ----- the add* methods -----

  // The bytes so far: `done` words written from offset start.
  ghost predicate Writing(before: seq<Byte>, now: seq<Byte>, start: nat, done: seq<Long>)
  { start + 8 * |done| <= |before| && now == Splice(before, start, Flatten(done)) }

  lemma {:induction false} WriteNext(before: seq<Byte>, now: seq<Byte>, start: nat, done: seq<Long>, w: Long)
    requires Writing(before, now, start, done) && start + 8 * |done| + 8 <= |before|
    ensures Writing(before, Splice(now, start + 8 * |done|, Split(w, 8)), start, done + [w])
  {
    WordsNext(done + [w], |done|);
    assert (done + [w])[..|done|] == done && (done + [w])[..|done| + 1] == done + [w];
    hide Split, Flatten;
    SpliceNext(before, start, Flatten(done), Split(w, 8));
  }

  lemma {:induction false} SpliceNext(before: seq<Byte>, start: nat, a: seq<Byte>, b: seq<Byte>)
    requires start + |a| + |b| <= |before|
    ensures Splice(Splice(before, start, a), start + |a|, b) == Splice(before, start, a + b)
  {}

  lemma {:induction false} WriteNothing(before: seq<Byte>, start: nat)
    requires start <= |before|
    ensures Writing(before, before, start, [])
  { NoWords(); }

  /** code.insert(offset, word). */
  method InsertWord(code: Section, offset: nat, w: Long, ghost before: seq<Byte>, ghost start: nat, ghost done: seq<Long>)
    requires Writing(before, code.bytes, start, done) && offset == start + 8 * |done| && offset + 8 <= |before|
    modifies code`bytes
    ensures Writing(before, code.bytes, start, done + [w])
  {
    hide Writing, Split;
    ghost var now := code.bytes;
    WritingSize(before, now, start, done);
    WriteNext(before, now, start, done, w);
    var thrown := code.Insert(offset, w, 8);
  }

  lemma {:induction false} WritingSize(before: seq<Byte>, now: seq<Byte>, start: nat, done: seq<Long>)
    requires Writing(before, now, start, done)
    ensures |now| == |before|
  {}

  lemma {:induction false} PrintingNext(text: seq<Byte>, last: Byte, i: nat)
    requires i < |text|
    ensures Printing(text[..i + 1], last) == Printing(text[..i], last)
      + if text[i] != (if i == 0 then last else text[i - 1]) then [SetChar(text[i]), PrintM7()] else [PrintM7()]
    decreases i
  {
    hide SetChar, PrintM7;
    if i > 0 {
      assert text[..i + 1][1..] == text[1..][..i] && text[..i][1..] == text[1..][..i - 1];
      PrintingNext(text[1..], text[0], i - 1);
    } else {
      assert text[..1][1..] == [] && text[..0] == [];
    }
  }

  lemma {:induction false} EncodedNext(list: seq<Instruction>, i: Instruction)
    ensures Encoded(list + [i]) == Encoded(list) + [Word(i)]
    ensures Encoded([]) == []
  { hide Word; }

  /** addStringPrint. */
  method AddStringPrint(code: Section, start: nat, text: seq<Byte>)
    requires start + 8 * SlotCount(StringPrint(text)) <= |code.bytes|
    modifies code`bytes
    ensures code.bytes == Splice(old(code.bytes), start, Flatten(Expand(StringPrint(text))))
  {
    hide Writing, Printing, Encoded, Word, SetChar, PrintM7, Flatten;
    ghost var before, last := code.bytes, Before(text);
    ghost var list: seq<Instruction> := [];
    var offset := start;
    var lastChar := Before(text);
    WriteNothing(before, start);
    EncodedNext([], PrintM7());
    PrintingStart(text, last);
    for i := 0 to |text|
      invariant lastChar == if i == 0 then last else text[i - 1]
      invariant list == Printing(text[..i], last) && offset == start + 8 * |list|
      invariant Writing(before, code.bytes, start, Encoded(list))
    {
      PrintingNext(text, last, i);
      PrintingFits(text, last, i + 1);
      if text[i] != lastChar {
        InsertWord(code, offset, Word(SetChar(text[i])), before, start, Encoded(list));
        EncodedNext(list, SetChar(text[i]));
        list := list + [SetChar(text[i])];
        offset := offset + 8;
        lastChar := text[i];
      }
      InsertWord(code, offset, Word(PrintM7()), before, start, Encoded(list));
      EncodedNext(list, PrintM7());
      list := list + [PrintM7()];
      offset := offset + 8;
    }
    assert text[..|text|] == text;
    WritingDone(before, code.bytes, start, Encoded(list));
  }

  lemma {:induction false} PrintingStart(text: seq<Byte>, last: Byte)
    ensures Printing(text[..0], last) == []
  {}

  // A prefix prints in no more words than the whole.
  lemma {:induction false} PrintingFits(text: seq<Byte>, last: Byte, i: nat)
    requires i <= |text|
    ensures |Printing(text[..i], last)| <= |Printing(text, last)|
    decreases |text| - i
  {
    if i < |text| { PrintingNext(text, last, i); PrintingFits(text, last, i + 1); } else { assert text[..i] == text; }
  }

  lemma {:induction false} WritingDone(before: seq<Byte>, now: seq<Byte>, start: nat, done: seq<Long>)
    requires Writing(before, now, start, done)
    ensures start + 8 * |done| <= |before| && now == Splice(before, start, Flatten(done))
  {}

  // Two instructions, as addPseudoPrint and addIO insert them.
  method AddPair(code: Section, start: nat, first: Instruction, second: Instruction)
    requires start + 16 <= |code.bytes|
    modifies code`bytes
    ensures code.bytes == Splice(old(code.bytes), start, Flatten(Encoded([first, second])))
  {
    hide Writing, Encoded, Word, Flatten;
    ghost var before := code.bytes;
    WriteNothing(before, start);
    EncodedNext([], first);
    EncodedNext([first], second);
    assert [] + [first] == [first] && [first] + [second] == [first, second];
    InsertWord(code, start, Word(first), before, start, []);
    assert [] + [Word(first)] == Encoded([first]);
    InsertWord(code, start + 8, Word(second), before, start, Encoded([first]));
    WritingDone(before, code.bytes, start, Encoded([first, second]));
  }

  method AddOne(code: Section, start: nat, w: Long)
    requires start + 8 <= |code.bytes|
    modifies code`bytes
    ensures code.bytes == Splice(old(code.bytes), start, Flatten([w]))
  {
    hide Writing, Flatten;
    ghost var before := code.bytes;
    WriteNothing(before, start);
    InsertWord(code, start, w, before, start, []);
    assert [] + [w] == [w];
    WritingDone(before, code.bytes, start, [w]);
  }

  // These words stand at the offset, one after the other.
  predicate HoldsWords(bytes: seq<Byte>, offset: nat, ws: seq<Long>)
  { forall k :: 0 <= k < |ws| ==> HoldsWord(bytes, offset + 8 * k, ws[k]) }

  predicate HoldsWord(bytes: seq<Byte>, at: nat, w: Long) { Reads(bytes, at, 8, w) }

  lemma {:induction false} SliceHolds(bytes: seq<Byte>, offset: nat, ws: seq<Long>)
    requires offset + 8 * |ws| <= |bytes| && bytes[offset..offset + 8 * |ws|] == Flatten(ws)
    ensures HoldsWords(bytes, offset, ws)
  {
    hide Flatten, Reads;
    forall k | 0 <= k < |ws| ensures HoldsWord(bytes, offset + 8 * k, ws[k]) {
      FlattenWord(ws, k);
      SliceSlice(bytes, offset, offset + 8 * |ws|, 8 * k, 8 * k + 8);
      WordReads(bytes, offset + 8 * k, ws[k]);
    }
  }

  lemma {:induction false} WordReads(bytes: seq<Byte>, at: nat, w: Long)
    requires at + 8 <= |bytes| && bytes[at..at + 8] == Split(w, 8)
    ensures Reads(bytes, at, 8, w)
  {
    hide Split, Join, Four, Fits;
    var b := Split(w, 8);
    Fits8(w);
    JoinSplit(w, 8);
    JoinEight(b);
  }

  lemma {:induction false} SplicedHolds(bytes: seq<Byte>, offset: nat, ws: seq<Long>)
    requires offset + 8 * |ws| <= |bytes|
    ensures HoldsWords(Splice(bytes, offset, Flatten(ws)), offset, ws)
  {
    hide Flatten, HoldsWords;
    var after := Splice(bytes, offset, Flatten(ws));
    assert after[offset..offset + 8 * |ws|] == Flatten(ws);
    SliceHolds(after, offset, ws);
  }

  /** One turn of expandCode's loop: exactly the node's slots are written, or its io name is unknown. */
  method ExpandNode(code: Section, offset: nat, n: Node) returns (thrown: bool)
    requires offset + 8 * SlotCount(n) <= |code.bytes|
    modifies code`bytes
    ensures thrown <==> !Expandable(n)
    ensures code.bytes == if thrown then old(code.bytes) else Splice(old(code.bytes), offset, Flatten(Expand(n)))
    ensures !thrown ==> exists ws :: Stands(n, ws) && |ws| == SlotCount(n) && HoldsWords(code.bytes, offset, ws)
  {
    if Expandable(n) {
      ExpandStands(n);
      SlotsAre(n);
      SplicedHolds(code.bytes, offset, Expand(n));
    }
    hide Flatten, Encoded, Word, Printing, Stands, HoldsWords;
    thrown := false;
    match n
    case StringPrint(text) => AddStringPrint(code, offset, text);
    case CharPrint(ch) => AddPair(code, offset, SetChar(ch), PrintM7());
    case Io(None) =>
      OneEncoded(R(EXT, 0, 0, 0, 10, 0, 0));
      AddOne(code, offset, Word(R(EXT, 0, 0, 0, 10, 0, 0)));
    case Io(Some(ident)) =>
      if IoId(ident).None? { return true; }
      AddPair(code, offset, I(SET, 0, A0, IoId(ident).value, 0, 0), R(EXT, 0, 0, 0, 10, 0, 0));
    case Move(rs, rd) =>
      OneEncoded(R(LOGIC, rs, 0, rd, 4, 0, 0));
      AddOne(code, offset, Word(R(LOGIC, rs, 0, rd, 4, 0, 0)));
    case Plain(word) => AddOne(code, offset, word);
  }

  lemma {:induction false} OneEncoded(i: Instruction)
    ensures Encoded([i]) == [Word(i)]
  { hide Word; }

  // ----- the whole section -----

  // Node i's slots hold its expansion.
  ghost predicate PlacedAt(p: seq<Node>, bytes: seq<Byte>, i: nat)
    requires i < |p| && AllExpandable(p)
  {
    Start(p, i + 1) <= |bytes| && Start(p, i) <= Start(p, i + 1) && bytes[Start(p, i)..Start(p, i + 1)] == Flatten(Expand(p[i]))
  }

  // Every node with slots whose offset has been visited is in place.
  ghost predicate Placed(p: seq<Node>, bytes: seq<Byte>, done: set<nat>)
    requires AllExpandable(p)
  {
    |bytes| == Start(p, |p|) && forall i :: 0 <= i < |p| && SlotCount(p[i]) > 0 && Start(p, i) in done ==> PlacedAt(p, bytes, i)
  }

  // Writing one node's slots keeps every other node's.
  lemma {:induction false} PlacedStep(p: seq<Node>, bytes: seq<Byte>, done: set<nat>, i: nat)
    requires AllExpandable(p) && i < |p| && Placed(p, bytes, done)
    requires SlotCount(p[i]) == 0 ==> forall j :: 0 <= j < |p| && SlotCount(p[j]) > 0 ==> Start(p, j) != Start(p, i)
    ensures Start(p, i) + 8 * SlotCount(p[i]) <= |bytes|
    ensures Placed(p, Splice(bytes, Start(p, i), Flatten(Expand(p[i]))), done + {Start(p, i)})
  {
    hide Expand, SlotCount, Flatten;
    StartGrows(p, i, |p|);
    SlotsAre(p[i]);
    var after := Splice(bytes, Start(p, i), Flatten(Expand(p[i])));
    forall j | 0 <= j < |p| && SlotCount(p[j]) > 0 && Start(p, j) in done + {Start(p, i)} ensures PlacedAt(p, after, j) {
      StartGrows(p, j, |p|);
      SlotsAre(p[j]);
      if j != i {
        if j < i { StartGrows(p, j, i); } else { StartGrows(p, i, j); }
        OtherSlots(p, bytes, done, i, j);
      }
    }
  }

  lemma {:induction false} SlotsAre(n: Node)
    requires Expandable(n)
    ensures |Expand(n)| == SlotCount(n)
  {}

  lemma {:induction false} OtherSlots(p: seq<Node>, bytes: seq<Byte>, done: set<nat>, i: nat, j: nat)
    requires AllExpandable(p) && i < |p| && j < |p| && i != j && Placed(p, bytes, done) && Start(p, j) in done + {Start(p, i)}
    requires SlotCount(p[j]) > 0 && Start(p, j) + 8 * SlotCount(p[j]) <= |bytes|
    requires Start(p, i) + 8 * SlotCount(p[i]) <= |bytes| && |Expand(p[i])| == SlotCount(p[i])
    requires if j < i then Start(p, j) + 8 * SlotCount(p[j]) <= Start(p, i) else Start(p, i) + 8 * SlotCount(p[i]) <= Start(p, j)
    requires SlotCount(p[i]) == 0 ==> Start(p, j) != Start(p, i)
    ensures PlacedAt(p, Splice(bytes, Start(p, i), Flatten(Expand(p[i]))), j)
  {
    hide Expand, SlotCount, Flatten;
    assert Start(p, j) != Start(p, i);
    assert PlacedAt(p, bytes, j);
    SpliceElsewhere(bytes, Start(p, i), Flatten(Expand(p[i])), Start(p, j), Start(p, j + 1));
  }

  lemma {:induction false} SpliceElsewhere(bytes: seq<Byte>, at: nat, b: seq<Byte>, from: nat, to: nat)
    requires at + |b| <= |bytes| && from <= to <= |bytes| && (to <= at || at + |b| <= from)
    ensures Splice(bytes, at, b)[from..to] == bytes[from..to]
  {}

  // An empty node is in the map only where no node with slots starts.
  lemma {:induction false} EmptyAlone(p: seq<Node>, i: nat)
    requires i < |p| && Start(p, i) in InstructionMap(p, |p|) && InstructionMap(p, |p|)[Start(p, i)] == p[i] && SlotCount(p[i]) == 0
    ensures forall j :: 0 <= j < |p| && SlotCount(p[j]) > 0 ==> Start(p, j) != Start(p, i)
  {
    hide SlotCount;
    forall j | 0 <= j < |p| && SlotCount(p[j]) > 0 ensures Start(p, j) != Start(p, i) { MapHolds(p, |p|, j); }
  }

  // The bytes of the next node's slots, if it has any.
  lemma {:induction false} NextSlots(p: seq<Node>, bytes: seq<Byte>, i: nat)
    requires AllExpandable(p) && i < |p| && Placed(p, bytes, InstructionMap(p, |p|).Keys)
    ensures Start(p, i) <= Start(p, i + 1) <= |bytes|
    ensures bytes[Start(p, i)..Start(p, i + 1)] == Flatten(Expand(p[i]))
  {
    hide Expand, SlotCount, Flatten, Expandable, InstructionMap, Start;
    StartStep(p, i);
    PlacedSize(p, bytes);
    StartGrows(p, i + 1, |p|);
    if SlotCount(p[i]) > 0 {
      MapHolds(p, |p|, i);
      assert PlacedAt(p, bytes, i);
    } else {
      EmptySlots(p[i]) by { assert Expandable(p[i]); }
    }
  }

  lemma {:induction false} StartStep(p: seq<Node>, i: nat)
    requires i < |p|
    ensures Start(p, i + 1) == Start(p, i) + 8 * SlotCount(p[i])
  { hide SlotCount; }

  lemma {:induction false} PlacedSize(p: seq<Node>, bytes: seq<Byte>)
    requires AllExpandable(p) && Placed(p, bytes, InstructionMap(p, |p|).Keys)
    ensures |bytes| == Start(p, |p|)
  { hide SlotCount, Start, InstructionMap, PlacedAt; }

  lemma {:induction false} EmptySlots(n: Node)
    requires Expandable(n) && SlotCount(n) == 0
    ensures Flatten(Expand(n)) == []
  { SlotsAre(n); hide Expand, SlotCount, Flatten; assert |Flatten(Expand(n))| == 0; }

  // All in place: the section is the concatenation.
  lemma {:induction false} PlacedAll(p: seq<Node>, bytes: seq<Byte>, n: nat)
    requires AllExpandable(p) && n <= |p| && Placed(p, bytes, InstructionMap(p, |p|).Keys)
    ensures Start(p, n) <= |bytes| && bytes[..Start(p, n)] == Flatten(AllWords(p, n))
  {
    hide Expand, Flatten, Expandable, InstructionMap, Placed, Start;
    if n == 0 {
      StartZero(p);
      NoWords();
    } else {
      NextSlots(p, bytes, n - 1);
      PlacedAll(p, bytes, n - 1);
      FlattenConcat(AllWords(p, n - 1), Expand(p[n - 1]));
      SliceOn(bytes, Start(p, n - 1), Start(p, n));
    }
  }

  lemma {:induction false} StartZero(p: seq<Node>)
    ensures Start(p, 0) == 0
  {}

  lemma {:induction false} SliceOn(s: seq<Byte>, a: nat, b: nat)
    requires a <= b <= |s|
    ensures s[..b] == s[..a] + s[a..b]
  {}

  /** expandCode over everything processText reserved: no insert is out of range, and unless some io name is unknown,
      each node fills exactly its own slots, so the section becomes the nodes' expansions one after the other. The
      offsets may be visited in any order; the source visits them ascending. */
  method ExpandCode(p: seq<Node>, code: Section, instructions: map<nat, Node>) returns (thrown: bool)
    requires code.bytes == Repeat(0, Start(p, |p|)) && instructions == InstructionMap(p, |p|)
    modifies code`bytes
    ensures thrown <==> !AllExpandable(p)
    ensures !thrown ==> code.bytes == Flatten(AllWords(p, |p|))
    ensures !thrown ==> forall i :: 0 <= i < |p| ==> Laid(p, code.bytes, i)
  {
    hide Laid, HoldsWords, Expand, SlotCount, Flatten, Expandable, InstructionMap;
    var todo := instructions.Keys;
    while todo != {}
      invariant todo <= instructions.Keys && |code.bytes| == Start(p, |p|)
      invariant AllExpandable(p) ==> Placed(p, code.bytes, instructions.Keys - todo)
      invariant forall offset :: offset in instructions.Keys && offset !in todo ==> Expandable(instructions[offset])
    {
      var offset :| offset in todo;
      ghost var i := MapSource(p, |p|, offset);
      StartGrows(p, i, |p|);
      ghost var before := code.bytes;
      thrown := ExpandNode(code, offset, instructions[offset]);
      if thrown {
        assert !AllExpandable(p);
        return;
      }
      if AllExpandable(p) {
        if SlotCount(p[i]) == 0 { EmptyAlone(p, i); }
        PlacedStep(p, before, instructions.Keys - todo, i);
        assert instructions.Keys - todo + {offset} == instructions.Keys - (todo - {offset});
      }
      todo := todo - {offset};
    }
    thrown := false;
    AllVisited(p);
    PlacedAll(p, code.bytes, |p|);
    assert code.bytes[..Start(p, |p|)] == code.bytes;
    LaidAll(p);
  }

  // In the section, words that stand for node i begin at its start.
  ghost predicate Laid(p: seq<Node>, bytes: seq<Byte>, i: nat)
    requires i < |p|
  { exists ws :: Stands(p[i], ws) && |ws| == SlotCount(p[i]) && HoldsWords(bytes, Start(p, i), ws) }

  lemma {:induction false} WordsPlace(p: seq<Node>, n: nat, i: nat)
    requires AllExpandable(p) && i < n <= |p|
    ensures |AllWords(p, i)| == Slots(p, i) && Slots(p, i) + SlotCount(p[i]) <= |AllWords(p, n)|
    ensures AllWords(p, n)[Slots(p, i)..Slots(p, i) + SlotCount(p[i])] == Expand(p[i])
    decreases n
  {
    hide Expand, SlotCount;
    WordsCount(p, i);
    SlotsAre(p[i]);
    if i < n - 1 {
      WordsPlace(p, n - 1, i);
      assert AllWords(p, n)[..|AllWords(p, n - 1)|] == AllWords(p, n - 1);
      SliceSlice(AllWords(p, n), 0, |AllWords(p, n - 1)|, Slots(p, i), Slots(p, i) + SlotCount(p[i]));
    }
  }

  lemma {:induction false} WordsCount(p: seq<Node>, n: nat)
    requires AllExpandable(p) && n <= |p|
    ensures |AllWords(p, n)| == Slots(p, n)
  {
    hide Expand, SlotCount;
    if n > 0 { WordsCount(p, n - 1); SlotsAre(p[n - 1]); }
  }

  lemma {:induction false} LaidAll(p: seq<Node>)
    requires AllExpandable(p)
    ensures forall i :: 0 <= i < |p| ==> Laid(p, Flatten(AllWords(p, |p|)), i)
  {
    hide Expand, SlotCount, Flatten, AllWords, Slots, HoldsWords, Stands;
    var ws := AllWords(p, |p|);
    forall i | 0 <= i < |p| ensures Laid(p, Flatten(ws), i) {
      WordsPlace(p, |p|, i);
      SlotsAre(p[i]);
      ExpandStands(p[i]);
      FlattenSlice(ws, Slots(p, i), Slots(p, i) + SlotCount(p[i]));
      SliceHolds(Flatten(ws), Start(p, i), Expand(p[i]));
    }
  }

  /** So an ordinary instruction's own word is at its start, and if it was compiled from an instruction of a format the
      machine knows, the machine decodes it there as that instruction. */
  lemma {:induction false} PlainLaid(p: seq<Node>, bytes: seq<Byte>, i: nat, instruction: Instruction)
    requires i < |p| && p[i].Plain? && Laid(p, bytes, i)
    ensures SlotCount(p[i]) == 1 && Reads(bytes, Start(p, i), 8, p[i].word)
    ensures p[i].word == Encode(instruction) ==> (VmDecode(p[i].word) == Ok(instruction) <==> VmTyped(instruction))
  {
    hide VmDecode, Encode, VmTyped, Reads;
    var ws :| Stands(p[i], ws) && |ws| == SlotCount(p[i]) && HoldsWords(bytes, Start(p, i), ws);
    assert HoldsWord(bytes, Start(p, i) + 8 * 0, ws[0]);
    InstructionRoundTrip(instruction);
  }

  // A node that cannot be expanded has slots, so it is met.
  lemma {:induction false} AllVisited(p: seq<Node>)
    requires forall offset :: offset in InstructionMap(p, |p|) ==> Expandable(InstructionMap(p, |p|)[offset])
    ensures AllExpandable(p)
  {
    hide InstructionMap;
    forall i | 0 <= i < |p| ensures Expandable(p[i]) {
      if SlotCount(p[i]) > 0 { MapHolds(p, |p|, i); }
    }
  }
}
