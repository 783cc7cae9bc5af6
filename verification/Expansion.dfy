/** The pseudo-instructions of the assembler: how many slots each reserves (wasmc/src/wasm/Nodes.cpp), what it expands
    to (Assembler::expandCode and the add* methods), and what a string print does when the machine runs it. */
module Expansion {
  import opened Words
  import opened Longs
  import opened Instructions
  import Machine
  import O = Operations

  const M7: Reg := 109
  const A0: Reg := 23
  const SET: Opcode := 21
  const EXT: Opcode := 31
  const LOGIC: Opcode := 2

  // A code-section statement. Plain stands for any instruction that compiles to one word.
  datatype Node =
    | StringPrint(text: seq<Byte>)
    | CharPrint(ch: Byte)
    | Io(ident: Option<string>)
    | Move(rs: Reg, rd: Reg)
    | Plain(word: Long)

  // static_cast<uint32_t> of a plain char
  function CharImmediate(ch: Byte): Imm32 { if ch >= 128 then ch + 0xFFFF_FF00 else ch }

  function SetChar(ch: Byte): Instruction { I(SET, 0, M7, CharImmediate(ch), 0, 0) }
  function PrintM7(): Instruction { R(EXT, M7, 0, 0, 4, 0, 0) }

  function Printing(text: seq<Byte>, last: Byte): seq<Instruction>
  {
    if text == [] then [] else
    (if text[0] != last then [SetChar(text[0]), PrintM7()] else [PrintM7()]) + Printing(text[1..], text[0])
  }

  // last_char starts one below the first character, in a char.
  function Before(text: seq<Byte>): Byte { if text == [] then 0 else (text[0] as int + 255) % 256 }

  function IoId(ident: string): Option<Imm32>
  {
    if ident == "devcount" then Some(0) else if ident == "seekabs" then Some(1) else if ident == "seekrel" then Some(2)
    else if ident == "read" then Some(3) else if ident == "write" then Some(4) else if ident == "getsize" then Some(5)
    else if ident == "getcursor" then Some(6) else if ident == "getname" then Some(7) else None
  }

  predicate Expandable(n: Node) { n.Io? && n.ident.Some? ==> IoId(n.ident.value).Some? }

  // What a node's slots hold afterwards.
  function Expand(n: Node): seq<Long>
    requires Expandable(n)
  {
    match n
    case StringPrint(text) => Encoded(Printing(text, Before(text)))
    case CharPrint(ch) => Encoded([SetChar(ch), PrintM7()])
    case Io(None) => Encoded([R(EXT, 0, 0, 0, 10, 0, 0)])
    case Io(Some(ident)) => Encoded([I(SET, 0, A0, IoId(ident).value, 0, 0), R(EXT, 0, 0, 0, 10, 0, 0)])
    case Move(rs, rd) => Encoded([R(LOGIC, rs, 0, rd, 4, 0, 0)])
    case Plain(word) => [word]
  }

  function Word(i: Instruction): Long { EncodeFits(i); Encode(i) }

  function Encoded(list: seq<Instruction>): (ws: seq<Long>)
    ensures |ws| == |list|
  { seq(|list|, k requires 0 <= k < |list| => Word(list[k])) }

  // ----- expandedSize -----

  function Changes(text: seq<Byte>, last: Byte): nat
  { if text == [] then 0 else (if text[0] != last then 1 else 0) + Changes(text[1..], text[0]) }

  lemma {:induction false} PrintingSize(text: seq<Byte>, last: Byte)
    ensures |Printing(text, last)| == |text| + Changes(text, last)
  { if text != [] { PrintingSize(text[1..], text[0]); } }

  lemma {:induction false} ChangesNext(text: seq<Byte>, last: Byte, i: nat)
    requires i < |text|
    ensures Changes(text[..i + 1], last)
      == Changes(text[..i], last) + if text[i] != (if i == 0 then last else text[i - 1]) then 1 else 0
    decreases i
  {
    if i > 0 {
      assert text[..i + 1][1..] == text[1..][..i] && text[..i][1..] == text[1..][..i - 1];
      ChangesNext(text[1..], text[0], i - 1);
    } else {
      assert text[..1][1..] == [] && text[..0] == [];
    }
  }

  method StringPrintSize(text: seq<Byte>) returns (out: nat)
    ensures out == |Printing(text, Before(text))|
  {
    out := 0;
    var lastChar := Before(text);
    for i := 0 to |text|
      invariant lastChar == if i == 0 then Before(text) else text[i - 1]
      invariant out == i + Changes(text[..i], Before(text))
    {
      ChangesNext(text, Before(text), i);
      if text[i] != lastChar {
        out := out + 1;
        lastChar := text[i];
      }
      out := out + 1;
    }
    assert text[..|text|] == text;
    PrintingSize(text, Before(text));
  }

  /** expandedSize: exactly as many slots as the expansion fills, whether or not it can be expanded. */
  method ExpandedSize(n: Node) returns (size: nat)
    ensures Expandable(n) ==> size == |Expand(n)|
    ensures size == SlotCount(n)
  {
    match n
    case StringPrint(text) => size := StringPrintSize(text);
    case CharPrint(_) => size := 2;
    case Io(ident) => size := if ident.Some? then 2 else 1;
    case Move(_, _) => size := 1;
    case Plain(_) => size := 1;
  }

  function SlotCount(n: Node): (size: nat)
    ensures Expandable(n) ==> size == |Expand(n)|
  {
    match n
    case StringPrint(text) => |Printing(text, Before(text))|
    case CharPrint(_) => 2
    case Io(ident) => if ident.Some? then 2 else 1
    case Move(_, _) => 1
    case Plain(_) => 1
  }

  // ----- running a string print -----

  // The operation an instruction word stands for, for the formats used here.
  function OperationOf(i: Instruction): Option<O.Operation>
  {
    match i
    case I(op, _, rd, imm, _, _) => if op == SET then Some(O.Set(rd, if imm >= 0x8000_0000 then imm + 0xFFFF_FFFF_0000_0000 else imm)) else None
    case R(op, rs, rt, rd, funct, _, _) =>
      if op == EXT && funct == 4 then Some(O.PrintChar(rs))
      else if op == LOGIC && funct == 4 then Some(O.Compute(rd, rs, rt, (a: Long, b: Long) => Wrap(BitOr(a, b)), true))
      else None
    case _ => None
  }

  // Fetched words decoded and executed one after the other.
  function RunWords(v: O.Vm, ws: seq<Long>): Option<O.Outcome>
    decreases |ws|
  {
    if ws == [] then Some(O.Outcome(v, false)) else
    match VmDecode(ws[0])
    case Err(_) => None
    case Ok(i) =>
      match OperationOf(i)
      case None => None
      case Some(op) =>
        var r := O.Execute(v, op);
        if r.thrown then Some(r) else RunWords(r.vm, ws[1..])
  }

  lemma {:induction false} SetDecodes(ch: Byte)
    ensures VmDecode(Word(SetChar(ch))) == Ok(SetChar(ch))
    ensures OperationOf(SetChar(ch)) == Some(O.Set(M7, Widen(ch, true)))
  { hide VmDecode, Encode; InstructionRoundTrip(SetChar(ch)); }

  lemma {:induction false} PrintDecodes()
    ensures VmDecode(Word(PrintM7())) == Ok(PrintM7()) && OperationOf(PrintM7()) == Some(O.PrintChar(M7))
  { hide VmDecode, Encode; InstructionRoundTrip(PrintM7()); }

  // From v to w n words have printed the text and touched $m7 and the program counter alone; each has committed one
  // group to the history, if there is one.
  predicate Prints(v: O.Vm, w: O.Vm, text: seq<Byte>, n: nat)
  {
    && w == v.(s := v.s.(regs := v.s.regs[M7 := w.s.regs[M7]], pc := Wrap(v.s.pc + 8 * n)), printed := v.printed + text,
               undoStack := w.undoStack, buffer := w.buffer, pointer := w.pointer)
    && (if v.recording && n > 0
        then w.pointer == v.pointer + n && w.buffer == [] && Follows(v, w)
        else w.undoStack == v.undoStack && w.buffer == v.buffer && w.pointer == v.pointer)
  }

  predicate Follows(v: O.Vm, w: O.Vm)
  {
    v.pointer <= |v.undoStack| ==>
      |w.undoStack| == w.pointer && v.pointer <= w.pointer && w.undoStack[..v.pointer] == v.undoStack[..v.pointer]
  }

  lemma {:induction false} PrintsNothing(v: O.Vm)
    ensures Prints(v, v, [], 0)
  { NoWrap(v.s.pc); assert v.printed + [] == v.printed; }

  lemma {:induction false} PrintsOn(v: O.Vm, w: O.Vm, x: O.Vm, a: seq<Byte>, b: seq<Byte>, m: nat, n: nat)
    requires Prints(v, w, a, m) && Prints(w, x, b, n)
    ensures Prints(v, x, a + b, m + n)
  {
    hide Wrap;
    ConcatAssoc(v.printed, a, b);
    WrapTwice(v.s.pc, 8 * m, 8 * n);
    assert v.s.regs[M7 := w.s.regs[M7]][M7 := x.s.regs[M7]] == v.s.regs[M7 := x.s.regs[M7]];
    if v.recording && m > 0 && n > 0 && v.pointer <= |v.undoStack| {
      assert x.undoStack[..w.pointer][..v.pointer] == x.undoStack[..v.pointer];
      assert w.undoStack[..w.pointer] == w.undoStack;
    }
  }

  lemma {:induction false} WrapTwice(x: int, a: int, b: int)
    ensures Wrap(Wrap(x + a) + b) == Wrap(x + (a + b))
  {}

  lemma {:induction false} PrintEffect(v: O.Vm)
    ensures var r := O.Execute(v, O.PrintChar(M7)); !r.thrown && Prints(v, r.vm, [v.s.regs[M7] % 256], 1)
  {}

  lemma {:induction false} SetEffect(v: O.Vm, ch: Byte)
    ensures var r := O.Execute(v, O.Set(M7, Widen(ch, true)));
      !r.thrown && Prints(v, r.vm, [], 1) && r.vm.s.regs[M7] % 256 == ch
  { assert v.printed + [] == v.printed; }

  // The words of one character, with $m7 already holding the last one printed.
  lemma {:induction false} OneCharacter(v: O.Vm, ch: Byte, last: Byte) returns (w: O.Vm)
    requires ch == last ==> v.s.regs[M7] % 256 == last
    ensures w.s.regs[M7] % 256 == ch && Prints(v, w, [ch], if ch != last then 2 else 1)
    ensures forall rest: seq<Long> ::
      RunWords(v, Encoded(if ch != last then [SetChar(ch), PrintM7()] else [PrintM7()]) + rest) == RunWords(w, rest)
  {
    hide VmDecode, Encode, OperationOf, O.Execute, Widen, Prints;
    PrintDecodes();
    SetDecodes(ch);
    w := v;
    if ch != last {
      SetEffect(v, ch);
      w := O.Execute(v, O.Set(M7, Widen(ch, true))).vm;
    }
    var x := w;
    PrintEffect(x);
    w := O.Execute(x, O.PrintChar(M7)).vm;
    if ch != last { PrintsOn(v, x, w, [], [ch], 1, 1); assert [] + [ch] == [ch]; }
    PrintsKeepsM7(x, w, ch);
    forall rest: seq<Long>
      ensures RunWords(v, Encoded(if ch != last then [SetChar(ch), PrintM7()] else [PrintM7()]) + rest) == RunWords(w, rest)
    {
      var one := Encoded([PrintM7()]) + rest;
      assert one[0] == Word(PrintM7()) && one[1..] == rest;
      assert RunWords(x, one) == RunWords(w, rest);
      if ch != last {
        var both := Encoded([SetChar(ch), PrintM7()]) + rest;
        assert both[0] == Word(SetChar(ch)) && both[1..] == one;
        assert RunWords(v, both) == RunWords(x, one);
      }
    }
  }

  lemma {:induction false} PrintsKeepsM7(v: O.Vm, w: O.Vm, ch: Byte)
    requires w == O.Execute(v, O.PrintChar(M7)).vm
    ensures w.s.regs == v.s.regs
  {}

  // Words run by words, with $m7 already holding the last character printed.
  lemma {:induction false} PrintingRuns(v: O.Vm, text: seq<Byte>, last: Byte)
    requires text != [] && text[0] == last ==> v.s.regs[M7] % 256 == last
    ensures var r := RunWords(v, Encoded(Printing(text, last)));
      r.Some? && !r.value.thrown && Prints(v, r.value.vm, text, |Printing(text, last)|)
    decreases |text|
  {
    hide VmDecode, Encode, OperationOf, O.Execute, Widen, Prints;
    if text == [] {
      PrintsNothing(v);
    } else {
      var w := OneCharacter(v, text[0], last);
      var first, rest := if text[0] != last then [SetChar(text[0]), PrintM7()] else [PrintM7()], Printing(text[1..], text[0]);
      PrintingRuns(w, text[1..], text[0]);
      assert Encoded(first + rest) == Encoded(first) + Encoded(rest);
      assert text == [text[0]] + text[1..];
      PrintsOn(v, w, RunWords(w, Encoded(rest)).value.vm, [text[0]], text[1..], |first|, |rest|);
    }
  }

  /** For any text and from any machine state, whatever $m7 holds, the words a string print expands to print exactly
      the text, touch nothing of the machine but $m7 and the program counter, commit one group each to its history, and
      are as many as were reserved. */
  lemma {:induction false} StringPrintPrints(v: O.Vm, text: seq<Byte>)
    ensures var n := StringPrint(text); var r := RunWords(v, Expand(n));
      r.Some? && !r.value.thrown && Prints(v, r.value.vm, text, SlotCount(n))
  {
    hide RunWords, Encoded, Printing, Wrap, Prints;
    if text != [] { assert Before(text) != text[0]; }
    PrintingRuns(v, text, Before(text));
  }

  /** A character print prints its character. */
  lemma {:induction false} CharPrintPrints(v: O.Vm, ch: Byte)
    ensures var r := RunWords(v, Expand(CharPrint(ch)));
      r.Some? && !r.value.thrown && Prints(v, r.value.vm, [ch], 2)
  {
    hide RunWords, Encoded, Wrap, SetChar, PrintM7, Prints;
    var text := [ch];
    assert Before(text) != ch;
    assert text[1..] == [];
    assert Printing(text, Before(text)) == [SetChar(ch), PrintM7()];
    StringPrintPrints(v, text);
  }

  /** A move is an `or` with $0, which the machine does not protect: it copies its register exactly when $0 holds
      no bit the register lacks. It sets the flags by the copy, over the copy itself when that went to $st, and writes no
      other register and no memory. */
  lemma {:induction false} MoveCopies(v: O.Vm, rs: Reg, rd: Reg)
    ensures var r := RunWords(v, Expand(Move(rs, rd))); var both := Wrap(BitOr(v.s.regs[rs], v.s.regs[0]));
      && r.Some? && !r.value.thrown
      && r.value.vm.s == v.s.(regs := v.s.regs[rd := both][Machine.ST := O.Flags(both)], pc := Plus(v.s.pc, 8))
      && (rd != Machine.ST ==> (r.value.vm.s.regs[rd] == v.s.regs[rs] <==> both == v.s.regs[rs]))
    ensures v.s.regs[0] == 0 ==> Wrap(BitOr(v.s.regs[rs], v.s.regs[0])) == v.s.regs[rs]
  {
    hide VmDecode, Encode, Wrap, O.Flags;
    var i := R(LOGIC, rs, 0, rd, 4, 0, 0);
    InstructionRoundTrip(i);
    assert VmDecode(Word(i)) == Ok(i);
    assert Encoded([i])[1..] == [];
    NoWrap(v.s.regs[rs]);
    OrZero(v.s.regs[rs]);
  }

  lemma {:induction false} OrZero(a: nat)
    ensures BitOr(a, 0) == a
  {}

  // ----- the words themselves -----

  // The machine decodes the word as this instruction.
  predicate Means(w: Long, i: Instruction) { VmDecode(w) == Ok(i) }

  // The ids of the io names.
  predicate IoNumber(ident: string, id: Imm32)
  {
    || (ident == "devcount" && id == 0) || (ident == "seekabs" && id == 1) || (ident == "seekrel" && id == 2)
    || (ident == "read" && id == 3) || (ident == "write" && id == 4) || (ident == "getsize" && id == 5)
    || (ident == "getcursor" && id == 6) || (ident == "getname" && id == 7)
  }

  // A set (21) of $m7 (109) to a character, sign-extended, and a character print (31, 4) of it.
  predicate SetsCharacter(w: Long, ch: Byte)
  { Means(w, I(21, 0, 109, if ch >= 128 then ch + 0xFFFF_FF00 else ch, 0, 0)) }

  predicate PrintsCharacter(w: Long) { Means(w, R(31, 109, 0, 0, 4, 0, 0)) }

  // What a node's words are: an ordinary instruction's own word; an io call (31, 10), after $a0 (23) has been set to the
  // id of its name; an or (2, 4) with $0; a character, set and printed; and for a string one print for each character,
  // each after at most one set.
  predicate Stands(n: Node, ws: seq<Long>)
  {
    match n
    case Plain(word) => ws == [word]
    case Io(None) => |ws| == 1 && Means(ws[0], R(31, 0, 0, 0, 10, 0, 0))
    case Io(Some(ident)) =>
      |ws| == 2 && Means(ws[1], R(31, 0, 0, 0, 10, 0, 0))
      && exists id: Imm32 :: IoNumber(ident, id) && Means(ws[0], I(21, 0, 23, id, 0, 0))
    case Move(rs, rd) => |ws| == 1 && Means(ws[0], R(2, rs, 0, rd, 4, 0, 0))
    case CharPrint(ch) => |ws| == 2 && SetsCharacter(ws[0], ch) && PrintsCharacter(ws[1])
    case StringPrint(text) => StandsFor(ws, text)
  }

  predicate StandsFor(ws: seq<Long>, text: seq<Byte>)
    decreases |text|
  {
    if text == [] then ws == [] else
    (ws != [] && PrintsCharacter(ws[0]) && StandsFor(ws[1..], text[1..]))
    || (|ws| >= 2 && SetsCharacter(ws[0], text[0]) && PrintsCharacter(ws[1]) && StandsFor(ws[2..], text[1..]))
  }

  lemma {:induction false} WordMeans(i: Instruction)
    requires VmTyped(i)
    ensures Means(Word(i), i)
  { hide VmDecode, Encode; InstructionRoundTrip(i); }

  lemma {:induction false} KnownTypes(ch: Byte, rs: Reg, rd: Reg, id: Imm32)
    ensures VmTyped(SetChar(ch)) && VmTyped(PrintM7()) && VmTyped(R(EXT, 0, 0, 0, 10, 0, 0)) && VmTyped(I(SET, 0, A0, id, 0, 0))
    ensures VmTyped(R(LOGIC, rs, 0, rd, 4, 0, 0))
  {}

  lemma {:induction false} CharacterWords(ch: Byte)
    ensures SetsCharacter(Word(SetChar(ch)), ch) && PrintsCharacter(Word(PrintM7()))
  {
    KnownTypes(ch, 0, 0, 0);
    WordMeans(SetChar(ch));
    WordMeans(PrintM7());
    hide Word, Means;
  }

  lemma {:induction false} PrintingStands(text: seq<Byte>, last: Byte)
    ensures StandsFor(Encoded(Printing(text, last)), text)
    decreases |text|
  {
    hide Word, SetsCharacter, PrintsCharacter, SetChar, PrintM7;
    if text != [] {
      PrintingStands(text[1..], text[0]);
      CharacterWords(text[0]);
      var rest, ws := Printing(text[1..], text[0]), Encoded(Printing(text, last));
      if text[0] != last { assert ws[2..] == Encoded(rest); } else { assert ws[1..] == Encoded(rest); }
    }
  }

  /** A node's expansion stands for the node. */
  lemma {:induction false} ExpandStands(n: Node)
    requires Expandable(n)
    ensures Stands(n, Expand(n))
  {
    hide Word, Means, Printing, SetsCharacter, PrintsCharacter, SetChar, PrintM7, StandsFor;
    match n
    case Plain(word) =>
    case Io(None) => KnownTypes(0, 0, 0, 0); WordMeans(R(EXT, 0, 0, 0, 10, 0, 0));
    case Io(Some(ident)) =>
      var id := IoId(ident).value;
      KnownTypes(0, 0, 0, id);
      WordMeans(R(EXT, 0, 0, 0, 10, 0, 0));
      WordMeans(I(SET, 0, A0, id, 0, 0));
      assert IoNumber(ident, id);
    case Move(rs, rd) => KnownTypes(0, rs, rd, 0); WordMeans(R(LOGIC, rs, 0, rd, 4, 0, 0));
    case CharPrint(ch) => CharacterWords(ch);
    case StringPrint(text) => PrintingStands(text, Before(text));
  }

  /** An io name is known exactly if it has an id. */
  lemma {:induction false} KnownNames(ident: string)
    ensures Expandable(Io(Some(ident))) <==> exists id: Imm32 :: IoNumber(ident, id)
    ensures Expandable(Io(None))
  {
    if IoId(ident).Some? { assert IoNumber(ident, IoId(ident).value); }
  }
}
