/** The machine's observable state, its memory accessors, and its reversible changes
    (wvm/include/VM.h, wvm/src/VM.cpp, wvm/src/Changes.cpp). */
module Machine {
  import opened Words
  import Instructions

  type Reg = Instructions.Reg
  type Registers = s: seq<Long> | |s| == 128 witness seq(128, _ => 0)
  type Ring = x: int | 0 <= x < 4

  const SP: Reg := 2
  const FP: Reg := 3
  const RT: Reg := 4
  const LO: Reg := 5
  const HI: Reg := 6
  const ST: Reg := 101
  const E0: Reg := 122
  const E1: Reg := 123
  const E2: Reg := 124

  datatype State = State(mem: seq<Byte>, regs: Registers, pc: Long, ring: Ring, p0: Long, paging: bool, table: Long, active: bool)

  datatype Size = Byte1 | Quarter | Half | Whole

  function Bytes(size: Size): (n: nat)
    ensures n == 1 || n == 2 || n == 4 || n == 8
  { match size case Byte1 => 1 case Quarter => 2 case Half => 4 case Whole => 8 }

  // ----- memory -----

  // The accessed bytes exist. Words are signed, so the upper half of the addresses is negative.
  predicate Inside(memory: seq<Byte>, address: Long, size: Size)
  { address < TWO63 && address + Bytes(size) <= |memory| }

  // The accessors' own check: `Word(memorySize) <= address - 7 || address < 0` throws.
  predicate GuardPasses(memorySize: nat, address: Long, size: Size)
  { !(memorySize <= Signed(address) - (Bytes(size) - 1) || Signed(address) < 0) }

  /** The check admits every access that is inside, and beyond those exactly the accesses that start in the last
      bytes of memory or within a width of its end. */
  lemma {:induction false} GuardIsLoose(memory: seq<Byte>, address: Long, size: Size)
    ensures Inside(memory, address, size) ==> GuardPasses(|memory|, address, size)
    ensures GuardPasses(|memory|, address, size) && !Inside(memory, address, size)
      <==> address < TWO63 && |memory| < address + Bytes(size) && address + 1 < |memory| + Bytes(size)
  {}

  function Get(memory: seq<Byte>, address: Long, size: Size): (w: Long)
    requires Inside(memory, address, size)
    ensures Fits(w, Bytes(size)) && Split(w, Bytes(size)) == memory[address..address + Bytes(size)]
  {
    var bs := memory[address..address + Bytes(size)];
    Join8Bound(bs); SplitJoin(bs);
    Join(bs)
  }

  function Put(memory: seq<Byte>, address: Long, size: Size, value: Long): (m: seq<Byte>)
    requires Inside(memory, address, size)
    ensures |m| == |memory|
  { Splice(memory, address, Split(value, Bytes(size))) }

  // The low bytes of a value.
  function Truncated(value: Long, size: Size): (w: Long)
    ensures Fits(w, Bytes(size)) && Split(w, Bytes(size)) == Split(value, Bytes(size))
  {
    Join8Bound(Split(value, Bytes(size))); SplitJoin(Split(value, Bytes(size)));
    Join(Split(value, Bytes(size)))
  }

  lemma {:induction false} GetPut(memory: seq<Byte>, address: Long, size: Size, value: Long)
    requires Inside(memory, address, size)
    ensures Get(Put(memory, address, size, value), address, size) == Truncated(value, size)
  {
    assert Put(memory, address, size, value)[address..address + Bytes(size)] == Split(value, Bytes(size));
  }

  // Accesses of disjoint bytes do not see each other.
  lemma {:induction false} GetElsewhere(memory: seq<Byte>, address: Long, size: Size, value: Long, other: Long, width: Size)
    requires Inside(memory, address, size) && Inside(memory, other, width)
    requires other + Bytes(width) <= address || address + Bytes(size) <= other
    ensures Get(Put(memory, address, size, value), other, width) == Get(memory, other, width)
  {
    assert Put(memory, address, size, value)[other..other + Bytes(width)] == memory[other..other + Bytes(width)];
  }

  lemma {:induction false} PutBack(memory: seq<Byte>, address: Long, size: Size, value: Long)
    requires Inside(memory, address, size)
    ensures Put(Put(memory, address, size, value), address, size, Get(memory, address, size)) == memory
  {
    assert Split(Get(memory, address, size), Bytes(size)) == memory[address..address + Bytes(size)];
  }

  // ----- changes -----

  datatype Change =
    | MemoryChange(address: Long, was: Long, will: Long, size: Size)
    | RegisterChange(reg: Reg, was: Long, will: Long)
    | JumpChange(was: Long, will: Long, returnWas: Long, returnWill: Long, link: bool)
    | TableChange(was: Long, will: Long)
    | RingChange(wasRing: Ring, willRing: Ring)
    | HaltChange
    | PagingChange(wasOn: bool, willOn: bool)
    | P0Change(was: Long, will: Long)

  // A memory change reaches the accessors' throw when its bytes are not there.
  predicate Reaches(c: Change, s: State)
  { c.MemoryChange? ==> Inside(s.mem, c.address, c.size) }

  function Apply(c: Change, s: State): (t: State)
    requires Reaches(c, s)
    ensures |t.mem| == |s.mem|
  {
    match c
    case MemoryChange(address, _, will, size) => s.(mem := Put(s.mem, address, size, will))
    case RegisterChange(reg, _, will) => s.(regs := s.regs[reg := will])
    case JumpChange(_, will, _, returnWill, link) => s.(pc := will, regs := if link then s.regs[RT := returnWill] else s.regs)
    case TableChange(_, will) => s.(table := will)
    case RingChange(_, will) => s.(ring := will)
    case HaltChange => s.(active := false)
    case PagingChange(_, will) => s.(paging := will)
    case P0Change(_, will) => s.(p0 := will)
  }

  function Undo(c: Change, s: State): (t: State)
    requires Reaches(c, s)
    ensures |t.mem| == |s.mem|
  {
    match c
    case MemoryChange(address, was, _, size) => s.(mem := Put(s.mem, address, size, was))
    case RegisterChange(reg, was, _) => s.(regs := s.regs[reg := was])
    case JumpChange(was, _, returnWas, _, link) => s.(pc := was, regs := if link then s.regs[RT := returnWas] else s.regs)
    case TableChange(was, _) => s.(table := was)
    case RingChange(was, _) => s.(ring := was)
    case HaltChange => s.(active := true)
    case PagingChange(was, _) => s.(paging := was)
    case P0Change(was, _) => s.(p0 := was)
  }

  // The change records what it is about to overwrite, as the capturing constructors do.
  predicate Captured(c: Change, s: State)
  {
    match c
    case MemoryChange(address, was, _, size) => Inside(s.mem, address, size) && was == Get(s.mem, address, size)
    case RegisterChange(reg, was, _) => was == s.regs[reg]
    case JumpChange(was, _, returnWas, _, link) => was == s.pc && (link ==> returnWas == s.regs[RT])
    case TableChange(was, _) => was == s.table
    case RingChange(was, _) => was == s.ring
    case HaltChange => s.active
    case PagingChange(was, _) => was == s.paging
    case P0Change(was, _) => was == s.p0
  }

  /** Undoing a change right after applying it gives the state back exactly when the change had captured it. */
  lemma {:induction false} CapturedIsUndone(c: Change, s: State)
    requires Reaches(c, s) && (c.MemoryChange? ==> Fits(c.was, Bytes(c.size)))
    ensures Undo(c, Apply(c, s)) == s <==> Captured(c, s)
  {
    match c
    case MemoryChange(address, was, will, size) =>
      PutBack(s.mem, address, size, will);
      var m := Put(s.mem, address, size, will);
      if Put(m, address, size, was) == s.mem {
        GetPut(m, address, size, was);
        SplitInjective(Truncated(was, size), was, Bytes(size));
      }
    case RegisterChange(reg, was, will) =>
      assert s.regs[reg := will][reg := was][reg] == was;
      assert s.regs[reg := will][reg := s.regs[reg]] == s.regs;
    case JumpChange(was, will, returnWas, returnWill, link) =>
      assert s.regs[RT := returnWill][RT := returnWas][RT] == returnWas;
      assert s.regs[RT := returnWill][RT := s.regs[RT]] == s.regs;
    case _ =>
  }

  // ----- everything but $st -----

  // Status flags are rewritten without a record, so history speaks of the state with $st blanked.
  function Blank(s: State): (t: State)
    ensures |t.mem| == |s.mem|
  { s.(regs := s.regs[ST := 0]) }

  predicate Same(s: State, t: State) { Blank(s) == Blank(t) }

  lemma {:induction false} BlankRegister(a: Registers, r: Reg, x: Long)
    ensures a[r := x][ST := 0] == a[ST := 0][r := x][ST := 0]
    ensures a[ST := 0][ST := 0] == a[ST := 0]
  {}

  lemma {:induction false} BlankApply(c: Change, s: State)
    requires Reaches(c, s)
    ensures Reaches(c, Blank(s)) && Same(Apply(c, s), Apply(c, Blank(s))) && Same(Undo(c, s), Undo(c, Blank(s)))
  {
    if c.RegisterChange? { BlankRegister(s.regs, c.reg, c.will); BlankRegister(s.regs, c.reg, c.was); }
    if c.JumpChange? { BlankRegister(s.regs, RT, c.returnWill); BlankRegister(s.regs, RT, c.returnWas); }
    BlankRegister(s.regs, ST, 0);
  }

  lemma {:induction false} SameApply(c: Change, s: State, t: State)
    requires Same(s, t) && Reaches(c, s)
    ensures Reaches(c, t) && Same(Apply(c, s), Apply(c, t)) && Same(Undo(c, s), Undo(c, t))
  {
    hide Apply, Undo;
    assert Reaches(c, t) by { assert Blank(s).mem == Blank(t).mem; }
    BlankApply(c, s);
    BlankApply(c, t);
  }
}
