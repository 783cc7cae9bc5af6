/** Instruction words: the assembler's encoders, the binary parser's decoder and the machine's decoders. */
module Instructions {
  import opened Words

  type Opcode = x: int | 0 <= x < 4096
  type Funct = x: int | 0 <= x < 4096
  type Reg = x: int | 0 <= x < 128
  type Cond = x: int | 0 <= x < 16
  type Flags = x: int | 0 <= x < 4
  type Imm32 = x: int | 0 <= x < 0x1_0000_0000

  datatype Instruction =
    | Nop
    | R(op: Opcode, rs: Reg, rt: Reg, rd: Reg, funct: Funct, cond: Cond, flags: Flags)
    | I(op: Opcode, rs: Reg, rd: Reg, imm: Imm32, cond: Cond, flags: Flags)
    | J(op: Opcode, rs: Reg, link: bool, imm: Imm32, cond: Cond, flags: Flags)

  // RTYPES, ITYPES and JTYPES
  predicate IsRType(op: Opcode)
  {
    || 1 <= op <= 2 || op == 12 || op == 14 || 17 <= op <= 18 || op == 31 || op == 48 || op == 50 || op == 56
    || op == 61 || 65 <= op <= 66 || op == 68
  }

  predicate IsJType(op: Opcode) { 15 <= op <= 16 || 44 <= op <= 47 }

  predicate IsIType(op: Opcode)
  {
    || 3 <= op <= 11 || op == 13 || 19 <= op <= 30 || 32 <= op <= 43 || op == 49 || 51 <= op <= 55
    || 57 <= op <= 60 || 62 <= op <= 64 || op == 67
  }

  // ----- shifts by the fields' positions -----

  lemma {:induction false} ShlBy(x: nat)
    ensures Shl(x, 12) == 0x1000 * x && Shl(x, 14) == 0x4000 * x
    ensures Shl(x, 31) == 0x8000_0000 * x && Shl(x, 32) == 0x1_0000_0000 * x && Shl(x, 34) == 0x4_0000_0000 * x
    ensures Shl(x, 38) == 0x40_0000_0000 * x && Shl(x, 39) == 0x80_0000_0000 * x
    ensures Shl(x, 44) == 0x1000_0000_0000 * x && Shl(x, 45) == 0x2000_0000_0000 * x
    ensures Shl(x, 46) == 0x4000_0000_0000 * x && Shl(x, 48) == 0x1_0000_0000_0000 * x
    ensures Shl(x, 52) == 0x10_0000_0000_0000 * x
  {
    Shl4(x); Shl8(x); Shl32(x);
    ShlAdd(x, 8, 4); Shl8(16 * x);
    ShlTwo(x, 12);
    assert Shl(x, 32) == 2 * Shl(x, 31);
    ShlTwo(x, 32);
    ShlAdd(x, 4, 34); Shl4(Shl(x, 34));
    assert Shl(x, 39) == 2 * Shl(x, 38);
    ShlAdd(x, 32, 12); Shl32(Shl(x, 12));
    assert Shl(x, 45) == 2 * Shl(x, 44);
    ShlTwo(x, 44);
    ShlTwo(x, 46);
    ShlAdd(x, 4, 48); Shl4(Shl(x, 48));
  }

  lemma {:induction false} ShlTwo(x: nat, k: nat)
    ensures Shl(x, k + 2) == 4 * Shl(x, k)
  { assert Shl(x, k + 2) == 2 * Shl(x, k + 1); }

  // ----- Assembler::compileR, compileI, compileJ -----

  function CompileR(op: Opcode, rs: Reg, rt: Reg, rd: Reg, funct: Funct, flags: Flags, cond: Cond): nat
  {
    BitOr(BitOr(BitOr(BitOr(BitOr(BitOr(funct, Shl(flags, 12)), Shl(cond, 14)), Shl(rd, 31)), Shl(rs, 38)),
                Shl(rt, 45)), Shl(op, 52))
  }

  function CompileI(op: Opcode, rs: Reg, rd: Reg, imm: Imm32, flags: Flags, cond: Cond): nat
  {
    BitOr(BitOr(BitOr(BitOr(BitOr(imm, Shl(rd, 32)), Shl(rs, 39)), Shl(flags, 46)), Shl(cond, 48)), Shl(op, 52))
  }

  function CompileJ(op: Opcode, rs: Reg, imm: Imm32, link: bool, flags: Flags, cond: Cond): nat
  {
    BitOr(BitOr(BitOr(BitOr(BitOr(imm, Shl(flags, 32)), Shl(cond, 34)), Shl(if link then 1 else 0, 44)),
                Shl(rs, 45)), Shl(op, 52))
  }

  // A node's word, as AnyR/AnyI/AnyJ::encode dispatch it.
  function Encode(i: Instruction): nat
  {
    match i
    case Nop => 0
    case R(op, rs, rt, rd, funct, cond, flags) => CompileR(op, rs, rt, rd, funct, flags, cond)
    case I(op, rs, rd, imm, cond, flags) => CompileI(op, rs, rd, imm, flags, cond)
    case J(op, rs, link, imm, cond, flags) => CompileJ(op, rs, imm, link, flags, cond)
  }

  // One more field on top of a word that ends below it.
  lemma {:induction false} AddField(low: nat, k: nat, bound: nat, field: nat, shifted: nat)
    requires Shl(1, k) == bound && low < bound && Shl(field, k) == shifted
    ensures BitOr(low, Shl(field, k)) == low + shifted
  { OrDisjoint(low, k, field); }

  lemma {:induction false} SumR(op: Opcode, rs: Reg, rt: Reg, rd: Reg, funct: Funct, flags: Flags, cond: Cond)
    ensures CompileR(op, rs, rt, rd, funct, flags, cond)
      == funct + 0x1000 * flags + 0x4000 * cond + 0x8000_0000 * rd + 0x40_0000_0000 * rs
         + 0x2000_0000_0000 * rt + 0x10_0000_0000_0000 * op
  {
    hide BitOr, Shl;
    ShlBy(1); ShlBy(flags); ShlBy(cond); ShlBy(rd); ShlBy(rs); ShlBy(rt); ShlBy(op);
    var a := funct + 0x1000 * flags;
    var b := a + 0x4000 * cond;
    var c := b + 0x8000_0000 * rd;
    var d := c + 0x40_0000_0000 * rs;
    var e := d + 0x2000_0000_0000 * rt;
    AddField(funct, 12, 0x1000, flags, 0x1000 * flags);
    AddField(a, 14, 0x4000, cond, 0x4000 * cond);
    AddField(b, 31, 0x8000_0000, rd, 0x8000_0000 * rd);
    AddField(c, 38, 0x40_0000_0000, rs, 0x40_0000_0000 * rs);
    AddField(d, 45, 0x2000_0000_0000, rt, 0x2000_0000_0000 * rt);
    AddField(e, 52, 0x10_0000_0000_0000, op, 0x10_0000_0000_0000 * op);
  }

  lemma {:induction false} SumI(op: Opcode, rs: Reg, rd: Reg, imm: Imm32, flags: Flags, cond: Cond)
    ensures CompileI(op, rs, rd, imm, flags, cond)
      == imm + 0x1_0000_0000 * rd + 0x80_0000_0000 * rs + 0x4000_0000_0000 * flags
         + 0x1_0000_0000_0000 * cond + 0x10_0000_0000_0000 * op
  {
    hide BitOr, Shl;
    ShlBy(1); ShlBy(rd); ShlBy(rs); ShlBy(flags); ShlBy(cond); ShlBy(op);
    var a := imm + 0x1_0000_0000 * rd;
    var b := a + 0x80_0000_0000 * rs;
    var c := b + 0x4000_0000_0000 * flags;
    var d := c + 0x1_0000_0000_0000 * cond;
    AddField(imm, 32, 0x1_0000_0000, rd, 0x1_0000_0000 * rd);
    AddField(a, 39, 0x80_0000_0000, rs, 0x80_0000_0000 * rs);
    AddField(b, 46, 0x4000_0000_0000, flags, 0x4000_0000_0000 * flags);
    AddField(c, 48, 0x1_0000_0000_0000, cond, 0x1_0000_0000_0000 * cond);
    AddField(d, 52, 0x10_0000_0000_0000, op, 0x10_0000_0000_0000 * op);
  }

  lemma {:induction false} SumJ(op: Opcode, rs: Reg, imm: Imm32, link: bool, flags: Flags, cond: Cond)
    ensures CompileJ(op, rs, imm, link, flags, cond)
      == imm + 0x1_0000_0000 * flags + 0x4_0000_0000 * cond + (if link then 0x1000_0000_0000 else 0)
         + 0x2000_0000_0000 * rs + 0x10_0000_0000_0000 * op
  {
    hide BitOr, Shl;
    var l := if link then 1 else 0;
    ShlBy(1); ShlBy(flags); ShlBy(cond); ShlBy(l); ShlBy(rs); ShlBy(op);
    var a := imm + 0x1_0000_0000 * flags;
    var b := a + 0x4_0000_0000 * cond;
    var c := b + 0x1000_0000_0000 * l;
    var d := c + 0x2000_0000_0000 * rs;
    AddField(imm, 32, 0x1_0000_0000, flags, 0x1_0000_0000 * flags);
    AddField(a, 34, 0x4_0000_0000, cond, 0x4_0000_0000 * cond);
    AddField(b, 44, 0x1000_0000_0000, l, 0x1000_0000_0000 * l);
    AddField(c, 45, 0x2000_0000_0000, rs, 0x2000_0000_0000 * rs);
    AddField(d, 52, 0x10_0000_0000_0000, op, 0x10_0000_0000_0000 * op);
  }

  lemma {:induction false} EncodeFits(i: Instruction)
    ensures Encode(i) < TWO64
  {
    match i
    case Nop =>
    case R(op, rs, rt, rd, funct, cond, flags) => SumR(op, rs, rt, rd, funct, flags, cond);
    case I(op, rs, rd, imm, cond, flags) => SumI(op, rs, rd, imm, flags, cond);
    case J(op, rs, link, imm, cond, flags) => SumJ(op, rs, imm, link, flags, cond);
  }

  // ----- decoders -----

  // BinaryParser::parse: fields counted from the top bit.
  function Parse(w: Long): Result<Instruction>
  {
    var op := w / 0x10_0000_0000_0000;                                             // get(0, 12)
    if op == 0 then Ok(Nop)
    else if IsRType(op) then
      Ok(R(op, w / 0x40_0000_0000 % 128, w / 0x2000_0000_0000 % 128, w / 0x8000_0000 % 128,  // get(19|12|26, 7)
           w % 4096, w / 0x4000 % 16, w / 0x1000 % 4))                                       // get(52, 12), (46, 4), (50, 2)
    else if IsIType(op) then
      Ok(I(op, w / 0x80_0000_0000 % 128, w / 0x1_0000_0000 % 128, w % 0x1_0000_0000,         // get(18|25, 7)
           w / 0x1_0000_0000_0000 % 16, w / 0x4000_0000_0000 % 4))                           // get(12, 4), (16, 2)
    else if IsJType(op) then
      Ok(J(op, w / 0x2000_0000_0000 % 128, w / 0x1000_0000_0000 % 2 == 1, w % 0x1_0000_0000, // get(12, 7), (19, 1)
           w / 0x4_0000_0000 % 16, w / 0x1_0000_0000 % 4))                                   // get(26, 4), (30, 2)
    else Err(Unknown)
  }

  // The machine's sets differ: it does not know opcode 12 or the four conditional jumps 44 to 47.
  predicate IsVmRType(op: Opcode) { IsRType(op) && op != 12 }
  predicate IsVmJType(op: Opcode) { 15 <= op <= 16 }

  // Operations::execute's dispatch with decodeRType, decodeIType and decodeJType.
  function VmDecode(w: Long): Result<Instruction>
  {
    var op := w / 0x10_0000_0000_0000 % 4096;
    if op == 0 then Ok(Nop)
    else if IsVmRType(op) then
      var rd, rs, rt := w / 0x8000_0000 % 128, w / 0x40_0000_0000 % 128, w / 0x2000_0000_0000 % 128;
      Ok(R(op, rs, rt, rd, w % 4096, w / 0x4000 % 16, w / 0x1000 % 4))
    else if IsIType(op) then
      var rs, rd := w / 0x80_0000_0000 % 128, w / 0x1_0000_0000 % 128;
      Ok(I(op, rs, rd, w % 0x1_0000_0000, w / 0x1_0000_0000_0000 % 16, w / 0x4000_0000_0000 % 4))
    else if IsVmJType(op) then
      var rs, link := w / 0x2000_0000_0000 % 128, w / 0x1000_0000_0000 % 2 == 1;
      Ok(J(op, rs, link, w % 0x1_0000_0000, w / 0x4_0000_0000 % 16, w / 0x1_0000_0000 % 4))
    else Err(Unknown)
  }

  predicate Typed(i: Instruction)
  {
    match i
    case Nop => true
    case R(op, _, _, _, _, _, _) => IsRType(op)
    case I(op, _, _, _, _, _) => IsIType(op)
    case J(op, _, _, _, _, _) => IsJType(op)
  }

  // One digit of a mixed-radix number.
  lemma {:induction false} Digit(w: nat, low: nat, unit: nat, digit: nat, span: nat, top: nat)
    requires unit > 0 && span > 0 && low < unit && digit < span
    requires w == low + unit * (digit + span * top)
    ensures w / unit % span == digit
  {
    DivUnique(w, unit, digit + span * top, low);
    DivUnique(digit + span * top, span, top, digit);
  }

  lemma {:induction false} DivUnique(w: nat, d: nat, q: nat, r: nat)
    requires d > 0 && r < d && w == r + d * q
    ensures w / d == q && w % d == r
  {
    if w / d < q { MulStep(d, w / d, q); } else if w / d > q { MulStep(d, q, w / d); }
  }

  lemma {:induction false} MulStep(d: nat, a: int, b: int)
    requires a < b
    ensures d * a + d <= d * b
  { MulMonotonic(d, a + 1, b); assert d * (a + 1) == d * a + d; }

  lemma {:induction false} MulMonotonic(d: nat, a: int, b: int)
    requires a <= b
    ensures d * a <= d * b
  {}

  lemma {:induction false} DecodeR(w: nat, op: Opcode, rs: Reg, rt: Reg, rd: Reg, funct: Funct, flags: Flags, cond: Cond)
    requires w == funct + 0x1000 * flags + 0x4000 * cond + 0x8000_0000 * rd + 0x40_0000_0000 * rs
                  + 0x2000_0000_0000 * rt + 0x10_0000_0000_0000 * op
    ensures w / 0x10_0000_0000_0000 == op && w % 4096 == funct
    ensures w / 0x40_0000_0000 % 128 == rs && w / 0x2000_0000_0000 % 128 == rt && w / 0x8000_0000 % 128 == rd
    ensures w / 0x4000 % 16 == cond && w / 0x1000 % 4 == flags
  {
    var low14 := funct + 0x1000 * flags;
    var low31 := low14 + 0x4000 * cond;
    var low38 := low31 + 0x8000_0000 * rd;
    var low45 := low38 + 0x40_0000_0000 * rs;
    var low52 := low45 + 0x2000_0000_0000 * rt;
    var top45 := rt + 128 * op;
    var top38 := rs + 128 * top45;
    var top31 := rd + 128 * top38;
    Digit(w, low52, 0x10_0000_0000_0000, op, 4096, 0);
    Digit(w, low45, 0x2000_0000_0000, rt, 128, op);
    Digit(w, low38, 0x40_0000_0000, rs, 128, top45);
    Digit(w, low31, 0x8000_0000, rd, 128, top38);
    Digit(w, low14, 0x4000, cond, 16, 0x2000 * top31);
    Digit(w, funct, 0x1000, flags, 4, cond + 0x2_0000 * top31);
    Digit(w, 0, 1, funct, 4096, flags + 4 * (cond + 0x2_0000 * top31));
  }

  lemma {:induction false} DecodeI(w: nat, op: Opcode, rs: Reg, rd: Reg, imm: Imm32, flags: Flags, cond: Cond)
    requires w == imm + 0x1_0000_0000 * rd + 0x80_0000_0000 * rs + 0x4000_0000_0000 * flags
                  + 0x1_0000_0000_0000 * cond + 0x10_0000_0000_0000 * op
    ensures w / 0x10_0000_0000_0000 == op && w % 0x1_0000_0000 == imm
    ensures w / 0x80_0000_0000 % 128 == rs && w / 0x1_0000_0000 % 128 == rd
    ensures w / 0x1_0000_0000_0000 % 16 == cond && w / 0x4000_0000_0000 % 4 == flags
  {
    var low39 := imm + 0x1_0000_0000 * rd;
    var low46 := low39 + 0x80_0000_0000 * rs;
    var low48 := low46 + 0x4000_0000_0000 * flags;
    var low52 := low48 + 0x1_0000_0000_0000 * cond;
    var top46 := flags + 4 * (cond + 16 * op);
    Digit(w, low52, 0x10_0000_0000_0000, op, 4096, 0);
    Digit(w, low48, 0x1_0000_0000_0000, cond, 16, op);
    Digit(w, low46, 0x4000_0000_0000, flags, 4, cond + 16 * op);
    Digit(w, low39, 0x80_0000_0000, rs, 128, top46);
    Digit(w, imm, 0x1_0000_0000, rd, 128, rs + 128 * top46);
    Digit(w, 0, 1, imm, 0x1_0000_0000, rd + 128 * (rs + 128 * top46));
  }

  lemma {:induction false} DecodeJ(w: nat, op: Opcode, rs: Reg, imm: Imm32, link: bool, flags: Flags, cond: Cond)
    requires w == imm + 0x1_0000_0000 * flags + 0x4_0000_0000 * cond + (if link then 0x1000_0000_0000 else 0)
                  + 0x2000_0000_0000 * rs + 0x10_0000_0000_0000 * op
    ensures w / 0x10_0000_0000_0000 == op && w % 0x1_0000_0000 == imm
    ensures w / 0x2000_0000_0000 % 128 == rs && (w / 0x1000_0000_0000 % 2 == 1 <==> link)
    ensures w / 0x4_0000_0000 % 16 == cond && w / 0x1_0000_0000 % 4 == flags
  {
    var l := if link then 1 else 0;
    var low34 := imm + 0x1_0000_0000 * flags;
    var low44 := low34 + 0x4_0000_0000 * cond;
    var low45 := low44 + 0x1000_0000_0000 * l;
    var low52 := low45 + 0x2000_0000_0000 * rs;
    var top44 := l + 2 * (rs + 128 * op);
    Digit(w, low52, 0x10_0000_0000_0000, op, 4096, 0);
    Digit(w, low45, 0x2000_0000_0000, rs, 128, op);
    Digit(w, low44, 0x1000_0000_0000, l, 2, rs + 128 * op);
    Digit(w, low34, 0x4_0000_0000, cond, 16, 64 * top44);
    Digit(w, imm, 0x1_0000_0000, flags, 4, cond + 1024 * top44);
    Digit(w, 0, 1, imm, 0x1_0000_0000, flags + 4 * (cond + 1024 * top44));
  }

  // The fields of the word of an instruction.
  lemma {:induction false} EncodeFields(i: Instruction)
    requires !i.Nop?
    ensures Encode(i) < TWO64
    ensures var w := Encode(i);
      match i
      case R(op, rs, rt, rd, funct, cond, flags) =>
        w / 0x10_0000_0000_0000 == op && w % 4096 == funct && w / 0x40_0000_0000 % 128 == rs
        && w / 0x2000_0000_0000 % 128 == rt && w / 0x8000_0000 % 128 == rd && w / 0x4000 % 16 == cond && w / 0x1000 % 4 == flags
      case I(op, rs, rd, imm, cond, flags) =>
        w / 0x10_0000_0000_0000 == op && w % 0x1_0000_0000 == imm && w / 0x80_0000_0000 % 128 == rs
        && w / 0x1_0000_0000 % 128 == rd && w / 0x1_0000_0000_0000 % 16 == cond && w / 0x4000_0000_0000 % 4 == flags
      case J(op, rs, link, imm, cond, flags) =>
        w / 0x10_0000_0000_0000 == op && w % 0x1_0000_0000 == imm && w / 0x2000_0000_0000 % 128 == rs
        && (w / 0x1000_0000_0000 % 2 == 1 <==> link) && w / 0x4_0000_0000 % 16 == cond && w / 0x1_0000_0000 % 4 == flags
      case Nop => true
  {
    hide CompileR, CompileI, CompileJ;
    EncodeFits(i);
    match i
    case R(op, rs, rt, rd, funct, cond, flags) =>
      SumR(op, rs, rt, rd, funct, flags, cond);
      DecodeR(Encode(i), op, rs, rt, rd, funct, flags, cond);
    case I(op, rs, rd, imm, cond, flags) =>
      SumI(op, rs, rd, imm, flags, cond);
      DecodeI(Encode(i), op, rs, rd, imm, flags, cond);
    case J(op, rs, link, imm, cond, flags) =>
      SumJ(op, rs, imm, link, flags, cond);
      DecodeJ(Encode(i), op, rs, imm, link, flags, cond);
  }

  predicate VmTyped(i: Instruction)
  {
    match i
    case Nop => true
    case R(op, _, _, _, _, _, _) => IsVmRType(op)
    case I(op, _, _, _, _, _) => IsIType(op)
    case J(op, _, _, _, _, _) => IsVmJType(op)
  }

  lemma {:induction false} RoundTripR(i: Instruction)
    requires i.R?
    ensures Encode(i) < TWO64
    ensures Typed(i) <==> Parse(Encode(i)) == Ok(i)
    ensures VmTyped(i) <==> VmDecode(Encode(i)) == Ok(i)
  { hide Encode, IsIType; EncodeFields(i); }

  lemma {:induction false} RoundTripI(i: Instruction)
    requires i.I?
    ensures Encode(i) < TWO64
    ensures Typed(i) <==> Parse(Encode(i)) == Ok(i)
    ensures VmTyped(i) <==> VmDecode(Encode(i)) == Ok(i)
  { hide Encode; EncodeFields(i); }

  lemma {:induction false} RoundTripJ(i: Instruction)
    requires i.J?
    ensures Encode(i) < TWO64
    ensures Typed(i) <==> Parse(Encode(i)) == Ok(i)
    ensures VmTyped(i) <==> VmDecode(Encode(i)) == Ok(i)
  { hide Encode; EncodeFields(i); }

  /** Each decoder returns exactly the fields the assembler was given, and does so exactly for the opcodes it
      files under the instruction's format. */
  lemma {:induction false} InstructionRoundTrip(i: Instruction)
    ensures Encode(i) < TWO64
    ensures Parse(Encode(i)) == Ok(i) <==> Typed(i)
    ensures VmDecode(Encode(i)) == Ok(i) <==> VmTyped(i)
  {
    hide Encode, Parse, VmDecode, Typed, VmTyped;
    match i
    case Nop => NopWord();
    case R(_, _, _, _, _, _, _) => RoundTripR(i);
    case I(_, _, _, _, _, _) => RoundTripI(i);
    case J(_, _, _, _, _, _) => RoundTripJ(i);
  }

  lemma {:induction false} NopWord()
    ensures Encode(Nop) == 0 && Parse(0) == Ok(Nop) && VmDecode(0) == Ok(Nop) && Typed(Nop) && VmTyped(Nop)
  {}
}
