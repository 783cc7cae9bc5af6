/** wasmc/src/wasm/Expression.cpp: the static validation of assembler expressions and their evaluation. */
module Expressions {
  import opened Words
  import opened SymbolTable

  datatype Op = Add | Sub | Mul | Div | Mod

  // A symbol is an identifier or a quoted string; `.` is the position of the directive.
  datatype Expr = Number(value: Long) | Dot | Symbol(name: Label) | Binary(op: Op, left: Expr, right: Expr)

  datatype Validation = Invalid | Pure | DoubleLabelDifference | DotLabelDifference | LabelNumberDifference | LabelNumberSum | LabelAlone

  function FullyNumeric(e: Expr): bool
  {
    match e
    case Number(_) => true
    case Dot => true
    case Symbol(_) => false
    case Binary(_, l, r) => FullyNumeric(l) && FullyNumeric(r)
  }

  function ResultIsNumeric(e: Expr): bool
    decreases e, 1
  { Validate(e) == Pure || Validate(e) == DoubleLabelDifference }

  function Validate(e: Expr): Validation
    decreases e, 0
  {
    match e
    case Number(_) => Pure
    case Dot => Pure
    case Symbol(_) => LabelAlone
    case Binary(op, l, r) =>
      if Validate(l) == Invalid || Validate(r) == Invalid then Invalid
      else if (FullyNumeric(l) && FullyNumeric(r)) || (ResultIsNumeric(l) && ResultIsNumeric(r)) then Pure
      else match op
        case Add =>
          if l.Symbol? && FullyNumeric(r) then LabelNumberSum
          else if FullyNumeric(l) && r.Symbol? then LabelNumberSum
          else Invalid
        case Sub =>
          if l.Symbol? then
            if ResultIsNumeric(r) then LabelNumberDifference
            else if r.Symbol? then DoubleLabelDifference
            else Invalid
          else if l.Dot? && r.Symbol? then DotLabelDifference
          else Invalid
        case _ => Invalid
  }

  // The label `validate` writes to label1out.
  function FirstLabel(e: Expr): Option<Label>
  {
    match e
    case Symbol(name) => Some(name)
    case Binary(op, l, r) =>
      (match Validate(e)
       case LabelNumberSum => if l.Symbol? then Some(l.name) else if r.Symbol? then Some(r.name) else None
       case LabelNumberDifference => if l.Symbol? then Some(l.name) else None
       case DoubleLabelDifference => if l.Symbol? then Some(l.name) else None
       case DotLabelDifference => if r.Symbol? then Some(r.name) else None
       case _ => None)
    case _ => None
  }

  // What a label is worth. `exclude` makes one label count as zero, `ignoreUnknown` every unknown one.
  function ValueOf(name: Label, offsets: map<Label, Long>, ignoreUnknown: bool, exclude: Option<Label>): Result<Long>
  {
    if exclude == Some(name) then Ok(0)
    else if name in offsets then Ok(offsets[name])
    else if ignoreUnknown then Ok(0)
    else Err(SymbolNotFound)
  }

  // Signed words in, but `/` and `%` by a size_t: unsigned on both sides.
  function Combine(op: Op, a: Long, b: Long): Result<Long>
  {
    match op
    case Add => Ok(Plus(a, b))
    case Sub => Ok(Minus(a, b))
    case Mul => Ok(Wrap(a * b))
    case Div => if b == 0 then Err(DivisionByZero) else DivBound(a, b); Ok(a / b)
    case Mod => if b == 0 then Err(DivisionByZero) else Ok(a % b)
  }

  lemma {:induction false} DivBound(a: Long, b: Long)
    requires b != 0
    ensures 0 <= a / b < TWO64
  {
    var q := a / b;
    assert a == b * q + a % b;
    TimesGrows(b, q);
  }

  lemma {:induction false} TimesGrows(b: int, q: int)
    requires b >= 1 && q >= 0
    ensures b * q >= q
  { assert b * q == q + (b - 1) * q; }

  function Evaluate(e: Expr, offsets: map<Label, Long>, counter: Long, ignoreUnknown: bool, exclude: Option<Label>): Result<Long>
  {
    match e
    case Number(value) => Ok(value)
    case Dot => Ok(counter)
    case Symbol(name) => ValueOf(name, offsets, ignoreUnknown, exclude)
    case Binary(op, l, r) =>
      var a, b := Evaluate(l, offsets, counter, ignoreUnknown, exclude), Evaluate(r, offsets, counter, ignoreUnknown, exclude);
      if (op.Div? || op.Mod?) && (b.Err? || b.value == 0) then (if b.Err? then b else Err(DivisionByZero))
      else if a.Err? then a
      else if b.Err? then b
      else Combine(op, a.value, b.value)
  }

  function Labels(e: Expr): set<Label>
  {
    match e
    case Symbol(name) => {name}
    case Binary(_, l, r) => Labels(l) + Labels(r)
    case _ => {}
  }

  /** Expression::findLabels. */
  method FindLabels(e: Expr, into: set<Label>) returns (found: set<Label>)
    ensures found == into + Labels(e)
    decreases e
  {
    found := into;
    match e
    case Binary(_, l, r) =>
      found := FindLabels(l, found);
      found := FindLabels(r, found);
    case Symbol(name) => found := found + {name};
    case Dot =>
    case Number(_) =>
  }

  // ----- values -----

  /** A number is its value, `.` the position, and a label its offset; an excluded label is zero, and so is an unknown one
      where that is allowed. */
  lemma {:induction false} LeafValues(value: Long, name: Label, offsets: map<Label, Long>, counter: Long, ignoreUnknown: bool, exclude: Option<Label>)
    ensures Evaluate(Number(value), offsets, counter, ignoreUnknown, exclude) == Ok(value)
    ensures Evaluate(Dot, offsets, counter, ignoreUnknown, exclude) == Ok(counter)
    ensures var r := Evaluate(Symbol(name), offsets, counter, ignoreUnknown, exclude);
      && (exclude == Some(name) ==> r == Ok(0))
      && (exclude != Some(name) && name in offsets ==> r == Ok(offsets[name]))
      && (exclude != Some(name) && name !in offsets ==> r == if ignoreUnknown then Ok(0) else Err(SymbolNotFound))
  {}

  /** Sums, differences and products are taken modulo 2^64, and fail exactly when a side fails, the left one first. */
  lemma {:induction false} RingValues(l: Expr, r: Expr, offsets: map<Label, Long>, counter: Long, ignoreUnknown: bool, exclude: Option<Label>)
    ensures var a, b := Evaluate(l, offsets, counter, ignoreUnknown, exclude), Evaluate(r, offsets, counter, ignoreUnknown, exclude);
      var sum, difference, product := Evaluate(Binary(Add, l, r), offsets, counter, ignoreUnknown, exclude),
        Evaluate(Binary(Sub, l, r), offsets, counter, ignoreUnknown, exclude),
        Evaluate(Binary(Mul, l, r), offsets, counter, ignoreUnknown, exclude);
      if a.Err? then sum == a && difference == a && product == a
      else if b.Err? then sum == b && difference == b && product == b
      else sum == Ok((a.value + b.value) % TWO64) && difference == Ok((a.value + TWO64 - b.value) % TWO64)
           && product == Ok(a.value * b.value % TWO64)
  {
    hide Evaluate, Combine;
    BinaryIs(Add, l, r, offsets, counter, ignoreUnknown, exclude);
    BinaryIs(Sub, l, r, offsets, counter, ignoreUnknown, exclude);
    BinaryIs(Mul, l, r, offsets, counter, ignoreUnknown, exclude);
    var a, b := Evaluate(l, offsets, counter, ignoreUnknown, exclude), Evaluate(r, offsets, counter, ignoreUnknown, exclude);
    if a.Ok? && b.Ok? { RingIs(a.value, b.value); }
  }

  lemma {:induction false} RingIs(a: Long, b: Long)
    ensures Combine(Add, a, b) == Ok((a + b) % TWO64) && Combine(Sub, a, b) == Ok((a + TWO64 - b) % TWO64)
    ensures Combine(Mul, a, b) == Ok(a * b % TWO64)
  {}

  lemma {:induction false} BinaryIs(op: Op, l: Expr, r: Expr, offsets: map<Label, Long>, counter: Long, ignoreUnknown: bool, exclude: Option<Label>)
    ensures var a, b := Evaluate(l, offsets, counter, ignoreUnknown, exclude), Evaluate(r, offsets, counter, ignoreUnknown, exclude);
      Evaluate(Binary(op, l, r), offsets, counter, ignoreUnknown, exclude)
        == if (op.Div? || op.Mod?) && b.Err? then b
           else if (op.Div? || op.Mod?) && b.value == 0 then Err(DivisionByZero)
           else if a.Err? then a
           else if b.Err? then b
           else Combine(op, a.value, b.value)
  { hide Combine; }

  /** A quotient and its remainder are those of unsigned numbers: times the divisor, plus the remainder, the quotient gives
      the dividend back. Both fail exactly when the divisor fails or is zero, looked at first, or the dividend fails. */
  lemma {:induction false} QuotientValues(l: Expr, r: Expr, offsets: map<Label, Long>, counter: Long, ignoreUnknown: bool, exclude: Option<Label>)
    ensures var a, b := Evaluate(l, offsets, counter, ignoreUnknown, exclude), Evaluate(r, offsets, counter, ignoreUnknown, exclude);
      var q, m := Evaluate(Binary(Div, l, r), offsets, counter, ignoreUnknown, exclude),
        Evaluate(Binary(Mod, l, r), offsets, counter, ignoreUnknown, exclude);
      if b.Err? then q == b && m == b
      else if b.value == 0 then q == Err(DivisionByZero) && m == Err(DivisionByZero)
      else if a.Err? then q == a && m == a
      else q.Ok? && m.Ok? && q.value * b.value + m.value == a.value && m.value < b.value
  {
    hide Evaluate;
    BinaryIs(Div, l, r, offsets, counter, ignoreUnknown, exclude);
    BinaryIs(Mod, l, r, offsets, counter, ignoreUnknown, exclude);
  }

  // ----- what is valid -----

  lemma {:induction false} NumericIsFreeOfLabels(e: Expr)
    ensures FullyNumeric(e) <==> Labels(e) == {}
    ensures FullyNumeric(e) ==> Validate(e) == Pure
  {
    match e
    case Binary(op, l, r) => NumericIsFreeOfLabels(l); NumericIsFreeOfLabels(r);
    case Symbol(name) => assert name in Labels(e);
    case _ =>
  }

  predicate NumberLike(e: Expr) { Validate(e) == Pure || Validate(e) == DoubleLabelDifference }

  /** The grammar of valid expressions, and the label each stands for. */
  lemma {:induction false} ValidForms(op: Op, l: Expr, r: Expr, value: Long, name: Label)
    ensures Validate(Number(value)) == Pure && Validate(Dot) == Pure
    ensures Validate(Symbol(name)) == LabelAlone && FirstLabel(Symbol(name)) == Some(name)
    ensures var e := Binary(op, l, r);
      && (Validate(e) == Pure <==> NumberLike(l) && NumberLike(r))
      && (Validate(e) == LabelNumberSum <==> op.Add? && ((l.Symbol? && Labels(r) == {}) || (r.Symbol? && Labels(l) == {})))
      && (Validate(e) == LabelNumberDifference <==> op.Sub? && l.Symbol? && NumberLike(r))
      && (Validate(e) == DoubleLabelDifference <==> op.Sub? && l.Symbol? && r.Symbol?)
      && (Validate(e) == DotLabelDifference <==> op.Sub? && l.Dot? && r.Symbol?)
      && Validate(e) != LabelAlone
      && FirstLabel(e) == match Validate(e)
           case LabelNumberSum => if l.Symbol? then Some(l.name) else if r.Symbol? then Some(r.name) else None
           case LabelNumberDifference => if l.Symbol? then Some(l.name) else None
           case DoubleLabelDifference => if l.Symbol? then Some(l.name) else None
           case DotLabelDifference => if r.Symbol? then Some(r.name) else None
           case _ => None
  {
    NumericIsFreeOfLabels(l);
    NumericIsFreeOfLabels(r);
  }

  // ----- soundness of the validation -----

  // How often a shift of every label shows up in the value.
  function Degree(v: Validation): int
  {
    match v
    case LabelNumberSum => 1
    case LabelNumberDifference => 1
    case LabelAlone => 1
    case DotLabelDifference => -1
    case _ => 0
  }

  function Shifted(offsets: map<Label, Long>, shift: Long): map<Label, Long>
  { map k | k in offsets :: Plus(offsets[k], shift) }

  function ShiftedResult(r: Result<Long>, degree: int, shift: Long): Result<Long>
  { match r case Ok(v) => Ok(Wrap(v + degree * shift)) case Err(x) => Err(x) }

  /** A value depends on no label but those findLabels reports. */
  lemma {:induction false} DependsOnLabels(e: Expr, a: map<Label, Long>, b: map<Label, Long>, counter: Long, ignoreUnknown: bool,
                                           x: Option<Label>, y: Option<Label>)
    requires forall k :: k in Labels(e) ==> ValueOf(k, a, ignoreUnknown, x) == ValueOf(k, b, ignoreUnknown, y)
    ensures Evaluate(e, a, counter, ignoreUnknown, x) == Evaluate(e, b, counter, ignoreUnknown, y)
  {
    hide ValueOf, Combine;
    match e
    case Binary(op, l, r) =>
      DependsOnLabels(l, a, b, counter, ignoreUnknown, x, y);
      DependsOnLabels(r, a, b, counter, ignoreUnknown, x, y);
    case _ =>
  }

  lemma {:induction false} WrapShift(a: int, b: int)
    ensures Wrap(Wrap(a) + b) == Wrap(a + b) && Wrap(Wrap(a) - b) == Wrap(a - b) && Wrap(b - Wrap(a)) == Wrap(b - a)
  {
    var q := a / TWO64;
    assert a == Wrap(a) + TWO64 * q;
    WrapTurns(Wrap(a) + b, q);
    WrapTurns(Wrap(a) - b, q);
    WrapTurns(b - Wrap(a), -q);
  }

  lemma {:induction false} Unshifted(r: Result<Long>, shift: Long)
    ensures ShiftedResult(r, 0, shift) == r
  { if r.Ok? { assert Wrap(r.value) == r.value; } }

  lemma {:induction false} SymbolShift(name: Label, offsets: map<Label, Long>, shift: Long)
    ensures ValueOf(name, Shifted(offsets, shift), false, None) == ShiftedResult(ValueOf(name, offsets, false, None), 1, shift)
  {}

  /** Shifting every label by one amount moves the value of a valid expression by that amount times the degree its
      validation stands for: nothing for Pure and DoubleLabelDifference, once for the label sums and differences,
      once backwards for a difference from the position. A failure stays the same failure. */
  lemma {:induction false} ValidationIsSound(e: Expr, offsets: map<Label, Long>, counter: Long, shift: Long)
    requires Validate(e) != Invalid
    ensures Evaluate(e, Shifted(offsets, shift), counter, false, None)
      == ShiftedResult(Evaluate(e, offsets, counter, false, None), Degree(Validate(e)), shift)
    decreases e
  {
    hide Shifted, ShiftedResult, ValueOf, Combine, Wrap;
    match e
    case Number(value) => Unshifted(Ok(value), shift);
    case Dot => Unshifted(Ok(counter), shift);
    case Symbol(name) => SymbolShift(name, offsets, shift);
    case Binary(op, l, r) =>
      ValidationIsSound(l, offsets, counter, shift);
      ValidationIsSound(r, offsets, counter, shift);
      if FullyNumeric(l) { NumericIsFreeOfLabels(l); }
      if FullyNumeric(r) { NumericIsFreeOfLabels(r); }
      var a, b := Evaluate(l, offsets, counter, false, None), Evaluate(r, offsets, counter, false, None);
      var c := Evaluate(e, offsets, counter, false, None);
      Unshifted(a, shift); Unshifted(b, shift); Unshifted(c, shift);
      if Degree(Validate(l)) != 0 || Degree(Validate(r)) != 0 { CombineShift(op, a, b, Degree(Validate(l)), Degree(Validate(r)), shift); }
  }

  // Sums and differences of shifted operands.
  lemma {:induction false} CombineShift(op: Op, a: Result<Long>, b: Result<Long>, m: int, n: int, shift: Long)
    requires op.Add? || op.Sub?
    ensures var a', b' := ShiftedResult(a, m, shift), ShiftedResult(b, n, shift);
      && (a'.Ok? <==> a.Ok?) && (b'.Ok? <==> b.Ok?)
      && (a.Err? ==> a' == a) && (b.Err? ==> b' == b)
    ensures forall k: int, x: Error :: ShiftedResult(Err(x), k, shift) == Err(x)
    ensures a.Ok? && b.Ok? ==>
      Combine(op, ShiftedResult(a, m, shift).value, ShiftedResult(b, n, shift).value)
        == ShiftedResult(Combine(op, a.value, b.value), if op.Add? then m + n else m - n, shift)
  {
    hide Wrap, Combine;
    if a.Ok? && b.Ok? {
      CombineWrapped(op, a.value, b.value, m * shift, n * shift);
      assert (m + n) * shift == m * shift + n * shift && (m - n) * shift == m * shift - n * shift;
    }
  }

  lemma {:induction false} CombineWrapped(op: Op, a: Long, b: Long, p: int, q: int)
    requires op.Add? || op.Sub?
    ensures Combine(op, a, b).Ok?
    ensures Combine(op, Wrap(a + p), Wrap(b + q)) == Ok(Wrap(Combine(op, a, b).value + if op.Add? then p + q else p - q))
  {
    hide Wrap;
    var u, v := a + p, b + q;
    WrapShift(v, u);
    if op.Add? {
      WrapShift(u, Wrap(v));
      WrapShift(a + b, p + q);
    } else {
      WrapShift(u, Wrap(v));
      WrapShift(a - b, p - q);
      assert u - v == (a as int - b as int) + (p - q);
    }
  }

  // ----- what the stored relocation offset is worth -----

  // The full value is the excluded label's offset plus the value without it.
  predicate AddendRight(e: Expr, name: Label, offsets: map<Label, Long>, counter: Long)
    requires name in offsets
  {
    var full, part := Evaluate(e, offsets, counter, false, None), Evaluate(e, offsets, counter, false, Some(name));
    match full
    case Ok(v) => part.Ok? && v == Plus(offsets[name], part.value)
    case Err(x) => part == Err(x)
  }

  lemma {:induction false} ExcludeElsewhere(e: Expr, name: Label, offsets: map<Label, Long>, counter: Long)
    requires name !in Labels(e)
    ensures Evaluate(e, offsets, counter, false, Some(name)) == Evaluate(e, offsets, counter, false, None)
  { DependsOnLabels(e, offsets, offsets, counter, false, Some(name), None); }

  lemma {:induction false} AddendArithmetic(o: Long, v: Long)
    ensures Plus(o, 0) == o && Plus(o, v) == Plus(o, Plus(0, v)) && Plus(v, o) == Plus(o, Plus(v, 0))
    ensures Minus(o, v) == Plus(o, Minus(0, v))
  {
    WrapShift(-(v as int), o);
    assert Wrap(o) == o && Wrap(v) == v;
    hide Wrap;
  }

  lemma {:induction false} SubtractTwice(o: Long, r: Long, x: Long)
    ensures Minus(o, r) == Plus(o, Minus(0, x)) <==> r == x
  {
    hide Wrap;
    WrapShift(-(x as int), o);
    if Wrap(o as int - r as int) == Wrap(o as int - x as int) { WrapCancels(o, r, x); }
  }

  lemma {:induction false} WrapCancels(o: Long, r: Long, x: Long)
    requires Wrap(o as int - r as int) == Wrap(o as int - x as int)
    ensures r == x
  {
    var y, z := o as int - r as int, o as int - x as int;
    assert y == Wrap(y) + TWO64 * (y / TWO64) && z == Wrap(z) + TWO64 * (z / TWO64);
    assert y - z == TWO64 * (y / TWO64 - z / TWO64);
  }

  /** For a label alone or a label-number sum the stored offset is right. */
  lemma {:induction false} SumAddend(e: Expr, offsets: map<Label, Long>, counter: Long)
    requires Validate(e) == LabelAlone || Validate(e) == LabelNumberSum
    ensures FirstLabel(e).Some?
    ensures FirstLabel(e).value in offsets ==> AddendRight(e, FirstLabel(e).value, offsets, counter)
  {
    hide Plus, Minus;
    match e
    case Symbol(name) => if name in offsets { AddendArithmetic(offsets[name], 0); }
    case Binary(op, l, r) =>
      var name := FirstLabel(e).value;
      if name in offsets {
        var other := if l.Symbol? && FullyNumeric(r) then r else l;
        NumericIsFreeOfLabels(other);
        ExcludeElsewhere(other, name, offsets, counter);
        var v := Evaluate(other, offsets, counter, false, None);
        var s := Symbol(name);
        assert Evaluate(s, offsets, counter, false, None) == Ok(offsets[name]);
        assert Evaluate(s, offsets, counter, false, Some(name)) == Ok(0);
        assert op.Add? && ((l == s && r == other) || (l == other && r == s));
        if v.Ok? { AddendArithmetic(offsets[name], v.value); }
      }
  }

  // How a difference goes wrong: exactly by what the label contributes on its right.
  lemma {:induction false} DifferenceAddend(e: Expr, offsets: map<Label, Long>, counter: Long)
    requires Validate(e) == LabelNumberDifference
    ensures FirstLabel(e).Some? && e.Binary?
    ensures var name := FirstLabel(e).value; name in offsets ==>
      (AddendRight(e, name, offsets, counter)
       <==> Evaluate(e.right, offsets, counter, false, Some(name)) == Evaluate(e.right, offsets, counter, false, None))
  {
    hide Plus, Minus;
    var name := FirstLabel(e).value;
    if name in offsets {
      var r, x := Evaluate(e.right, offsets, counter, false, None), Evaluate(e.right, offsets, counter, false, Some(name));
      var s := Symbol(name);
      assert Evaluate(s, offsets, counter, false, None) == Ok(offsets[name]);
      assert Evaluate(s, offsets, counter, false, Some(name)) == Ok(0);
      assert e.left == s && e.op.Sub?;
      if r.Ok? && x.Ok? { SubtractTwice(offsets[name], r.value, x.value); }
    }
  }

  /** For a label-number difference the stored offset is right whenever the label does not recur on the right. */
  lemma {:induction false} DifferenceWithoutRecurrence(e: Expr, offsets: map<Label, Long>, counter: Long)
    requires Validate(e) == LabelNumberDifference && FirstLabel(e).Some? && e.Binary? && FirstLabel(e).value !in Labels(e.right)
    ensures FirstLabel(e).value in offsets ==> AddendRight(e, FirstLabel(e).value, offsets, counter)
  {
    hide Validate, FirstLabel, AddendRight;
    DifferenceAddend(e, offsets, counter);
    ExcludeElsewhere(e.right, FirstLabel(e).value, offsets, counter);
  }

  // How often the label's offset counts in the value: in sums, differences, and products with a factor that is free of
  // the label. None where it occurs on both sides of a product, or in a quotient or remainder.
  function Coefficient(e: Expr, name: Label, offsets: map<Label, Long>, counter: Long): Option<int>
  {
    if name !in Labels(e) then Some(0) else
    match e
    case Binary(op, l, r) =>
      var m, n := Coefficient(l, name, offsets, counter), Coefficient(r, name, offsets, counter);
      if m.None? || n.None? then None else
      (match op
       case Add => Some(m.value + n.value)
       case Sub => Some(m.value - n.value)
       case Mul =>
         if name !in Labels(l) then Some(Factor(l, offsets, counter) * n.value)
         else if name !in Labels(r) then Some(Factor(r, offsets, counter) * m.value)
         else None
       case _ => None)
    case _ => Some(1)
  }

  function Factor(e: Expr, offsets: map<Label, Long>, counter: Long): Long
  { var v := Evaluate(e, offsets, counter, false, None); if v.Ok? then v.value else 0 }

  // The one value is the other moved by an amount, or both are the same failure.
  predicate MovedBy(full: Result<Long>, part: Result<Long>, amount: int)
  { if full.Ok? then part.Ok? && full.value == Wrap(part.value + amount) else part == full }

  lemma {:induction false} MovedByNothing(r: Result<Long>)
    ensures MovedBy(r, r, 0)
  { if r.Ok? { assert Wrap(r.value) == r.value; } }

  lemma {:induction false} WrapTimes(v: int, x: int, y: int)
    ensures Wrap(v * Wrap(x + y)) == Wrap(Wrap(v * x) + v * y)
  {
    var z := x + y;
    var q := z / TWO64;
    assert z == Wrap(z) + TWO64 * q;
    assert v * z == v * Wrap(z) + TWO64 * (v * q) by { Distribute(v, Wrap(z), q); }
    WrapTurns(v * Wrap(z), v * q);
    assert v * z == v * x + v * y;
    WrapShift(v * x, v * y);
  }

  lemma {:induction false} Distribute(v: int, a: int, q: int)
    ensures v * (a + TWO64 * q) == v * a + TWO64 * (v * q)
  {}

  // A product with a factor moved.
  lemma {:induction false} ProductMoved(v: Long, b: Result<Long>, b': Result<Long>, m: int, offset: int)
    requires MovedBy(b, b', m * offset)
    ensures b.Ok? ==> MovedBy(Combine(Mul, v, b.value), Combine(Mul, v, b'.value), (v * m) * offset)
    ensures b.Ok? ==> MovedBy(Combine(Mul, b.value, v), Combine(Mul, b'.value, v), (v * m) * offset)
  {
    hide Wrap;
    if b.Ok? {
      WrapTimes(v, b'.value, m * offset);
      assert (v * m) * offset == v * (m * offset) by { Associate(v, m, offset); }
      assert b.value * v == v * b.value && b'.value * v == v * b'.value;
    }
  }

  lemma {:induction false} Associate(a: int, b: int, c: int)
    ensures (a * b) * c == a * (b * c)
  {}

  lemma {:induction false} SumMoved(op: Op, a: Result<Long>, a': Result<Long>, b: Result<Long>, b': Result<Long>, m: int, n: int, offset: int)
    requires op.Add? || op.Sub?
    requires MovedBy(a, a', m * offset) && MovedBy(b, b', n * offset) && a.Ok? && b.Ok?
    ensures MovedBy(Combine(op, a.value, b.value), Combine(op, a'.value, b'.value), (if op.Add? then m + n else m - n) * offset)
  {
    hide Wrap, Combine;
    CombineWrapped(op, a'.value, b'.value, m * offset, n * offset);
    assert (m + n) * offset == m * offset + n * offset && (m - n) * offset == m * offset - n * offset;
  }

  /** Excluding a label takes its offset out of the value as often as the coefficient says, and no failure comes or goes. */
  lemma {:induction false} CoefficientCounts(e: Expr, name: Label, offsets: map<Label, Long>, counter: Long)
    requires name in offsets && Coefficient(e, name, offsets, counter).Some?
    ensures MovedBy(Evaluate(e, offsets, counter, false, None), Evaluate(e, offsets, counter, false, Some(name)),
                    Coefficient(e, name, offsets, counter).value * offsets[name])
    decreases e
  {
    hide MovedBy, Combine, Wrap;
    var o := offsets[name];
    if name !in Labels(e) {
      ExcludeElsewhere(e, name, offsets, counter);
      MovedByNothing(Evaluate(e, offsets, counter, false, None));
    } else if e.Symbol? {
      OneOffset(o);
    } else {
      CoefficientCounts(e.left, name, offsets, counter);
      CoefficientCounts(e.right, name, offsets, counter);
      BinaryCounts(e, name, offsets, counter);
    }
  }

  lemma {:induction false} OneOffset(o: Long)
    ensures MovedBy(Ok(o), Ok(0), 1 * o)
  {}

  lemma {:induction false} MovedAlike(full: Result<Long>, part: Result<Long>, amount: int)
    requires MovedBy(full, part, amount)
    ensures (full.Ok? <==> part.Ok?) && (full.Err? ==> part == full)
  {}

  lemma {:induction false} BinaryCounts(e: Expr, name: Label, offsets: map<Label, Long>, counter: Long)
    requires name in offsets && e.Binary? && name in Labels(e) && Coefficient(e, name, offsets, counter).Some?
    requires Coefficient(e.left, name, offsets, counter).Some? && Coefficient(e.right, name, offsets, counter).Some?
    requires MovedBy(Evaluate(e.left, offsets, counter, false, None), Evaluate(e.left, offsets, counter, false, Some(name)),
                     Coefficient(e.left, name, offsets, counter).value * offsets[name])
    requires MovedBy(Evaluate(e.right, offsets, counter, false, None), Evaluate(e.right, offsets, counter, false, Some(name)),
                     Coefficient(e.right, name, offsets, counter).value * offsets[name])
    ensures MovedBy(Evaluate(e, offsets, counter, false, None), Evaluate(e, offsets, counter, false, Some(name)),
                    Coefficient(e, name, offsets, counter).value * offsets[name])
  {
    var l, r, o := e.left, e.right, offsets[name];
    CoefficientIs(e, name, offsets, counter);
    BinaryIs(e.op, l, r, offsets, counter, false, None);
    BinaryIs(e.op, l, r, offsets, counter, false, Some(name));
    hide *;
    var m, n := Coefficient(l, name, offsets, counter).value, Coefficient(r, name, offsets, counter).value;
    var a, a' := Evaluate(l, offsets, counter, false, None), Evaluate(l, offsets, counter, false, Some(name));
    var b, b' := Evaluate(r, offsets, counter, false, None), Evaluate(r, offsets, counter, false, Some(name));
    MovedAlike(a, a', m * o);
    MovedAlike(b, b', n * o);
    var full, c := Evaluate(e, offsets, counter, false, None), Coefficient(e, name, offsets, counter).value;
    if a.Err? || b.Err? {
      Failing(full, c * o);
    } else if e.op.Mul? {
      if name !in Labels(l) {
        FactorIs(l, offsets, counter);
        ExcludeElsewhere(l, name, offsets, counter);
        ProductMoved(a.value, b, b', n, o);
      } else {
        FactorIs(r, offsets, counter);
        ExcludeElsewhere(r, name, offsets, counter);
        ProductMoved(b.value, a, a', m, o);
      }
    } else {
      SumMoved(e.op, a, a', b, b', m, n, o);
    }
  }

  lemma {:induction false} FactorIs(e: Expr, offsets: map<Label, Long>, counter: Long)
    ensures Evaluate(e, offsets, counter, false, None).Ok? ==> Factor(e, offsets, counter) == Evaluate(e, offsets, counter, false, None).value
  {}

  lemma {:induction false} CoefficientIs(e: Expr, name: Label, offsets: map<Label, Long>, counter: Long)
    requires e.Binary? && name in Labels(e) && Coefficient(e, name, offsets, counter).Some?
    ensures var m, n := Coefficient(e.left, name, offsets, counter), Coefficient(e.right, name, offsets, counter);
      && m.Some? && n.Some? && (e.op.Add? || e.op.Sub? || e.op.Mul?)
      && (e.op.Mul? ==> name !in Labels(e.left) || name !in Labels(e.right))
      && Coefficient(e, name, offsets, counter).value
         == if e.op.Add? then m.value + n.value
            else if e.op.Sub? then m.value - n.value
            else if name !in Labels(e.left) then Factor(e.left, offsets, counter) * n.value
            else Factor(e.right, offsets, counter) * m.value
  { hide Factor; }

  lemma {:induction false} Failing(r: Result<Long>, amount: int)
    requires r.Err?
    ensures MovedBy(r, r, amount)
  {}

  /** Exactly when a label-number difference is right, for every right side in which the label can be counted: when the
      right side fails anyway, or the label's occurrences there come to nothing. */
  lemma {:induction false} DifferenceCounts(e: Expr, offsets: map<Label, Long>, counter: Long)
    requires Validate(e) == LabelNumberDifference && e.Binary? && FirstLabel(e).Some? && FirstLabel(e).value in offsets
    requires Coefficient(e.right, FirstLabel(e).value, offsets, counter).Some?
    ensures var name := FirstLabel(e).value;
      AddendRight(e, name, offsets, counter)
      <==> Evaluate(e.right, offsets, counter, false, None).Err?
           || Wrap(Coefficient(e.right, name, offsets, counter).value * offsets[name]) == 0
  {
    hide Validate, FirstLabel, AddendRight, Coefficient, Evaluate;
    var name := FirstLabel(e).value;
    DifferenceAddend(e, offsets, counter);
    CoefficientCounts(e.right, name, offsets, counter);
    var full, part := Evaluate(e.right, offsets, counter, false, None), Evaluate(e.right, offsets, counter, false, Some(name));
    MovedNowhere(full, part, Coefficient(e.right, name, offsets, counter).value * offsets[name]);
  }

  lemma {:induction false} MovedNowhere(full: Result<Long>, part: Result<Long>, amount: int)
    requires MovedBy(full, part, amount)
    ensures full == part <==> full.Err? || Wrap(amount) == 0
  {
    if full.Ok? {
      var v := part.value;
      WrapShift(amount, v);
      assert Wrap(v) == v;
      if Wrap(v + amount) == v {
        assert v + amount == v + TWO64 * ((v + amount) / TWO64);
      }
    }
  }

  /** With a difference of two known labels on the right, it is right exactly when the label is neither of the two,
      or both, or has offset zero. */
  lemma {:induction false} DifferenceOfDifference(name: Label, x: Label, y: Label, offsets: map<Label, Long>, counter: Long)
    requires name in offsets && x in offsets && y in offsets
    ensures var e := Binary(Sub, Symbol(name), Binary(Sub, Symbol(x), Symbol(y)));
      && Validate(e) == LabelNumberDifference && FirstLabel(e) == Some(name)
      && (AddendRight(e, name, offsets, counter) <==> (name == x <==> name == y) || offsets[name] == 0)
  {
    hide Minus, AddendRight;
    var right := Binary(Sub, Symbol(x), Symbol(y));
    var e := Binary(Sub, Symbol(name), right);
    assert Validate(right) == DoubleLabelDifference;
    DifferenceAddend(e, offsets, counter);
    hide Validate, FirstLabel;
    DifferenceValue(x, y, offsets, counter, None);
    DifferenceValue(x, y, offsets, counter, Some(name));
    MinusZero(offsets[x], offsets[y]);
  }

  lemma {:induction false} DifferenceValue(x: Label, y: Label, offsets: map<Label, Long>, counter: Long, exclude: Option<Label>)
    requires x in offsets && y in offsets
    ensures Evaluate(Binary(Sub, Symbol(x), Symbol(y)), offsets, counter, false, exclude)
      == Ok(Minus(if exclude == Some(x) then 0 else offsets[x], if exclude == Some(y) then 0 else offsets[y]))
  { hide Minus; }

  lemma {:induction false} MinusZero(a: Long, b: Long)
    ensures Minus(a, 0) == Minus(a, b) <==> b == 0
    ensures Minus(0, b) == Minus(a, b) <==> a == 0
    ensures a == b ==> Minus(a, b) == Minus(0, 0)
  {}

  /** A concrete failure: a - (a - b) with a at 8 and b at 0. */
  lemma {:induction false} RecurrenceFails(a: Label, b: Label)
    requires a != b
    ensures var offsets: map<Label, Long> := map[a := 8, b := 0];
      !AddendRight(Binary(Sub, Symbol(a), Binary(Sub, Symbol(a), Symbol(b))), a, offsets, 0)
  {
    var offsets: map<Label, Long> := map[a := 8, b := 0];
    DifferenceOfDifference(a, a, b, offsets, 0);
  }
}
