/** The per-operator transfer rules of the constant-propagation analysis:
    from the lattice elements of a node's operands to the node's own element.
    Each rule is the case analysis of one `visit` method of the analyser, in
    the order its tests are written. `e == 0` in the analyser is true only of
    the constant 0, and booleans are the constants 0 and 1. */
module Transfer {
  import opened Wrappers
  import opened Ast
  import opened Lattice
  import opened Concrete

  /** TOP is tested before BOTTOM, then both operands are constants and the
      operator `eval` is evaluated on their values: the shape shared by Plus,
      Minus and the six comparisons. */
  function Strict(eval: BinOp, a: LatticeElem, b: LatticeElem): (r: LatticeElem)
    requires eval != Div
    ensures r == Top <==> a == Top || b == Top
    ensures r.Const? <==> a.Const? && b.Const?
  {
    if a == Top || b == Top then Top
    else if a == Bottom || b == Bottom then Bottom
    else Const(Apply(eval, a.value, b.value).value)
  }

  /** `&&`: a constant 0 on either side absorbs, before TOP and BOTTOM are looked at. */
  function AndRule(a: LatticeElem, b: LatticeElem): (r: LatticeElem)
    ensures r.Const? <==> a == Const(0) || b == Const(0) || (a.Const? && b.Const?)
    ensures r.Const? ==> r.value == 0 || r.value == 1
  {
    if a == Const(0) || b == Const(0) then Const(0)
    else if a == Top || b == Top then Top
    else if a == Bottom || b == Bottom then Bottom
    else Const(Bool(a.value != 0 && b.value != 0))
  }

  /** `||`: a constant 1 on either side absorbs, before TOP and BOTTOM are looked at. */
  function OrRule(a: LatticeElem, b: LatticeElem): (r: LatticeElem)
    ensures r.Const? <==> a == Const(1) || b == Const(1) || (a.Const? && b.Const?)
    ensures r.Const? ==> r.value == 0 || r.value == 1
  {
    if a == Const(1) || b == Const(1) then Const(1)
    else if a == Top || b == Top then Top
    else if a == Bottom || b == Bottom then Bottom
    else Const(Bool(a.value != 0 || b.value != 0))
  }

  /** `<=` as the analyser folds it: the constants are compared with `>=`.
      Kept to exhibit the discrepancy (LteqRuleUnsound); BinRule uses
      LteqIntended. */
  function LteqRule(a: LatticeElem, b: LatticeElem): (r: LatticeElem)
    ensures r == LteqIntended(b, a)
  {
    Strict(Gteq, a, b)
  }

  /** `<=` folded with `<=`, as the operator means. */
  function LteqIntended(a: LatticeElem, b: LatticeElem): (r: LatticeElem)
    ensures r.Const? <==> a.Const? && b.Const?
    ensures r.Const? ==> r.value == Bool(a.value <= b.value)
  {
    Strict(Lteq, a, b)
  }

  /** `*`: a constant 0 on either side absorbs, before TOP and BOTTOM are looked at. */
  function TimesRule(a: LatticeElem, b: LatticeElem): (r: LatticeElem)
    ensures r.Const? <==> a == Const(0) || b == Const(0) || (a.Const? && b.Const?)
  {
    if a == Const(0) || b == Const(0) then Const(0)
    else if a == Top || b == Top then Top
    else if a == Bottom || b == Bottom then Bottom
    else Const(a.value * b.value)
  }

  /** `/`. The analyser first sets the result to 0 when the dividend is the
      constant 0, but the if/else chain that follows always overwrites it, so
      that first test has no effect: a constant 0 divisor gives TOP, and
      otherwise TOP, then BOTTOM, then the truncating quotient. */
  function DivRule(a: LatticeElem, b: LatticeElem): (r: LatticeElem)
    ensures r.Const? <==> a.Const? && b.Const? && b != Const(0)
    ensures r == Bottom ==> a == Bottom || b == Bottom
  {
    if b == Const(0) then Top
    else if a == Top || b == Top then Top
    else if a == Bottom || b == Bottom then Bottom
    else Const(TruncDiv(a.value, b.value))
  }

  /** `!`: TOP stays TOP; a constant is negated. BOTTOM stays BOTTOM (see README). */
  function NotRule(a: LatticeElem): (r: LatticeElem)
    ensures r == Top <==> a == Top
    ensures r.Const? <==> a.Const?
    ensures r.Const? ==> r.value == 0 || r.value == 1
  {
    match a
    case Top => Top
    case Bottom => Bottom
    case Const(v) => Const(Bool(v == 0))
  }

  /** A variable read takes the element bound to the variable: TOP is
      tested for, and whatever else the binding is passes through. */
  function IdentRule(binding: LatticeElem): (r: LatticeElem)
    ensures r == binding
  {
    if binding == Top then Top else binding
  }

  /** The rule each binary node kind applies, with `<=` folded as `<=`. */
  function BinRule(op: BinOp, a: LatticeElem, b: LatticeElem): (r: LatticeElem)
    ensures r == Bottom ==> a == Bottom || b == Bottom
    ensures a.Const? && b.Const? ==> r.Const? || (op == Div && b == Const(0) && r == Top)
  {
    match op
    case And => AndRule(a, b)
    case Or => OrRule(a, b)
    case Compare => Strict(Compare, a, b)
    case Noteq => Strict(Noteq, a, b)
    case Gt => Strict(Gt, a, b)
    case Gteq => Strict(Gteq, a, b)
    case Lt => Strict(Lt, a, b)
    case Lteq => LteqIntended(a, b)
    case Plus => Strict(Plus, a, b)
    case Minus => Strict(Minus, a, b)
    case Times => TimesRule(a, b)
    case Div => DivRule(a, b)
  }

  /** The set of run-time values an element admits: TOP all of them, a
      constant its value, BOTTOM none. */
  predicate Admits(a: LatticeElem, v: int)
  {
    a == Top || a == Const(v)
  }

  /** Every rule is sound: whenever the operands' elements admit two values
      on which the operator is defined, the node's element admits the
      operator's result. */
  lemma BinRuleSound(op: BinOp, a: LatticeElem, b: LatticeElem, x: int, y: int)
    requires Admits(a, x) && Admits(b, y)
    requires Apply(op, x, y).Some?
    ensures Admits(BinRule(op, a, b), Apply(op, x, y).value)
  {
  }

  /** On two constants every rule folds exactly as the operator, and a
      division by the constant 0 gives TOP. */
  lemma BinRuleOnConstants(op: BinOp, v: int, w: int)
    ensures Apply(op, v, w).Some? ==> BinRule(op, Const(v), Const(w)) == Const(Apply(op, v, w).value)
    ensures Apply(op, v, w).None? ==> BinRule(op, Const(v), Const(w)) == Top
  {
  }

  /** The absorbing zero of `*`, checked before TOP and BOTTOM; otherwise TOP
      wins over BOTTOM. */
  lemma TimesRuleCases(a: LatticeElem, b: LatticeElem)
    ensures a == Const(0) || b == Const(0) ==> TimesRule(a, b) == Const(0)
    ensures a != Const(0) && b != Const(0) && (a == Top || b == Top) ==> TimesRule(a, b) == Top
    ensures a != Const(0) && b != Const(0) && a != Top && b != Top && (a == Bottom || b == Bottom)
      ==> TimesRule(a, b) == Bottom
  {
  }

  lemma BinRuleTimes(a: LatticeElem, b: LatticeElem)
    ensures BinRule(Times, a, b) == TimesRule(a, b)
  {
  }

  /** The absorbing false of `&&` and true of `||`, checked before TOP and BOTTOM. */
  lemma AndOrAbsorb(a: LatticeElem)
    ensures AndRule(Const(0), a) == Const(0) && AndRule(a, Const(0)) == Const(0)
    ensures OrRule(Const(1), a) == Const(1) && OrRule(a, Const(1)) == Const(1)
    ensures a != Const(0) ==> AndRule(a, Top) == Top && AndRule(a, Bottom) == (if a == Top then Top else Bottom)
    ensures a != Const(1) ==> OrRule(a, Top) == Top && OrRule(a, Bottom) == (if a == Top then Top else Bottom)
  {
  }

  /** Division: a constant 0 divisor gives TOP whatever the dividend, the
      constant 0 dividend does not absorb, and a TOP operand gives TOP. */
  lemma DivRuleCases(a: LatticeElem, w: int)
    ensures DivRule(a, Const(0)) == Top
    ensures DivRule(Const(0), Top) == Top && DivRule(Const(0), Bottom) == Bottom
    ensures w != 0 ==> DivRule(Top, Const(w)) == Top && DivRule(Bottom, Const(w)) == Bottom
  {
  }

  /** TOP is tested before BOTTOM in the strict rules. */
  lemma StrictTopFirst(op: BinOp, a: LatticeElem)
    requires op in {Compare, Noteq, Gt, Gteq, Lt, Lteq, Plus, Minus}
    ensures BinRule(op, Top, a) == Top && BinRule(op, a, Top) == Top
    ensures a != Top ==> BinRule(op, Bottom, a) == Bottom && BinRule(op, a, Bottom) == Bottom
  {
  }

  /** `!` keeps TOP and negates a constant, soundly. */
  lemma NotRuleSound(a: LatticeElem, v: int)
    ensures NotRule(Top) == Top
    ensures Admits(a, v) ==> Admits(NotRule(a), Bool(v == 0))
  {
  }

  /** The `<=` rule as written is unsound: `1 <= 2` holds, yet the analyser
      folds it to the constant 0. */
  lemma LteqRuleUnsound()
    ensures Apply(Lteq, 1, 2) == Some(1)
    ensures LteqRule(Const(1), Const(2)) == Const(0)
    ensures !Admits(LteqRule(Const(1), Const(2)), Apply(Lteq, 1, 2).value)
  {
  }

  /** The corrected `<=` rule is sound and exact on constants. */
  lemma LteqIntendedSound(a: LatticeElem, b: LatticeElem, x: int, y: int)
    ensures Admits(a, x) && Admits(b, y) ==> Admits(LteqIntended(a, b), Bool(x <= y))
    ensures LteqIntended(Const(x), Const(y)) == Const(Apply(Lteq, x, y).value)
    ensures LteqIntended(Top, b) == Top && (b != Top ==> LteqIntended(Bottom, b) == Bottom)
  {
  }
}
