/** Run-time meaning of the language's scalar expressions, used as the
    reference the analysis is sound against and the arithmetic the generated
    code performs. Integers are unbounded: 32-bit overflow is not modelled.
    Booleans are the integers 0 and 1, as the analysis stores them. */
module Concrete {
  import opened Wrappers
  import opened Ast

  function Abs(x: int): nat
  {
    if x < 0 then -x else x
  }

  /** C's `/` on `int`: the quotient truncated toward zero. */
  function TruncDiv(x: int, y: int): int
    requires y != 0
  {
    if (x < 0) == (y < 0) then Abs(x) / Abs(y) else -(Abs(x) / Abs(y))
  }

  /** The remainder of truncating division is the remainder of the
      magnitudes, with the dividend's sign. */
  lemma TruncDivRemainderIs(x: int, y: int)
    requires y != 0
    ensures x - y * TruncDiv(x, y) == if x < 0 then -(Abs(x) % Abs(y)) else Abs(x) % Abs(y)
  {
    var ax, ay := Abs(x), Abs(y);
    var m: int := ax / ay;
    var p: int := ay * m;
    assert ax == p + ax % ay;
    var q := TruncDiv(x, y);
    if (x < 0) == (y < 0) {
      assert q == m;
      if y > 0 {
        assert y * q == p;
      } else {
        assert y == -ay;
        assert y * q == -p;
      }
    } else {
      assert q == -m;
      if y > 0 {
        assert y == ay;
        assert y * q == -p;
      } else {
        assert y == -ay;
        assert y * q == p;
      }
    }
  }

  /** The C99 contract of `/`: the remainder `x - y*q` is smaller than the
      divisor in magnitude and, when nonzero, has the dividend's sign. */
  lemma TruncDivRemainder(x: int, y: int)
    requires y != 0
    ensures Abs(x - y * TruncDiv(x, y)) < Abs(y)
    ensures x - y * TruncDiv(x, y) == 0 || (x - y * TruncDiv(x, y) < 0 <==> x < 0)
  {
    TruncDivRemainderIs(x, y);
  }

  /** Truncating and Euclidean division differ exactly on a negative dividend
      with a nonzero remainder. */
  lemma TruncDivNotEuclidean()
    ensures TruncDiv(-7, 2) == -3 && -7 / 2 == -4
    ensures TruncDiv(7, -2) == -3 && TruncDiv(-7, -2) == 3
  {
  }

  function Bool(b: bool): int
  {
    if b then 1 else 0
  }

  /** The operator applied to two values; `None` for a division by zero,
      which C leaves undefined. */
  function Apply(op: BinOp, x: int, y: int): (r: Option<int>)
    ensures r.None? <==> op == Div && y == 0
  {
    match op
    case And => Some(Bool(x != 0 && y != 0))
    case Or => Some(Bool(x != 0 || y != 0))
    case Compare => Some(Bool(x == y))
    case Noteq => Some(Bool(x != y))
    case Gt => Some(Bool(x > y))
    case Gteq => Some(Bool(x >= y))
    case Lt => Some(Bool(x < y))
    case Lteq => Some(Bool(x <= y))
    case Plus => Some(x + y)
    case Minus => Some(x - y)
    case Times => Some(x * y)
    case Div => if y == 0 then None else Some(TruncDiv(x, y))
  }

  predicate NoArrays(e: Expr)
  {
    match e
    case Binary(_, l, r) => NoArrays(l) && NoArrays(r)
    case Not(x) => NoArrays(x)
    case Uminus(x) => NoArrays(x)
    case Magnitude(x) => NoArrays(x)
    case Ident(_) => true
    case IntLit(_) => true
    case BoolLit(_) => true
    case ArrayAccess(_, _) => false
  }

  /** Value of a scalar expression in a state mapping each variable to its
      value; `None` when a variable is unbound or a division by zero occurs.
      Both operands of every binary operator are evaluated. */
  function Value(e: Expr, state: map<string, int>): Option<int>
    requires NoArrays(e)
  {
    match e
    case Binary(op, l, r) =>
      var a := Value(l, state);
      var b := Value(r, state);
      if a.None? || b.None? then None else Apply(op, a.value, b.value)
    case Not(x) =>
      var a := Value(x, state);
      if a.None? then None else Some(Bool(a.value == 0))
    case Uminus(x) =>
      var a := Value(x, state);
      if a.None? then None else Some(-a.value)
    case Magnitude(x) =>
      var a := Value(x, state);
      if a.None? then None else Some(Abs(a.value))
    case Ident(x) => if x in state then Some(state[x]) else None
    case IntLit(v) => Some(v)
    case BoolLit(b) => Some(Bool(b))
  }
}
