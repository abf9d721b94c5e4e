/**
  The bound as the expression the store inlines into its UPDATE and COUNT statements, under
  SQLite's rules: NULL spreads, division of two integers truncates, division by zero is NULL.
 */
module WilsonSql {
  import opened Wilson

  datatype Value = Null | Int(i: int) | Real(r: real)

  datatype Expr =
    | Lit(value: Value)
    | Column(name: string)
    | Coalesce(first: Expr, second: Expr)
    | Add(left: Expr, right: Expr)
    | Sub(left: Expr, right: Expr)
    | Mul(left: Expr, right: Expr)
    | Div(left: Expr, right: Expr)
    | Sqrt(arg: Expr)
    | Greatest(left: Expr, right: Expr)

  type Row = map<string, Value>

  function AsReal(v: Value): real
    requires !v.Null?
  {
    if v.Int? then v.i as real else v.r
  }

  /** SQLite's `/` on integers rounds toward zero. */
  function Truncated(a: int, b: int): int
    requires b != 0
  {
    if a >= 0 then a / b else -((-a) / b)
  }

  function Quotient(a: Value, b: Value): Value {
    if a.Null? || b.Null? || AsReal(b) == 0.0 then Null
    else if a.Int? && b.Int? then Int(Truncated(a.i, b.i))
    else Real(AsReal(a) / AsReal(b))
  }

  datatype Op = Plus | Minus | Times

  function Arith(op: Op, a: Value, b: Value): Value {
    if a.Null? || b.Null? then Null
    else if a.Int? && b.Int? then
      Int(match op case Plus => a.i + b.i case Minus => a.i - b.i case Times => a.i * b.i)
    else
      var x, y := AsReal(a), AsReal(b);
      Real(match op case Plus => x + y case Minus => x - y case Times => x * y)
  }

  /** SQLite's `SQRT`: NULL below zero; `root` gives the square roots. */
  function Rooted(v: Value, root: real -> real): Value {
    if v.Null? || AsReal(v) < 0.0 then Null else Real(root(AsReal(v)))
  }

  function Eval(e: Expr, row: Row, root: real -> real): Value {
    match e
    case Lit(v) => v
    case Column(name) => if name in row then row[name] else Null
    case Coalesce(a, b) => if Eval(a, row, root).Null? then Eval(b, row, root) else Eval(a, row, root)
    case Add(a, b) => Arith(Plus, Eval(a, row, root), Eval(b, row, root))
    case Sub(a, b) => Arith(Minus, Eval(a, row, root), Eval(b, row, root))
    case Mul(a, b) => Arith(Times, Eval(a, row, root), Eval(b, row, root))
    case Div(a, b) => Quotient(Eval(a, row, root), Eval(b, row, root))
    case Sqrt(a) => Rooted(Eval(a, row, root), root)
    case Greatest(a, b) =>
      var x, y := Eval(a, row, root), Eval(b, row, root);
      if x.Null? || y.Null? then Null else if AsReal(x) >= AsReal(y) then x else y
  }

  function I(i: int): Expr { Lit(Int(i)) }
  function R(r: real): Expr { Lit(Real(r)) }

  // The parts of the string that `_wilson_sql` builds.

  function PointSql(ok: Expr, total: Expr): Expr { Div(Mul(R(1.0), ok), total) }

  function DenomSql(total: Expr): Expr { Add(I(1), Div(R(Z2), total)) }

  function CenterSql(ok: Expr, total: Expr): Expr {
    Div(Add(PointSql(ok, total), Div(R(Z2), Mul(I(2), total))), DenomSql(total))
  }

  function RadicandSql(ok: Expr, total: Expr): Expr {
    Add(Div(Mul(PointSql(ok, total), Sub(I(1), PointSql(ok, total))), total),
        Div(R(Z2), Mul(Mul(I(4), total), total)))
  }

  function HalfSql(ok: Expr, total: Expr): Expr {
    Div(Mul(R(WILSON_Z), Sqrt(RadicandSql(ok, total))), DenomSql(total))
  }

  /** `_wilson_sql`. */
  function WilsonExpr(ok: Expr, total: Expr): Expr {
    Greatest(R(0.0), Sub(CenterSql(ok, total), HalfSql(ok, total)))
  }

  lemma PointValue(ok: Expr, total: Expr, row: Row, root: real -> real, k: int, n: int)
    requires Eval(ok, row, root) == Int(k) && Eval(total, row, root) == Int(n) && n > 0
    ensures Eval(PointSql(ok, total), row, root) == Real(Share(k, n))
  {
    assert Eval(Mul(R(1.0), ok), row, root) == Real(1.0 * k as real);
  }

  lemma DenomValue(total: Expr, row: Row, root: real -> real, n: int)
    requires Eval(total, row, root) == Int(n) && n > 0
    ensures Eval(DenomSql(total), row, root) == Real(1.0 + Z2 / n as real)
  {
    assert Eval(Div(R(Z2), total), row, root) == Real(Z2 / n as real);
  }

  lemma RadicandValue(ok: Expr, total: Expr, row: Row, root: real -> real, k: int, n: int)
    requires Eval(ok, row, root) == Int(k) && Eval(total, row, root) == Int(n) && n > 0
    ensures Eval(RadicandSql(ok, total), row, root) == Real(Radicand(k, n))
  {
    SpreadValue(ok, total, row, root, k, n);
    SquareValue(total, row, root, n);
    hide PointSql, Eval, Spread, Tail;
    SumValue(Div(Mul(PointSql(ok, total), Sub(I(1), PointSql(ok, total))), total),
             Div(R(Z2), Mul(Mul(I(4), total), total)), row, root, Spread(Share(k, n), n as real), Tail(n as real));
  }

  lemma SumValue(a: Expr, b: Expr, row: Row, root: real -> real, x: real, y: real)
    requires Eval(a, row, root) == Real(x) && Eval(b, row, root) == Real(y)
    ensures Eval(Add(a, b), row, root) == Real(x + y)
  {
  }

  lemma SpreadValue(ok: Expr, total: Expr, row: Row, root: real -> real, k: int, n: int)
    requires Eval(ok, row, root) == Int(k) && Eval(total, row, root) == Int(n) && n > 0
    ensures Eval(Div(Mul(PointSql(ok, total), Sub(I(1), PointSql(ok, total))), total), row, root)
            == Real(Spread(Share(k, n), n as real))
  {
    PointValue(ok, total, row, root, k, n);
    var p := Share(k, n);
    hide Share, PointSql;
    assert Eval(Sub(I(1), PointSql(ok, total)), row, root) == Real(1.0 - p);
    assert Eval(Mul(PointSql(ok, total), Sub(I(1), PointSql(ok, total))), row, root) == Real(p * (1.0 - p));
  }

  lemma SquareValue(total: Expr, row: Row, root: real -> real, n: int)
    requires Eval(total, row, root) == Int(n) && n > 0
    ensures Eval(Div(R(Z2), Mul(Mul(I(4), total), total)), row, root) == Real(Tail(n as real))
  {
    assert Eval(Mul(I(4), total), row, root) == Int(4 * n);
    assert Eval(Mul(Mul(I(4), total), total), row, root) == Int(4 * n * n);
    FourSquares(n);
  }

  lemma FourSquares(n: int)
    requires n > 0
    ensures (4 * n * n) as real == 4.0 * n as real * n as real > 0.0
  {
    assert (4 * n * n) as real == (4 * n) as real * n as real;
    MulLt(0.0, n as real, n as real);
  }

  lemma CenterValue(ok: Expr, total: Expr, row: Row, root: real -> real, k: int, n: int)
    requires Eval(ok, row, root) == Int(k) && Eval(total, row, root) == Int(n) && n > 0
    ensures 1.0 + Z2 / n as real > 0.0
    ensures Eval(CenterSql(ok, total), row, root) ==
            Real((Share(k, n) + Z2 / (2.0 * n as real)) / (1.0 + Z2 / n as real))
  {
    PointValue(ok, total, row, root, k, n);
    DenomValue(total, row, root, n);
    QuotientPositive(Z2, n as real);
    assert Eval(Mul(I(2), total), row, root) == Int(2 * n);
    assert (2 * n) as real == 2.0 * n as real;
    assert Eval(Div(R(Z2), Mul(I(2), total)), row, root) == Real(Z2 / (2.0 * n as real));
  }

  lemma RadicandNonNegative(ok: int, total: int)
    requires 0 <= ok <= total && total > 0
    ensures Radicand(ok, total) >= 0.0
  {
    var p, n := Share(ok, total), total as real;
    ShareIn(ok, total);
    MulLe(0.0, p, 1.0 - p);
    MulLt(0.0, n, n);
    assert 4.0 * n * n == 4.0 * (n * n);
    QuotientPositive(Z2, 4.0 * n * n);
    DivMul(p * (1.0 - p), n);
    if p * (1.0 - p) / n < 0.0 { MulLt(p * (1.0 - p) / n, 0.0, n); }
  }

  /**
    The SQL form is the Python form: on a sample of at least one probe it evaluates to the very
    bound `wilson_lower` returns, whatever expressions the two counts are.
   */
  lemma SqlIsPython(ok: Expr, total: Expr, row: Row, root: real -> real, k: int, n: int)
    requires Eval(ok, row, root) == Int(k) && Eval(total, row, root) == Int(n) && 0 <= k <= n && n > 0
    ensures Eval(WilsonExpr(ok, total), row, root) == Real(WilsonLower(k, n, root(Radicand(k, n))))
  {
    var s, d := root(Radicand(k, n)), 1.0 + Z2 / n as real;
    CenterValue(ok, total, row, root, k, n);
    HalfValue(ok, total, row, root, k, n);
    hide CenterSql, HalfSql;
    var center, half := (Share(k, n) + Z2 / (2.0 * n as real)) / d, WILSON_Z * s / d;
    assert Unclamped(k, n, s) == center - half;
    hide Unclamped, Share, Radicand;
    assert Eval(Sub(CenterSql(ok, total), HalfSql(ok, total)), row, root) == Real(center - half);
  }

  lemma HalfValue(ok: Expr, total: Expr, row: Row, root: real -> real, k: int, n: int)
    requires Eval(ok, row, root) == Int(k) && Eval(total, row, root) == Int(n) && 0 <= k <= n && n > 0
    ensures 1.0 + Z2 / n as real > 0.0
    ensures Eval(HalfSql(ok, total), row, root) ==
            Real(WILSON_Z * root(Radicand(k, n)) / (1.0 + Z2 / n as real))
  {
    QuotientPositive(Z2, n as real);
    DenomValue(total, row, root, n);
    RadicandValue(ok, total, row, root, k, n);
    RadicandNonNegative(k, n);
    hide DenomSql, RadicandSql, Radicand, Share;
    RootOver(RadicandSql(ok, total), DenomSql(total), row, root, Radicand(k, n), 1.0 + Z2 / n as real);
  }

  lemma RootOver(radicand: Expr, denom: Expr, row: Row, root: real -> real, x: real, d: real)
    requires Eval(radicand, row, root) == Real(x) && Eval(denom, row, root) == Real(d) && x >= 0.0 && d > 0.0
    ensures Eval(Div(Mul(R(WILSON_Z), Sqrt(radicand)), denom), row, root) == Real(WILSON_Z * root(x) / d)
  {
    assert Eval(Mul(R(WILSON_Z), Sqrt(radicand)), row, root) == Real(WILSON_Z * root(x));
  }

  /** Without a probe the two part: Python answers zero, SQL answers NULL. */
  lemma SqlWithoutProbes(ok: Expr, total: Expr, row: Row, root: real -> real, k: int)
    requires Eval(ok, row, root) == Int(k) && Eval(total, row, root) == Int(0)
    ensures Eval(WilsonExpr(ok, total), row, root) == Null
    ensures WilsonLower(k, 0, root(0.0)) == 0.0
  {
    assert Eval(PointSql(ok, total), row, root) == Null;
    assert Eval(CenterSql(ok, total), row, root) == Null;
  }
}
