/** JavaScript numbers, abstracted to exact reals together with NaN and the two
    infinities. Rounding to binary64 and overflow of finite values are not modelled. */
module Numbers {

  datatype Num = Fin(value: real) | NaN | Inf(negative: bool)

  /** `x > c` for a finite constant `c`: false for NaN, true for +Infinity only. */
  predicate GreaterThan(x: Num, c: real) {
    match x
    case Fin(v) => v > c
    case NaN => false
    case Inf(neg) => !neg
  }

  /** `a + b`. */
  function Add(a: Num, b: Num): (r: Num)
    ensures r.Fin? <==> a.Fin? && b.Fin?
    ensures r.NaN? <==> a.NaN? || b.NaN? || (a.Inf? && b.Inf? && a.negative != b.negative)
  {
    match (a, b)
    case (NaN, _) => NaN
    case (_, NaN) => NaN
    case (Fin(x), Fin(y)) => Fin(x + y)
    case (Inf(n), Fin(_)) => Inf(n)
    case (Fin(_), Inf(m)) => Inf(m)
    case (Inf(n), Inf(m)) => if n == m then Inf(n) else NaN
  }

  /** `a * b`; an infinity times zero is NaN. */
  function Mul(a: Num, b: Num): (r: Num)
    ensures r.Fin? <==> a.Fin? && b.Fin?
    ensures r.NaN? <==> a.NaN? || b.NaN? || (a.Inf? && b == Fin(0.0)) || (b.Inf? && a == Fin(0.0))
  {
    match (a, b)
    case (NaN, _) => NaN
    case (_, NaN) => NaN
    case (Fin(x), Fin(y)) => Fin(x * y)
    case (Inf(n), Fin(y)) => if y == 0.0 then NaN else Inf(n != (y < 0.0))
    case (Fin(x), Inf(m)) => if x == 0.0 then NaN else Inf(m != (x < 0.0))
    case (Inf(n), Inf(m)) => Inf(n != m)
  }

  /** `a / d` for a positive finite divisor. */
  function Div(a: Num, d: real): (r: Num)
    requires d > 0.0
    ensures r.Fin? <==> a.Fin?
    ensures r.NaN? <==> a.NaN?
  {
    match a
    case Fin(x) => Fin(x / d)
    case _ => a
  }

  /** The value shown for `x` once NaN and the infinities are replaced by 0. */
  function OrZero(x: Num): real {
    if x.Fin? then x.value else 0.0
  }
}
