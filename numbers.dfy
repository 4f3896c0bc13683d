/**
 * JavaScript numbers as the calculator sees them: a finite value, NaN or one
 * of the two infinities.  Values are exact reals, so rounding and overflow to
 * Infinity are not modelled; what is modelled is how NaN and the infinities
 * travel through the operators the engine uses, and how `formatNumber` turns
 * them into the sentinel strings "Error" and "∞".
 */
module Numbers {

  datatype Option<+T> = None | Some(value: T)

  datatype Num = Finite(val: real) | NaN | PosInf | NegInf {
    predicate IsInfinite() { PosInf? || NegInf? }
  }

  /** The double closest to pi and to e, written as exact reals. */
  const MathPI: real := 3.141592653589793
  const MathE: real := 2.718281828459045

  /**
   * What the engine borrows from the JavaScript host and does not model:
   * `parseFloat`, the rendering of a finite number (`toString`,
   * `toExponential(6)`, `toPrecision(10)`), `Math.pow` and the one-argument
   * `Math` functions, looked up by name ("sin", "cos", "tan", "log",
   * "log10", "sqrt").
   */
  datatype Host = Host(
    parse: string -> Num,
    render: real -> string,
    pow: (Num, Num) -> Num,
    primitive: (string, Num) -> Num)

  /** JavaScript truthiness of a number: NaN and zero are falsy. */
  predicate Truthy(n: Num) {
    !n.NaN? && n != Finite(0.0)
  }

  /** `n || 0` */
  function OrZero(n: Num): (r: Num)
    ensures r.Finite? || r.IsInfinite()
    ensures Truthy(n) ==> r == n
    ensures !Truthy(n) ==> r == Finite(0.0)
  {
    if Truthy(n) then n else Finite(0.0)
  }

  function Negate(a: Num): Num {
    match a
    case Finite(x) => Finite(-x)
    case NaN => NaN
    case PosInf => NegInf
    case NegInf => PosInf
  }

  /** `a + b` */
  function Add(a: Num, b: Num): (r: Num)
    ensures a.Finite? && b.Finite? ==> r == Finite(a.val + b.val)
    ensures (a.NaN? || b.NaN?) ==> r.NaN?
  {
    if a.NaN? || b.NaN? then NaN
    else if a.IsInfinite() && b.IsInfinite() then (if a == b then a else NaN)
    else if a.IsInfinite() then a
    else if b.IsInfinite() then b
    else Finite(a.val + b.val)
  }

  /** `a - b`, which IEEE 754 defines as `a + (-b)` */
  function Sub(a: Num, b: Num): (r: Num)
    ensures a.Finite? && b.Finite? ==> r == Finite(a.val - b.val)
    ensures (a.NaN? || b.NaN?) ==> r.NaN?
  {
    Add(a, Negate(b))
  }

  /** Sign of a non-NaN number: -1, 0 or 1. */
  function Sign(a: Num): int
    requires !a.NaN?
  {
    match a
    case Finite(x) => if x < 0.0 then -1 else if x == 0.0 then 0 else 1
    case PosInf => 1
    case NegInf => -1
  }

  function SignedInf(sign: int): Num {
    if sign < 0 then NegInf else PosInf
  }

  /** `a * b` */
  function Mul(a: Num, b: Num): (r: Num)
    ensures a.Finite? && b.Finite? ==> r == Finite(a.val * b.val)
    ensures (a.NaN? || b.NaN?) ==> r.NaN?
  {
    if a.NaN? || b.NaN? then NaN
    else if a.Finite? && b.Finite? then Finite(a.val * b.val)
    else if Sign(a) == 0 || Sign(b) == 0 then NaN
    else SignedInf(Sign(a) * Sign(b))
  }

  /** `a / b`; zero has no sign here, so `x / 0` takes the sign of `x`. */
  function Div(a: Num, b: Num): (r: Num)
    ensures a.Finite? && b.Finite? && b.val != 0.0 ==> r == Finite(a.val / b.val)
    ensures (a.NaN? || b.NaN?) ==> r.NaN?
    ensures b == Finite(0.0) ==> !r.Finite?
  {
    if a.NaN? || b.NaN? then NaN
    else if a.IsInfinite() && b.IsInfinite() then NaN
    else if a.IsInfinite() then SignedInf(Sign(a) * (if Sign(b) < 0 then -1 else 1))
    else if b.IsInfinite() then Finite(0.0)
    else if b.val == 0.0 then (if a.val == 0.0 then NaN else SignedInf(Sign(a)))
    else Finite(a.val / b.val)
  }

  /** The integer part of `q`, rounded toward zero. */
  function Trunc(q: real): (t: int)
    ensures q >= 0.0 ==> t as real <= q < t as real + 1.0
    ensures q < 0.0 ==> t as real - 1.0 < q <= t as real
  {
    if q >= 0.0 then q.Floor else -((-q).Floor)
  }

  /** `a % b`: the remainder of the division truncated toward zero, so its sign follows `a`. */
  function Rem(a: Num, b: Num): (r: Num)
    ensures (a.NaN? || b.NaN? || a.IsInfinite() || b == Finite(0.0)) ==> r.NaN?
    ensures a.Finite? && b.IsInfinite() ==> r == a
  {
    if a.NaN? || b.NaN? || a.IsInfinite() || b == Finite(0.0) then NaN
    else if b.IsInfinite() then a
    else Finite(a.val - b.val * Trunc(a.val / b.val) as real)
  }

  /**
   * The remainder differs from the dividend by a whole multiple of the
   * divisor, is smaller than the divisor and has the dividend's sign.
   */
  lemma RemBounds(x: real, y: real)
    requires y != 0.0
    ensures var r := Rem(Finite(x), Finite(y)).val;
            (x >= 0.0 ==> 0.0 <= r) && (x <= 0.0 ==> r <= 0.0) &&
            (r < y || r < -y) && (-y < r || y < -r)
    ensures var r := Rem(Finite(x), Finite(y)).val;
            exists k: int :: x - r == Multiple(y, k)
  {
    var q := x / y;
    var t := Trunc(q) as real;
    var f := q - t;
    var r := Rem(Finite(x), Finite(y)).val;
    assert r == x - y * t;
    DivTimes(x, y);
    Distribute(y, q, t);
    FractionScaled(x, y, q, f, r);
    assert x - r == Multiple(y, Trunc(q));
  }

  /** `k` times `y`. */
  function Multiple(y: real, k: int): real {
    y * k as real
  }

  lemma DivTimes(x: real, y: real)
    requires y != 0.0
    ensures (x / y) * y == x
  {
  }

  lemma Distribute(y: real, q: real, t: real)
    ensures q * y - y * t == y * (q - t)
  {
  }

  /** A fraction of the divisor below one in magnitude, with the quotient's sign. */
  lemma FractionScaled(x: real, y: real, q: real, f: real, r: real)
    requires y != 0.0 && -1.0 < f < 1.0 && x == q * y && r == y * f
    requires (q >= 0.0 ==> f >= 0.0) && (q < 0.0 ==> f <= 0.0) && (q == 0.0 ==> f == 0.0)
    ensures (x >= 0.0 ==> 0.0 <= r) && (x <= 0.0 ==> r <= 0.0)
    ensures (r < y || r < -y) && (-y < r || y < -r)
  {
    FractionMagnitude(y, f, r);
    FractionSign(q, y, f, x, r);
  }

  lemma FractionMagnitude(y: real, f: real, r: real)
    requires y != 0.0 && -1.0 < f < 1.0 && r == y * f
    ensures (r < y || r < -y) && (-y < r || y < -r)
  {
    MulSigns(y, 1.0 - f);
    MulSigns(y, 1.0 + f);
    assert y * (1.0 - f) == y - y * f && y * (1.0 + f) == y + y * f;
  }

  lemma FractionSign(q: real, y: real, f: real, x: real, r: real)
    requires y != 0.0 && x == q * y && r == y * f
    requires (q >= 0.0 ==> f >= 0.0) && (q < 0.0 ==> f <= 0.0) && (q == 0.0 ==> f == 0.0)
    ensures (x >= 0.0 ==> 0.0 <= r) && (x <= 0.0 ==> r <= 0.0)
  {
    MulSigns(q, y);
    MulSigns(y, f);
    if q == 0.0 {
      assert y * f == 0.0;
    } else if q > 0.0 {
      if y > 0.0 { assert q * y > 0.0 && y * f >= 0.0; } else { assert q * y < 0.0 && y * f <= 0.0; }
    } else {
      if y > 0.0 { assert q * y < 0.0 && y * f <= 0.0; } else { assert q * y > 0.0 && y * f >= 0.0; }
    }
  }

  /** The sign of a product from the signs of its factors. */
  lemma MulSigns(a: real, b: real)
    ensures a > 0.0 && b > 0.0 ==> a * b > 0.0
    ensures a > 0.0 && b < 0.0 ==> a * b < 0.0
    ensures a < 0.0 && b > 0.0 ==> a * b < 0.0
    ensures a < 0.0 && b < 0.0 ==> a * b > 0.0
    ensures a == 0.0 || b == 0.0 ==> a * b == 0.0
  {
  }

  /**
   * `formatNumber`: NaN reads "Error", either infinity reads "∞", and a
   * finite number is rendered by the host.
   */
  function FormatNumber(h: Host, n: Num): (s: string)
    ensures n.NaN? ==> s == "Error"
    ensures n.IsInfinite() ==> s == "∞"
    ensures n.Finite? ==> s == h.render(n.val)
  {
    match n
    case NaN => "Error"
    case PosInf => "∞"
    case NegInf => "∞"
    case Finite(x) => h.render(x)
  }
}
