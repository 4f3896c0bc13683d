/**
 * The operation tables of the calculator: the binary operators applied when
 * an operator or "=" completes a pending operation, the one-argument
 * scientific functions, and the factorial with its domain check.
 */
module Arithmetic {
  import opened Numbers

  /** The operator symbols the binary table recognises. */
  predicate IsBinaryOperator(op: string) {
    op == "+" || op == "-" || op == "×" || op == "÷" || op == "%" || op == "^"
  }

  /**
   * `calculate`: ordinary arithmetic for + - ×, division that yields 0 when
   * the divisor is 0, the truncated remainder, the host's power function,
   * and the second operand for a symbol the table does not know.
   */
  function Calculate(h: Host, a: Num, b: Num, op: string): (r: Num)
    ensures a.Finite? && b.Finite? ==>
              (op == "+" ==> r == Finite(a.val + b.val)) &&
              (op == "-" ==> r == Finite(a.val - b.val)) &&
              (op == "×" ==> r == Finite(a.val * b.val)) &&
              (op == "÷" && b.val != 0.0 ==> r == Finite(a.val / b.val))
    ensures op == "÷" && b == Finite(0.0) ==> r == Finite(0.0)
    ensures op == "÷" && b != Finite(0.0) ==> r == Div(a, b)
    ensures op == "%" ==> r == Rem(a, b)
    ensures op == "^" ==> r == h.pow(a, b)
    ensures !IsBinaryOperator(op) ==> r == b
  {
    if op == "+" then Add(a, b)
    else if op == "-" then Sub(a, b)
    else if op == "×" then Mul(a, b)
    else if op == "÷" then (if b != Finite(0.0) then Div(a, b) else Finite(0.0))
    else if op == "%" then Rem(a, b)
    else if op == "^" then h.pow(a, b)
    else b
  }

  /** n! by its textbook definition. */
  function Fact(n: nat): nat {
    if n == 0 then 1 else n * Fact(n - 1)
  }

  /** lo * (lo + 1) * ... * hi, and 1 when the range is empty. */
  function Product(lo: int, hi: int): int
    decreases hi - lo
  {
    if hi < lo then 1 else Product(lo, hi - 1) * hi
  }

  /** The product 2 * 3 * ... * n is n! for every natural n. */
  lemma {:induction false} ProductFromTwo(n: nat)
    ensures Product(2, n) == Fact(n)
  {
    if n >= 2 {
      ProductFromTwo(n - 1);
    }
  }

  /** A non-negative integral finite number. */
  predicate IsNatural(n: Num) {
    n.Finite? && n.val >= 0.0 && n.val == n.val.Floor as real
  }

  /**
   * `factorial`: NaN outside the naturals, 1 for 0 and 1, and otherwise the
   * product 2 * 3 * ... * n, which is n!.  The source never returns for
   * +Infinity (its loop does not end), so that input is excluded.
   */
  function FactorialOf(n: Num): (r: Num)
    requires !n.PosInf?
    ensures !IsNatural(n) <==> r.NaN?
    ensures IsNatural(n) ==> r == Finite(Fact(n.val.Floor) as real)
  {
    if n.NaN? || n.NegInf? || n.val < 0.0 || n.val != n.val.Floor as real then NaN
    else if n.val == 0.0 || n.val == 1.0 then Finite(1.0)
    else
      ProductFromTwo(n.val.Floor);
      Finite(Product(2, n.val.Floor) as real)
  }

  /** The iterative product of the source, proved equal to FactorialOf. */
  method Factorial(n: Num) returns (r: Num)
    requires !n.PosInf?
    ensures r == FactorialOf(n)
  {
    if n.NaN? || n.NegInf? || n.val < 0.0 || n.val != n.val.Floor as real {
      return NaN;
    }
    if n.val == 0.0 || n.val == 1.0 {
      return Finite(1.0);
    }
    var k := n.val.Floor;
    var result := 1.0;
    var i := 2;
    while i as real <= n.val
      invariant 2 <= i <= k + 1
      invariant result == Product(2, i - 1) as real
    {
      result := result * i as real;
      i := i + 1;
    }
    ProductFromTwo(k);
    r := Finite(result);
  }

  /** The scientific function names with a table entry. */
  predicate IsScientificFunction(func: string) {
    func == "sin" || func == "cos" || func == "tan" || func == "ln" || func == "log" ||
    func == "√" || func == "x²" || func == "1/x" || func == "!" || func == "π" || func == "e"
  }

  /**
   * The unary table of `performScientific`: trigonometry takes degrees,
   * logarithms and square root are the host's, the reciprocal of 0 is 0,
   * the constants ignore their argument, and an unknown name returns the
   * argument unchanged.
   */
  function Unary(h: Host, func: string, x: Num): (r: Num)
    requires func == "!" ==> !x.PosInf?
    ensures (func == "sin" || func == "cos" || func == "tan") ==>
              r == h.primitive(func, Div(Mul(x, Finite(MathPI)), Finite(180.0)))
    ensures func == "ln" ==> r == h.primitive("log", x)
    ensures func == "log" ==> r == h.primitive("log10", x)
    ensures func == "√" ==> r == h.primitive("sqrt", x)
    ensures func == "x²" && x.Finite? ==> r == Finite(x.val * x.val)
    ensures func == "1/x" && x == Finite(0.0) ==> r == Finite(0.0)
    ensures func == "1/x" && x.Finite? && x.val != 0.0 ==> r == Finite(1.0 / x.val)
    ensures func == "!" ==> r == FactorialOf(x)
    ensures func == "π" ==> r == Finite(MathPI)
    ensures func == "e" ==> r == Finite(MathE)
    ensures !IsScientificFunction(func) ==> r == x
  {
    if func == "sin" || func == "cos" || func == "tan" then
      h.primitive(func, Div(Mul(x, Finite(MathPI)), Finite(180.0)))
    else if func == "ln" then h.primitive("log", x)
    else if func == "log" then h.primitive("log10", x)
    else if func == "√" then h.primitive("sqrt", x)
    else if func == "x²" then Mul(x, x)
    else if func == "1/x" then (if x != Finite(0.0) then Div(Finite(1.0), x) else Finite(0.0))
    else if func == "!" then FactorialOf(x)
    else if func == "π" then Finite(MathPI)
    else if func == "e" then Finite(MathE)
    else x
  }

  /** factorial(5) is 120; -1 and 2.5 are outside the domain. */
  lemma FactorialExamples()
    ensures FactorialOf(Finite(5.0)) == Finite(120.0)
    ensures FactorialOf(Finite(-1.0)).NaN? && FactorialOf(Finite(2.5)).NaN?
  {
    assert Fact(5) == 120;
  }
}
