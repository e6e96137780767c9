/** JavaScript numbers as the expression engine uses them: an exact real while the value is
    finite, and one marker for every non-finite value (NaN, +Infinity and -Infinity alike). */
module Numbers {

  datatype Num = Finite(value: real) | NonFinite

  /** `Math.PI` and `Math.E`: the exact values of the two IEEE-754 doubles. */
  const PI: real := 3.141592653589793115997963468544185161590576171875
  const EULER: real := 2.718281828459045090795598298427648842334747314453125

  /** The library routines the engine calls but whose definitions are not part of this model:
      the `Math` functions, which may return a non-finite value (`Math.sqrt(-1)` is NaN,
      `Math.log(0)` is -Infinity), and the number-to-text conversions: `String(x)`, the
      exponential form `x.toExponential(9)` with the zeros before its `e` removed, and the
      rounded form `Number(x.toPrecision(12)).toString()`. */
  datatype Runtime = Runtime(
    sin: real -> Num, cos: real -> Num, tan: real -> Num,
    asin: real -> Num, acos: real -> Num, atan: real -> Num,
    ln: real -> Num, log10: real -> Num, sqrt: real -> Num, exp: real -> Num,
    pow: (real, real) -> Num,
    show: real -> string, exponential: real -> string, rounded: real -> string)

  function Add(a: Num, b: Num): Num {
    if a.Finite? && b.Finite? then Finite(a.value + b.value) else NonFinite
  }

  function Sub(a: Num, b: Num): Num {
    if a.Finite? && b.Finite? then Finite(a.value - b.value) else NonFinite
  }

  function Mul(a: Num, b: Num): Num {
    if a.Finite? && b.Finite? then Finite(a.value * b.value) else NonFinite
  }

  /** Division by zero gives ±Infinity or NaN in JavaScript: non-finite either way. */
  function Div(a: Num, b: Num): Num {
    if a.Finite? && b.Finite? && b.value != 0.0 then Finite(a.value / b.value) else NonFinite
  }

  /** `Math.pow`: a zero exponent gives 1 whatever the base, NaN included. */
  function Pow(rt: Runtime, a: Num, b: Num): Num {
    if b == Finite(0.0) then Finite(1.0)
    else if a.Finite? && b.Finite? then rt.pow(a.value, b.value)
    else NonFinite
  }

  /** `Math.abs`. */
  function Abs(a: Num): Num {
    if a.NonFinite? then NonFinite
    else if a.value < 0.0 then Finite(-a.value)
    else a
  }

  /** A one-argument library routine applied to a number; non-finite stays non-finite. */
  function Lift(f: real -> Num, a: Num): Num {
    if a.Finite? then f(a.value) else NonFinite
  }

  function NatPow(a: real, n: nat): real {
    if n == 0 then 1.0 else a * NatPow(a, n - 1)
  }

  predicate IsNatural(b: real) {
    b >= 0.0 && b == b.Floor as real
  }

  /** What is assumed of the runtime's `Math.pow`: exact on natural exponents. */
  ghost predicate PowLaw(rt: Runtime) {
    forall a: real, b: real :: IsNatural(b) ==> rt.pow(a, b) == Finite(NatPow(a, b.Floor))
  }

  /** Under that assumption `^` with a natural exponent is repeated multiplication; the zero
      exponent needs no assumption at all. */
  lemma PowNatural(rt: Runtime, a: real, n: nat)
    requires PowLaw(rt)
    ensures Pow(rt, Finite(a), Finite(n as real)) == Finite(NatPow(a, n))
  {
    if n != 0 {
      assert IsNatural(n as real);
      assert (n as real).Floor == n;
    }
  }
}
