/** The floating-point library the core calls into. `f64` is modelled as `real`;
    `sqrt`, `sin` and `cos` are not computed by the model and are handed in as a record
    of functions, together with the facts a proof may assume about them. */
module Numerics {

  /** std::f64::consts::PI, as the decimal the compiler reads. */
  const PI: real := 3.141592653589793
  const TWO_PI: real := 2.0 * PI

  /** f64::abs */
  function Abs(x: real): real {
    if x < 0.0 then -x else x
  }

  /** f64::sqrt, f64::sin and f64::cos. */
  datatype Libm = Libm(sqrt: real -> real, sin: real -> real, cos: real -> real)

  /** x.sqrt() */
  function Sqrt(lib: Libm, x: real): real {
    lib.sqrt(x)
  }

  /** x.sin() */
  function Sin(lib: Libm, t: real): real {
    lib.sin(t)
  }

  /** x.cos() */
  function Cos(lib: Libm, t: real): real {
    lib.cos(t)
  }

  /** `sqrt` returns the non-negative square root of every non-negative argument. */
  ghost predicate SqrtExact(lib: Libm) {
    forall x :: 0.0 <= x ==> 0.0 <= Sqrt(lib, x) && Sqrt(lib, x) * Sqrt(lib, x) == x
  }

  /** sin(t)^2 + cos(t)^2 == 1 at the angle `t`. */
  predicate OnUnitCircle(lib: Libm, t: real) {
    Sin(lib, t) * Sin(lib, t) + Cos(lib, t) * Cos(lib, t) == 1.0
  }
}
