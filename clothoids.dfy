/** geom/clothoid.rs: a clothoid (Euler spiral) in its own local frame, described by its
    length and its radii at both ends, one of them zero (an infinite radius). */
module Clothoids {
  import opened Errors
  import opened Numerics

  /** A radius of 0 stands for an infinite radius; a positive radius turns counterclockwise. */
  datatype Clothoid = Clothoid(length: real, start_radius: real, end_radius: real)

  /** Exactly one end of the clothoid has a zero (infinite) radius. */
  predicate Valid(c: Clothoid) {
    (c.start_radius == 0.0) != (c.end_radius == 0.0)
  }

  /** Clothoid::new: fails when both radii are zero, then when neither is; the length is
      not checked. */
  function New(length: real, start_radius: real, end_radius: real): (r: Result<Clothoid>)
    ensures r.Ok? <==> Valid(Clothoid(length, start_radius, end_radius))
    ensures r.Err? ==>
      r.error == (if start_radius == 0.0 then BothRadiiZero else NoZeroRadius)
    ensures r.Ok? ==> r.value == Clothoid(length, start_radius, end_radius)
  {
    if start_radius == 0.0 && end_radius == 0.0 then Err(BothRadiiZero)
    else if start_radius != 0.0 && end_radius != 0.0 then Err(NoZeroRadius)
    else Ok(Clothoid(length, start_radius, end_radius))
  }

  /** The non-zero radius of a valid clothoid, with its sign: the end radius when the start
      radius is zero, otherwise the start radius (the branch of parameter()). */
  function FiniteRadius(c: Clothoid): real {
    if c.start_radius == 0.0 then c.end_radius else c.start_radius
  }

  /** L*|R|, the square of the clothoid parameter. */
  function ParameterSquare(c: Clothoid): real {
    c.length * Abs(FiniteRadius(c))
  }

  /** Clothoid::parameter: the square root of the length times the size of the non-zero
      radius. */
  function Parameter(lib: Libm, c: Clothoid): real {
    Sqrt(lib, ParameterSquare(c))
  }

  /** With an exact square root, the parameter is the A >= 0 of the clothoid law A^2 = L*|R|. */
  lemma ParameterSquared(lib: Libm, c: Clothoid)
    requires SqrtExact(lib) && c.length >= 0.0
    ensures Parameter(lib, c) >= 0.0
    ensures Parameter(lib, c) * Parameter(lib, c) == c.length * Abs(FiniteRadius(c))
  {
    assert 0.0 <= ParameterSquare(c);
  }

  /** The parameter depends on the non-zero radius only through its size: it is the same
      at either end and for either turning direction. */
  lemma ParameterSymmetric(lib: Libm, length: real, radius: real)
    requires radius != 0.0
    ensures Parameter(lib, Clothoid(length, 0.0, radius)) == Parameter(lib, Clothoid(length, radius, 0.0))
    ensures Parameter(lib, Clothoid(length, 0.0, radius)) == Parameter(lib, Clothoid(length, 0.0, -radius))
    ensures Parameter(lib, Clothoid(length, radius, 0.0)) == Parameter(lib, Clothoid(length, -radius, 0.0))
  {
    var m := length * Abs(radius);
    assert ParameterSquare(Clothoid(length, 0.0, radius)) == m;
    assert ParameterSquare(Clothoid(length, radius, 0.0)) == m;
    assert ParameterSquare(Clothoid(length, 0.0, -radius)) == m;
    assert ParameterSquare(Clothoid(length, -radius, 0.0)) == m;
  }

  /** The cases of the source's own tests: a 100 m clothoid with |R| = 400 has A^2 = 40000
      whichever end and sign the radius has; 200/400 and 0/0 are refused. */
  lemma ClothoidExamples(lib: Libm)
    ensures New(100.0, 0.0, 400.0) == Ok(Clothoid(100.0, 0.0, 400.0))
    ensures New(100.0, 200.0, 400.0) == Err(NoZeroRadius)
    ensures New(100.0, 0.0, 0.0) == Err(BothRadiiZero)
    ensures Parameter(lib, Clothoid(100.0, 0.0, -400.0)) == Sqrt(lib, 40000.0)
    ensures Parameter(lib, Clothoid(100.0, 400.0, 0.0)) == Sqrt(lib, 40000.0)
  {
  }
}
