/** geom/circle.rs: a circle of positive radius. */
module Circles {
  import opened Errors
  import opened Points

  datatype Circle = Circle(center: Point, radius: real)

  /** The invariant the constructor establishes: the radius is positive. */
  predicate Valid(c: Circle) {
    c.radius > 0.0
  }

  /** Circle::new: fails exactly for a radius that is zero or negative; stores both fields. */
  function New(center: Point, radius: real): (r: Result<Circle>)
    ensures r.Err? <==> radius <= 0.0
    ensures r.Err? ==> r.error == RadiusNotPositive
    ensures r.Ok? ==> r.value == Circle(center, radius) && Valid(r.value)
  {
    if radius <= 0.0 then Err(RadiusNotPositive) else Ok(Circle(center, radius))
  }
}
