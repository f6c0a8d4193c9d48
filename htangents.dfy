/** road/htangent.rs: a straight section of a horizontal alignment, given by its start point,
    its azimuth in radians and its length. */
module HTangents {
  import opened Errors
  import opened Numerics
  import opened Points
  import opened Angles
  import Lines

  datatype HTangent = HTangent(start_point: Point, azimuth: real, length: real)

  /** What HTangent::new guarantees of every tangent it builds: an azimuth in [0, 2*PI) and a
      length that is not negative. */
  predicate Valid(t: HTangent) {
    0.0 <= t.azimuth < TWO_PI && t.length >= 0.0
  }

  /** HTangent::new: refuses an azimuth beyond one turn either way, then a negative length;
      a negative azimuth is moved up by one turn and a full turn becomes 0. */
  function New(start_point: Point, azimuth: real, length: real): (r: Result<HTangent>)
    ensures r.Err? <==> Abs(azimuth) > TWO_PI || length < 0.0
    ensures r.Err? ==>
      r.error == (if Abs(azimuth) > TWO_PI then AzimuthBeyondTwoPi else NegativeLength)
    ensures r.Ok? ==> Valid(r.value)
    ensures r.Ok? ==> r.value.start_point == start_point && r.value.length == length
    ensures r.Ok? ==> r.value.azimuth == NormalizeRadian(azimuth)
  {
    if Abs(azimuth) > TWO_PI then Err(AzimuthBeyondTwoPi)
    else if length < 0.0 then Err(NegativeLength)
    else
      var angle := if azimuth < 0.0 then TWO_PI + azimuth else azimuth;
      var angle' := if angle == TWO_PI then 0.0 else angle;
      assert OneTurnApart(angle', azimuth);
      OneTurnNormalizes(azimuth, angle');
      Ok(HTangent(start_point, angle', length))
  }

  /** HTangent::vector: the direction of travel, (cos az, sin az). */
  function Direction(lib: Libm, t: HTangent): Vector {
    Vector(Cos(lib, t.azimuth), Sin(lib, t.azimuth))
  }

  /** The HSection::azimuth_at_s of a tangent: its azimuth, whatever `s` is. */
  function AzimuthAtS(t: HTangent, s: real): real {
    t.azimuth
  }

  /** The heading is the same at every point of a tangent, at its start and at its end. */
  lemma AzimuthConstant(t: HTangent, s1: real, s2: real)
    ensures AzimuthAtS(t, s1) == AzimuthAtS(t, s2) == t.azimuth
  {
  }

  /** The HSection::point_at_s of a tangent: refuses an `s` outside [0, length], otherwise the
      point at distance `s` from the start along the direction. */
  function PointAtS(lib: Libm, t: HTangent, s: real): (r: Result<Point>)
    ensures r.Err? <==> s < 0.0 || s > t.length
    ensures r.Err? ==> r.error == ArcLengthOutOfRange
  {
    if s < 0.0 || s > t.length then Err(ArcLengthOutOfRange)
    else
      var x := t.start_point.x + s * Cos(lib, t.azimuth);
      var y := t.start_point.y + s * Sin(lib, t.azimuth);
      Ok(Point(x, y))
  }

  /** Every point of the tangent lies on the line through its start point along its direction. */
  lemma PointAtSOnLine(lib: Libm, t: HTangent, s: real)
    requires PointAtS(lib, t, s).Ok?
    ensures Lines.ContainsPoint(Lines.FromPointVector(t.start_point, Direction(lib, t)), PointAtS(lib, t, s).value)
  {
    Lines.FromPointVectorContainsRay(t.start_point, Direction(lib, t), s);
  }

  /** The point at `s` is at distance `s` from the start point, moving forwards. */
  lemma PointAtSDistance(lib: Libm, t: HTangent, s: real)
    requires PointAtS(lib, t, s).Ok? && OnUnitCircle(lib, t.azimuth)
    ensures var p, u := PointAtS(lib, t, s).value, Direction(lib, t);
      var dx, dy := p.x - t.start_point.x, p.y - t.start_point.y;
      dx * dx + dy * dy == s * s && dx * u.vx + dy * u.vy == s
  {
    var c, n := Cos(lib, t.azimuth), Sin(lib, t.azimuth);
    var p := PointAtS(lib, t, s).value;
    assert p.x - t.start_point.x == s * c && p.y - t.start_point.y == s * n;
    assert (s * c) * (s * c) + (s * n) * (s * n) == s * s * (c * c + n * n);
    assert (s * c) * c + (s * n) * n == s * (c * c + n * n);
  }

  /** The point at arc length 0 is the start point. */
  lemma PointAtStart(lib: Libm, t: HTangent)
    requires t.length >= 0.0
    ensures PointAtS(lib, t, 0.0) == Ok(t.start_point)
  {
  }

  /** The HSection::end_point of a tangent: its point at arc length `length`. */
  function EndPoint(lib: Libm, t: HTangent): (r: Result<Point>)
    ensures Valid(t) ==> r.Ok?
  {
    PointAtS(lib, t, t.length)
  }

  /** The end point is `length` away from the start along the direction. */
  lemma EndPointDistance(lib: Libm, t: HTangent)
    requires Valid(t) && OnUnitCircle(lib, t.azimuth)
    ensures var p, u := EndPoint(lib, t).value, Direction(lib, t);
      var dx, dy := p.x - t.start_point.x, p.y - t.start_point.y;
      dx * dx + dy * dy == t.length * t.length && dx * u.vx + dy * u.vy == t.length
  {
    PointAtSDistance(lib, t, t.length);
  }

  /** The cases of the source's own tests: 45 degrees is kept and -45 degrees becomes
      2*PI - 45 degrees; 720 degrees and a negative length are refused; a full turn becomes
      azimuth 0, and with cos 0 = 1, sin 0 = 0 the 100 m tangent from the origin ends at
      (100, 0); arc lengths 15 and -5 are outside a 10 m tangent. The tangent of the alignment's
      own test, azimuth 45 taken as radians, is refused. */
  lemma TangentExamples(lib: Libm, p: Point)
    requires Cos(lib, 0.0) == 1.0 && Sin(lib, 0.0) == 0.0
    ensures New(p, PI / 4.0, 100.0) == Ok(HTangent(p, PI / 4.0, 100.0))
    ensures New(p, -PI / 4.0, 100.0) == Ok(HTangent(p, TWO_PI - PI / 4.0, 100.0))
    ensures New(p, 4.0 * PI, 100.0) == Err(AzimuthBeyondTwoPi)
    ensures New(p, -4.0 * PI, 100.0) == Err(AzimuthBeyondTwoPi)
    ensures New(p, PI / 9.0, -100.0) == Err(NegativeLength)
    ensures New(Point(0.0, 0.0), TWO_PI, 100.0) == Ok(HTangent(Point(0.0, 0.0), 0.0, 100.0))
    ensures EndPoint(lib, HTangent(Point(0.0, 0.0), 0.0, 100.0)) == Ok(Point(100.0, 0.0))
    ensures PointAtS(lib, HTangent(Point(0.0, 0.0), 0.0, 10.0), 15.0) == Err(ArcLengthOutOfRange)
    ensures PointAtS(lib, HTangent(Point(0.0, 0.0), 0.0, 10.0), -5.0) == Err(ArcLengthOutOfRange)
    ensures New(Point(1.0, 1.0), 45.0, 100.0) == Err(AzimuthBeyondTwoPi)
  {
  }
}
