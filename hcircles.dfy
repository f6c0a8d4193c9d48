/** road/hcircle.rs: a circular arc of a horizontal alignment, given by its start point, its
    start azimuth in radians, a signed radius (positive turns counterclockwise) and its
    length. */
module HCircles {
  import opened Errors
  import opened Numerics
  import opened Points
  import opened Angles

  datatype HCircle = HCircle(start_point: Point, start_azimuth: real, radius: real, length: real)

  /** What HCircle::new guarantees: a non-zero radius and a length that is not negative. */
  predicate Valid(c: HCircle) {
    c.radius != 0.0 && c.length >= 0.0
  }

  /** HCircle::new: refuses a zero radius or a negative length; a negative start azimuth is
      moved up by one turn, any other is kept. */
  function New(start_point: Point, start_azimuth: real, radius: real, length: real): (r: Result<HCircle>)
    ensures r.Err? <==> radius == 0.0 || length < 0.0
    ensures r.Err? ==> r.error == ZeroRadiusOrNegativeLength
    ensures r.Ok? ==> Valid(r.value)
    ensures r.Ok? ==> r.value.start_point == start_point && r.value.radius == radius && r.value.length == length
    ensures r.Ok? && start_azimuth < 0.0 ==> r.value.start_azimuth == TWO_PI + start_azimuth
    ensures r.Ok? && 0.0 <= start_azimuth ==> r.value.start_azimuth == start_azimuth
  {
    if radius == 0.0 || length < 0.0 then Err(ZeroRadiusOrNegativeLength)
    else
      var angle := if start_azimuth < 0.0 then TWO_PI + start_azimuth else start_azimuth;
      Ok(HCircle(start_point, angle, radius, length))
  }

  /** A start azimuth within one turn either way, other than a full positive turn, is stored
      fully normalised into [0, 2*PI). */
  lemma NewNormalizes(start_point: Point, start_azimuth: real, radius: real, length: real)
    requires radius != 0.0 && length >= 0.0
    requires -TWO_PI <= start_azimuth < TWO_PI
    ensures New(start_point, start_azimuth, radius, length).value.start_azimuth == NormalizeRadian(start_azimuth)
  {
    var angle := New(start_point, start_azimuth, radius, length).value.start_azimuth;
    assert OneTurnApart(angle, start_azimuth);
    OneTurnNormalizes(start_azimuth, angle);
  }

  /** The angle an arc of length `s` turns through: s / R, counterclockwise for R > 0. */
  function Turning(c: HCircle, s: real): real
    requires c.radius != 0.0
  {
    s / c.radius
  }

  /** The HSection::azimuth_at_s of a circle: refuses an `s` beyond the length (a negative `s`
      is accepted); otherwise the start azimuth plus the turning, brought back by one turn
      when it passes 2*PI and forward by one turn when it is negative. */
  function AzimuthAtS(c: HCircle, s: real): (r: Result<real>)
    requires c.radius != 0.0
    ensures r.Err? <==> s > c.length
    ensures r.Err? ==> r.error == ArcLengthBeyondLength
    ensures r.Ok? ==> WrapsOnce(r.value, c.start_azimuth + Turning(c, s))
  {
    if s > c.length then Err(ArcLengthBeyondLength)
    else
      var az := c.start_azimuth + Turning(c, s);
      var az' := if az > TWO_PI then az - TWO_PI else az;
      Ok(if az' < 0.0 then TWO_PI + az' else az')
  }

  /** The azimuth at `s` lies in [0, 2*PI] exactly when the unwrapped heading v = start + s/R
      lies in [-2*PI, 4*PI]. There it is the normalised heading, except that v = 2*PI and
      v = 4*PI give 2*PI (and v = 0 or -2*PI give 0). Outside, one wrap is not enough: below
      -2*PI the result stays negative and above 4*PI it stays above 2*PI. */
  lemma AzimuthAtSRange(c: HCircle, s: real)
    requires c.radius != 0.0 && s <= c.length
    ensures var r, v := AzimuthAtS(c, s).value, c.start_azimuth + Turning(c, s);
      (0.0 <= r <= TWO_PI <==> -TWO_PI <= v <= 2.0 * TWO_PI)
      && (v < -TWO_PI ==> r < 0.0) && (v > 2.0 * TWO_PI ==> r > TWO_PI)
      && (0.0 <= r < TWO_PI ==> r == NormalizeRadian(v))
      && (r == TWO_PI <==> v == TWO_PI || v == 2.0 * TWO_PI)
  {
    WrapsOnceRange(AzimuthAtS(c, s).value, c.start_azimuth + Turning(c, s));
  }

  /** The HSection::end_azimuth of a circle: its azimuth at arc length `length`. */
  function EndAzimuth(c: HCircle): (r: real)
    requires c.radius != 0.0
    ensures WrapsOnce(r, c.start_azimuth + Turning(c, c.length))
  {
    AzimuthAtS(c, c.length).value
  }

  /** The cases of the source's own tests, with the exact values the rounded test data stands
      for: a quarter of the 400 m circle from heading PI/2 turns to 3*PI/4 half-way, or to
      5*PI/4 turning clockwise from -PI/2; arc length 1000 is beyond a 200*PI arc; the end
      azimuths of 300 m arcs wrap forwards and backwards by one turn; a zero radius and a
      negative length are refused. At the boundary, a heading of exactly 0 stays 0 and one of
      exactly 2*PI stays 2*PI; an arc accepted from azimuth 100 ends at 100.75 - 2*PI, one wrap
      being too few to bring it into [0, 2*PI]. */
  lemma CircleExamples(p: Point)
    ensures AzimuthAtS(HCircle(p, PI / 2.0, 400.0, 200.0 * PI), 100.0 * PI) == Ok(3.0 * PI / 4.0)
    ensures New(p, -PI / 2.0, -400.0, 200.0 * PI) == Ok(HCircle(p, 3.0 * PI / 2.0, -400.0, 200.0 * PI))
    ensures AzimuthAtS(HCircle(p, 3.0 * PI / 2.0, -400.0, 200.0 * PI), 100.0 * PI) == Ok(5.0 * PI / 4.0)
    ensures AzimuthAtS(HCircle(p, PI / 2.0, 400.0, 200.0 * PI), 1000.0) == Err(ArcLengthBeyondLength)
    ensures EndAzimuth(HCircle(p, 5.9259, 400.0, 300.0)) == 5.9259 + 0.75 - TWO_PI
    ensures EndAzimuth(HCircle(p, PI / 8.0, -400.0, 300.0)) == PI / 8.0 - 0.75 + TWO_PI
    ensures AzimuthAtS(HCircle(p, 0.0, 400.0, 100.0), 0.0) == Ok(0.0)
    ensures EndAzimuth(HCircle(p, PI, 400.0, 400.0 * PI)) == TWO_PI
    ensures New(p, 100.0, 400.0, 300.0) == Ok(HCircle(p, 100.0, 400.0, 300.0))
    ensures EndAzimuth(HCircle(p, 100.0, 400.0, 300.0)) == 100.75 - TWO_PI
    ensures New(p, 0.0, 0.0, 100.0) == Err(ZeroRadiusOrNegativeLength)
    ensures New(p, 0.0, 100.0, -100.0) == Err(ZeroRadiusOrNegativeLength)
  {
  }
}
