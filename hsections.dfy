/** road/hsection.rs: the common view of a section of a horizontal alignment. The three kinds
    of section are the variants of one datatype; each query dispatches to the section's own
    module. */
module HSections {
  import opened Errors
  import opened Numerics
  import opened Points
  import opened Angles
  import HTangents
  import HCircles
  import HClothoids

  datatype HSection =
    | TangentSection(tangent: HTangents.HTangent)
    | CircleSection(circle: HCircles.HCircle)
    | ClothoidSection(clothoid: HClothoids.HClothoid)

  /** The section satisfies what its constructor guarantees. */
  predicate Valid(s: HSection) {
    match s
    case TangentSection(t) => HTangents.Valid(t)
    case CircleSection(c) => HCircles.Valid(c)
    case ClothoidSection(k) => HClothoids.Valid(k)
  }

  /** HSection::start_point */
  function StartPoint(s: HSection): Point {
    match s
    case TangentSection(t) => t.start_point
    case CircleSection(c) => c.start_point
    case ClothoidSection(k) => k.start_point
  }

  /** HSection::start_x, the default projection of start_point. */
  function StartX(s: HSection): real {
    StartPoint(s).x
  }

  /** HSection::start_y, the default projection of start_point. */
  function StartY(s: HSection): real {
    StartPoint(s).y
  }

  /** The start coordinates are the coordinates of the start point and determine it. */
  lemma StartCoordinates(s: HSection)
    ensures StartPoint(s) == Point(StartX(s), StartY(s))
  {
  }

  /** HSection::end_point. A tangent ends at its point at arc length `length`; the end point of
      a circle is not implemented (`todo!()`); the end point of a clothoid is trigonometry of
      the spiral and is handed in as `clothoidEnd`. */
  function EndPoint(lib: Libm, clothoidEnd: HClothoids.HClothoid -> Point, s: HSection): (r: Result<Point>)
    ensures s.TangentSection? ==> r == HTangents.EndPoint(lib, s.tangent)
    ensures s.TangentSection? && Valid(s) ==> r.Ok?
    ensures s.CircleSection? ==> r == Err(NotImplemented)
    ensures s.ClothoidSection? ==> r == Ok(clothoidEnd(s.clothoid))
  {
    match s
    case TangentSection(t) => HTangents.EndPoint(lib, t)
    case CircleSection(_) => Err(NotImplemented)
    case ClothoidSection(k) => Ok(clothoidEnd(k))
  }

  /** HSection::end_x, the default projection of end_point (failing where end_point does). */
  function EndX(lib: Libm, clothoidEnd: HClothoids.HClothoid -> Point, s: HSection): (r: Result<real>)
    ensures r.Ok? <==> EndPoint(lib, clothoidEnd, s).Ok?
  {
    match EndPoint(lib, clothoidEnd, s)
    case Ok(p) => Ok(p.x)
    case Err(e) => Err(e)
  }

  /** HSection::end_y, the default projection of end_point (failing where end_point does). */
  function EndY(lib: Libm, clothoidEnd: HClothoids.HClothoid -> Point, s: HSection): (r: Result<real>)
    ensures r.Ok? <==> EndPoint(lib, clothoidEnd, s).Ok?
  {
    match EndPoint(lib, clothoidEnd, s)
    case Ok(p) => Ok(p.y)
    case Err(e) => Err(e)
  }

  /** Where the end point exists, the end coordinates are its coordinates and determine it;
      where it fails, they fail with the same error. */
  lemma EndCoordinates(lib: Libm, clothoidEnd: HClothoids.HClothoid -> Point, s: HSection)
    ensures var p := EndPoint(lib, clothoidEnd, s);
      p.Ok? ==> p.value == Point(EndX(lib, clothoidEnd, s).value, EndY(lib, clothoidEnd, s).value)
    ensures var p := EndPoint(lib, clothoidEnd, s);
      p.Err? ==> EndX(lib, clothoidEnd, s) == Err(p.error) == EndY(lib, clothoidEnd, s)
  {
  }

  /** HSection::start_radius: 0 (infinite) for a tangent, the radius of a circle, the start
      radius of a clothoid. */
  function StartRadius(s: HSection): real {
    match s
    case TangentSection(_) => 0.0
    case CircleSection(c) => c.radius
    case ClothoidSection(k) => k.start_radius
  }

  /** HSection::end_radius: 0 (infinite) for a tangent, the radius of a circle, the end radius
      of a clothoid. */
  function EndRadius(s: HSection): real {
    match s
    case TangentSection(_) => 0.0
    case CircleSection(c) => c.radius
    case ClothoidSection(k) => k.end_radius
  }

  /** HSection::length */
  function Length(s: HSection): real {
    match s
    case TangentSection(t) => t.length
    case CircleSection(c) => c.length
    case ClothoidSection(k) => k.length
  }

  /** HSection::start_azimuth */
  function StartAzimuth(s: HSection): real {
    match s
    case TangentSection(t) => t.azimuth
    case CircleSection(c) => c.start_azimuth
    case ClothoidSection(k) => k.start_azimuth
  }

  /** HSection::end_azimuth: the tangent keeps its azimuth; circles and clothoids turn. */
  function EndAzimuth(s: HSection): real
    requires Valid(s)
  {
    match s
    case TangentSection(t) => t.azimuth
    case CircleSection(c) => HCircles.EndAzimuth(c)
    case ClothoidSection(k) => HClothoids.EndAzimuth(k)
  }

  /** The angle the heading turns through from start to end: none on a tangent, L/R on a
      circle, L/(2R) on a clothoid (R its non-zero radius). */
  function Turning(s: HSection): real
    requires Valid(s)
  {
    match s
    case TangentSection(_) => 0.0
    case CircleSection(c) => c.length / c.radius
    case ClothoidSection(k) => k.length / 2.0 / HClothoids.RadiusInTangentToCirclePoint(k)
  }

  /** The radii at the two ends tell the kinds apart, as the five parameters of a section are
      meant to: both infinite on a tangent, equal and finite on a circle, exactly one infinite
      on a clothoid. */
  lemma RadiiClassify(s: HSection)
    requires Valid(s)
    ensures s.TangentSection? <==> StartRadius(s) == 0.0 && EndRadius(s) == 0.0
    ensures s.CircleSection? <==> StartRadius(s) == EndRadius(s) != 0.0
    ensures s.ClothoidSection? <==> (StartRadius(s) == 0.0) != (EndRadius(s) == 0.0)
  {
  }

  /** Every section ends heading at its start azimuth plus its turning after the single wrap:
      one turn up when that is negative, one turn down when it passes 2*PI. */
  lemma EndAzimuthTurns(s: HSection)
    requires Valid(s)
    ensures WrapsOnce(EndAzimuth(s), StartAzimuth(s) + Turning(s))
  {
    match s
    case TangentSection(_) =>
    case CircleSection(c) =>
      assert HCircles.Turning(c, c.length) == Turning(s);
    case ClothoidSection(k) =>
      assert HClothoids.AzimuthIncrement(k) == Turning(s);
  }

  /** Every section ends heading in [0, 2*PI] exactly when its unwrapped end heading
      v = start azimuth + turning lies in [-2*PI, 4*PI]; there the end azimuth is the
      normalised heading, except that v = 2*PI and v = 4*PI give 2*PI. */
  lemma EndAzimuthRange(s: HSection)
    requires Valid(s)
    ensures var r, v := EndAzimuth(s), StartAzimuth(s) + Turning(s);
      (0.0 <= r <= TWO_PI <==> -TWO_PI <= v <= 2.0 * TWO_PI)
      && (0.0 <= r < TWO_PI ==> r == NormalizeRadian(v))
      && (r == TWO_PI <==> v == TWO_PI || v == 2.0 * TWO_PI)
  {
    EndAzimuthTurns(s);
    WrapsOnceRange(EndAzimuth(s), StartAzimuth(s) + Turning(s));
  }
}
