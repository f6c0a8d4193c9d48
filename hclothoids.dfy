/** road/hclothoid.rs: a clothoid (transition curve) of a horizontal alignment between a
    straight (radius 0, standing for infinity) and a circle. A clothoid whose start radius is
    zero is "direct": it starts at the local origin of the spiral; otherwise it is "inverse" and
    ends there. */
module HClothoids {
  import opened Errors
  import opened Numerics
  import opened Points
  import opened Angles
  import Clothoids

  datatype HClothoid = HClothoid(start_point: Point, start_azimuth: real, start_radius: real,
                                 end_radius: real, length: real)

  /** The spiral in its local axes as the alignment hands it out: its parameter A and the
      radius at the end of the spiral measured from its origin. */
  datatype LocalClothoid = LocalClothoid(parameter: real, end_radius: real)

  /** What HClothoid::new guarantees: exactly one radius is zero and the length is not zero. */
  predicate Valid(h: HClothoid) {
    (h.start_radius == 0.0) != (h.end_radius == 0.0) && h.length != 0.0
  }

  /** HClothoid::new: refuses two zero radii, then two non-zero radii, then a zero length; the
      fields are stored as given (a negative length is accepted). */
  function New(start_point: Point, start_azimuth: real, start_radius: real, end_radius: real,
               length: real): (r: Result<HClothoid>)
    ensures r.Ok? <==> Valid(HClothoid(start_point, start_azimuth, start_radius, end_radius, length))
    ensures r.Err? ==> (r.error ==
      (if start_radius == 0.0 && end_radius == 0.0 then BothRadiiZero
       else if start_radius != 0.0 && end_radius != 0.0 then NoZeroRadius
       else ZeroLength))
    ensures r.Ok? ==> r.value == HClothoid(start_point, start_azimuth, start_radius, end_radius, length)
  {
    if start_radius == 0.0 && end_radius == 0.0 then Err(BothRadiiZero)
    else if start_radius != 0.0 && end_radius != 0.0 then Err(NoZeroRadius)
    else if length == 0.0 then Err(ZeroLength)
    else Ok(HClothoid(start_point, start_azimuth, start_radius, end_radius, length))
  }

  /** The clothoid errors are the geometric ones: a pair of radii HClothoid::new accepts is a
      pair Clothoid::new accepts, with the same error for the same bad pair. */
  lemma NewAgreesWithClothoid(p: Point, az: real, r1: real, r2: real, length: real)
    ensures New(p, az, r1, r2, length).Ok? ==> Clothoids.New(length, r1, r2).Ok?
    ensures Clothoids.New(length, r1, r2).Err? ==>
      New(p, az, r1, r2, length) == Err(Clothoids.New(length, r1, r2).error)
  {
  }

  /** HClothoid::radius_in_tangent_to_circle_point: the radius where the clothoid meets the
      circle, i.e. its non-zero radius. */
  function RadiusInTangentToCirclePoint(h: HClothoid): (r: real)
    ensures h.start_radius == 0.0 || h.end_radius == 0.0 ==> r == h.start_radius + h.end_radius
    ensures Valid(h) ==> r != 0.0 && (r == h.start_radius || r == h.end_radius)
  {
    if h.start_radius == 0.0 then h.end_radius else h.start_radius
  }

  /** |R|*L, the square of the clothoid parameter. */
  function ParameterSquare(h: HClothoid): real {
    Abs(RadiusInTangentToCirclePoint(h)) * h.length
  }

  /** HClothoid::parameter: the square root of |R|*L. */
  function Parameter(lib: Libm, h: HClothoid): real {
    Sqrt(lib, ParameterSquare(h))
  }

  /** With an exact square root and a positive length, the parameter is the A > 0 of the
      clothoid law A^2 = L*|R|. */
  lemma ParameterLaw(lib: Libm, h: HClothoid)
    requires SqrtExact(lib) && Valid(h) && h.length > 0.0
    ensures Parameter(lib, h) > 0.0
    ensures Parameter(lib, h) * Parameter(lib, h) == h.length * Abs(RadiusInTangentToCirclePoint(h))
  {
    var x := ParameterSquare(h);
    assert x > 0.0;
    assert Sqrt(lib, x) != 0.0;
  }

  /** The alignment's parameter is the parameter of the geometric clothoid with the same
      length and radii. */
  lemma ParameterAgrees(lib: Libm, h: HClothoid)
    ensures Parameter(lib, h) == Clothoids.Parameter(lib, Clothoids.Clothoid(h.length, h.start_radius, h.end_radius))
  {
    var c := Clothoids.Clothoid(h.length, h.start_radius, h.end_radius);
    assert Clothoids.FiniteRadius(c) == RadiusInTangentToCirclePoint(h);
    assert ParameterSquare(h) == Clothoids.ParameterSquare(c);
  }

  /** HClothoid::clothoid: the spiral in its local axes. For a direct clothoid the local end
      radius is the end radius; for an inverse one the local axes run backwards along the
      alignment, so it is the start radius with its sign changed. */
  function Clothoid(lib: Libm, h: HClothoid): (c: LocalClothoid)
    ensures c.parameter == Parameter(lib, h)
    ensures Abs(c.end_radius) == Abs(RadiusInTangentToCirclePoint(h))
    ensures h.start_radius == 0.0 ==> c.end_radius == h.end_radius
    ensures h.start_radius != 0.0 ==> c.end_radius == -h.start_radius
  {
    if h.start_radius == 0.0 then LocalClothoid(Parameter(lib, h), h.end_radius)
    else LocalClothoid(Parameter(lib, h), h.start_radius * -1.0)
  }

  /** The local spiral satisfies the clothoid law A^2 = L*|R_end| for a positive length. */
  lemma ClothoidLaw(lib: Libm, h: HClothoid)
    requires SqrtExact(lib) && Valid(h) && h.length > 0.0
    ensures var c := Clothoid(lib, h);
      c.parameter > 0.0 && c.parameter * c.parameter == h.length * Abs(c.end_radius)
  {
    ParameterLaw(lib, h);
  }

  /** HClothoid::alpha_l: the angle -L/(2R) the tangent turns through along the clothoid. */
  function AlphaL(h: HClothoid): (a: real)
    requires RadiusInTangentToCirclePoint(h) != 0.0
    ensures a * (2.0 * RadiusInTangentToCirclePoint(h)) == -h.length
  {
    -h.length / 2.0 / RadiusInTangentToCirclePoint(h)
  }

  /** For a positive length, alpha_L has the sign opposite to the radius. */
  lemma AlphaLSign(h: HClothoid)
    requires RadiusInTangentToCirclePoint(h) != 0.0 && h.length > 0.0
    ensures RadiusInTangentToCirclePoint(h) > 0.0 <==> AlphaL(h) < 0.0
  {
    var r, a := RadiusInTangentToCirclePoint(h), AlphaL(h);
    assert a * (2.0 * r) == -h.length;
    if r > 0.0 {
      assert a * r < 0.0;
    } else {
      assert a * r < 0.0;
    }
  }

  /** The change of azimuth end_azimuth adds: L/2 divided by the non-zero radius. */
  function AzimuthIncrement(h: HClothoid): real
    requires h.start_radius != 0.0 || h.end_radius != 0.0
  {
    if Abs(h.start_radius) > 0.0 then h.length / 2.0 / h.start_radius
    else h.length / 2.0 / h.end_radius
  }

  /** The increment is the turning angle -alpha_L. */
  lemma AzimuthIncrementIsAlphaL(h: HClothoid)
    requires h.start_radius != 0.0 || h.end_radius != 0.0
    ensures AzimuthIncrement(h) == -AlphaL(h)
  {
    var r := RadiusInTangentToCirclePoint(h);
    assert AzimuthIncrement(h) == h.length / 2.0 / r;
    assert -AlphaL(h) == -(-h.length / 2.0 / r);
    assert -(-h.length / 2.0) / r == (h.length / 2.0) / r;
  }

  /** The HSection::end_azimuth of a clothoid: the start azimuth plus the increment, moved up
      by one turn when it is negative, then down by one turn when it passes 2*PI. */
  function EndAzimuth(h: HClothoid): (r: real)
    requires h.start_radius != 0.0 || h.end_radius != 0.0
    ensures WrapsOnce(r, h.start_azimuth + AzimuthIncrement(h))
  {
    var az := h.start_azimuth + AzimuthIncrement(h);
    var az' := if az < 0.0 then TWO_PI + az else az;
    if az' > TWO_PI then az' - TWO_PI else az'
  }

  /** The end azimuth lies in [0, 2*PI] exactly when the unwrapped heading v = start +
      increment lies in [-2*PI, 4*PI]. There it is the normalised heading, except that v = 2*PI
      and v = 4*PI give 2*PI (and v = 0 or -2*PI give 0). Outside, one wrap is not enough:
      below -2*PI the result stays negative and above 4*PI it stays above 2*PI. */
  lemma EndAzimuthRange(h: HClothoid)
    requires h.start_radius != 0.0 || h.end_radius != 0.0
    ensures var r, v := EndAzimuth(h), h.start_azimuth + AzimuthIncrement(h);
      (0.0 <= r <= TWO_PI <==> -TWO_PI <= v <= 2.0 * TWO_PI)
      && (v < -TWO_PI ==> r < 0.0) && (v > 2.0 * TWO_PI ==> r > TWO_PI)
      && (0.0 <= r < TWO_PI ==> r == NormalizeRadian(v))
      && (r == TWO_PI <==> v == TWO_PI || v == 2.0 * TWO_PI)
  {
    WrapsOnceRange(EndAzimuth(h), h.start_azimuth + AzimuthIncrement(h));
  }

  /** The cases of the source's own tests: the three refused constructions; the end azimuth
      of an 80.22 m clothoid to radius 450 from heading 0, from 2*PI - 0.05 (wrapping down) and
      to radius -450 (wrapping up); alpha_L of the 80.222 m samples; the radius at the circle
      and the sign of the local end radius for the direct and inverse samples. */
  lemma ClothoidExamples(lib: Libm, p: Point)
    ensures New(p, 0.0, 0.0, 0.0, 80.22) == Err(BothRadiiZero)
    ensures New(p, 90.0, -400.0, 400.0, 0.0) == Err(NoZeroRadius)
    ensures New(p, 90.0, 0.0, 400.0, 0.0) == Err(ZeroLength)
    ensures EndAzimuth(HClothoid(p, 0.0, 0.0, 450.0, 80.22)) == 80.22 / 900.0
    ensures EndAzimuth(HClothoid(p, TWO_PI - 0.05, 0.0, 450.0, 80.22)) == 80.22 / 900.0 - 0.05
    ensures EndAzimuth(HClothoid(p, 0.0, 0.0, -450.0, 80.22)) == TWO_PI - 80.22 / 900.0
    ensures AlphaL(HClothoid(p, 0.0, 0.0, 450.0, 80.222)) == -80.222 / 900.0
    ensures AlphaL(HClothoid(p, 0.0, -450.0, 0.0, 80.222)) == 80.222 / 900.0
    ensures RadiusInTangentToCirclePoint(HClothoid(p, 0.0, -450.0, 0.0, 80.22)) == -450.0
    ensures Clothoid(lib, HClothoid(p, 0.0, 450.0, 0.0, 80.222)).end_radius < 0.0
    ensures Clothoid(lib, HClothoid(p, 0.0, 0.0, -450.0, 80.222)).end_radius < 0.0
  {
  }
}
