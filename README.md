# rustroad horizontal alignment, modelled in Dafny

This project models the exact, statable core of `rustroad`, a library that computes the
horizontal alignment (the plan view) of a road axis. An alignment is a chain of three kinds of
section:

- straight tangents;
- circular arcs;
- clothoid transitions between them.

The model covers the following:

- **Section constructors and their validation.** `HTangent::new`, `HCircle::new` and
  `HClothoid::new` are modelled, along with the geometric `Clothoid::new` and `Circle::new`.
- **Azimuth wrap-around.** The tangent's azimuth, the arc's `azimuth_at_s`/`end_azimuth` and
  the clothoid's `end_azimuth` are modelled, with the `Azimuth` normalisation into [0, 360).
- **Clothoid bookkeeping.** The model covers:
  - the radius where the clothoid meets the circle;
  - the sign flip of the local spiral for an inverse clothoid;
  - `alpha_l = -L/(2R)`;
  - the parameter law `A^2 = L*abs(R)`.
- **Arc-length range checks** of `point_at_s` and `azimuth_at_s`, and the tangent's
  point formula.
- **The section contract** (`HSection`). It becomes one datatype with a variant per section
  kind, and the alignment (`HAlignment`) is a class whose `sections` sequence grows by `Add`.
- **Line algebra** in `a*x + b*y + c = 0` form:
  - construction;
  - canonical scaling;
  - slope and y-intercept;
  - point membership;
  - intersection.

Modelling choices:

- **Numbers.** `f64` is modelled as `real`, and `std::f64::consts::PI` is the decimal
  3.141592653589793.
- **Library calls.** `sqrt`, `sin` and `cos` are the fields of a `Numerics.Libm` record that
  callers pass in. `SqrtExact` and `OnUnitCircle` state the facts a lemma assumes about them.
- **Panics.** Every panic of the source becomes an `Err` of `Errors.Result`, with one
  `Errors.Error` variant per kind of refusal. `Clothoid::new` and `HClothoid::new` word their
  messages for two zero radii and for two non-zero radii differently
  (src/geom/clothoid.rs:17,21; src/road/hclothoid.rs:25,29); each of those refusals is one
  variant, `BothRadiiZero` or `NoZeroRadius`.
- **Float comparisons.** The crate's `eq` (within 2 ULPs, src/lib.rs:10-12) and the tolerance
  helper `eq001` become exact equality.

Points where the code's behaviour may surprise:

- `HTangent::new` accepts a zero length. Only a negative length is refused
  (src/road/htangent.rs:17-19).
- `HCircle::azimuth_at_s` refuses only `s > length`. It accepts a negative `s` and an arc longer
  than one full circle (src/road/hcircle.rs:60-62).
- `HCircle::azimuth_at_s` and `HClothoid::end_azimuth` wrap the unwrapped heading v once:
  one turn up when v < 0, one turn down when v > 2*PI (`Angles.WrapsOnce`). The result lies in
  [0, 2*PI] exactly when v lies in [-2*PI, 4*PI]. Outside that interval, one wrap is not
  enough. `HCircle::new` keeps any start azimuth >= 0 and `HClothoid::new` checks none, so
  such headings are possible. For example, a 300 m arc of radius 400 from azimuth 100 ends at 100.75 - 2*PI, about 94.47 (`HCircles.CircleExamples`).
- Within [-2*PI, 4*PI], v = 2*PI and v = 4*PI give 2*PI, while v = 0 and v = -2*PI give 0.
  `HTangent::new`, by contrast, maps 2*PI to 0 (src/road/htangent.rs:24-26).
- `HClothoid::new` refuses only a zero length, so a negative length is accepted
  (src/road/hclothoid.rs:32-34).
- The geometric clothoid is the one of src/geom/clothoid.rs, with a length and two radii.
  `HClothoid::clothoid` builds a local spiral of a parameter and an end radius
  (src/road/hclothoid.rs:39-48). That is `HClothoids.LocalClothoid` here.
- The alignment's own test adds `HTangent::new(p1, 45.0, 100.0)` (src/road/halignment.rs:38-45).
  An azimuth of 45 radians is beyond one turn, so that tangent is refused
  (`HTangents.TangentExamples`).

## Model

| member | source | states |
|---|---|---|
| Angles.Normalize360 | src/geom/angles.rs:12-16 | the normalised heading lies in [0, 360) and differs from the input by a whole number of turns |
| Angles.Normalize360Unique | src/geom/angles.rs:12-16 | that value is the only one in [0, 360) a whole number of turns from the input |
| Angles.NormalizeRadian | src/road/hclothoid.rs:109 | the heading normalised in radians lies in [0, 2*PI) and differs from the input by whole turns |
| Angles.NormalizeRadianUnique | src/road/hclothoid.rs:109 | that value is the only one in [0, 2*PI) whole turns from the input |
| Angles.WrapsOnceRange | src/road/hcircle.rs:63-71 | the single wrap lands in [0, 2*PI] exactly for headings in [-2*PI, 4*PI]; there it is the normalised heading, and it is 2*PI exactly for the headings 2*PI and 4*PI |
| Angles.NewAzimuth | src/geom/angles.rs:3-16 | `Azimuth::new` gives a value in [0, 360) a whole number of turns from its argument |
| Angles.NewAzimuthKeepsInRange | src/geom/angles.rs:12-16 | a heading already in [0, 360) is kept, and normalising twice changes nothing |
| Angles.NewAzimuthExamples | src/geom/angles.rs:26-30 | 45 stays 45, 445 becomes 85, -45 becomes 315 |
| Lines.ContainsPoint | src/geom/line.rs:93-95 | a point is on the line when a*x + b*y + c = 0; its partners are CanonicalSamePoints, SlopeInterceptForm and IntersectionUnique |
| Lines.New | src/geom/line.rs:16-21 | fails exactly when a and b are both zero, otherwise stores the three coefficients |
| Lines.FromPointVector | src/geom/line.rs:22-37 | the line is valid, contains `p` and has `u` as a direction; `(1, 0, -p.x)` for a vertical `u`, otherwise `b = -1` |
| Lines.FromPointVectorContainsRay | src/geom/line.rs:22-37 | every point `p + t*u` lies on the line |
| Lines.TwoPointLineThrough | src/geom/line.rs:38-50 | the unscaled line of from_two_points is valid and passes through both points |
| Lines.FromTwoPoints | src/geom/line.rs:38-52 | the result is canonical and contains both points; it is the vertical line (1, 0, -p1.x) when the x coordinates agree, two equal points included |
| Lines.Canonical | src/geom/line.rs:86-92 | the result is valid and canonical: a = 1, or a = 0 and b = 1 |
| Lines.CanonicalSamePoints | src/geom/line.rs:86-92 | scaling keeps exactly the points of the line |
| Lines.CanonicalIdempotent | src/geom/line.rs:86-92 | scaling a canonical line changes nothing |
| Lines.CanonicalUnique | src/geom/line.rs:86-92 | two lines with the same points have the same canonical form |
| Lines.Slope | src/geom/line.rs:79-85 | infinite exactly when b = 0; otherwise m with a + b*m = 0 |
| Lines.YIntercept | src/geom/line.rs:72-78 | infinite exactly when b = 0; otherwise the line passes through (0, q) |
| Lines.SlopeInterceptForm | src/geom/line.rs:72-85 | a non-vertical line holds exactly the points with y = slope*x + intercept |
| Lines.Intersection | src/geom/line.rs:107-127 | fails, as parallel, exactly when a1*b2 = b1*a2; otherwise the point lies on both lines |
| Lines.IntersectionUnique | src/geom/line.rs:117-126 | any point on two non-parallel lines is their intersection |
| Lines.IntersectionCommutes | src/geom/line.rs:107-127 | the order of the two lines does not matter |
| Lines.ParallelTestAgrees | src/geom/line.rs:114-116 | where both ratios are defined, a1/a2 = b1/b2 is the cross-multiplied test |
| Lines.CanonicalExamples | src/geom/line.rs:181-219 | all five canonical forms and all three slopes of the source's tests |
| Lines.ParallelExamples | src/geom/line.rs:273-293 | the three parallel pairs of the tests are refused |
| Circles.New | src/geom/circle.rs:10-15 | fails exactly for radius <= 0; otherwise stores centre and radius, and the radius is positive |
| Clothoids.New | src/geom/clothoid.rs:14-24 | succeeds exactly when one radius is zero; both zero and neither zero are the two errors, checked in that order; the length is not checked |
| Clothoids.Parameter | src/geom/clothoid.rs:25-32 | the square root of L*abs(R) for the non-zero radius R; ParameterSquared and ParameterSymmetric state its law |
| Clothoids.ParameterSquared | src/geom/clothoid.rs:25-32 | for a non-negative length the parameter A is >= 0 with A^2 = L*abs(R), R the non-zero radius |
| Clothoids.ParameterSymmetric | src/geom/clothoid.rs:25-32 | the parameter is the same for +R and -R and for either end carrying R |
| Clothoids.ClothoidExamples | src/geom/clothoid.rs:40-70 | the tests' constructions, and the parameter sqrt(40000) for R = -400 at the end and R = 400 at the start |
| HTangents.New | src/road/htangent.rs:13-28 | fails exactly for abs(azimuth) > 2*PI, then for a negative length; otherwise keeps point and length and stores the azimuth normalised into [0, 2*PI) |
| HTangents.Direction | src/road/htangent.rs:29-32 | the vector (cos az, sin az); PointAtSDistance uses it as a unit direction under sin^2 + cos^2 = 1 |
| HTangents.AzimuthAtS | src/road/htangent.rs:57-59 | the stored azimuth, whatever s is; AzimuthConstant states it |
| HTangents.AzimuthConstant | src/road/htangent.rs:51-59 | the azimuth at any arc length is the stored azimuth |
| HTangents.PointAtS | src/road/htangent.rs:60-63 | fails exactly when s < 0 or s > length |
| HTangents.PointAtSOnLine | src/road/htangent.rs:64-66 | the point at s lies on the line through the start point along the direction |
| HTangents.PointAtSDistance | src/road/htangent.rs:64-66 | the point at s is at distance s from the start, s forward along the direction |
| HTangents.PointAtStart | src/road/htangent.rs:60-67 | the point at arc length 0 is the start point |
| HTangents.EndPoint | src/road/htangent.rs:39-41 | a valid tangent always has an end point |
| HTangents.EndPointDistance | src/road/htangent.rs:39-41 | the end point is `length` forward from the start along the direction |
| HTangents.TangentExamples | src/road/htangent.rs:78-237 | the tests' constructions, refusals, the 100 m end point (100, 0) and out-of-range arc lengths |
| HCircles.New | src/road/hcircle.rs:14-23 | fails exactly for a zero radius or a negative length; otherwise keeps the other fields, stores 2*PI + azimuth for a negative start azimuth and keeps any other |
| HCircles.NewNormalizes | src/road/hcircle.rs:18-22 | a start azimuth in [-2*PI, 2*PI) is stored normalised into [0, 2*PI) |
| HCircles.AzimuthAtS | src/road/hcircle.rs:59-72 | fails exactly when s > length; otherwise v = start + s/R wrapped once: v + 2*PI when v < 0, v - 2*PI when v > 2*PI, v otherwise |
| HCircles.AzimuthAtSRange | src/road/hcircle.rs:63-71 | the azimuth lies in [0, 2*PI] exactly when v = start + s/R lies in [-2*PI, 4*PI], stays negative below and above 2*PI beyond; below 2*PI it is the normalised heading, and it is 2*PI exactly for v = 2*PI or 4*PI |
| HCircles.EndAzimuth | src/road/hcircle.rs:56-58 | the end azimuth is start + L/R wrapped once, as azimuth_at_s does |
| HCircles.CircleExamples | src/road/hcircle.rs:84-162 | the tests' quarter arcs, the refused arc length and constructions, the end azimuths that wrap, the boundary headings 0 and 2*PI, and an accepted arc whose end azimuth one wrap leaves above 2*PI |
| HClothoids.New | src/road/hclothoid.rs:21-36 | fails for two zero radii, then two non-zero radii, then a zero length; otherwise stores all five fields |
| HClothoids.NewAgreesWithClothoid | src/road/hclothoid.rs:21-36 | its radius errors are those of `Clothoid::new` |
| HClothoids.RadiusInTangentToCirclePoint | src/road/hclothoid.rs:49-55 | the non-zero radius: start + end when one is zero, and not zero for a valid clothoid |
| HClothoids.Parameter | src/road/hclothoid.rs:87-91 | the square root of abs(R)*L; ParameterLaw and ParameterAgrees state its law |
| HClothoids.ParameterLaw | src/road/hclothoid.rs:87-91 | for a positive length, A > 0 and A^2 = L*abs(R) |
| HClothoids.ParameterAgrees | src/road/hclothoid.rs:87-91 | the parameter equals that of the geometric clothoid with the same length and radii |
| HClothoids.Clothoid | src/road/hclothoid.rs:39-48 | the local end radius is R for a direct clothoid and -start_radius for an inverse one, of the same size |
| HClothoids.ClothoidLaw | src/road/hclothoid.rs:39-48 | the local spiral satisfies A^2 = L*abs(R_end) with A > 0 |
| HClothoids.AlphaL | src/road/hclothoid.rs:84-86 | alpha_L * 2R = -L |
| HClothoids.AlphaLSign | src/road/hclothoid.rs:84-86 | for a positive length, alpha_L is negative exactly when R is positive |
| HClothoids.AzimuthIncrementIsAlphaL | src/road/hclothoid.rs:144-150 | the increment end_azimuth adds is -alpha_L |
| HClothoids.EndAzimuth | src/road/hclothoid.rs:144-159 | the end azimuth is v = start + L/(2R) wrapped once: v + 2*PI when v < 0, v - 2*PI when v > 2*PI, v otherwise |
| HClothoids.EndAzimuthRange | src/road/hclothoid.rs:151-158 | the end azimuth lies in [0, 2*PI] exactly when v = start + L/(2R) lies in [-2*PI, 4*PI], stays negative below and above 2*PI beyond; below 2*PI it is the normalised heading, and it is 2*PI exactly for v = 2*PI or 4*PI |
| HClothoids.ClothoidExamples | src/road/hclothoid.rs:317-460 | the tests' refused constructions, wrapping end azimuths, alpha_L values, circle radius and local radius signs |
| HSections.StartPoint | src/road/hsection.rs:6 | the start point stored by each kind of section |
| HSections.StartX | src/road/hsection.rs:7-9 | the x coordinate of start_point; StartCoordinates states it |
| HSections.StartY | src/road/hsection.rs:10-12 | the y coordinate of start_point; StartCoordinates states it |
| HSections.StartCoordinates | src/road/hsection.rs:6-12 | start_x and start_y are the coordinates of start_point |
| HSections.EndPoint | src/road/hsection.rs:13 | a tangent's end point is its own `end_point`, which exists for a valid tangent; a circle's is not implemented; a clothoid's is the one handed in |
| HSections.EndX | src/road/hsection.rs:14-16 | end_x exists exactly when end_point does |
| HSections.EndY | src/road/hsection.rs:17-19 | end_y exists exactly when end_point does |
| HSections.EndCoordinates | src/road/hsection.rs:13-19 | end_x and end_y are the coordinates of end_point, or fail with its error |
| HSections.StartRadius | src/road/hsection.rs:20 | 0 for a tangent, the radius of a circle, the start radius of a clothoid; RadiiClassify states what it tells |
| HSections.EndRadius | src/road/hsection.rs:21 | 0 for a tangent, the radius of a circle, the end radius of a clothoid; RadiiClassify states what it tells |
| HSections.Length | src/road/hsection.rs:22 | the stored length of each kind of section |
| HSections.StartAzimuth | src/road/hsection.rs:23 | the stored (start) azimuth of each kind of section |
| HSections.EndAzimuth | src/road/hsection.rs:24 | the tangent's azimuth, or the end azimuth of the circle or clothoid; EndAzimuthTurns and EndAzimuthRange state what it is |
| HSections.RadiiClassify | src/road/hsection.rs:3-21 | the two end radii tell the section kind: both zero for a tangent, equal and non-zero for a circle, one zero for a clothoid |
| HSections.EndAzimuthTurns | src/road/hsection.rs:24 | every section ends at its start azimuth plus its turning (0, L/R or L/(2R)) wrapped once: up a turn when negative, down a turn above 2*PI |
| HSections.EndAzimuthRange | src/road/hsection.rs:23-24 | every end azimuth lies in [0, 2*PI] exactly when start azimuth plus turning lies in [-2*PI, 4*PI]; below 2*PI it is the normalised heading, and it is 2*PI exactly when that sum is 2*PI or 4*PI |
| HAlignments.HAlignment.constructor | src/road/halignment.rs:16-18 | a new alignment has no sections |
| HAlignments.HAlignment.Add | src/road/halignment.rs:19-21 | appends the section at the end, keeps the earlier ones, accepts any section and keeps all sections valid when the added one is |
| HAlignments.HAlignment.AddHTangent | src/road/halignment.rs:22-24 | appends the tangent as a section |
| HAlignments.HAlignment.AddHCircle | src/road/halignment.rs:25-27 | appends the circle as a section |
| HAlignments.HAlignment.AddHClothoid | src/road/halignment.rs:28-30 | appends the clothoid as a section |

## Left out

- Trigonometric geometry is not modelled:
  - `HClothoid::center_x`/`center_y`/`center`/`retranqueo` (src/road/hclothoid.rs:56-82);
  - `HCircle::center` (src/road/hcircle.rs:24-35);
  - `Line::unitary_vector`, `perpendicular_by_point`, `projection_of_point` and `parallel_by_distance`;
  - `Point::dist_to`.

  These are floating-point formulas over helpers that are not part of this model.
- `HClothoid::end_point` (src/road/hclothoid.rs:103-131) is computed by the series `Clothoid::x`/`y` and by `rotation`, which are not part of this model. `HSections.EndPoint` therefore takes the clothoid's end point as the function `clothoidEnd`.
- The `todo!()` stubs are not modelled: `HClothoid::origin_point`, `azimuth_at_s` and `point_at_s`, `HCircle::point_at_s`, and `Line::from_point_and_slope`. `HCircle::end_point` is also a stub; it is `Err(NotImplemented)` in `HSections.EndPoint`.
- The bodies of `crate::normalize_360` and `normalize_radian` are not shown in the source. `Angles.Normalize360` and `Angles.NormalizeRadian` define them here as reductions modulo 360 and modulo 2*PI, with results in [0, 360) and [0, 2*PI).
- Floating point is not modelled: rounding, NaN, infinities and signed zero. `f64::INFINITY` from `slope`/`y_intercept` is the `Infinity` variant of `Lines.Extended`.
- `eq` (float_cmp, 2 ULPs) and `eq001` are modelled as exact equality. This affects:
  - the zero tests of `Line::new`, `from_point_vector`, `from_two_points` (src/geom/line.rs:42), `canonical`, `slope` and `y_intercept` (src/geom/line.rs:73, 80) and `intersection`;
  - the equation test of `Line::contains_point` (src/geom/line.rs:94);
  - the zero-radius tests of both clothoid constructors, of `Clothoid::parameter` (src/geom/clothoid.rs:27), of `HClothoid::clothoid` (src/road/hclothoid.rs:40) and of `HClothoid::radius_in_tangent_to_circle_point` (src/road/hclothoid.rs:50);
  - the length test of `HClothoid::new`.
- HClothoids.AzimuthIncrementIsAlphaL: holds because the model makes every zero-radius test of `HClothoid` exact. The source tests the same start radius three ways: `eq001` in `new` and `radius_in_tangent_to_circle_point`, `eq` in `clothoid`, and an exact `abs() > 0.0` in `end_azimuth` (src/road/hclothoid.rs:146). A start radius within `eq001`'s tolerance of zero, with a non-zero end radius, is accepted by the source as a zero radius; its `alpha_l` uses the end radius while `end_azimuth` divides by the tiny start radius. The model refuses such a section with `NoZeroRadius` instead.
- `sqrt`, `sin` and `cos` are not computed. They are the `Numerics.Libm` parameter. A lemma about them assumes `SqrtExact` or `OnUnitCircle`, except `HTangents.TangentExamples`, which assumes cos 0 = 1 and sin 0 = 0.
- The debug `println!` of `HClothoid::center_x` has no counterpart.
- `Box<dyn HSection>` trait objects are modelled as the closed datatype `HSections.HSection`. A section kind outside the three variants cannot be added.
- HCircles.AzimuthAtS: requires a non-zero radius. The source divides by the radius; with a zero radius the result would be infinite or NaN, and `HCircle::new` refuses a zero radius.
- HCircles.EndAzimuth: requires a non-zero radius, for the same reason.
- HClothoids.AlphaL: requires a non-zero circle radius. The source divides by it; `HClothoid::new` refuses two zero radii.
- HClothoids.EndAzimuth: requires one radius to be non-zero, for the same reason.
- HSections.EndAzimuth: requires the section to satisfy its constructor's guarantees, for the divisions above.
- Clothoids.ParameterSquared: stated only for a non-negative length. The source takes the square root of a negative product there, which is NaN.
- HClothoids.ParameterLaw: stated only for a positive length. `HClothoid::new` accepts a negative length, whose parameter is NaN.
- Lines.FromTwoPoints: its outputs for the literal points of the source's test (src/geom/line.rs:142-172) are not stated as an example. They follow from `Lines.CanonicalUnique`, because each output is canonical and contains both points.
