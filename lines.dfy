/** geom/line.rs: a straight line in the form a*x + b*y + c = 0. Pure rational arithmetic,
    exact over `real`. */
module Lines {
  import opened Errors
  import opened Points

  datatype Line = Line(a: real, b: real, c: real)

  /** `f64::INFINITY` or a finite value: what slope and y_intercept return. */
  datatype Extended = Finite(value: real) | Infinity

  /** The coefficients describe a line: a and b are not both zero. */
  predicate Valid(l: Line) {
    !(l.a == 0.0 && l.b == 0.0)
  }

  /** The scaled form canonical() returns: a = 1, or a = 0 and b = 1. */
  predicate IsCanonical(l: Line) {
    l.a == 1.0 || (l.a == 0.0 && l.b == 1.0)
  }

  /** Line::contains_point */
  predicate ContainsPoint(l: Line, p: Point) {
    l.a * p.x + l.b * p.y + l.c == 0.0
  }

  /** Line::new: fails exactly when a and b are both zero; stores the coefficients as given. */
  function New(a: real, b: real, c: real): (r: Result<Line>)
    ensures r.Err? <==> a == 0.0 && b == 0.0
    ensures r.Err? ==> r.error == CoefficientsZero
    ensures r.Ok? ==> r.value == Line(a, b, c) && Valid(r.value)
  {
    if a == 0.0 && b == 0.0 then Err(CoefficientsZero) else Ok(Line(a, b, c))
  }

  /** Line::from_point_vector: the line through `p` with direction `u`. */
  function FromPointVector(p: Point, u: Vector): (l: Line)
    ensures Valid(l) && ContainsPoint(l, p)
    ensures l.a * u.vx + l.b * u.vy == 0.0
    ensures u.vx == 0.0 ==> l == Line(1.0, 0.0, -p.x)
    ensures u.vx != 0.0 ==> l.b == -1.0
  {
    if u.vx == 0.0 then
      New(1.0, 0.0, -p.x).value
    else
      var a := u.vy / u.vx;
      assert a * u.vx == u.vy;
      New(a, -1.0, p.y - a * p.x).value
  }

  /** Every point p + t*u lies on the line built from `p` and `u`. */
  lemma FromPointVectorContainsRay(p: Point, u: Vector, t: real)
    ensures ContainsPoint(FromPointVector(p, u), Point(p.x + t * u.vx, p.y + t * u.vy))
  {
    var l := FromPointVector(p, u);
    var q := Point(p.x + t * u.vx, p.y + t * u.vy);
    assert l.a * q.x + l.b * q.y + l.c
        == (l.a * p.x + l.b * p.y + l.c) + t * (l.a * u.vx + l.b * u.vy);
  }

  /** Line::canonical: the same line scaled to a = 1, or to b = 1 when a = 0. */
  function Canonical(l: Line): (r: Line)
    requires Valid(l)
    ensures Valid(r) && IsCanonical(r)
  {
    if l.a == 0.0 then New(0.0, 1.0, l.c / l.b).value
    else
      assert l.a / l.a == 1.0;
      New(l.a / l.a, l.b / l.a, l.c / l.a).value
  }

  /** canonical() keeps the set of points of the line. */
  lemma CanonicalSamePoints(l: Line, p: Point)
    requires Valid(l)
    ensures ContainsPoint(l, p) <==> ContainsPoint(Canonical(l), p)
  {
    var r := Canonical(l);
    var k := if l.a == 0.0 then l.b else l.a;
    if l.a == 0.0 {
      assert l.a / k == 0.0 && l.b / k == 1.0;
    }
    assert r == Line(l.a / k, l.b / k, l.c / k);
    ScaledEquation(l.a, l.b, l.c, k, p);
  }

  /** Dividing a*x + b*y + c by a non-zero k keeps its zeros. */
  lemma ScaledEquation(a: real, b: real, c: real, k: real, p: Point)
    requires k != 0.0
    ensures a * p.x + b * p.y + c == 0.0 <==> (a / k) * p.x + (b / k) * p.y + c / k == 0.0
  {
    assert (a / k) * p.x + (b / k) * p.y + c / k == (a * p.x + b * p.y + c) / k;
  }

  /** canonical() is idempotent. */
  lemma CanonicalIdempotent(l: Line)
    requires Valid(l)
    ensures Canonical(Canonical(l)) == Canonical(l)
  {
  }

  /** Two canonical lines with the same points are equal: canonical() is a normal form. */
  lemma CanonicalUnique(l1: Line, l2: Line)
    requires Valid(l1) && Valid(l2)
    requires forall p :: ContainsPoint(l1, p) <==> ContainsPoint(l2, p)
    ensures Canonical(l1) == Canonical(l2)
  {
    var k1, k2 := Canonical(l1), Canonical(l2);
    var p := if k1.a == 0.0 then Point(0.0, -k1.c) else Point(-k1.c, 0.0);
    var q := if k1.a == 0.0 then Point(1.0, -k1.c) else Point(-k1.c - k1.b, 1.0);
    assert ContainsPoint(k1, p) && ContainsPoint(k1, q);
    SharedPoint(l1, l2, p);
    SharedPoint(l1, l2, q);
    assert ContainsPoint(k2, p) && ContainsPoint(k2, q);
    if k1.a == 0.0 {
      assert k2.a == 0.0;
    } else {
      assert k2.b == k2.a * k1.b;
      assert k2.a == 1.0;
    }
  }

  /** A point of `l1` lies on the canonical form of a line with the same points. */
  lemma SharedPoint(l1: Line, l2: Line, p: Point)
    requires Valid(l1) && Valid(l2)
    requires ContainsPoint(l1, p) <==> ContainsPoint(l2, p)
    requires ContainsPoint(Canonical(l1), p)
    ensures ContainsPoint(Canonical(l2), p)
  {
    CanonicalSamePoints(l1, p);
    CanonicalSamePoints(l2, p);
  }

  /** The line from_two_points builds before scaling it: vertical when the x coordinates
      agree, otherwise with b = -1. */
  function TwoPointLine(p1: Point, p2: Point): Line {
    if p2.x - p1.x == 0.0 then
      Line(1.0, 0.0, -p1.x)
    else
      Line((p2.y - p1.y) / (p2.x - p1.x), -1.0, p1.y - p1.x * (p2.y - p1.y) / (p2.x - p1.x))
  }

  /** The unscaled line is a line and passes through both points. */
  lemma TwoPointLineThrough(p1: Point, p2: Point)
    ensures Valid(TwoPointLine(p1, p2))
    ensures ContainsPoint(TwoPointLine(p1, p2), p1) && ContainsPoint(TwoPointLine(p1, p2), p2)
  {
    if p2.x - p1.x != 0.0 {
      var dx, dy := p2.x - p1.x, p2.y - p1.y;
      var m := dy / dx;
      assert p1.x * dy / dx == m * p1.x;
      assert m * dx == dy;
      assert m * p2.x == m * p1.x + m * dx;
    }
  }

  /** Line::from_two_points: a canonical line through both points; the vertical line
      x = p1.x when the x coordinates agree, which includes two equal points. */
  function FromTwoPoints(p1: Point, p2: Point): (l: Line)
    ensures Valid(l) && IsCanonical(l)
    ensures ContainsPoint(l, p1) && ContainsPoint(l, p2)
    ensures p1.x == p2.x ==> l == Line(1.0, 0.0, -p1.x)
  {
    var l0 := TwoPointLine(p1, p2);
    TwoPointLineThrough(p1, p2);
    CanonicalSamePoints(l0, p1);
    CanonicalSamePoints(l0, p2);
    Canonical(l0)
  }

  /** Line::slope: -a/b, infinite for a vertical line (b = 0). */
  function Slope(l: Line): (m: Extended)
    ensures m.Infinity? <==> l.b == 0.0
    ensures m.Finite? ==> l.a + l.b * m.value == 0.0
  {
    if l.b == 0.0 then Infinity else Finite(-l.a / l.b)
  }

  /** Line::y_intercept: -c/b, infinite for a vertical line (b = 0). */
  function YIntercept(l: Line): (q: Extended)
    ensures q.Infinity? <==> l.b == 0.0
    ensures q.Finite? ==> ContainsPoint(l, Point(0.0, q.value))
  {
    if l.b == 0.0 then Infinity else Finite(-l.c / l.b)
  }

  /** A non-vertical line holds exactly the points with y = slope*x + y_intercept. */
  lemma SlopeInterceptForm(l: Line, p: Point)
    requires l.b != 0.0
    ensures ContainsPoint(l, p) <==> p.y == Slope(l).value * p.x + YIntercept(l).value
  {
    var m, q := -l.a / l.b, -l.c / l.b;
    assert l.a * p.x + l.b * p.y + l.c == l.b * (p.y - (m * p.x + q));
  }

  /** The determinant a1*b2 - b1*a2: zero exactly when the lines are parallel. */
  function Cross(l1: Line, l2: Line): real {
    l1.a * l2.b - l1.b * l2.a
  }

  /** Line::intersection: fails for parallel lines, otherwise the common point.
      The third parallel test a1/a2 == b1/b2 is written cross-multiplied. Where exactly one of
      a2, b2 is zero, the source's ratio on that side is infinite and compares unequal to the
      finite one, just as the cross product is then non-zero; where both are non-zero,
      `ParallelTestAgrees` shows the two tests agree. */
  function Intersection(l1: Line, l2: Line): (r: Result<Point>)
    requires Valid(l1) && Valid(l2)
    ensures r.Err? <==> Cross(l1, l2) == 0.0
    ensures r.Err? ==> r.error == ParallelLines
    ensures r.Ok? ==> ContainsPoint(l1, r.value) && ContainsPoint(l2, r.value)
  {
    if l1.a == 0.0 && l2.a == 0.0 then Err(ParallelLines)
    else if l1.b == 0.0 && l2.b == 0.0 then Err(ParallelLines)
    else if l1.a * l2.b == l1.b * l2.a then Err(ParallelLines)
    else if l1.b == 0.0 then
      var x := -l1.c / l1.a;
      var y := -l2.a * x / l2.b - l2.c / l2.b;
      VerticalMeet(l1, l2, x, y);
      Ok(Point(x, y))
    else
      var denom := l2.a - l1.a * l2.b / l1.b;
      assert denom * l1.b == -Cross(l1, l2);
      var x := (-l2.c + l1.c * l2.b / l1.b) / denom;
      var y := (-l1.a * x - l1.c) / l1.b;
      GeneralMeet(l1, l2, denom, x, y);
      Ok(Point(x, y))
  }

  lemma VerticalMeet(l1: Line, l2: Line, x: real, y: real)
    requires l1.b == 0.0 && l1.a != 0.0 && l2.b != 0.0
    requires x == -l1.c / l1.a && y == -l2.a * x / l2.b - l2.c / l2.b
    ensures ContainsPoint(l1, Point(x, y)) && ContainsPoint(l2, Point(x, y))
  {
    assert l1.a * x == -l1.c;
    assert l2.b * y == -l2.a * x - l2.c;
  }

  lemma GeneralMeet(l1: Line, l2: Line, denom: real, x: real, y: real)
    requires l1.b != 0.0 && denom != 0.0
    requires denom == l2.a - l1.a * l2.b / l1.b
    requires x == (-l2.c + l1.c * l2.b / l1.b) / denom
    requires y == (-l1.a * x - l1.c) / l1.b
    ensures ContainsPoint(l1, Point(x, y)) && ContainsPoint(l2, Point(x, y))
  {
    var s := l2.b / l1.b;
    assert l2.b == s * l1.b;
    assert l1.b * y == -l1.a * x - l1.c;
    assert denom == l2.a - s * l1.a;
    assert denom * x == -l2.c + s * l1.c;
    assert l2.b * y == s * (l1.b * y);
    assert l2.b * y == -s * l1.a * x - s * l1.c;
  }

  /** Two non-parallel lines meet in exactly one point. */
  lemma IntersectionUnique(l1: Line, l2: Line, p: Point)
    requires Valid(l1) && Valid(l2) && Cross(l1, l2) != 0.0
    requires ContainsPoint(l1, p) && ContainsPoint(l2, p)
    ensures Intersection(l1, l2) == Ok(p)
  {
    var q := Intersection(l1, l2).value;
    var dx, dy := p.x - q.x, p.y - q.y;
    assert l1.a * dx + l1.b * dy == 0.0;
    assert l2.a * dx + l2.b * dy == 0.0;
    assert Cross(l1, l2) * dx == l2.b * (l1.a * dx + l1.b * dy) - l1.b * (l2.a * dx + l2.b * dy);
    assert Cross(l1, l2) * dy == l1.a * (l2.a * dx + l2.b * dy) - l2.a * (l1.a * dx + l1.b * dy);
  }

  /** The order of the two lines does not matter. */
  lemma IntersectionCommutes(l1: Line, l2: Line)
    requires Valid(l1) && Valid(l2)
    ensures Intersection(l1, l2) == Intersection(l2, l1)
  {
    if Cross(l1, l2) != 0.0 {
      IntersectionUnique(l2, l1, Intersection(l1, l2).value);
    }
  }

  /** Where both ratios are defined, the cross-multiplied test is the source's a1/a2 == b1/b2. */
  lemma ParallelTestAgrees(l1: Line, l2: Line)
    requires l2.a != 0.0 && l2.b != 0.0
    ensures l1.a / l2.a == l1.b / l2.b <==> Cross(l1, l2) == 0.0
  {
    var ra, rb := l1.a / l2.a, l1.b / l2.b;
    assert l1.a == ra * l2.a && l1.b == rb * l2.b;
    assert Cross(l1, l2) == (ra - rb) * (l2.a * l2.b);
  }

  /** The cases of the source's own tests of canonical and slope. */
  lemma CanonicalExamples()
    ensures Canonical(Line(2.0, 2.0, 2.0)) == Line(1.0, 1.0, 1.0)
    ensures Canonical(Line(0.0, 2.0, 2.0)) == Line(0.0, 1.0, 1.0)
    ensures Canonical(Line(2.0, 0.0, 2.0)) == Line(1.0, 0.0, 1.0)
    ensures Canonical(Line(2.0, 0.0, 0.0)) == Line(1.0, 0.0, 0.0)
    ensures Canonical(Line(0.0, 2.0, 0.0)) == Line(0.0, 1.0, 0.0)
    ensures Slope(Line(1.0, 1.0, 1.0)) == Finite(-1.0)
    ensures Slope(Line(0.0, 1.0, 1.0)) == Finite(0.0)
    ensures Slope(Line(1.0, 0.0, 1.0)) == Infinity
  {
  }

  /** The three should-panic cases of the source's intersection tests. */
  lemma ParallelExamples()
    ensures Intersection(Line(2.0, 2.0, 2.0), Line(4.0, 4.0, 1.0)) == Err(ParallelLines)
    ensures Intersection(Line(0.0, 1.0, 2.0), Line(0.0, 1.0, 1.0)) == Err(ParallelLines)
    ensures Intersection(Line(1.0, 0.0, 2.0), Line(1.0, 0.0, 1.0)) == Err(ParallelLines)
  {
  }
}
