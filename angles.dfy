/** Angle normalisation (the crate's normalize_360 and normalize_radian helpers, which
    the core calls) and the Azimuth value type of geom/angles.rs. */
module Angles {
  import opened Numerics

  /** `d` is a whole number of turns of length `period`. */
  predicate IsWholeTurns(d: real, period: real)
    requires 0.0 < period
  {
    (d / period).Floor as real == d / period
  }

  /** crate::normalize_360: degrees reduced modulo 360 into [0, 360). */
  function Normalize360(v: real): (r: real)
    ensures 0.0 <= r < 360.0
    ensures IsWholeTurns(v - r, 360.0)
  {
    v - 360.0 * (v / 360.0).Floor as real
  }

  /** Normalize360 is the only value in [0, 360) whole turns away from `v`. */
  lemma Normalize360Unique(v: real, r: real)
    requires 0.0 <= r < 360.0 && IsWholeTurns(v - r, 360.0)
    ensures Normalize360(v) == r
  {
    var k := ((v - r) / 360.0).Floor;
    assert v - r == 360.0 * k as real;
    assert (v / 360.0).Floor == k;
  }

  /** crate::normalize_radian: radians reduced modulo 2*PI into [0, 2*PI). */
  function NormalizeRadian(v: real): (r: real)
    ensures 0.0 <= r < TWO_PI
    ensures IsWholeTurns(v - r, TWO_PI)
  {
    v - TWO_PI * (v / TWO_PI).Floor as real
  }

  /** NormalizeRadian is the only value in [0, 2*PI) whole turns away from `v`. */
  lemma NormalizeRadianUnique(v: real, r: real)
    requires 0.0 <= r < TWO_PI && IsWholeTurns(v - r, TWO_PI)
    ensures NormalizeRadian(v) == r
  {
    var k := ((v - r) / TWO_PI).Floor;
    assert v - r == TWO_PI * k as real;
    assert v / TWO_PI == k as real + r / TWO_PI;
    assert 0.0 <= r / TWO_PI < 1.0;
    assert (v / TWO_PI).Floor == k;
  }

  /** `x` is `y` shifted by at most one turn of 2*PI: the one-step wrap the sections apply. */
  predicate OneTurnApart(x: real, y: real) {
    x == y || x == y + TWO_PI || x == y - TWO_PI
  }

  /** A one-turn shift that lands in [0, 2*PI) is the full normalisation. */
  lemma OneTurnNormalizes(v: real, r: real)
    requires OneTurnApart(r, v) && 0.0 <= r < TWO_PI
    ensures NormalizeRadian(v) == r
  {
    if r == v {
      assert (v - r) / TWO_PI == 0.0;
    } else if r == v + TWO_PI {
      assert (v - r) / TWO_PI == -1.0;
    } else {
      assert (v - r) / TWO_PI == 1.0;
    }
    NormalizeRadianUnique(v, r);
  }

  /** `r` is the heading `v` after the single wrap the arcs and clothoids apply: one turn up
      when `v` is negative, one turn down when `v` passes 2*PI, unchanged otherwise. */
  predicate WrapsOnce(r: real, v: real) {
    (v < 0.0 ==> r == v + TWO_PI)
    && (0.0 <= v <= TWO_PI ==> r == v)
    && (v > TWO_PI ==> r == v - TWO_PI)
  }

  /** The single wrap lands in [0, 2*PI] exactly for headings in [-2*PI, 4*PI]; there it is the
      full normalisation, except that the headings 2*PI and 4*PI come out as 2*PI and not 0. */
  lemma WrapsOnceRange(r: real, v: real)
    requires WrapsOnce(r, v)
    ensures 0.0 <= r <= TWO_PI <==> -TWO_PI <= v <= 2.0 * TWO_PI
    ensures r == TWO_PI <==> v == TWO_PI || v == 2.0 * TWO_PI
    ensures 0.0 <= r < TWO_PI ==> r == NormalizeRadian(v)
    ensures r == TWO_PI ==> NormalizeRadian(v) == 0.0
  {
    if 0.0 <= r < TWO_PI {
      OneTurnNormalizes(v, r);
    } else if r == TWO_PI {
      assert v / TWO_PI == 1.0 || v / TWO_PI == 2.0;
      NormalizeRadianUnique(v, 0.0);
    }
  }

  /** geom/angles.rs: a heading in sexagesimal degrees, clockwise from North. */
  datatype Azimuth = Azimuth(value: real)

  /** Azimuth::new: the heading normalised into [0, 360), a whole number of turns away. */
  function NewAzimuth(azimuth: real): (az: Azimuth)
    ensures 0.0 <= az.value < 360.0
    ensures IsWholeTurns(azimuth - az.value, 360.0)
  {
    Azimuth(Normalize360(azimuth))
  }

  /** A heading already in [0, 360) is kept; normalising twice changes nothing. */
  lemma NewAzimuthKeepsInRange(azimuth: real)
    ensures 0.0 <= azimuth < 360.0 ==> NewAzimuth(azimuth).value == azimuth
    ensures NewAzimuth(NewAzimuth(azimuth).value) == NewAzimuth(azimuth)
  {
    var v := NewAzimuth(azimuth).value;
    if 0.0 <= azimuth < 360.0 {
      assert (azimuth - azimuth) / 360.0 == 0.0;
      Normalize360Unique(azimuth, azimuth);
    }
    assert (v - v) / 360.0 == 0.0;
    Normalize360Unique(v, v);
  }

  /** The cases of the source's own test: 45 -> 45, 445 -> 85, -45 -> 315. */
  lemma NewAzimuthExamples()
    ensures NewAzimuth(45.0).value == 45.0
    ensures NewAzimuth(445.0).value == 85.0
    ensures NewAzimuth(-45.0).value == 315.0
  {
    Normalize360Unique(45.0, 45.0);
    Normalize360Unique(445.0, 85.0);
    Normalize360Unique(-45.0, 315.0);
  }
}
