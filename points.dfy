/** 2-D value types: geom/point.rs and geom/vector.rs. */
module Points {

  datatype Point = Point(x: real, y: real)

  /** A 2-D vector. geom/line.rs reads its components as `vx`/`vy`. */
  datatype Vector = Vector(vx: real, vy: real)
}
