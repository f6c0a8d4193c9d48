/** The panics of the source, modelled as error values.
    Each variant is one refusal of the core. Clothoid::new and HClothoid::new refuse the same
    radius pairs with differently worded messages, and each such pair shares one variant; a
    `todo!()` stub is `NotImplemented`. */
module Errors {

  datatype Error =
    | CoefficientsZero            // Line::new: a and b both zero
    | ParallelLines               // Line::intersection
    | RadiusNotPositive           // Circle::new
    | BothRadiiZero               // Clothoid::new, HClothoid::new
    | NoZeroRadius                // Clothoid::new, HClothoid::new
    | ZeroLength                  // HClothoid::new
    | ZeroRadiusOrNegativeLength  // HCircle::new
    | AzimuthBeyondTwoPi          // HTangent::new
    | NegativeLength              // HTangent::new
    | ArcLengthOutOfRange         // HTangent::point_at_s: s < 0 or s > length
    | ArcLengthBeyondLength       // HCircle::azimuth_at_s: s > length
    | NotImplemented              // a todo!() stub

  /** The outcome of an operation that panics in the source. */
  datatype Result<T> = Ok(value: T) | Err(error: Error)
}
