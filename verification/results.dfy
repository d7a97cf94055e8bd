/** Failure-compatible result type shared by every operation of the model.

    A `Failure` stands for a call of the modelled Python function that either
    raises (division by zero, an index outside an image, a NaN stored into an
    integer array) or produces an infinite or NaN coordinate, which a model over
    exact reals cannot represent. */
module Results {

  /** The ways an operation can fail. */
  datatype Error =
    | DegenerateGeometry     // line–plane denominator is zero: ray parallel to the plane or collinear axes
    | DegenerateOrientation  // scalar part of the versor is zero, the Jacobian divides by it and gets inf or NaN
    | ZeroSpacing            // CT spacing is zero, the pixel conversion divides by it
    | ZeroScale              // a parameter scale is zero, unscaling the pose divides by it
    | NoSourcePoints         // the registration averages over an empty point set
    | NoEmitters             // the registration averages over an empty emitter table
    | PixelOutsideImage      // a pixel inside the nominal size is missing from the image
    | NaNPosition            // `int()` of a NaN pixel position
    | EmptyPointSet          // a batch loop appended nothing, and `reshape` is called on the initial list

  datatype Result<+T> = Success(value: T) | Failure(error: Error) {

    predicate IsFailure() {
      Failure?
    }

    function PropagateFailure<U>(): Result<U>
      requires Failure?
    {
      Failure(error)
    }

    function Extract(): T
      requires Success?
    {
      value
    }
  }
}
