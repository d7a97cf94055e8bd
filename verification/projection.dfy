/** Projection of 3D points to detector pixels: the single-point models used
    by the optimiser (`model`, `modelCT`), which pose the point first, and the
    batch projections of a whole point set (`GetProjectedPointsTRTP`,
    `GetProjectedPointsCTTP`), which do not. */
module Projection {
  import opened Vectors
  import opened Numbers
  import opened Results
  import opened PerspectiveTransform
  import opened RigidTransform
  import opened Pixels

  /** What the batch projections record for one point. */
  datatype ProjectedPoint = ProjectedPoint(pixel: Pixel, intersection: Vec3, t: real)

  /** One point through the projector and the tomosynthesis-reconstruction
      conversion.  Fails exactly when the projector does; otherwise the pixel
      position converts back to the truncated plane coordinates, and the
      intersection and t are the projector's. */
  function TomoReconProjection(p: Projector, target: Vec3, size: ImageSize): (r: Result<ProjectedPoint>)
    ensures r.Failure? <==> Denominator(p, target) == 0.0
    ensures r.Failure? ==> r.error == DegenerateGeometry
    ensures r.Success? ==>
      var pr := TransformPoint(p, target).value;
      && TomoReconCoordinate(r.value.pixel.x, size.x) == pr.u as real
      && TomoReconCoordinate(r.value.pixel.y, size.y) == pr.v as real
      && r.value.intersection == pr.intersection
      && r.value.t == pr.t
  {
    var pr :- TransformPoint(p, target);
    TomoReconRoundTrip(pr.u as real, 0.0, size.x);
    TomoReconRoundTrip(pr.v as real, 0.0, size.y);
    Success(ProjectedPoint(Pixel(TomoReconPixel(pr.u as real, size.x), TomoReconPixel(pr.v as real, size.y)),
                           pr.intersection, pr.t))
  }

  /** One point through the projector and the CT conversion.  A degenerate
      projection fails first; a zero spacing fails next.  Otherwise the pixel
      position converts back to the truncated plane coordinates. */
  function CtProjection(p: Projector, target: Vec3, size: ImageSize, spacing: real): (r: Result<ProjectedPoint>)
    ensures r.Failure? <==> Denominator(p, target) == 0.0 || spacing == 0.0
    ensures r.Failure? ==> r.error == if Denominator(p, target) == 0.0 then DegenerateGeometry else ZeroSpacing
    ensures r.Success? ==>
      var pr := TransformPoint(p, target).value;
      && CtCoordinate(r.value.pixel.x, size.x, spacing) == pr.u as real
      && CtCoordinate(r.value.pixel.y, size.y, spacing) == pr.v as real
      && r.value.intersection == pr.intersection
      && r.value.t == pr.t
  {
    var pr :- TransformPoint(p, target);
    if spacing == 0.0 then
      Failure(ZeroSpacing)
    else
      CtRoundTrip(pr.u as real, 0.0, size.x, spacing);
      CtRoundTrip(pr.v as real, 0.0, size.y, spacing);
      var px := CtPixel(pr.u as real, size.x, spacing).value;
      var py := CtPixel(pr.v as real, size.y, spacing).value;
      Success(ProjectedPoint(Pixel(px, py), pr.intersection, pr.t))
  }

  /** `model`: pose the point, project it and convert it in
      tomosynthesis-reconstruction mode.  It fails exactly when the posed
      point has a degenerate projection; otherwise the pixel converts back to
      the truncated solution of the line–plane system for the posed point. */
  function Model(trig: Trig, x: Pose, u: Vec3, p: Projector, size: ImageSize): (r: Result<Pixel>)
    ensures var moved := TransformOnePointAllParameters(trig, x, u);
      && (r.Failure? <==> Denominator(p, moved) == 0.0)
      && (r.Failure? ==> r.error == DegenerateGeometry)
      && (r.Success? ==>
            && TomoReconCoordinate(r.value.x, size.x) == Trunc(Solve(p, moved).u) as real
            && TomoReconCoordinate(r.value.y, size.y) == Trunc(Solve(p, moved).v) as real)
  {
    var pp :- TomoReconProjection(p, TransformOnePointAllParameters(trig, x, u), size);
    Success(pp.pixel)
  }

  /** `modelCT`: pose the point, project it and convert it in CT mode. */
  function ModelCT(trig: Trig, x: Pose, u: Vec3, p: Projector, size: ImageSize, spacing: real): (r: Result<Pixel>)
    ensures var moved := TransformOnePointAllParameters(trig, x, u);
      && (r.Failure? <==> Denominator(p, moved) == 0.0 || spacing == 0.0)
      && (r.Failure? ==> r.error == if Denominator(p, moved) == 0.0 then DegenerateGeometry else ZeroSpacing)
      && (r.Success? ==>
            && CtCoordinate(r.value.x, size.x, spacing) == Trunc(Solve(p, moved).u) as real
            && CtCoordinate(r.value.y, size.y, spacing) == Trunc(Solve(p, moved).v) as real)
  {
    var pp :- CtProjection(p, TransformOnePointAllParameters(trig, x, u), size, spacing);
    Success(pp.pixel)
  }

  /** With exact trigonometry at zero, the zero pose leaves the models equal
      to projecting the point as it is. */
  lemma ModelsAtZeroPose(trig: Trig, u: Vec3, p: Projector, size: ImageSize, spacing: real)
    requires ExactAtZero(trig)
    ensures Model(trig, ZeroPose, u, p, size) == (
      match TomoReconProjection(p, u, size)
      case Success(pp) => Success(pp.pixel)
      case Failure(e) => Failure(e))
    ensures ModelCT(trig, ZeroPose, u, p, size, spacing) == (
      match CtProjection(p, u, size, spacing)
      case Success(pp) => Success(pp.pixel)
      case Failure(e) => Failure(e))
  {
    IdentityPose(trig, u);
  }

  /** Two source points whose posed positions lie on one line through the
      emitter land on the same pixel, in either mode. */
  lemma ModelsConstantAlongRay(trig: Trig, x: Pose, u1: Vec3, u2: Vec3, k: real, p: Projector, size: ImageSize, spacing: real)
    requires k != 0.0
    requires Denominator(p, TransformOnePointAllParameters(trig, x, u1)) != 0.0
    requires TransformOnePointAllParameters(trig, x, u2)
          == Add(p.emitterPosition, Scale(k, Ray(p, TransformOnePointAllParameters(trig, x, u1))))
    ensures Model(trig, x, u2, p, size) == Model(trig, x, u1, p, size)
    ensures ModelCT(trig, x, u2, p, size, spacing) == ModelCT(trig, x, u1, p, size, spacing)
  {
    var m1 := TransformOnePointAllParameters(trig, x, u1);
    RayInvariance(p, m1, k);
  }

  /** The three arrays the batch projections return, one row per point. */
  datatype Projected<I> = Projected(pixels: seq<Pixel>, intersections: seq<I>, ts: seq<real>)

  /** The x and y of an intersection, as `point_of_intersection[:, :2]`. */
  datatype Planar = Planar(x: real, y: real)

  /** `GetProjectedPointsTRTP`: succeeds exactly when there is a point and
      every point projects, and then row i holds point i's projection.  A
      failing point reports the error of the first one that fails; with no
      points at all, `reshape` is called on the initial list of intersections
      and raises. */
  method GetProjectedPointsTRTP(points: seq<Vec3>, p: Projector, size: ImageSize) returns (r: Result<Projected<Vec3>>)
    ensures |points| == 0 ==> r == Failure(EmptyPointSet)
    ensures r.Success? <==> |points| > 0 && forall i :: 0 <= i < |points| ==> TomoReconProjection(p, points[i], size).Success?
    ensures r.Success? ==>
      && |r.value.pixels| == |points| && |r.value.intersections| == |points| && |r.value.ts| == |points|
      && forall i :: 0 <= i < |points| ==>
           && r.value.pixels[i] == TomoReconProjection(p, points[i], size).value.pixel
           && r.value.intersections[i] == TomoReconProjection(p, points[i], size).value.intersection
           && r.value.ts[i] == TomoReconProjection(p, points[i], size).value.t
    ensures r.Failure? && |points| > 0 ==>
      exists i :: 0 <= i < |points| && TomoReconProjection(p, points[i], size) == Failure(r.error)
        && forall j :: 0 <= j < i ==> TomoReconProjection(p, points[j], size).Success?
  {
    var pixels, intersections, ts := [], [], [];
    for i := 0 to |points|
      invariant |pixels| == i && |intersections| == i && |ts| == i
      invariant forall j :: 0 <= j < i ==> TomoReconProjection(p, points[j], size).Success?
      invariant forall j :: 0 <= j < i ==>
        && pixels[j] == TomoReconProjection(p, points[j], size).value.pixel
        && intersections[j] == TomoReconProjection(p, points[j], size).value.intersection
        && ts[j] == TomoReconProjection(p, points[j], size).value.t
    {
      var q := TomoReconProjection(p, points[i], size);
      if q.Failure? {
        return Failure(q.error);
      }
      pixels := pixels + [q.value.pixel];
      intersections := intersections + [q.value.intersection];
      ts := ts + [q.value.t];
    }
    if |points| == 0 {
      return Failure(EmptyPointSet);
    }
    return Success(Projected(pixels, intersections, ts));
  }

  /** `GetProjectedPointsCTTP`: as the tomosynthesis variant but with the CT
      conversion, keeping only the x and y of each intersection.  With no
      points, `reshape` is called on the initial list of pixels and raises. */
  method GetProjectedPointsCTTP(points: seq<Vec3>, p: Projector, size: ImageSize, spacing: real)
    returns (r: Result<Projected<Planar>>)
    ensures |points| == 0 ==> r == Failure(EmptyPointSet)
    ensures r.Success? <==> |points| > 0 && forall i :: 0 <= i < |points| ==> CtProjection(p, points[i], size, spacing).Success?
    ensures r.Success? ==>
      && |r.value.pixels| == |points| && |r.value.intersections| == |points| && |r.value.ts| == |points|
      && forall i :: 0 <= i < |points| ==>
           && r.value.pixels[i] == CtProjection(p, points[i], size, spacing).value.pixel
           && r.value.intersections[i].x == CtProjection(p, points[i], size, spacing).value.intersection.x
           && r.value.intersections[i].y == CtProjection(p, points[i], size, spacing).value.intersection.y
           && r.value.ts[i] == CtProjection(p, points[i], size, spacing).value.t
    ensures r.Failure? && |points| > 0 ==>
      exists i :: 0 <= i < |points| && CtProjection(p, points[i], size, spacing) == Failure(r.error)
        && forall j :: 0 <= j < i ==> CtProjection(p, points[j], size, spacing).Success?
  {
    var pixels: seq<Pixel>, intersections: seq<Planar>, ts: seq<real> := [], [], [];
    for i := 0 to |points|
      invariant |pixels| == i && |intersections| == i && |ts| == i
      invariant forall j :: 0 <= j < i ==> CtProjection(p, points[j], size, spacing).Success?
      invariant forall j :: 0 <= j < i ==>
        && pixels[j] == CtProjection(p, points[j], size, spacing).value.pixel
        && intersections[j].x == CtProjection(p, points[j], size, spacing).value.intersection.x
        && intersections[j].y == CtProjection(p, points[j], size, spacing).value.intersection.y
        && ts[j] == CtProjection(p, points[j], size, spacing).value.t
    {
      var q := CtProjection(p, points[i], size, spacing);
      if q.Failure? {
        return Failure(q.error);
      }
      pixels := pixels + [q.value.pixel];
      intersections := intersections + [Planar(q.value.intersection.x, q.value.intersection.y)];
      ts := ts + [q.value.t];
    }
    if |points| == 0 {
      return Failure(EmptyPointSet);
    }
    return Success(Projected(pixels, intersections, ts));
  }
}
