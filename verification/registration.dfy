/** The registration cost `CT_TomoProjectionRegistration`: every CT point,
    posed by the unscaled parameters, is projected from every emitter onto a
    detector plane through the origin spanned by the x and y axes; the
    intensity of the projection image under the truncated pixel position is
    accumulated, averaged over emitters and then over points, and subtracted
    from 6000. */
module Registration {
  import opened Vectors
  import opened Numbers
  import opened Results
  import opened PerspectiveTransform
  import opened RigidTransform
  import opened Pixels
  import opened Projection

  /** The cost is 6000 minus the mean intensity found under the points. */
  const CostOffset: real := 6000.0

  /** A projection image as rows of intensities, indexed `im[row, col]`. */
  type Image = seq<seq<real>>

  /** The detector of the registration: centred at the origin, spanned by
      the x and y axes with normal z, and rotating about the origin.  Each
      emitter line replaces the emitter position. */
  const CtDetector: Projector :=
    Projector(Vec3(0.0, 0.0, 0.0), Vec3(0.0, 0.0, 0.0), Vec3(0.0, 0.0, 0.0), Vec3(0.0, 0.0, 1.0),
              Vec3(1.0, 0.0, 0.0), Vec3(0.0, 1.0, 0.0))

  /** A line (l0, l1, l2) of the emitter table places the emitter at
      (−l0, l1, l2). */
  function CtEmitter(line: Vec3): Vec3 {
    Vec3(-line.x, line.y, line.z)
  }

  /** `x/x_scale`, element by element; fails when any scale is zero (the
      source then computes with infinities or NaNs, which raise later). */
  function Unscale(x: Pose, scale: Pose): (r: Result<Pose>)
    ensures r.Failure? <==>
      scale.tx == 0.0 || scale.ty == 0.0 || scale.tz == 0.0 || scale.rz == 0.0 || scale.ry == 0.0 || scale.rx == 0.0
    ensures r.Failure? ==> r.error == ZeroScale
    ensures r.Success? ==>
      && r.value.tx * scale.tx == x.tx && r.value.ty * scale.ty == x.ty && r.value.tz * scale.tz == x.tz
      && r.value.rz * scale.rz == x.rz && r.value.ry * scale.ry == x.ry && r.value.rx * scale.rx == x.rx
  {
    if scale.tx == 0.0 || scale.ty == 0.0 || scale.tz == 0.0 || scale.rz == 0.0 || scale.ry == 0.0 || scale.rx == 0.0 then
      Failure(ZeroScale)
    else
      Success(Pose(x.tx / scale.tx, x.ty / scale.ty, x.tz / scale.tz, x.rz / scale.rz, x.ry / scale.ry, x.rx / scale.rx))
  }

  /** The fixed inputs of one cost evaluation: the trigonometry, the scaled
      parameters and their scales, the image size, the CT spacing and the
      detector geometry. */
  datatype Setup = Setup(trig: Trig, x: Pose, scale: Pose, size: ImageSize, spacing: real, detector: Projector)

  /** The setup the source builds: the detector is always `CtDetector`. */
  function RegistrationSetup(trig: Trig, x: Pose, scale: Pose, size: ImageSize, spacing: real): Setup {
    Setup(trig, x, scale, size, spacing, CtDetector)
  }

  /** A truncated pixel index counts when it is strictly inside the image:
      index 0 is rejected along with indices at or past the size. */
  predicate Counted(size: ImageSize, col: int, row: int) {
    0 < col < size.x && 0 < row < size.y
  }

  /** The image holds a pixel at (row, col). */
  predicate InImage(im: Image, row: int, col: int) {
    0 <= row < |im| && 0 <= col < |im[row]|
  }

  /** Where one point lands for one emitter line, in CT pixels. */
  function Landing(s: Setup, point: Vec3, line: Vec3): Result<Pixel> {
    var pose :- Unscale(s.x, s.scale);
    ModelCT(s.trig, pose, point, s.detector.(emitterPosition := CtEmitter(line)), s.size, s.spacing)
  }

  /** The contribution of one point for one emitter and its image.  It fails
      when the landing does, or when a counted pixel is missing from the
      image.  A nonzero contribution comes only from a counted pixel and is
      the image value there; a counted pixel always contributes its value. */
  function PairValue(s: Setup, point: Vec3, line: Vec3, im: Image): (r: Result<real>)
    ensures Landing(s, point, line).Failure? ==> r == Failure(Landing(s, point, line).error)
    ensures Landing(s, point, line).Success? ==>
      var col, row := Trunc(Landing(s, point, line).value.x), Trunc(Landing(s, point, line).value.y);
      && (r.Failure? <==> Counted(s.size, col, row) && !InImage(im, row, col))
      && (r.Failure? ==> r.error == PixelOutsideImage)
      && (r.Success? && r.value != 0.0 ==> Counted(s.size, col, row))
      && (r.Success? && Counted(s.size, col, row) ==> r.value == im[row][col])
  {
    var px :- Landing(s, point, line);
    var col, row := Trunc(px.x), Trunc(px.y);
    if col >= s.size.x || row >= s.size.y || col <= 0 || row <= 0 then
      Success(0.0)
    else if !InImage(im, row, col) then
      Failure(PixelOutsideImage)
    else if im[row][col] == 0.0 then
      Success(0.0)
    else
      Success(im[row][col])
  }

  /** `voxVal` for one point: the contributions over `zip(y, mask)`, which
      stops at the shorter of the two; the first failing pair decides. */
  function EmitterSum(s: Setup, point: Vec3, lines: seq<Vec3>, images: seq<Image>): Result<real>
    decreases |lines|
  {
    if |lines| == 0 || |images| == 0 then
      Success(0.0)
    else
      var v :- PairValue(s, point, lines[0], images[0]);
      var rest :- EmitterSum(s, point, lines[1..], images[1..]);
      Success(v + rest)
  }

  /** `totVal`: each point's `voxVal` divided by the number of emitter lines
      (not by the number of pairs), summed over the points. */
  function PointsSum(s: Setup, points: seq<Vec3>, lines: seq<Vec3>, images: seq<Image>): Result<real>
    requires |lines| > 0
    decreases |points|
  {
    if |points| == 0 then
      Success(0.0)
    else
      var vox :- EmitterSum(s, points[0], lines, images);
      var rest :- PointsSum(s, points[1..], lines, images);
      Success(vox / |lines| as real + rest)
  }

  /** The cost as a function: 6000 minus the mean over points. */
  function Cost(s: Setup, points: seq<Vec3>, lines: seq<Vec3>, images: seq<Image>): Result<real> {
    if |points| == 0 then
      Failure(NoSourcePoints)
    else if |lines| == 0 then
      Failure(NoEmitters)
    else
      var total :- PointsSum(s, points, lines, images);
      Success(CostOffset - total / |points| as real)
  }

  /** Every intensity of every image lies in [0, m]. */
  predicate IntensitiesWithin(images: seq<Image>, m: real) {
    forall k, row, col :: 0 <= k < |images| && 0 <= row < |images[k]| && 0 <= col < |images[k][row]| ==>
      0.0 <= images[k][row][col] <= m
  }

  /** A single contribution lies within the intensity range. */
  lemma PairValueWithin(s: Setup, point: Vec3, line: Vec3, images: seq<Image>, k: nat, m: real)
    requires k < |images| && IntensitiesWithin(images, m) && 0.0 <= m
    ensures PairValue(s, point, line, images[k]).Success? ==> 0.0 <= PairValue(s, point, line, images[k]).value <= m
  {
  }

  /** n copies of m added up; kept recursive so that the sum bounds below
      stay linear. */
  function Copies(n: nat, m: real): real {
    if n == 0 then 0.0 else m + Copies(n - 1, m)
  }

  lemma {:induction false} CopiesIsProduct(n: nat, m: real)
    ensures Copies(n, m) == n as real * m
  {
    if n > 0 {
      CopiesIsProduct(n - 1, m);
    }
  }

  /** `voxVal` lies between 0 and m once per emitter line. */
  lemma {:induction false} EmitterSumWithin(s: Setup, point: Vec3, lines: seq<Vec3>, images: seq<Image>, m: real)
    requires IntensitiesWithin(images, m) && 0.0 <= m
    ensures EmitterSum(s, point, lines, images).Success? ==>
      0.0 <= EmitterSum(s, point, lines, images).value <= Copies(|lines|, m)
    decreases |lines|
  {
    if |lines| > 0 && |images| > 0 {
      PairValueWithin(s, point, lines[0], images, 0, m);
      TailWithin(images, m);
      EmitterSumWithin(s, point, lines[1..], images[1..], m);
    } else {
      CopiesNonNegative(|lines|, m);
    }
  }

  /** Dropping the first image keeps the intensity bound. */
  lemma TailWithin(images: seq<Image>, m: real)
    requires |images| > 0 && IntensitiesWithin(images, m)
    ensures IntensitiesWithin(images[1..], m)
  {
    forall k, row, col | 0 <= k < |images[1..]| && 0 <= row < |images[1..][k]| && 0 <= col < |images[1..][k][row]|
      ensures 0.0 <= images[1..][k][row][col] <= m
    {
      assert images[1..][k] == images[k + 1];
    }
  }

  lemma {:induction false} CopiesNonNegative(n: nat, m: real)
    requires 0.0 <= m
    ensures 0.0 <= Copies(n, m)
  {
    if n > 0 {
      CopiesNonNegative(n - 1, m);
    }
  }

  /** An amount between 0 and n copies of m, shared among n, is between 0 and m. */
  lemma ShareWithin(a: real, n: nat, m: real)
    requires 0 < n && 0.0 <= a <= Copies(n, m)
    ensures 0.0 <= a / n as real <= m
  {
    CopiesIsProduct(n, m);
  }

  /** `totVal` lies between 0 and m once per point. */
  lemma {:induction false} PointsSumWithin(s: Setup, points: seq<Vec3>, lines: seq<Vec3>, images: seq<Image>, m: real)
    requires |lines| > 0 && IntensitiesWithin(images, m) && 0.0 <= m
    ensures PointsSum(s, points, lines, images).Success? ==>
      0.0 <= PointsSum(s, points, lines, images).value <= Copies(|points|, m)
    decreases |points|
  {
    if |points| > 0 {
      var vox := EmitterSum(s, points[0], lines, images);
      EmitterSumWithin(s, points[0], lines, images, m);
      if vox.Success? {
        ShareWithin(vox.value, |lines|, m);
      }
      PointsSumWithin(s, points[1..], lines, images, m);
    }
  }

  /** With intensities in [0, m] a successful cost lies in [6000 − m, 6000]. */
  lemma CostWithin(s: Setup, points: seq<Vec3>, lines: seq<Vec3>, images: seq<Image>, m: real)
    requires IntensitiesWithin(images, m) && 0.0 <= m
    ensures Cost(s, points, lines, images).Success? ==>
      CostOffset - m <= Cost(s, points, lines, images).value <= CostOffset
  {
    if |points| > 0 && |lines| > 0 {
      PointsSumWithin(s, points, lines, images, m);
      if PointsSum(s, points, lines, images).Success? {
        ShareWithin(PointsSum(s, points, lines, images).value, |points|, m);
      }
    }
  }

  /** Emitter lines without an image are ignored by `zip` but still count in
      the divisor: `voxVal` is the sum over the paired lines only. */
  lemma {:induction false} UnpairedLinesIgnored(s: Setup, point: Vec3, lines: seq<Vec3>, images: seq<Image>)
    requires |images| <= |lines|
    ensures EmitterSum(s, point, lines, images) == EmitterSum(s, point, lines[..|images|], images)
    decreases |lines|
  {
    if |images| > 0 {
      assert lines[..|images|][1..] == lines[1..][..|images| - 1];
      UnpairedLinesIgnored(s, point, lines[1..], images[1..]);
    }
  }

  /** With no images at all every point finds nothing, and the cost is the
      full 6000 as long as there are points and emitter lines. */
  lemma NoImagesCostsMost(s: Setup, points: seq<Vec3>, lines: seq<Vec3>)
    requires |points| > 0 && |lines| > 0
    ensures Cost(s, points, lines, []) == Success(CostOffset)
  {
    NoImagesSumZero(s, points, lines);
  }

  lemma {:induction false} NoImagesSumZero(s: Setup, points: seq<Vec3>, lines: seq<Vec3>)
    requires |lines| > 0
    ensures PointsSum(s, points, lines, []) == Success(0.0)
    decreases |points|
  {
    if |points| > 0 {
      NoImagesSumZero(s, points[1..], lines);
    }
  }

  /** Adds an accumulated amount to a successful partial result. */
  function Shift(acc: real, r: Result<real>): Result<real> {
    if r.Failure? then r else Success(acc + r.value)
  }

  /** `CT_TomoProjectionRegistration`: the nested loops of the source, which
      compute exactly the cost function, including which error comes first. */
  method CtTomoProjectionRegistration(trig: Trig, x: Pose, points: seq<Vec3>, lines: seq<Vec3>, images: seq<Image>,
                                      scale: Pose, size: ImageSize, spacing: real)
    returns (r: Result<real>)
    ensures r == Cost(RegistrationSetup(trig, x, scale, size, spacing), points, lines, images)
  {
    r := AccumulateCost(RegistrationSetup(trig, x, scale, size, spacing), points, lines, images);
  }

  /** The outer loop over points, for any setup. */
  method AccumulateCost(s: Setup, points: seq<Vec3>, lines: seq<Vec3>, images: seq<Image>)
    returns (r: Result<real>)
    ensures r == Cost(s, points, lines, images)
  {
    var total := 0.0;
    for i := 0 to |points|
      invariant i > 0 ==> |lines| > 0
      invariant |lines| > 0 ==>
        PointsSum(s, points, lines, images) == Shift(total, PointsSum(s, points[i..], lines, images))
    {
      var vox := PointVoxels(s, points[i], lines, images);
      if vox.Failure? {
        assert |lines| > 0;
        assert points[i..][0] == points[i];
        return Failure(vox.error);
      }
      if |lines| == 0 {
        return Failure(NoEmitters);
      }
      assert points[i..][1..] == points[i + 1..];
      total := total + vox.value / |lines| as real;
    }
    if |points| == 0 {
      return Failure(NoSourcePoints);
    }
    assert points[|points|..] == [];
    return Success(CostOffset - total / |points| as real);
  }

  /** The inner loop over `zip(y, mask)` for one point: `voxVal`. */
  method PointVoxels(s: Setup, point: Vec3, lines: seq<Vec3>, images: seq<Image>) returns (r: Result<real>)
    ensures r == EmitterSum(s, point, lines, images)
  {
    var vox := 0.0;
    var pairs := if |lines| < |images| then |lines| else |images|;
    for j := 0 to pairs
      invariant EmitterSum(s, point, lines, images) == Shift(vox, EmitterSum(s, point, lines[j..], images[j..]))
    {
      var v := PairValue(s, point, lines[j], images[j]);
      assert lines[j..][1..] == lines[j + 1..] && images[j..][1..] == images[j + 1..];
      if v.Failure? {
        return Failure(v.error);
      }
      vox := vox + v.value;
    }
    return Success(vox);
  }
}
