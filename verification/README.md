# CT–tomosynthesis registration core, in Dafny

This project models the numerical core of a CT-to-tomosynthesis registration
tool. It covers the following pieces:

- **Perspective projector.** An X-ray emitter projects 3D points onto a flat
  detector. The projector (`TransformPoint`) intersects the line through a
  point and the emitter with the detector plane. It returns the truncated
  plane coordinates (u, v), the point it calls the intersection, and the
  line parameter t. The projector also carries the analytic Jacobian of a
  versor rotation (`ComputeJacobianWithRespectToParameters`).
- **Rigid pose.** Six parameters (tx, ty, tz, rz, ry, rx) move the points.
  The pose applies a rotation about z, then about y, then about x, then a
  translation. Each stage is a 4×4 homogeneous matrix.
- **Pixel conversions.** Plane coordinates become detector pixel positions
  in one of two ways:
  - tomosynthesis-reconstruction mode: `(u + size/2) / 0.194`;
  - CT mode: `u / (spacing · 0.194) + size/2`.
- **Single-point and batch projection.** `model` and `modelCT` pose a
  single point and then project it. The batch functions project a whole
  point set.
- **Registration cost.** For every CT point and every emitter line paired
  with a projection image, the point is posed by the unscaled parameters
  and projected. The image intensity under the truncated pixel is summed.
  Each point's sum is divided by the number of emitter lines, and the total
  by the number of points. The cost is 6000 minus that mean.
- **Marker images.** One mask or overlay image per emitter line: a 20×24
  (mask) or 6×6 (overlay) rectangle of 255s is stamped around each
  projected point.

Modelling choices:

- Arithmetic is exact (`real`).
- Python's `int()` on a float is truncation toward zero (`Numbers.Trunc`).
- `math.cos` and `math.sin` are an input (`Numbers.Trig`).
- Some source calls raise, for example on a division by zero or on NaN
  stored into an integer array. Others produce an infinite or NaN
  coordinate, which exact reals cannot hold. Both become a `Failure`
  carrying a `Results.Error`.

The projector's behaviour is modelled as written. It solves
`u·p01 + v·p02 + t·Iab = target − p0` by Cramer's rule, where
`Iab = target − emitter`. The true plane point is therefore `target − t·Iab`.
However, the point the source returns as "the intersection" is
`target + t·Iab`, which is the mirror image of the plane point through the
target. `PerspectiveTransform.TransformPoint` and
`IntersectionOnPlaneIffTargetOnPlane` state this.

The registration cost excludes pixel index 0: the check `int(proj) <= 0`
(functions.py:518-521) means row 0 and column 0 never contribute.

Modules:

| module | file | content |
|---|---|---|
| `Results` | `results.dfy` | `Result`, `Error` |
| `Numbers` | `numbers.dfy` | `Trunc`, `Trig` |
| `Vectors` | `vectors.dfy` | 3-vectors, dot and cross products, the Cramer identities |
| `PerspectiveTransform` | `perspective_transform.dfy` | projector and Jacobian |
| `RigidTransform` | `rigid_transform.dfy` | 4×4 matrices and the pose |
| `Pixels` | `pixels.dfy` | the two pixel conversions |
| `Projection` | `projection.dfy` | `model`, `modelCT` and the batch projections |
| `Registration` | `registration.dfy` | the registration cost |
| `VesselImages` | `vessel_images.dfy` | mask and overlay stamping |

## Model

| member | source | states |
|---|---|---|
| Numbers.Trunc | functions.py:514-522 | `int()` truncates toward zero: the result is within one of the argument, on the side of zero |
| PerspectiveTransform.Solve | PythonVersorRigid3DPerspectiveTransform.py:43-54 | the Cramer-rule solution (u, v, t) satisfies the line–plane system: the plane point (u, v) equals `target − t·Iab` |
| PerspectiveTransform.SolutionUnique | PythonVersorRigid3DPerspectiveTransform.py:43-54 | any (u, v, t) that satisfies the system is the one the formulas compute, so the solution is unique when the denominator is nonzero |
| PerspectiveTransform.TransformPoint | PythonVersorRigid3DPerspectiveTransform.py:43-58 | fails exactly when `Iab · (p01 × p02)` is zero; otherwise u and v are the truncated solution, t is the solution's t, and the returned intersection and the plane point average to the target |
| PerspectiveTransform.IntersectionOnPlaneIffTargetOnPlane | PythonVersorRigid3DPerspectiveTransform.py:54-56 | the returned intersection lies on the detector plane if and only if the target does |
| PerspectiveTransform.TargetOnPlane | PythonVersorRigid3DPerspectiveTransform.py:43-58 | a target on the plane at coordinates (a, b) projects to (int(a), int(b)), itself, and t = 0 |
| PerspectiveTransform.RayInvariance | PythonVersorRigid3DPerspectiveTransform.py:43-53 | every target on the same ray from the emitter gets the same plane coordinates |
| PerspectiveTransform.TargetAtEmitterFails | PythonVersorRigid3DPerspectiveTransform.py:47-51 | a target at the emitter position has a zero ray and fails |
| PerspectiveTransform.ParallelAxesFail | PythonVersorRigid3DPerspectiveTransform.py:45-51 | parallel detector axes make every projection fail |
| PerspectiveTransform.ComputeJacobianWithRespectToParameters | PythonVersorRigid3DPerspectiveTransform.py:60-114 | fails exactly when vw is zero; otherwise columns 0–2 hold the rotation derivatives, a 1 sits at (i, 3 + i), and the other cells of columns 3–5 are never written |
| PerspectiveTransform.PureScalarColumns | PythonVersorRigid3DPerspectiveTransform.py:80-109 | for a versor with zero vector part, the rotation columns are 2·vw times the cross-product matrix of the point |
| PerspectiveTransform.JacobianWithoutZRotation | PythonVersorRigid3DPerspectiveTransform.py:62-109 | with z = 0, every sine the source uses vanishes; the versor is (0, 0, 0, cos(x/2)·cos(y/2)) and the rotation columns are 2·vw times the cross-product matrix |
| PerspectiveTransform.JacobianAtZeroAngles | PythonVersorRigid3DPerspectiveTransform.py:62-109 | at zero angles the versor is the identity, and the rotation columns are twice the cross-product matrix |
| PerspectiveTransform.JacobianIgnoresSinesOfXY | PythonVersorRigid3DPerspectiveTransform.py:66-76 | the sines of x/2 and y/2 never reach the result: trig tables that agree on the other four values give the same Jacobian |
| RigidTransform.TransformOnePoint3D | functions.py:191-203 | for an affine matrix, the result is the homogeneous product `M·(p, 1)` with its last coordinate dropped |
| RigidTransform.TransformAllPoints3D | functions.py:38-53 | fails exactly when there are no points, because `reshape` then meets the initial list; otherwise one output row per input point, each being the single-point transform |
| RigidTransform.StagesAreRotations | functions.py:68-90 | the z, y and x matrices act as the planar rotations about those axes, and the translation matrix adds the offset |
| RigidTransform.TransformOnePointAllParameters | functions.py:99-139 | the posed point is `Rx(Ry(Rz(p))) + (tx, ty, tz)` |
| RigidTransform.TransformAllPointsAllParameters | functions.py:56-96 | fails exactly when there are no points; otherwise the batch pose equals the single-point pose, row by row |
| RigidTransform.IdentityPose | functions.py:56-96 | the all-zero pose moves nothing |
| RigidTransform.RotationStagesPreserveNorm | functions.py:68-84 | with cos² + sin² = 1, each rotation stage keeps the length of a point |
| RigidTransform.RotationKeepsDistance | functions.py:68-84 | with cos² + sin² = 1, each rotation keeps the distance between two points |
| RigidTransform.RotationsOfDifference | functions.py:68-84 | each rotation maps the difference of two points to the difference of their images |
| RigidTransform.PoseIsRigid | functions.py:99-139 | when each angle's cos and sin lie on the unit circle, the pose keeps all distances between points |
| Pixels.TomoReconPixel | functions.py:26-28 | the pixel position, scaled back by the 0.194 pitch, is the coordinate shifted by half the image size |
| Pixels.TomoReconRoundTrip | functions.py:26-28 | the tomosynthesis-reconstruction conversion and its inverse undo each other in both directions |
| Pixels.TomoReconIncreasing | functions.py:26-28 | larger coordinates give larger pixel positions |
| Pixels.CtPixel | functions.py:276-277 | fails exactly when the spacing is zero; otherwise the offset from the image centre, scaled back by spacing·0.194, is the coordinate |
| Pixels.CtRoundTrip | functions.py:276-277 | for nonzero spacing, the CT conversion and its inverse undo each other in both directions |
| Pixels.CtIncreasing | functions.py:276-277 | for positive spacing, the CT conversion is strictly increasing |
| Projection.TomoReconProjection | functions.py:24-28 | fails exactly when the projector does; otherwise the pixel converts back to the truncated (u, v), and the intersection and t are the projector's |
| Projection.CtProjection | functions.py:274-277 | a degenerate projection fails first and a zero spacing next; otherwise the pixel converts back to the truncated (u, v) |
| Projection.Model | functions.py:142-188 | fails exactly when the posed point's projection is degenerate; otherwise the pixel converts back to the truncated solution for the posed point |
| Projection.ModelCT | functions.py:206-252 | as `Model`, with the CT conversion and its zero-spacing failure |
| Projection.ModelsAtZeroPose | functions.py:142-252 | at the zero pose, `model` and `modelCT` project the point unchanged |
| Projection.ModelsConstantAlongRay | functions.py:142-252 | two points whose posed positions share a ray from the emitter land on the same pixel |
| Projection.GetProjectedPointsTRTP | functions.py:8-35 | succeeds exactly when there is a point and every point projects, with row i holding point i's pixel, intersection and t; a failing point reports the first failing point's error; no points at all fails, because `reshape` then meets the initial list |
| Projection.GetProjectedPointsCTTP | functions.py:255-284 | as the tomosynthesis variant, with the CT conversion, keeping only the x and y of each intersection; no points at all fails in the same way |
| Registration.Unscale | functions.py:508 | `x/x_scale` fails exactly when a scale is zero; otherwise each parameter times its scale gives back the scaled parameter |
| Registration.PairValue | functions.py:508-525 | a failed landing propagates; a pixel inside the size but missing from the image fails; a nonzero contribution comes only from a pixel with both indices strictly inside (0, size); such a pixel contributes the image value |
| Registration.EmitterSumWithin | functions.py:500-525 | with intensities in [0, m], a point's summed intensity is in [0, m·number of emitter lines] |
| Registration.PointsSumWithin | functions.py:499-527 | with intensities in [0, m], the total is in [0, m·number of points] |
| Registration.CostWithin | functions.py:475-531 | with intensities in [0, m], a successful cost lies in [6000 − m, 6000] |
| Registration.UnpairedLinesIgnored | functions.py:501 | emitter lines without an image contribute nothing, although they still count in the divisor |
| Registration.NoImagesCostsMost | functions.py:497-529 | with points and emitter lines but no images, the cost is exactly 6000 |
| Registration.CtTomoProjectionRegistration | functions.py:475-531 | the nested loops compute the cost function, including which error surfaces first |
| Registration.AccumulateCost | functions.py:497-529 | the loop over points computes the cost for any detector setup |
| Registration.PointVoxels | functions.py:500-525 | the loop over `zip(y, mask)` computes one point's summed intensity |
| VesselImages.Blank | functions.py:314 | `np.zeros`: a grid of the given rows and columns, all 0 |
| VesselImages.SliceBound | functions.py:332-336 | a Python slice bound lands in [0, n]; a negative bound counts from the end |
| VesselImages.Stamp | functions.py:322-336 | keeps the grid's shape; a covered cell becomes 255 and every other cell keeps its value |
| VesselImages.OutsideWindowUnchanged | functions.py:323-330 | a position with x outside [0, 1536) or y outside [0, 2048) leaves the grid unchanged |
| VesselImages.InteriorStampIsBox | functions.py:331-336 | away from the edges, the marker is exactly rows `int(y)−hr … int(y)+hr−1` by columns `int(x)−hc … int(x)+hc−1` |
| VesselImages.NearEdgeDrawsNothing | functions.py:331-336 | a position fewer than hr rows from the top (or hc columns from the left), in a grid at least 2·hr rows (2·hc columns) large, draws nothing |
| VesselImages.StampIdempotent | functions.py:322-336 | stamping the same position twice equals stamping it once |
| VesselImages.StampsCommute | functions.py:322-336 | the order of two stamps does not matter |
| VesselImages.StampAll | functions.py:322-336 | after the stamping loop, a cell is 255 if some position covers it, and keeps its value otherwise |
| VesselImages.StampAllDependsOnSet | functions.py:322-336 | two position lists with the same elements stamp the same image |
| VesselImages.MarkerImage | functions.py:314-336 | a cell of the blank-then-stamped image is 255 exactly when some position covers it, and 0 otherwise |
| VesselImages.MaskProjector | functions.py:298-310 | the mask's detector has unit x and y axes, centred at half the image size |
| VesselImages.OverlayProjector | functions.py:432-444 | the overlay's detector has unit x and y axes through the origin, and the emitter sits at (−l0, l1, l2) for emitter line l |
| VesselImages.MakeVesselMask | functions.py:287-342 | succeeds exactly when every point projects for every emitter line; image k is the 20×24-marker image of line k's tomosynthesis-reconstruction pixels |
| VesselImages.MaskLinePixels | functions.py:316-321 | the mask's projection loop for one line succeeds exactly when every point projects, with no special case for an empty source, and yields every point's pixel in order |
| VesselImages.TomoReconMarkers | functions.py:305-336 | the mask loop for any per-line projectors, with the same success condition and images |
| VesselImages.OverlayCoordinate | functions.py:450 | with nonzero spacing the coordinate is finite and converts back to u; with zero spacing it is +inf, −inf or NaN as u is positive, negative or zero |
| VesselImages.OverlayPosition | functions.py:449-450 | fails exactly when the projector does; with nonzero spacing it is the CT pixel; with zero spacing both coordinates are non-finite, and one is NaN exactly when its truncated plane coordinate is zero |
| VesselImages.OverlayMark | functions.py:452-466 | a position is drawn exactly when it is finite and inside the window; an infinite x, or a NaN x with an infinite y, is skipped; two NaN coordinates reach `int()` and raise |
| VesselImages.NonzeroSpacingMark | functions.py:449-466 | with nonzero spacing a point is drawn at its CT pixel when that is inside the window, and skipped otherwise |
| VesselImages.ZeroSpacingMark | functions.py:449-466 | with zero spacing a point raises when both truncated plane coordinates are zero, and is skipped otherwise |
| VesselImages.DrawnPixels | functions.py:452-466 | a pixel is drawn exactly when some position's mark draws it |
| VesselImages.DrawnPixelsAppend | functions.py:452-466 | one more position appends its drawn pixel, if any, to the earlier ones |
| VesselImages.StampOverlay | functions.py:447-466 | the stamping loop fails exactly when some position reaches `int()` of a NaN; otherwise the image marks exactly the drawn pixels |
| VesselImages.OverlayLine | functions.py:447-466 | one overlay line succeeds exactly when every point projects and no position raises; projection errors come first; the image marks the drawn pixels |
| VesselImages.SameWindowPixelsSameImage | functions.py:452-466 | two position lists that agree inside the window stamp the same image |
| VesselImages.OverlayWithNonzeroSpacing | functions.py:447-466 | with nonzero spacing and every point projecting, a line never raises, and its image marks exactly the CT pixels of its points |
| VesselImages.OverlayWithZeroSpacing | functions.py:447-466 | with zero spacing and every point projecting, a line fails exactly when some point has both truncated plane coordinates zero; otherwise its image stays blank |
| VesselImages.MakeVesselOverlay | functions.py:418-472 | with the registration's detector, the overlay succeeds exactly when every line completes; otherwise it reports the error of the first line that does not; image k is line k's overlay image |
| VesselImages.CtMarkers | functions.py:438-466 | the overlay loop for any per-line projectors, with the same outcome |

## Left out

- File and console I/O is not modelled:
  - `itk.imread` of the projection images: the images are inputs;
  - `itk.imwrite` of the masks and overlays: the images are returned;
  - the DICOM file names;
  - every `print`.
- Masks and overlays already written to disk before a later failure are not
  modelled. The model returns the failure alone.
- The plotting helpers `ProjectPositionCT` and `ProjectPositionTR` are left
  out, because they only draw with matplotlib.
- Floating point is replaced by exact reals. A raise, an infinite result and
  a NaN are all reported as `Failure`.
  The one place where the model keeps an infinity or a NaN, instead of
  reporting `Failure`, is the overlay's stamping loop. There they are
  `VesselImages.Coordinate` values, so that the model can follow the window
  test.
- EmitterSum: a point's summed intensity is exact. In the source the sum
  starts at the integer 0 and adds image values of the image's own type
  (functions.py:500, 525). Under NumPy 1.x that promotes to a 64-bit integer,
  and float images do not wrap. Under NumPy 2, an integer-typed image such
  as the `uint8` masks this program writes (functions.py:314) keeps the sum
  in that type, and it wraps around. The model does not bound the sum.
- PairValue: an image value is a real number; the pixel type of the image,
  and any wrap-around it causes in the sum, is not modelled (see
  `EmitterSum`).
- `TransformPoint` stores u and v in a numpy integer array
  (PythonVersorRigid3DPerspectiveTransform.py:50), whose sixty-four-bit range
  is not bounded in the model. Python's own `int()` results are unbounded, in
  the source as in the model.
- `math.cos` and `math.sin` are left unspecified, as the `Trig` input. Lemmas
  that need particular values say so in their preconditions (`ExactAtZero`,
  `OnUnitCircle`).
- The pose vector `x` and its scales are a fixed six-field datatype, so
  vectors of the wrong length are not modelled.
- `PlaneNormal` is stored by the projector but never read, so no property
  mentions it.
- The cells of the Jacobian that `numpy.empty` leaves unwritten are `Unset`
  rather than arbitrary numbers.
- The optimiser that minimises the registration cost lives outside the core,
  and is not modelled.
- The projector's `CenterOfRotation` is read only by the Jacobian, and is
  modelled only there.
