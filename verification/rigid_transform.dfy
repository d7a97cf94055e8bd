/** The rigid pose applied to source points before projection: 4×4
    homogeneous matrices for a rotation about z, then about y, then about x,
    then a translation, each applied to a point by appending a 1 and keeping
    the first three components of the product. */
module RigidTransform {
  import opened Vectors
  import opened Numbers
  import opened Results

  datatype Vec4 = Vec4(x: real, y: real, z: real, w: real)

  /** A 4×4 matrix given by its rows. */
  datatype Mat4 = Mat4(r0: Vec4, r1: Vec4, r2: Vec4, r3: Vec4)

  function Dot4(a: Vec4, b: Vec4): real {
    a.x * b.x + a.y * b.y + a.z * b.z + a.w * b.w
  }

  /** Matrix times column vector, `np.dot(M, v)`. */
  function MulVec4(m: Mat4, v: Vec4): Vec4 {
    Vec4(Dot4(m.r0, v), Dot4(m.r1, v), Dot4(m.r2, v), Dot4(m.r3, v))
  }

  /** `np.append(point, 1)`. */
  function Homogeneous(p: Vec3): Vec4 {
    Vec4(p.x, p.y, p.z, 1.0)
  }

  /** The bottom row is (0, 0, 0, 1): homogeneous points stay homogeneous. */
  predicate IsAffine(m: Mat4) {
    m.r3 == Vec4(0.0, 0.0, 0.0, 1.0)
  }

  /** `TransformOnePoint3D`: multiply the homogeneous point and drop the last
      component.  For an affine matrix nothing is lost by dropping it: the
      product is exactly the homogeneous form of the result. */
  function TransformOnePoint3D(m: Mat4, p: Vec3): (q: Vec3)
    ensures IsAffine(m) ==> MulVec4(m, Homogeneous(p)) == Homogeneous(q)
  {
    var h := MulVec4(m, Homogeneous(p));
    Vec3(h.x, h.y, h.z)
  }

  /** `TransformAllPoints3D`: the single-point transform applied to every
      point, keeping count and order.  The accumulator starts as a plain
      list and only `np.append` turns it into an array, so with no points
      the final `reshape` is called on the list and raises. */
  method TransformAllPoints3D(m: Mat4, points: seq<Vec3>) returns (r: Result<seq<Vec3>>)
    ensures r.Failure? <==> |points| == 0
    ensures r.Failure? ==> r.error == EmptyPointSet
    ensures r.Success? ==> |r.value| == |points|
    ensures r.Success? ==> forall i :: 0 <= i < |points| ==> r.value[i] == TransformOnePoint3D(m, points[i])
  {
    var rows: seq<Vec3> := [];
    for i := 0 to |points|
      invariant |rows| == i
      invariant forall j :: 0 <= j < i ==> rows[j] == TransformOnePoint3D(m, points[j])
    {
      rows := rows + [TransformOnePoint3D(m, points[i])];
    }
    if |rows| == 0 {
      return Failure(EmptyPointSet);
    }
    return Success(rows);
  }

  /** The four matrices, with c and s the cosine and sine of the angle. */
  function RotationZ(c: real, s: real): Mat4 {
    Mat4(Vec4(c, -s, 0.0, 0.0),
         Vec4(s, c, 0.0, 0.0),
         Vec4(0.0, 0.0, 1.0, 0.0),
         Vec4(0.0, 0.0, 0.0, 1.0))
  }

  function RotationY(c: real, s: real): Mat4 {
    Mat4(Vec4(c, 0.0, s, 0.0),
         Vec4(0.0, 1.0, 0.0, 0.0),
         Vec4(-s, 0.0, c, 0.0),
         Vec4(0.0, 0.0, 0.0, 1.0))
  }

  function RotationX(c: real, s: real): Mat4 {
    Mat4(Vec4(1.0, 0.0, 0.0, 0.0),
         Vec4(0.0, c, -s, 0.0),
         Vec4(0.0, s, c, 0.0),
         Vec4(0.0, 0.0, 0.0, 1.0))
  }

  function Translation(t: Vec3): Mat4 {
    Mat4(Vec4(1.0, 0.0, 0.0, t.x),
         Vec4(0.0, 1.0, 0.0, t.y),
         Vec4(0.0, 0.0, 1.0, t.z),
         Vec4(0.0, 0.0, 0.0, 1.0))
  }

  /** Reference rotations in coordinates, independent of the matrices. */
  function RotateAboutZ(c: real, s: real, p: Vec3): Vec3 {
    Vec3(c * p.x - s * p.y, s * p.x + c * p.y, p.z)
  }

  function RotateAboutY(c: real, s: real, p: Vec3): Vec3 {
    Vec3(c * p.x + s * p.z, p.y, c * p.z - s * p.x)
  }

  function RotateAboutX(c: real, s: real, p: Vec3): Vec3 {
    Vec3(p.x, c * p.y - s * p.z, s * p.y + c * p.z)
  }

  /** Each matrix stage is affine and acts as the corresponding rotation or
      as adding the offset. */
  lemma StagesAreRotations(c: real, s: real, t: Vec3, p: Vec3)
    ensures IsAffine(RotationZ(c, s)) && TransformOnePoint3D(RotationZ(c, s), p) == RotateAboutZ(c, s, p)
    ensures IsAffine(RotationY(c, s)) && TransformOnePoint3D(RotationY(c, s), p) == RotateAboutY(c, s, p)
    ensures IsAffine(RotationX(c, s)) && TransformOnePoint3D(RotationX(c, s), p) == RotateAboutX(c, s, p)
    ensures IsAffine(Translation(t)) && TransformOnePoint3D(Translation(t), p) == Add(p, t)
  {
  }

  /** The optimisation vector `x`: translation along x, y and z, then the
      rotation angles about z, y and x. */
  datatype Pose = Pose(tx: real, ty: real, tz: real, rz: real, ry: real, rx: real) {

    function Offset(): Vec3 {
      Vec3(tx, ty, tz)
    }

    function MatrixZ(trig: Trig): Mat4 {
      RotationZ(trig.cos(rz), trig.sin(rz))
    }

    function MatrixY(trig: Trig): Mat4 {
      RotationY(trig.cos(ry), trig.sin(ry))
    }

    function MatrixX(trig: Trig): Mat4 {
      RotationX(trig.cos(rx), trig.sin(rx))
    }

    function MatrixD(): Mat4 {
      Translation(Offset())
    }
  }

  /** The all-zero parameter vector. */
  const ZeroPose := Pose(0.0, 0.0, 0.0, 0.0, 0.0, 0.0)

  /** `TransformOnePointAllParameters`: the four matrix stages in order.  The
      result is the point rotated about z, then y, then x, then offset. */
  function TransformOnePointAllParameters(trig: Trig, x: Pose, p: Vec3): (q: Vec3)
    ensures q == Add(RotateAboutX(trig.cos(x.rx), trig.sin(x.rx),
                       RotateAboutY(trig.cos(x.ry), trig.sin(x.ry),
                         RotateAboutZ(trig.cos(x.rz), trig.sin(x.rz), p))),
                     x.Offset())
  {
    var a := TransformOnePoint3D(x.MatrixZ(trig), p);
    var b := TransformOnePoint3D(x.MatrixY(trig), a);
    var c := TransformOnePoint3D(x.MatrixX(trig), b);
    StagesAreRotations(trig.cos(x.rz), trig.sin(x.rz), x.Offset(), p);
    StagesAreRotations(trig.cos(x.ry), trig.sin(x.ry), x.Offset(), a);
    StagesAreRotations(trig.cos(x.rx), trig.sin(x.rx), x.Offset(), b);
    StagesAreRotations(1.0, 0.0, x.Offset(), c);
    TransformOnePoint3D(x.MatrixD(), c)
  }

  /** `TransformAllPointsAllParameters`: each stage over the whole point set;
      row i is the single-point pose transform of point i.  An empty point
      set makes the first stage raise. */
  method TransformAllPointsAllParameters(trig: Trig, x: Pose, points: seq<Vec3>) returns (r: Result<seq<Vec3>>)
    ensures r.Failure? <==> |points| == 0
    ensures r.Failure? ==> r.error == EmptyPointSet
    ensures r.Success? ==> |r.value| == |points|
    ensures r.Success? ==>
      forall i :: 0 <= i < |points| ==> r.value[i] == TransformOnePointAllParameters(trig, x, points[i])
  {
    var a := TransformAllPoints3D(x.MatrixZ(trig), points);
    if a.Failure? {
      return a;
    }
    var b := TransformAllPoints3D(x.MatrixY(trig), a.value);
    var c := TransformAllPoints3D(x.MatrixX(trig), b.value);
    r := TransformAllPoints3D(x.MatrixD(), c.value);
  }

  /** With exact trigonometry at zero, the all-zero pose moves nothing. */
  lemma IdentityPose(trig: Trig, p: Vec3)
    requires ExactAtZero(trig)
    ensures TransformOnePointAllParameters(trig, ZeroPose, p) == p
  {
  }

  /** A planar rotation by (c, s) with c² + s² = 1 keeps a² + b². */
  lemma PlanarRotationNorm(c: real, s: real, a: real, b: real)
    requires c * c + s * s == 1.0
    ensures (c * a - s * b) * (c * a - s * b) + (s * a + c * b) * (s * a + c * b) == a * a + b * b
    ensures (c * a + s * b) * (c * a + s * b) + (c * b - s * a) * (c * b - s * a) == a * a + b * b
  {
    assert (c * a - s * b) * (c * a - s * b) + (s * a + c * b) * (s * a + c * b) == (c * c + s * s) * (a * a + b * b);
    assert (c * a + s * b) * (c * a + s * b) + (c * b - s * a) * (c * b - s * a) == (c * c + s * s) * (a * a + b * b);
  }

  /** Each rotation preserves the squared norm when (c, s) lies on the unit
      circle; so does each matrix stage, which acts as that rotation. */
  lemma RotationStagesPreserveNorm(c: real, s: real, p: Vec3)
    requires c * c + s * s == 1.0
    ensures NormSq(RotateAboutZ(c, s, p)) == NormSq(p)
    ensures NormSq(RotateAboutY(c, s, p)) == NormSq(p)
    ensures NormSq(RotateAboutX(c, s, p)) == NormSq(p)
    ensures NormSq(TransformOnePoint3D(RotationZ(c, s), p)) == NormSq(p)
    ensures NormSq(TransformOnePoint3D(RotationY(c, s), p)) == NormSq(p)
    ensures NormSq(TransformOnePoint3D(RotationX(c, s), p)) == NormSq(p)
  {
    StagesAreRotations(c, s, Vec3(0.0, 0.0, 0.0), p);
    PlanarRotationNorm(c, s, p.x, p.y);
    PlanarRotationNorm(c, s, p.x, p.z);
    PlanarRotationNorm(c, s, p.y, p.z);
  }

  /** One rotation keeps the distance between two points. */
  lemma RotationKeepsDistance(c: real, s: real, a: Vec3, b: Vec3)
    requires c * c + s * s == 1.0
    ensures NormSq(Sub(RotateAboutZ(c, s, a), RotateAboutZ(c, s, b))) == NormSq(Sub(a, b))
    ensures NormSq(Sub(RotateAboutY(c, s, a), RotateAboutY(c, s, b))) == NormSq(Sub(a, b))
    ensures NormSq(Sub(RotateAboutX(c, s, a), RotateAboutX(c, s, b))) == NormSq(Sub(a, b))
  {
    RotationsOfDifference(c, s, a, b);
    RotationStagesPreserveNorm(c, s, Sub(a, b));
  }

  /** Rotations are linear: they commute with taking differences. */
  lemma RotationsOfDifference(c: real, s: real, p: Vec3, q: Vec3)
    ensures Sub(RotateAboutZ(c, s, p), RotateAboutZ(c, s, q)) == RotateAboutZ(c, s, Sub(p, q))
    ensures Sub(RotateAboutY(c, s, p), RotateAboutY(c, s, q)) == RotateAboutY(c, s, Sub(p, q))
    ensures Sub(RotateAboutX(c, s, p), RotateAboutX(c, s, q)) == RotateAboutX(c, s, Sub(p, q))
  {
    var d := Sub(p, q);
    ZRotationOfDifference(c, s, p, q, d);
    YRotationOfDifference(c, s, p, q, d);
    XRotationOfDifference(c, s, p, q, d);
  }

  lemma ZRotationOfDifference(c: real, s: real, p: Vec3, q: Vec3, d: Vec3)
    requires d == Sub(p, q)
    ensures Sub(RotateAboutZ(c, s, p), RotateAboutZ(c, s, q)) == RotateAboutZ(c, s, d)
  {
    LinearCombination(c, s, p.x, p.y, q.x, q.y, d.x, d.y);
  }

  lemma YRotationOfDifference(c: real, s: real, p: Vec3, q: Vec3, d: Vec3)
    requires d == Sub(p, q)
    ensures Sub(RotateAboutY(c, s, p), RotateAboutY(c, s, q)) == RotateAboutY(c, s, d)
  {
    LinearCombination(c, s, p.x, p.z, q.x, q.z, d.x, d.z);
    LinearCombination(c, s, p.z, p.x, q.z, q.x, d.z, d.x);
  }

  lemma XRotationOfDifference(c: real, s: real, p: Vec3, q: Vec3, d: Vec3)
    requires d == Sub(p, q)
    ensures Sub(RotateAboutX(c, s, p), RotateAboutX(c, s, q)) == RotateAboutX(c, s, d)
  {
    LinearCombination(c, s, p.y, p.z, q.y, q.z, d.y, d.z);
  }

  lemma LinearCombination(c: real, s: real, a: real, b: real, a2: real, b2: real, da: real, db: real)
    requires da == a - a2 && db == b - b2
    ensures (c * a - s * b) - (c * a2 - s * b2) == c * da - s * db
    ensures (s * a + c * b) - (s * a2 + c * b2) == s * da + c * db
    ensures (c * a + s * b) - (c * a2 + s * b2) == c * da + s * db
  {
  }

  /** For angles on the unit circle the pose is a rigid motion: it preserves
      the distance between any two points. */
  lemma PoseIsRigid(trig: Trig, x: Pose, p: Vec3, q: Vec3)
    requires OnUnitCircle(trig, x.rz) && OnUnitCircle(trig, x.ry) && OnUnitCircle(trig, x.rx)
    ensures NormSq(Sub(TransformOnePointAllParameters(trig, x, p), TransformOnePointAllParameters(trig, x, q)))
         == NormSq(Sub(p, q))
  {
    var cz, sz := trig.cos(x.rz), trig.sin(x.rz);
    var cy, sy := trig.cos(x.ry), trig.sin(x.ry);
    var cx, sx := trig.cos(x.rx), trig.sin(x.rx);
    var pz, qz := RotateAboutZ(cz, sz, p), RotateAboutZ(cz, sz, q);
    var py, qy := RotateAboutY(cy, sy, pz), RotateAboutY(cy, sy, qz);
    var px, qx := RotateAboutX(cx, sx, py), RotateAboutX(cx, sx, qy);
    RotationKeepsDistance(cz, sz, p, q);
    RotationKeepsDistance(cy, sy, pz, qz);
    RotationKeepsDistance(cx, sx, py, qy);
    TranslationKeepsDifference(px, qx, x.Offset());
  }

  lemma TranslationKeepsDifference(a: Vec3, b: Vec3, t: Vec3)
    ensures Sub(Add(a, t), Add(b, t)) == Sub(a, b)
  {
  }
}
