/** The perspective projector: where the line through a target point and the
    emitter meets the detector plane, in the plane's own coordinates, and the
    analytic Jacobian of a versor rotation.

    The projector solves  u·p01 + v·p02 + t·Iab = target − p0  by Cramer's rule,
    where p0 is the plane centre, p01 and p02 the in-plane axes and
    Iab = target − emitter.  The source stores u and v in an integer array, so
    both are truncated toward zero; t is kept as it is.  The point it returns
    as the intersection is  target + t·Iab, whereas the solution of the system
    puts the plane point at  target − t·Iab: the returned point is the
    reflection of the plane point through the target. */
module PerspectiveTransform {
  import opened Vectors
  import opened Numbers
  import opened Results

  /** The projector object: emitter and detector plane.  `planeNormal` is stored
      but never read; `centerOfRotation` is read only by the Jacobian. */
  datatype Projector = Projector(
    centerOfRotation: Vec3,
    emitterPosition: Vec3,
    planeCenter: Vec3,
    planeNormal: Vec3,
    xDirection: Vec3,
    yDirection: Vec3)
  {
    /** p01, the first in-plane axis. */
    function AxisU(): Vec3 {
      Sub(xDirection, planeCenter)
    }

    /** p02, the second in-plane axis. */
    function AxisV(): Vec3 {
      Sub(yDirection, planeCenter)
    }

    /** p01 × p02, perpendicular to the plane the axes span. */
    function Normal(): Vec3 {
      Cross(AxisU(), AxisV())
    }

    /** The point with plane coordinates (u, v). */
    function PlanePoint(u: real, v: real): Vec3 {
      Add(Add(planeCenter, Scale(u, AxisU())), Scale(v, AxisV()))
    }

    /** X lies on the plane through the centre spanned by the two axes. */
    predicate OnPlane(point: Vec3) {
      Dot(Normal(), Sub(point, planeCenter)) == 0.0
    }
  }

  /** Iab in the source, written there as −(emitter − target): the direction
      from the emitter to the target. */
  function Ray(p: Projector, target: Vec3): Vec3 {
    Sub(target, p.emitterPosition)
  }

  /** Iab · (p01 × p02); zero exactly when the system has no unique solution. */
  function Denominator(p: Projector, target: Vec3): real {
    Dot(Ray(p, target), p.Normal())
  }

  /** The real solution (u, v, t) of the line–plane system. */
  datatype Solution = Solution(u: real, v: real, t: real)

  /** Cramer's rule; the result solves the system: the plane point (u, v) is the
      point target − t·Iab of the line through target and emitter. */
  function Solve(p: Projector, target: Vec3): (s: Solution)
    requires Denominator(p, target) != 0.0
    ensures p.PlanePoint(s.u, s.v) == Sub(target, Scale(s.t, Ray(p, target)))
  {
    var d, rel, inv := Ray(p, target), Sub(target, p.planeCenter), 1.0 / Denominator(p, target);
    var s := Solution(
      inv * Dot(Cross(p.AxisV(), d), rel),
      inv * Dot(Cross(d, p.AxisU()), rel),
      inv * Dot(Cross(p.AxisU(), p.AxisV()), rel));
    SolveSatisfiesSystem(p, target);
    s
  }

  lemma SolveSatisfiesSystem(p: Projector, target: Vec3)
    requires Denominator(p, target) != 0.0
    ensures var d, rel, inv := Ray(p, target), Sub(target, p.planeCenter), 1.0 / Denominator(p, target);
      var u, v, t := inv * Dot(Cross(p.AxisV(), d), rel), inv * Dot(Cross(d, p.AxisU()), rel),
                     inv * Dot(Cross(p.AxisU(), p.AxisV()), rel);
      p.PlanePoint(u, v) == Sub(target, Scale(t, d))
  {
    var d, rel, denom := Ray(p, target), Sub(target, p.planeCenter), Denominator(p, target);
    var a, b := p.AxisU(), p.AxisV();
    var q := 1.0 / denom;
    var tn, un, vn := Dot(Cross(a, b), rel), Dot(Cross(b, d), rel), Dot(Cross(d, a), rel);
    DenominatorIsDet(p, target);
    CramerSolution(d, a, b, p.planeCenter, target, denom, q, tn, un, vn);
    assert p.PlanePoint(q * un, q * vn) == Sub(target, Scale(q * tn, d));
  }

  lemma DenominatorIsDet(p: Projector, target: Vec3)
    ensures Denominator(p, target) == Det(Ray(p, target), p.AxisU(), p.AxisV())
  {
  }

  /** Cramer's rule for  u·a + v·b + t·d = target − p0  with det(d, a, b) ≠ 0:
      tn, un, vn are the triple products and q the reciprocal of the
      determinant. */
  lemma CramerSolution(d: Vec3, a: Vec3, b: Vec3, p0: Vec3, target: Vec3, den: real, q: real,
                       tn: real, un: real, vn: real)
    requires den == Det(d, a, b) && den != 0.0 && q == 1.0 / den
    requires var rel := Sub(target, p0);
      tn == Dot(Cross(a, b), rel) && un == Dot(Cross(b, d), rel) && vn == Dot(Cross(d, a), rel)
    ensures Add(Add(p0, Scale(q * un, a)), Scale(q * vn, b)) == Sub(target, Scale(q * tn, d))
  {
    var rel := Sub(target, p0);
    CramerIdentity(d, a, b, rel);
    Reciprocal(den);
    DivideCramer(Det(d, a, b), den, q, tn, un, vn, d, a, b, rel, p0, target);
  }

  lemma Reciprocal(x: real)
    requires x != 0.0
    ensures (1.0 / x) * x == 1.0
  {
  }

  /** Cramer's identity multiplied through by the reciprocal q of the
      determinant, rearranged into the plane-point form. */
  lemma DivideCramer(den: real, den2: real, q: real, tn: real, un: real, vn: real, d: Vec3, a: Vec3, b: Vec3,
                     rel: Vec3, p0: Vec3, target: Vec3)
    requires q * den2 == 1.0 && den == den2
    requires Scale(den, rel) == Add(Add(Scale(tn, d), Scale(un, a)), Scale(vn, b))
    requires rel == Sub(target, p0)
    ensures Add(Add(p0, Scale(q * un, a)), Scale(q * vn, b)) == Sub(target, Scale(q * tn, d))
  {
    assert q * den == 1.0;
    ScaleInverse(den, q, rel, Add(Add(Scale(tn, d), Scale(un, a)), Scale(vn, b)));
    ScaleCombination(q, tn, d, un, a, vn, b);
    Rearrange(p0, target, rel, Scale(q * tn, d), Scale(q * un, a), Scale(q * vn, b));
  }

  lemma Rearrange(p0: Vec3, target: Vec3, rel: Vec3, t: Vec3, u: Vec3, v: Vec3)
    requires rel == Add(Add(t, u), v) && rel == Sub(target, p0)
    ensures Add(Add(p0, u), v) == Sub(target, t)
  {
  }

  /** The solution is unique: any (u, v, t) that solves the system is the one
      `Solve` returns. */
  lemma SolutionUnique(p: Projector, target: Vec3, u: real, v: real, t: real)
    requires Denominator(p, target) != 0.0
    requires p.PlanePoint(u, v) == Sub(target, Scale(t, Ray(p, target)))
    ensures Solve(p, target) == Solution(u, v, t)
  {
    var d, rel, denom := Ray(p, target), Sub(target, p.planeCenter), Denominator(p, target);
    var a, b := p.AxisU(), p.AxisV();
    SystemCoefficients(p, target, u, v, t);
    Reciprocal(denom);
    CancelReciprocal(Dot(Cross(b, d), rel), u, Det(d, a, b), denom, 1.0 / denom);
    CancelReciprocal(Dot(Cross(d, a), rel), v, Det(d, a, b), denom, 1.0 / denom);
    CancelReciprocal(Dot(Cross(a, b), rel), t, Det(d, a, b), denom, 1.0 / denom);
    SolveFields(p, target, u, v, t);
  }

  /** The triple products of a solution recover its coordinates times the
      determinant. */
  lemma SystemCoefficients(p: Projector, target: Vec3, u: real, v: real, t: real)
    requires p.PlanePoint(u, v) == Sub(target, Scale(t, Ray(p, target)))
    ensures var d, rel, a, b := Ray(p, target), Sub(target, p.planeCenter), p.AxisU(), p.AxisV();
      && Dot(Cross(b, d), rel) == u * Det(d, a, b)
      && Dot(Cross(d, a), rel) == v * Det(d, a, b)
      && Dot(Cross(a, b), rel) == t * Det(d, a, b)
      && Det(d, a, b) == Denominator(p, target)
  {
    var d, rel := Ray(p, target), Sub(target, p.planeCenter);
    var a, b := p.AxisU(), p.AxisV();
    Rearrange(p.planeCenter, target, Add(Add(Scale(t, d), Scale(u, a)), Scale(v, b)), Scale(t, d), Scale(u, a), Scale(v, b));
    assert rel == Add(Add(Scale(t, d), Scale(u, a)), Scale(v, b));
    CramerCoefficients(d, a, b, t, u, v);
  }

  /** `Solve` is fixed by its three coordinates. */
  lemma SolveFields(p: Projector, target: Vec3, u: real, v: real, t: real)
    requires Denominator(p, target) != 0.0
    requires var d, rel, a, b := Ray(p, target), Sub(target, p.planeCenter), p.AxisU(), p.AxisV();
      var inv := 1.0 / Denominator(p, target);
      && inv * Dot(Cross(b, d), rel) == u
      && inv * Dot(Cross(d, a), rel) == v
      && inv * Dot(Cross(a, b), rel) == t
    ensures Solve(p, target) == Solution(u, v, t)
  {
  }

  lemma CancelReciprocal(n: real, k: real, det: real, den: real, q: real)
    requires q * den == 1.0
    requires n == k * det && det == den
    ensures q * n == k
  {
    assert q * n == (q * den) * k;
  }

  /** What the projector returns for one point: the truncated plane
      coordinates, the point it calls the intersection, and the line parameter. */
  datatype PointProjection = PointProjection(u: int, v: int, intersection: Vec3, t: real)

  /** `TransformPoint`: fails exactly when the denominator is zero (the source
      then stores NaN or infinity into an integer array, which raises).
      Otherwise u and v are the solution truncated toward zero, t is the
      solution's t, and the returned point mirrors the plane point through the
      target. */
  function TransformPoint(p: Projector, target: Vec3): (r: Result<PointProjection>)
    ensures r.Failure? <==> Denominator(p, target) == 0.0
    ensures r.Failure? ==> r.error == DegenerateGeometry
    ensures r.Success? ==>
      var s := Solve(p, target);
      && r.value.u == Trunc(s.u)
      && r.value.v == Trunc(s.v)
      && r.value.t == s.t
      && Add(r.value.intersection, p.PlanePoint(s.u, s.v)) == Scale(2.0, target)
  {
    if Denominator(p, target) == 0.0 then
      Failure(DegenerateGeometry)
    else
      var s := Solve(p, target);
      var intersection := Add(target, Scale(s.t, Ray(p, target)));
      assert Add(intersection, p.PlanePoint(s.u, s.v)) == Scale(2.0, target);
      Success(PointProjection(Trunc(s.u), Trunc(s.v), intersection, s.t))
  }

  /** The returned intersection lies on the plane only when the target itself
      does: off the plane, it is on the far side of the target. */
  lemma IntersectionOnPlaneIffTargetOnPlane(p: Projector, target: Vec3)
    requires Denominator(p, target) != 0.0
    ensures p.OnPlane(TransformPoint(p, target).value.intersection) <==> p.OnPlane(target)
  {
    var d, rel, denom, n := Ray(p, target), Sub(target, p.planeCenter), Denominator(p, target), p.Normal();
    var t := Solve(p, target).t;
    var x := TransformPoint(p, target).value.intersection;
    assert Sub(x, p.planeCenter) == Add(rel, Scale(t, d));
    DotLinear(n, rel, Scale(t, d), t);
    DotLinear(n, d, d, t);
    DotComm(d, n);
    assert t == (1.0 / denom) * Dot(n, rel);
    Reciprocal(denom);
    assert t * denom == Dot(n, rel);
    assert Dot(n, Sub(x, p.planeCenter)) == 2.0 * Dot(n, rel);
  }

  /** A target already on the plane projects onto itself: t = 0, the plane
      coordinates are its own (truncated), and the returned point is the target. */
  lemma TargetOnPlane(p: Projector, a: real, b: real)
    requires Denominator(p, p.PlanePoint(a, b)) != 0.0
    ensures TransformPoint(p, p.PlanePoint(a, b)) == Success(PointProjection(Trunc(a), Trunc(b), p.PlanePoint(a, b), 0.0))
  {
    var target := p.PlanePoint(a, b);
    var d := Ray(p, target);
    assert Sub(target, Scale(0.0, d)) == target;
    SolutionUnique(p, target, a, b, 0.0);
    assert Add(target, Scale(0.0, d)) == target;
  }

  /** Every target on one line through the emitter (other than the emitter)
      gets the same untruncated plane coordinates, hence the same u and v. */
  lemma RayInvariance(p: Projector, target: Vec3, k: real)
    requires k != 0.0
    requires Denominator(p, target) != 0.0
    ensures var other := Add(p.emitterPosition, Scale(k, Ray(p, target)));
      && Denominator(p, other) != 0.0
      && Solve(p, other).u == Solve(p, target).u
      && Solve(p, other).v == Solve(p, target).v
      && TransformPoint(p, other).value.u == TransformPoint(p, target).value.u
      && TransformPoint(p, other).value.v == TransformPoint(p, target).value.v
  {
    RaySolution(p, target, k);
  }

  lemma RaySolution(p: Projector, target: Vec3, k: real)
    requires k != 0.0
    requires Denominator(p, target) != 0.0
    ensures var other := Add(p.emitterPosition, Scale(k, Ray(p, target)));
      && Denominator(p, other) != 0.0
      && Solve(p, other).u == Solve(p, target).u
      && Solve(p, other).v == Solve(p, target).v
  {
    var other := Add(p.emitterPosition, Scale(k, Ray(p, target)));
    var s := Solve(p, target);
    var t2 := 1.0 - (1.0 - s.t) / k;
    RayGeometry(p, target, k);
    NonzeroProduct(k, Denominator(p, target));
    RayPoint(p, target, k, s.t, t2);
    SolutionUnique(p, other, s.u, s.v, t2);
  }

  /** Moving the target along the ray scales the ray and the denominator by k. */
  lemma RayGeometry(p: Projector, target: Vec3, k: real)
    ensures var other := Add(p.emitterPosition, Scale(k, Ray(p, target)));
      && Ray(p, other) == Scale(k, Ray(p, target))
      && Denominator(p, other) == k * Denominator(p, target)
  {
    var other := Add(p.emitterPosition, Scale(k, Ray(p, target)));
    assert Ray(p, other) == Scale(k, Ray(p, target));
    DotScaleLeft(k, Ray(p, target), p.Normal());
  }

  /** The point at parameter t on the line through the target is the point at
      parameter 1 − (1 − t)/k on the line through the moved target. */
  lemma RayPoint(p: Projector, target: Vec3, k: real, t: real, t2: real)
    requires k != 0.0 && t2 == 1.0 - (1.0 - t) / k
    ensures var other := Add(p.emitterPosition, Scale(k, Ray(p, target)));
      Sub(other, Scale(t2, Ray(p, other))) == Sub(target, Scale(t, Ray(p, target)))
  {
    var other := Add(p.emitterPosition, Scale(k, Ray(p, target)));
    var e, d, d2 := p.emitterPosition, Ray(p, target), Ray(p, other);
    var lhs, rhs := Sub(other, Scale(t2, d2)), Sub(target, Scale(t, d));
    RayPointScalar(e.x, target.x, d.x, k, t, t2, other.x, d2.x, lhs.x, rhs.x);
    RayPointScalar(e.y, target.y, d.y, k, t, t2, other.y, d2.y, lhs.y, rhs.y);
    RayPointScalar(e.z, target.z, d.z, k, t, t2, other.z, d2.z, lhs.z, rhs.z);
  }

  lemma RayPointScalar(e: real, tg: real, d: real, k: real, t: real, t2: real, o: real, d2: real,
                       lhs: real, rhs: real)
    requires k != 0.0 && t2 == 1.0 - (1.0 - t) / k
    requires d == -(e - tg) && o == e + k * d && d2 == -(e - o)
    requires lhs == o - t2 * d2 && rhs == tg - t * d
    ensures lhs == rhs
  {
    assert d2 == k * d;
    assert t2 * d2 == k * d - ((1.0 - t) / k) * k * d;
    assert ((1.0 - t) / k) * k == 1.0 - t;
  }

  lemma NonzeroProduct(k: real, x: real)
    requires k != 0.0 && x != 0.0
    ensures k * x != 0.0
  {
  }

  /** A target at the emitter gives a zero ray, so projection fails. */
  lemma TargetAtEmitterFails(p: Projector)
    ensures TransformPoint(p, p.emitterPosition) == Failure(DegenerateGeometry)
  {
    assert Ray(p, p.emitterPosition) == Vec3(0.0, 0.0, 0.0);
  }

  /** Parallel plane axes make every projection fail. */
  lemma ParallelAxesFail(p: Projector, target: Vec3, k: real)
    requires p.AxisV() == Scale(k, p.AxisU())
    ensures TransformPoint(p, target) == Failure(DegenerateGeometry)
  {
    CrossParallel(k, p.AxisU());
    assert p.Normal() == Vec3(0.0, 0.0, 0.0);
  }

  // ----- Jacobian -----

  /** Versor components (vx, vy, vz, vw). */
  datatype Versor = Versor(x: real, y: real, z: real, w: real)

  /** The versor the source builds from three angles.  As in the source, the
      sines written `sx` and `sy` are both the sine of z/2, so the sines of x/2
      and y/2 are never used. */
  function AnglesToVersor(trig: Trig, angles: Vec3): Versor {
    var cz, sz := trig.cos(angles.z * 0.5), trig.sin(angles.z * 0.5);
    var cy, sy := trig.cos(angles.y * 0.5), trig.sin(angles.z * 0.5);
    var cx, sx := trig.cos(angles.x * 0.5), trig.sin(angles.z * 0.5);
    Versor(
      sx * cy * cz + cx * sy * sz,
      cx * sy * cz + sx * cy * sz,
      cx * cy * sz + sx * sy * cz,
      cx * cy * cz + sx * sy * sz)
  }

  /** A cell of the 3×6 array: written by the source, or left as whatever
      `numpy.empty` happened to hold. */
  datatype Entry = Written(value: real) | Unset

  /** Columns 0–2: derivatives with respect to the rotation, for the point
      q = point − centre of rotation.  Every entry divides by vw. */
  function RotationColumns(v: Versor, q: Vec3): (m: seq<seq<real>>)
    requires v.w != 0.0
    ensures |m| == 3 && forall i :: 0 <= i < 3 ==> |m[i]| == 3
  {
    var vxx, vyy, vzz, vww := v.x * v.x, v.y * v.y, v.z * v.z, v.w * v.w;
    var vxy, vxz, vxw := v.x * v.y, v.x * v.z, v.x * v.w;
    var vyz, vyw := v.y * v.z, v.y * v.w;
    var vzw := v.z * v.w;
    [ [ 2.0 * ((vyw + vxz) * q.y + (vzw - vxy) * q.z) / v.w,
        2.0 * (-2.0 * vyw * q.x + (vxw + vyz) * q.y + (vww - vyy) * q.z) / v.w,
        2.0 * (-2.0 * vzw * q.x + (vzz - vww) * q.y + (vxw - vyz) * q.z) / v.w ],
      [ 2.0 * ((vyw - vxz) * q.x - 2.0 * vxw * q.y + (vxx - vww) * q.z) / v.w,
        2.0 * ((vxw - vyz) * q.x + (vzw + vxy) * q.z) / v.w,
        2.0 * ((vww - vzz) * q.x - 2.0 * vzw * q.y + (vyw + vxz) * q.z) / v.w ],
      [ 2.0 * ((vzw + vxy) * q.x + (vww - vxx) * q.y - 2.0 * vxw * q.z) / v.w,
        2.0 * ((vyy - vww) * q.x + (vzw - vxy) * q.y - 2.0 * vyw * q.z) / v.w,
        2.0 * ((vxw + vyz) * q.x + (vyw - vxz) * q.y) / v.w ] ]
  }

  /** The 3×6 array the source returns: rotation derivatives in columns 0–2,
      a one at (i, 3 + i), every other cell of columns 3–5 never written. */
  predicate JacobianLayout(rot: seq<seq<real>>, jac: seq<seq<Entry>>)
    requires |rot| == 3 && forall i :: 0 <= i < 3 ==> |rot[i]| == 3
  {
    && |jac| == 3
    && (forall i :: 0 <= i < 3 ==> |jac[i]| == 6)
    && (forall i, j :: 0 <= i < 3 && 0 <= j < 3 ==> jac[i][j] == Written(rot[i][j]))
    && (forall i, j :: 0 <= i < 3 && 3 <= j < 6 ==> jac[i][j] == if j == 3 + i then Written(1.0) else Unset)
  }

  /** `ComputeJacobianWithRespectToParameters`: fails exactly when vw is zero
      (the centre of rotation is a numpy array, so the division by vw gives
      an infinity or NaN rather than raising); otherwise lays out the
      rotation derivatives and the translation ones. */
  function ComputeJacobianWithRespectToParameters(p: Projector, trig: Trig, angles: Vec3, point: Vec3)
    : (r: Result<seq<seq<Entry>>>)
    ensures r.Failure? <==> AnglesToVersor(trig, angles).w == 0.0
    ensures r.Failure? ==> r.error == DegenerateOrientation
    ensures r.Success? ==>
      JacobianLayout(RotationColumns(AnglesToVersor(trig, angles), Sub(point, p.centerOfRotation)), r.value)
  {
    var v := AnglesToVersor(trig, angles);
    if v.w == 0.0 then
      Failure(DegenerateOrientation)
    else
      var m := RotationColumns(v, Sub(point, p.centerOfRotation));
      Success([
        [Written(m[0][0]), Written(m[0][1]), Written(m[0][2]), Written(1.0), Unset, Unset],
        [Written(m[1][0]), Written(m[1][1]), Written(m[1][2]), Unset, Written(1.0), Unset],
        [Written(m[2][0]), Written(m[2][1]), Written(m[2][2]), Unset, Unset, Written(1.0)]])
  }

  /** The matrix M with M·ω = ω × q. */
  function CrossMatrix(q: Vec3): seq<seq<real>> {
    [ [0.0, q.z, -q.y],
      [-q.z, 0.0, q.x],
      [q.y, -q.x, 0.0] ]
  }

  /** The rotation columns of a versor with zero vector part are 2·vw times
      the cross-product matrix of q. */
  lemma PureScalarColumns(v: Versor, q: Vec3)
    requires v.w != 0.0 && v.x == 0.0 && v.y == 0.0 && v.z == 0.0
    ensures var m, c := RotationColumns(v, q), CrossMatrix(q);
      forall i, j :: 0 <= i < 3 && 0 <= j < 3 ==> m[i][j] == 2.0 * v.w * c[i][j]
  {
    PureScalarRow0(v, q);
    PureScalarRow1(v, q);
    PureScalarRow2(v, q);
  }

  lemma PureScalarRow0(v: Versor, q: Vec3)
    requires v.w != 0.0 && v.x == 0.0 && v.y == 0.0 && v.z == 0.0
    ensures var m, c := RotationColumns(v, q), CrossMatrix(q);
      && m[0][0] == 2.0 * v.w * c[0][0]
      && m[0][1] == 2.0 * v.w * c[0][1]
      && m[0][2] == 2.0 * v.w * c[0][2]
  {
    var m := RotationColumns(v, q);
    PureScalarEntries0(v.x, v.y, v.z, v.w, q.x, q.y, q.z, m[0][0], m[0][1], m[0][2]);
  }

  lemma PureScalarRow1(v: Versor, q: Vec3)
    requires v.w != 0.0 && v.x == 0.0 && v.y == 0.0 && v.z == 0.0
    ensures var m, c := RotationColumns(v, q), CrossMatrix(q);
      && m[1][0] == 2.0 * v.w * c[1][0]
      && m[1][1] == 2.0 * v.w * c[1][1]
      && m[1][2] == 2.0 * v.w * c[1][2]
  {
    var m := RotationColumns(v, q);
    PureScalarEntries1(v.x, v.y, v.z, v.w, q.x, q.y, q.z, m[1][0], m[1][1], m[1][2]);
  }

  lemma PureScalarRow2(v: Versor, q: Vec3)
    requires v.w != 0.0 && v.x == 0.0 && v.y == 0.0 && v.z == 0.0
    ensures var m, c := RotationColumns(v, q), CrossMatrix(q);
      && m[2][0] == 2.0 * v.w * c[2][0]
      && m[2][1] == 2.0 * v.w * c[2][1]
      && m[2][2] == 2.0 * v.w * c[2][2]
  {
    var m := RotationColumns(v, q);
    PureScalarEntries2(v.x, v.y, v.z, v.w, q.x, q.y, q.z, m[2][0], m[2][1], m[2][2]);
  }

  lemma PureScalarEntries0(vx: real, vy: real, vz: real, vw: real, qx: real, qy: real, qz: real,
                       e0: real, e1: real, e2: real)
    requires vw != 0.0 && vx == 0.0 && vy == 0.0 && vz == 0.0
    requires e0 == 2.0 * ((vy * vw + vx * vz) * qy + (vz * vw - vx * vy) * qz) / vw
    requires e1 == 2.0 * (-2.0 * (vy * vw) * qx + (vx * vw + vy * vz) * qy + (vw * vw - vy * vy) * qz) / vw
    requires e2 == 2.0 * (-2.0 * (vz * vw) * qx + (vz * vz - vw * vw) * qy + (vx * vw - vy * vz) * qz) / vw
    ensures e0 == 2.0 * vw * 0.0 && e1 == 2.0 * vw * qz && e2 == 2.0 * vw * -qy
  {
    SquareOverSelf(vw, qz);
    SquareOverSelf(vw, -qy);
  }

  lemma PureScalarEntries1(vx: real, vy: real, vz: real, vw: real, qx: real, qy: real, qz: real,
                       e0: real, e1: real, e2: real)
    requires vw != 0.0 && vx == 0.0 && vy == 0.0 && vz == 0.0
    requires e0 == 2.0 * ((vy * vw - vx * vz) * qx - 2.0 * (vx * vw) * qy + (vx * vx - vw * vw) * qz) / vw
    requires e1 == 2.0 * ((vx * vw - vy * vz) * qx + (vz * vw + vx * vy) * qz) / vw
    requires e2 == 2.0 * ((vw * vw - vz * vz) * qx - 2.0 * (vz * vw) * qy + (vy * vw + vx * vz) * qz) / vw
    ensures e0 == 2.0 * vw * -qz && e1 == 2.0 * vw * 0.0 && e2 == 2.0 * vw * qx
  {
    SquareOverSelf(vw, -qz);
    SquareOverSelf(vw, qx);
  }

  lemma PureScalarEntries2(vx: real, vy: real, vz: real, vw: real, qx: real, qy: real, qz: real,
                       e0: real, e1: real, e2: real)
    requires vw != 0.0 && vx == 0.0 && vy == 0.0 && vz == 0.0
    requires e0 == 2.0 * ((vz * vw + vx * vy) * qx + (vw * vw - vx * vx) * qy - 2.0 * (vx * vw) * qz) / vw
    requires e1 == 2.0 * ((vy * vy - vw * vw) * qx + (vz * vw - vx * vy) * qy - 2.0 * (vy * vw) * qz) / vw
    requires e2 == 2.0 * ((vx * vw + vy * vz) * qx + (vy * vw - vx * vz) * qy) / vw
    ensures e0 == 2.0 * vw * qy && e1 == 2.0 * vw * -qx && e2 == 2.0 * vw * 0.0
  {
    SquareOverSelf(vw, qy);
    SquareOverSelf(vw, -qx);
  }

  lemma SquareOverSelf(w: real, c: real)
    requires w != 0.0
    ensures 2.0 * ((w * w) * c) / w == 2.0 * w * c
  {
  }

  /** With z = 0 every "sine" the source uses vanishes, so the versor has only
      its scalar part cos(x/2)·cos(y/2), and the rotation columns are 2·vw times
      the cross-product matrix of q = point − centre of rotation. */
  lemma JacobianWithoutZRotation(p: Projector, trig: Trig, angles: Vec3, point: Vec3)
    requires ExactAtZero(trig)
    requires angles.z == 0.0
    requires trig.cos(angles.x * 0.5) * trig.cos(angles.y * 0.5) != 0.0
    ensures var w := trig.cos(angles.x * 0.5) * trig.cos(angles.y * 0.5);
      var r, c := ComputeJacobianWithRespectToParameters(p, trig, angles, point), CrossMatrix(Sub(point, p.centerOfRotation));
      && AnglesToVersor(trig, angles) == Versor(0.0, 0.0, 0.0, w)
      && r.Success?
      && forall i, j :: 0 <= i < 3 && 0 <= j < 3 ==> r.value[i][j] == Written(2.0 * w * c[i][j])
  {
    assert angles.z * 0.5 == 0.0;
    var v := AnglesToVersor(trig, angles);
    assert v.x == 0.0 && v.y == 0.0 && v.z == 0.0;
    PureScalarColumns(v, Sub(point, p.centerOfRotation));
  }

  /** At zero angles the versor is the identity (vw = 1) and the rotation
      columns are twice the cross-product matrix of q. */
  lemma JacobianAtZeroAngles(p: Projector, trig: Trig, angles: Vec3, point: Vec3)
    requires ExactAtZero(trig)
    requires angles.x == 0.0 && angles.y == 0.0 && angles.z == 0.0
    ensures AnglesToVersor(trig, angles) == Versor(0.0, 0.0, 0.0, 1.0)
    ensures var r, c := ComputeJacobianWithRespectToParameters(p, trig, angles, point), CrossMatrix(Sub(point, p.centerOfRotation));
      && r.Success?
      && forall i, j :: 0 <= i < 3 && 0 <= j < 3 ==> r.value[i][j] == Written(2.0 * c[i][j])
  {
    assert angles.x * 0.5 == 0.0 && angles.y * 0.5 == 0.0;
    JacobianWithoutZRotation(p, trig, angles, point);
  }

  /** Only the cosines of x/2, y/2, z/2 and the sine of z/2 reach the result:
      two trig tables that agree there give the same Jacobian. */
  lemma JacobianIgnoresSinesOfXY(p: Projector, t1: Trig, t2: Trig, angles: Vec3, point: Vec3)
    requires t1.cos(angles.x * 0.5) == t2.cos(angles.x * 0.5)
    requires t1.cos(angles.y * 0.5) == t2.cos(angles.y * 0.5)
    requires t1.cos(angles.z * 0.5) == t2.cos(angles.z * 0.5)
    requires t1.sin(angles.z * 0.5) == t2.sin(angles.z * 0.5)
    ensures ComputeJacobianWithRespectToParameters(p, t1, angles, point)
         == ComputeJacobianWithRespectToParameters(p, t2, angles, point)
  {
    assert AnglesToVersor(t1, angles) == AnglesToVersor(t2, angles);
  }
}
