/** Real 3-vectors with the dot and cross products the projector is built
    from, and the triple-product identities behind Cramer's rule. */
module Vectors {

  datatype Vec3 = Vec3(x: real, y: real, z: real)

  function Add(a: Vec3, b: Vec3): Vec3 {
    Vec3(a.x + b.x, a.y + b.y, a.z + b.z)
  }

  function Sub(a: Vec3, b: Vec3): Vec3 {
    Vec3(a.x - b.x, a.y - b.y, a.z - b.z)
  }

  function Scale(k: real, a: Vec3): Vec3 {
    Vec3(k * a.x, k * a.y, k * a.z)
  }

  function Dot(a: Vec3, b: Vec3): real {
    a.x * b.x + a.y * b.y + a.z * b.z
  }

  /** Right-handed cross product, as `numpy.cross` computes it. */
  function Cross(a: Vec3, b: Vec3): Vec3 {
    Vec3(a.y * b.z - a.z * b.y, a.z * b.x - a.x * b.z, a.x * b.y - a.y * b.x)
  }

  function NormSq(a: Vec3): real {
    Dot(a, a)
  }

  /** Determinant of the matrix with columns a, b, c. */
  function Det(a: Vec3, b: Vec3, c: Vec3): real {
    Dot(a, Cross(b, c))
  }

  /** Coordinate form of the determinant. */
  lemma DetExpand(a: Vec3, b: Vec3, c: Vec3)
    ensures Det(a, b, c) == a.x * (b.y * c.z - b.z * c.y) + a.y * (b.z * c.x - b.x * c.z) + a.z * (b.x * c.y - b.y * c.x)
  {
  }

  /** Coordinate form of a triple product (b × c) · r. */
  lemma CrossDotExpand(b: Vec3, c: Vec3, r: Vec3)
    ensures Dot(Cross(b, c), r) == (b.y * c.z - b.z * c.y) * r.x + (b.z * c.x - b.x * c.z) * r.y + (b.x * c.y - b.y * c.x) * r.z
  {
  }

  /** A vector is orthogonal to its cross product with any other. */
  lemma CrossOrthogonal(a: Vec3, b: Vec3)
    ensures Dot(Cross(a, b), a) == 0.0
    ensures Dot(Cross(a, b), b) == 0.0
  {
    CrossDotExpand(a, b, a);
    CrossDotExpand(a, b, b);
    OrthogonalScalar(a.x, a.y, a.z, b.x, b.y, b.z, Dot(Cross(a, b), a), Dot(Cross(a, b), b));
  }

  lemma OrthogonalScalar(a1: real, a2: real, a3: real, b1: real, b2: real, b3: real, da: real, db: real)
    requires da == (a2 * b3 - a3 * b2) * a1 + (a3 * b1 - a1 * b3) * a2 + (a1 * b2 - a2 * b1) * a3
    requires db == (a2 * b3 - a3 * b2) * b1 + (a3 * b1 - a1 * b3) * b2 + (a1 * b2 - a2 * b1) * b3
    ensures da == 0.0 && db == 0.0
  {
  }

  /** The scalar triple product is invariant under cyclic permutation. */
  lemma TripleProductCyclic(a: Vec3, b: Vec3, c: Vec3)
    ensures Dot(Cross(b, c), a) == Det(a, b, c)
    ensures Dot(Cross(c, a), b) == Det(a, b, c)
    ensures Dot(Cross(a, b), c) == Det(a, b, c)
  {
    DetExpand(a, b, c);
    CrossDotExpand(b, c, a);
    CrossDotExpand(c, a, b);
    CrossDotExpand(a, b, c);
    TripleScalar(a.x, a.y, a.z, b.x, b.y, b.z, c.x, c.y, c.z,
                 Det(a, b, c), Dot(Cross(b, c), a), Dot(Cross(c, a), b), Dot(Cross(a, b), c));
  }

  lemma TripleScalar(a1: real, a2: real, a3: real, b1: real, b2: real, b3: real,
                     c1: real, c2: real, c3: real, det: real, da: real, db: real, dc: real)
    requires det == a1 * (b2 * c3 - b3 * c2) + a2 * (b3 * c1 - b1 * c3) + a3 * (b1 * c2 - b2 * c1)
    requires da == (b2 * c3 - b3 * c2) * a1 + (b3 * c1 - b1 * c3) * a2 + (b1 * c2 - b2 * c1) * a3
    requires db == (c2 * a3 - c3 * a2) * b1 + (c3 * a1 - c1 * a3) * b2 + (c1 * a2 - c2 * a1) * b3
    requires dc == (a2 * b3 - a3 * b2) * c1 + (a3 * b1 - a1 * b3) * c2 + (a1 * b2 - a2 * b1) * c3
    ensures da == det && db == det && dc == det
  {
  }

  /** Scaling the second factor of a cross product scales the product. */
  lemma CrossScaleRight(k: real, a: Vec3, b: Vec3)
    ensures Cross(a, Scale(k, b)) == Scale(k, Cross(a, b))
  {
    var c, l := Cross(a, b), Cross(a, Scale(k, b));
    ScaledDifference(k, a.y, b.z, a.z, b.y, l.x, c.x);
    ScaledDifference(k, a.z, b.x, a.x, b.z, l.y, c.y);
    ScaledDifference(k, a.x, b.y, a.y, b.x, l.z, c.z);
  }

  lemma ScaledDifference(k: real, p: real, q: real, r: real, s: real, lhs: real, c: real)
    requires lhs == p * (k * q) - r * (k * s)
    requires c == p * q - r * s
    ensures lhs == k * c
  {
  }

  /** Scaling the first factor of a cross product scales the product. */
  lemma CrossScaleLeft(k: real, a: Vec3, b: Vec3)
    ensures Cross(Scale(k, a), b) == Scale(k, Cross(a, b))
  {
    var c, l := Cross(a, b), Cross(Scale(k, a), b);
    ScaledDifferenceLeft(k, a.y, b.z, a.z, b.y, l.x, c.x);
    ScaledDifferenceLeft(k, a.z, b.x, a.x, b.z, l.y, c.y);
    ScaledDifferenceLeft(k, a.x, b.y, a.y, b.x, l.z, c.z);
  }

  lemma ScaledDifferenceLeft(k: real, p: real, q: real, r: real, s: real, lhs: real, c: real)
    requires lhs == (k * p) * q - (k * r) * s
    requires c == p * q - r * s
    ensures lhs == k * c
  {
  }

  /** The dot product is linear in its second argument. */
  lemma DotLinear(n: Vec3, a: Vec3, b: Vec3, k: real)
    ensures Dot(n, Add(a, b)) == Dot(n, a) + Dot(n, b)
    ensures Dot(n, Sub(a, b)) == Dot(n, a) - Dot(n, b)
    ensures Dot(n, Scale(k, a)) == k * Dot(n, a)
  {
    ScaledSum(k, n.x, a.x, n.y, a.y, n.z, a.z, Dot(n, Scale(k, a)), Dot(n, a));
  }

  lemma ScaledSum(k: real, p1: real, q1: real, p2: real, q2: real, p3: real, q3: real, lhs: real, d: real)
    requires lhs == p1 * (k * q1) + p2 * (k * q2) + p3 * (k * q3)
    requires d == p1 * q1 + p2 * q2 + p3 * q3
    ensures lhs == k * d
  {
  }

  /** The dot product is symmetric. */
  lemma DotComm(a: Vec3, b: Vec3)
    ensures Dot(a, b) == Dot(b, a)
  {
  }

  /** The dot product is linear in its first argument too. */
  lemma DotScaleLeft(k: real, a: Vec3, b: Vec3)
    ensures Dot(Scale(k, a), b) == k * Dot(a, b)
  {
    ScaledSumLeft(k, a.x, b.x, a.y, b.y, a.z, b.z, Dot(Scale(k, a), b), Dot(a, b));
  }

  lemma ScaledSumLeft(k: real, p1: real, q1: real, p2: real, q2: real, p3: real, q3: real, lhs: real, d: real)
    requires lhs == (k * p1) * q1 + (k * p2) * q2 + (k * p3) * q3
    requires d == p1 * q1 + p2 * q2 + p3 * q3
    ensures lhs == k * d
  {
  }

  /** A vector crossed with a multiple of itself is zero. */
  lemma CrossParallel(k: real, a: Vec3)
    ensures Cross(a, Scale(k, a)) == Vec3(0.0, 0.0, 0.0)
  {
    CrossScaleRight(k, a, a);
  }

  /** Cramer's rule in vector form: every r, multiplied by det(a, b, c), is the
      combination of a, b, c whose coefficients are the triple products with r. */
  lemma CramerIdentity(a: Vec3, b: Vec3, c: Vec3, r: Vec3)
    ensures Scale(Det(a, b, c), r)
         == Add(Add(Scale(Dot(Cross(b, c), r), a), Scale(Dot(Cross(c, a), r), b)), Scale(Dot(Cross(a, b), r), c))
  {
    DetExpand(a, b, c);
    CrossDotExpand(b, c, r);
    CrossDotExpand(c, a, r);
    CrossDotExpand(a, b, r);
    CramerScalar(a.x, a.y, a.z, b.x, b.y, b.z, c.x, c.y, c.z, r.x, r.y, r.z,
                 Det(a, b, c), Dot(Cross(b, c), r), Dot(Cross(c, a), r), Dot(Cross(a, b), r));
  }

  /** `CramerIdentity` over the twelve coordinates. */
  lemma CramerScalar(a1: real, a2: real, a3: real, b1: real, b2: real, b3: real,
                     c1: real, c2: real, c3: real, r1: real, r2: real, r3: real,
                     det: real, ta: real, tb: real, tc: real)
    requires det == a1 * (b2 * c3 - b3 * c2) + a2 * (b3 * c1 - b1 * c3) + a3 * (b1 * c2 - b2 * c1)
    requires ta == (b2 * c3 - b3 * c2) * r1 + (b3 * c1 - b1 * c3) * r2 + (b1 * c2 - b2 * c1) * r3
    requires tb == (c2 * a3 - c3 * a2) * r1 + (c3 * a1 - c1 * a3) * r2 + (c1 * a2 - c2 * a1) * r3
    requires tc == (a2 * b3 - a3 * b2) * r1 + (a3 * b1 - a1 * b3) * r2 + (a1 * b2 - a2 * b1) * r3
    ensures det * r1 == ta * a1 + tb * b1 + tc * c1
    ensures det * r2 == ta * a2 + tb * b2 + tc * c2
    ensures det * r3 == ta * a3 + tb * b3 + tc * c3
  {
  }

  /** The coordinates of a combination of a, b, c are recovered by the triple
      products, so the decomposition of Cramer's rule is unique. */
  lemma CramerCoefficients(a: Vec3, b: Vec3, c: Vec3, al: real, be: real, ga: real)
    ensures var r := Add(Add(Scale(al, a), Scale(be, b)), Scale(ga, c));
      && Dot(Cross(b, c), r) == al * Det(a, b, c)
      && Dot(Cross(c, a), r) == be * Det(a, b, c)
      && Dot(Cross(a, b), r) == ga * Det(a, b, c)
  {
    var sa, sb, sc := Scale(al, a), Scale(be, b), Scale(ga, c);
    TripleProductCyclic(a, b, c);
    CrossOrthogonal(b, c);
    CrossOrthogonal(c, a);
    CrossOrthogonal(a, b);
    Decompose(Cross(b, c), a, b, c, al, be, ga);
    Decompose(Cross(c, a), a, b, c, al, be, ga);
    Decompose(Cross(a, b), a, b, c, al, be, ga);
  }

  /** The dot product of n with a combination of a, b, c, term by term. */
  lemma Decompose(n: Vec3, a: Vec3, b: Vec3, c: Vec3, al: real, be: real, ga: real)
    ensures Dot(n, Add(Add(Scale(al, a), Scale(be, b)), Scale(ga, c)))
         == al * Dot(n, a) + be * Dot(n, b) + ga * Dot(n, c)
  {
    var sa, sb, sc := Scale(al, a), Scale(be, b), Scale(ga, c);
    DotLinear(n, Add(sa, sb), sc, 0.0);
    DotLinear(n, sa, sb, 0.0);
    DotLinear(n, a, a, al);
    DotLinear(n, b, b, be);
    DotLinear(n, c, c, ga);
  }

  /** Undoing a scaling: if k·x = y and q is the reciprocal of k, then x = q·y. */
  lemma ScaleInverse(k: real, q: real, x: Vec3, y: Vec3)
    requires q * k == 1.0 && Scale(k, x) == y
    ensures x == Scale(q, y)
  {
    InverseScalar(k, q, x.x, y.x);
    InverseScalar(k, q, x.y, y.y);
    InverseScalar(k, q, x.z, y.z);
  }

  lemma InverseScalar(k: real, q: real, x: real, y: real)
    requires q * k == 1.0 && k * x == y
    ensures x == q * y
  {
    assert q * y == (q * k) * x;
  }

  /** Scaling a combination of three vectors scales each coefficient. */
  lemma ScaleCombination(k: real, ta: real, a: Vec3, tb: real, b: Vec3, tc: real, c: Vec3)
    ensures Scale(k, Add(Add(Scale(ta, a), Scale(tb, b)), Scale(tc, c)))
         == Add(Add(Scale(k * ta, a), Scale(k * tb, b)), Scale(k * tc, c))
  {
    var sum := Add(Add(Scale(ta, a), Scale(tb, b)), Scale(tc, c));
    DistributeScalar(k, ta, a.x, tb, b.x, tc, c.x, sum.x);
    DistributeScalar(k, ta, a.y, tb, b.y, tc, c.y, sum.y);
    DistributeScalar(k, ta, a.z, tb, b.z, tc, c.z, sum.z);
  }

  lemma DistributeScalar(k: real, ta: real, a: real, tb: real, b: real, tc: real, c: real, s: real)
    requires s == ta * a + tb * b + tc * c
    ensures k * s == (k * ta) * a + (k * tb) * b + (k * tc) * c
  {
  }
}
