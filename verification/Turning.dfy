/** What the matrix of a quaternion does to a vector: the turn that the quaternion stands for (util/quaternion.go). */
module Turning {
  import opened Quaternions

  /** Hamilton's product. */
  function Product(a: Quat, b: Quat): Quat {
    Quat(a.w * b.x + a.x * b.w + a.y * b.z - a.z * b.y,
         a.w * b.y + a.y * b.w + a.z * b.x - a.x * b.z,
         a.w * b.z + a.z * b.w + a.x * b.y - a.y * b.x,
         a.w * b.w - a.x * b.x - a.y * b.y - a.z * b.z)
  }

  function Conjugate(q: Quat): Quat {
    Quat(-q.x, -q.y, -q.z, q.w)
  }

  /** A vector as a quaternion without a real part. */
  function Vector(a: real, b: real, c: real): Quat {
    Quat(a, b, c, 0.0)
  }

  /** The matrix times the vector. */
  function Applied(m: Mat3, a: real, b: real, c: real): Quat {
    Vector(m.m00 * a + m.m01 * b + m.m02 * c, m.m10 * a + m.m11 * b + m.m12 * c, m.m20 * a + m.m21 * b + m.m22 * c)
  }

  /** p is the product of a quaternion and a vector. */
  predicate Half(q: Quat, v: Quat, p: Quat) {
    && p.x == q.w * v.x + q.y * v.z - q.z * v.y && p.y == q.w * v.y + q.z * v.x - q.x * v.z
    && p.z == q.w * v.z + q.x * v.y - q.y * v.x && p.w == -(q.x * v.x) - q.y * v.y - q.z * v.z
  }

  /** The axes renamed in turn. */
  function Renamed(q: Quat): Quat {
    Quat(q.y, q.z, q.x, q.w)
  }

  /** The first row of the matrix, and after renaming the axes every other row too. */
  predicate FirstRow(q: Quat, m0: real, m1: real, m2: real) {
    && m0 == 1.0 - 2.0 * (q.y * q.y + q.z * q.z) && m1 == 2.0 * (q.x * q.y - q.w * q.z)
    && m2 == 2.0 * (q.x * q.z + q.w * q.y)
  }

  predicate FirstTurned(q: Quat, v: Quat, p: Quat, m0: real, m1: real, m2: real) {
    p.w * (-q.x) + p.x * q.w + p.y * (-q.z) - p.z * (-q.y) == m0 * v.x + m1 * v.y + m2 * v.z
  }

  lemma OneComponent(q: Quat, v: Quat, p: Quat, m0: real, m1: real, m2: real)
    requires q.IsUnit() && Half(q, v, p) && FirstRow(q, m0, m1, m2)
    ensures FirstTurned(q, v, p, m0, m1, m2)
  {
    OneComponentOf(q.x, q.y, q.z, q.w, v.x, v.y, v.z, p.x, p.y, p.z, p.w);
    RowTimes(q.x, q.y, q.z, q.w, v.x, v.y, v.z, m0, m1, m2);
  }

  lemma RowTimes(x: real, y: real, z: real, w: real, a: real, b: real, c: real, m0: real, m1: real, m2: real)
    requires m0 == 1.0 - 2.0 * (y * y + z * z) && m1 == 2.0 * (x * y - w * z) && m2 == 2.0 * (x * z + w * y)
    ensures m0 * a + m1 * b + m2 * c
         == a - 2.0 * ((y * y) * a + (z * z) * a) + 2.0 * ((x * y) * b - (w * z) * b)
            + 2.0 * ((x * z) * c + (w * y) * c)
  {
    Spread(y * y, z * z, a);
    Spread(x * y, w * z, b);
    Spread(x * z, w * y, c);
  }

  lemma Spread(u: real, v: real, a: real)
    ensures (1.0 - 2.0 * (u + v)) * a == a - 2.0 * (u * a + v * a)
    ensures (2.0 * (u - v)) * a == 2.0 * (u * a - v * a) && (2.0 * (u + v)) * a == 2.0 * (u * a + v * a)
  {
  }

  lemma OneComponentOf(x: real, y: real, z: real, w: real, a: real, b: real, c: real,
                       px: real, py: real, pz: real, pw: real)
    requires x * x + y * y + z * z + w * w == 1.0
    requires px == w * a + y * c - z * b && py == w * b + z * a - x * c && pz == w * c + x * b - y * a
    requires pw == -(x * a) - y * b - z * c
    ensures pw * (-x) + px * w + py * (-z) - pz * (-y)
         == a - 2.0 * ((y * y) * a + (z * z) * a) + 2.0 * ((x * y) * b - (w * z) * b)
            + 2.0 * ((x * z) * c + (w * y) * c)
  {
    assert pw * (-x) == (x * x) * a + (x * y) * b + (x * z) * c;
    assert px * w == (w * w) * a + (w * y) * c - (w * z) * b;
    assert py * (-z) == -((w * z) * b) + (x * z) * c - (z * z) * a;
    assert pz * (-y) == -((w * y) * c) - (x * y) * b + (y * y) * a;
    assert (x * x) * a + (y * y) * a + (z * z) * a + (w * w) * a == (x * x + y * y + z * z + w * w) * a == a;
  }

  lemma NoRealPart(q: Quat, v: Quat, p: Quat)
    requires Half(q, v, p)
    ensures p.w * q.w - p.x * (-q.x) - p.y * (-q.y) - p.z * (-q.z) == 0.0
  {
    NoRealPartOf(q.x, q.y, q.z, q.w, v.x, v.y, v.z, p.x, p.y, p.z, p.w);
  }

  lemma NoRealPartOf(x: real, y: real, z: real, w: real, a: real, b: real, c: real,
                     px: real, py: real, pz: real, pw: real)
    requires px == w * a + y * c - z * b && py == w * b + z * a - x * c && pz == w * c + x * b - y * a
    requires pw == -(x * a) - y * b - z * c
    ensures pw * w - px * (-x) - py * (-y) - pz * (-z) == 0.0
  {
    assert pw * w == -((w * x) * a) - (w * y) * b - (w * z) * c;
    assert px * (-x) == -((w * x) * a) - (x * y) * c + (x * z) * b;
    assert py * (-y) == -((w * y) * b) - (y * z) * a + (x * y) * c;
    assert pz * (-z) == -((w * z) * c) - (x * z) * b + (y * z) * a;
  }

  lemma HalfProduct(q: Quat, a: real, b: real, c: real)
    ensures var (v, p) := (Vector(a, b, c), Product(q, Vector(a, b, c)));
            && Half(q, v, p) && Half(Renamed(q), Renamed(v), Renamed(p))
            && Half(Renamed(Renamed(q)), Renamed(Renamed(v)), Renamed(Renamed(p)))
  {
  }

  lemma Rows(q: Quat)
    ensures var m := QuaternionToMat3(q);
            && FirstRow(q, m.m00, m.m01, m.m02) && FirstRow(Renamed(q), m.m11, m.m12, m.m10)
            && FirstRow(Renamed(Renamed(q)), m.m22, m.m20, m.m21)
  {
  }

  lemma Together(q: Quat, v: Quat, p: Quat, m: Mat3)
    requires FirstTurned(q, v, p, m.m00, m.m01, m.m02)
    requires FirstTurned(Renamed(q), Renamed(v), Renamed(p), m.m11, m.m12, m.m10)
    requires FirstTurned(Renamed(Renamed(q)), Renamed(Renamed(v)), Renamed(Renamed(p)), m.m22, m.m20, m.m21)
    requires p.w * q.w - p.x * (-q.x) - p.y * (-q.y) - p.z * (-q.z) == 0.0
    ensures Applied(m, v.x, v.y, v.z) == Product(p, Conjugate(q))
  {
  }

  /** The matrix of a unit quaternion turns every vector v into q v q*, so its sense of turning is Hamilton's. */
  lemma MatrixTurns(q: Quat, a: real, b: real, c: real)
    requires q.IsUnit()
    ensures Applied(QuaternionToMat3(q), a, b, c) == Product(Product(q, Vector(a, b, c)), Conjugate(q))
  {
    hide Half, FirstRow, FirstTurned, QuaternionToMat3, Product, Applied;
    var (m, v) := (QuaternionToMat3(q), Vector(a, b, c));
    var p := Product(q, v);
    HalfProduct(q, a, b, c);
    Rows(q);
    OneComponent(q, v, p, m.m00, m.m01, m.m02);
    OneComponent(Renamed(q), Renamed(v), Renamed(p), m.m11, m.m12, m.m10);
    OneComponent(Renamed(Renamed(q)), Renamed(Renamed(v)), Renamed(Renamed(p)), m.m22, m.m20, m.m21);
    NoRealPart(q, v, p);
    Together(q, v, p, m);
  }

  lemma OuterOfUnit(q: Quat)
    requires q.IsUnit()
    ensures var p := Outer(q);
            && p.xx == q.x * q.x && p.yy == q.y * q.y && p.zz == q.z * q.z && p.ww == q.w * q.w
            && p.xx + p.yy + p.zz + p.ww == 1.0
  {
  }

  lemma BranchOfProducts(p: Symmetric)
    requires p.xx + p.yy + p.zz + p.ww == 1.0
    ensures Select(MatrixFrom(p)) ==
              if p.ww > 0.25 then PivotW
              else if p.xx > p.yy && p.xx > p.zz then PivotX
              else if p.yy > p.zz then PivotY
              else PivotZ
  {
  }

  /** Which way back is taken for the matrix of a unit quaternion, by the quaternion itself: the real part when its size
      is more than a half, otherwise the largest of the other three, of equal ones the last. */
  lemma BranchOfUnit(q: Quat)
    requires q.IsUnit()
    ensures var (x, y, z, w) := (q.x * q.x, q.y * q.y, q.z * q.z, q.w * q.w);
            Select(QuaternionToMat3(q)) ==
              if w > 0.25 then PivotW else if x > y && x > z then PivotX else if y > z then PivotY else PivotZ
  {
    hide Outer, MatrixFrom, Select;
    OuterOfUnit(q);
    BranchOfProducts(Outer(q));
  }
}
