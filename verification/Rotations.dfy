/** Which matrices the conversions of util/quaternion.go take to a quaternion and back: the rotations, and no others. */
module Rotations {
  import opened Quaternions

  // ---------- Vectors ----------

  datatype Triple = Triple(e0: real, e1: real, e2: real)

  lemma SquareIsNonNegative(a: real)
    ensures a * a >= 0.0
  {
  }

  lemma Commute(a: real, b: real)
    ensures a * b == b * a
  {
  }

  function Dot(a: Triple, b: Triple): real {
    a.e0 * b.e0 + a.e1 * b.e1 + a.e2 * b.e2
  }

  function Cross(a: Triple, b: Triple): Triple {
    Triple(a.e1 * b.e2 - a.e2 * b.e1, a.e2 * b.e0 - a.e0 * b.e2, a.e0 * b.e1 - a.e1 * b.e0)
  }

  function Products(a: Triple, b: Triple): Triple {
    Triple(a.e0 * b.e0, a.e1 * b.e1, a.e2 * b.e2)
  }

  lemma SquareOfDifference(a: real, b: real)
    ensures (a - b) * (a - b) == a * a - 2.0 * (a * b) + b * b
  {
  }

  lemma SquareOfProduct(a: real, b: real)
    ensures (a * b) * (a * b) == (a * a) * (b * b)
  {
  }

  lemma SquareOfProducts(t: real, p: real, q: real, u: real, v: real)
    requires t == p * v - q * u
    ensures t * t == (p * p) * (v * v) - 2.0 * ((p * u) * (q * v)) + (q * q) * (u * u)
  {
    SquareOfDifference(p * v, q * u);
    assert (p * v) * (p * v) == (p * p) * (v * v);
    assert (q * u) * (q * u) == (q * q) * (u * u);
    assert (p * v) * (q * u) == (p * u) * (q * v);
  }

  lemma SquareOfSum(t: real, a: real, b: real, c: real)
    requires t == a + b + c
    ensures t * t == a * a + b * b + c * c + 2.0 * (a * b) + 2.0 * (b * c) + 2.0 * (c * a)
  {
  }

  lemma ProductOfSums(s: real, t: real, a: real, b: real, c: real, u: real, v: real, w: real)
    requires s == a + b + c && t == u + v + w
    ensures s * t == a * u + a * v + a * w + b * u + b * v + b * w + c * u + c * v + c * w
  {
  }

  lemma ProductsSquared(b: Triple, c: Triple)
    ensures Products(Products(b, c), Products(b, c)) == Products(Products(b, b), Products(c, c))
  {
    SquareOfProduct(b.e0, c.e0);
    SquareOfProduct(b.e1, c.e1);
    SquareOfProduct(b.e2, c.e2);
  }

  /** The squares of a cross product's components, from those of its factors and the products of theirs. */
  function CrossSquares(p: Triple, bb: Triple, cc: Triple): Triple {
    Triple(bb.e1 * cc.e2 - 2.0 * (p.e1 * p.e2) + bb.e2 * cc.e1,
           bb.e2 * cc.e0 - 2.0 * (p.e2 * p.e0) + bb.e0 * cc.e2,
           bb.e0 * cc.e1 - 2.0 * (p.e0 * p.e1) + bb.e1 * cc.e0)
  }

  lemma SquaresOfCross(b: Triple, c: Triple)
    ensures Products(Cross(b, c), Cross(b, c)) == CrossSquares(Products(b, c), Products(b, b), Products(c, c))
  {
    var d := Cross(b, c);
    SquareOfProducts(d.e0, b.e1, b.e2, c.e1, c.e2);
    SquareOfProducts(d.e1, b.e2, b.e0, c.e2, c.e0);
    SquareOfProducts(d.e2, b.e0, b.e1, c.e0, c.e1);
  }

  lemma LagrangeScalars(p0: real, p1: real, p2: real, b0: real, b1: real, b2: real, c0: real, c1: real, c2: real)
    requires p0 * p0 == b0 * c0 && p1 * p1 == b1 * c1 && p2 * p2 == b2 * c2
    ensures (b1 * c2 - 2.0 * (p1 * p2) + b2 * c1) + (b2 * c0 - 2.0 * (p2 * p0) + b0 * c2)
            + (b0 * c1 - 2.0 * (p0 * p1) + b1 * c0)
         == (b0 + b1 + b2) * (c0 + c1 + c2) - (p0 + p1 + p2) * (p0 + p1 + p2)
  {
    SquareOfSum(p0 + p1 + p2, p0, p1, p2);
    ProductOfSums(b0 + b1 + b2, c0 + c1 + c2, b0, b1, b2, c0, c1, c2);
  }

  lemma DotIsSum(a: Triple, b: Triple)
    ensures var p := Products(a, b);
            Dot(a, b) == p.e0 + p.e1 + p.e2
  {
  }

  lemma SumOfCrossSquares(p: Triple, bb: Triple, cc: Triple)
    requires Products(p, p) == Products(bb, cc)
    ensures var d := CrossSquares(p, bb, cc);
            d.e0 + d.e1 + d.e2
            == (bb.e0 + bb.e1 + bb.e2) * (cc.e0 + cc.e1 + cc.e2) - (p.e0 + p.e1 + p.e2) * (p.e0 + p.e1 + p.e2)
  {
    LagrangeScalars(p.e0, p.e1, p.e2, bb.e0, bb.e1, bb.e2, cc.e0, cc.e1, cc.e2);
  }

  /** Lagrange's identity. */
  lemma SquareOfCross(b: Triple, c: Triple)
    ensures Dot(Cross(b, c), Cross(b, c)) == Dot(b, b) * Dot(c, c) - Dot(b, c) * Dot(b, c)
  {
    hide Dot, Cross, Products, CrossSquares;
    DotIsSum(Cross(b, c), Cross(b, c));
    DotIsSum(b, b);
    DotIsSum(c, c);
    DotIsSum(b, c);
    SquaresOfCross(b, c);
    ProductsSquared(b, c);
    SumOfCrossSquares(Products(b, c), Products(b, b), Products(c, c));
  }

  lemma UnitAlong(a: Triple, d: Triple)
    requires Dot(a, a) == 1.0 && Dot(d, d) == 1.0 && Dot(a, d) == 1.0
    ensures a == d
  {
    SquareOfDifference(a.e0, d.e0);
    SquareOfDifference(a.e1, d.e1);
    SquareOfDifference(a.e2, d.e2);
    var (x, y, z) := (a.e0 - d.e0, a.e1 - d.e1, a.e2 - d.e2);
    assert x * x + y * y + z * z == 0.0;
    SquareIsNonNegative(x);
    SquareIsNonNegative(y);
    SquareIsNonNegative(z);
    ZeroProduct(x, x);
    ZeroProduct(y, y);
    ZeroProduct(z, z);
  }

  /** Of orthonormal vectors with determinant 1 each is the cross product of the other two. */
  lemma IsCross(a: Triple, b: Triple, c: Triple)
    requires Dot(a, a) == 1.0 && Dot(b, b) == 1.0 && Dot(c, c) == 1.0 && Dot(b, c) == 0.0
    requires Dot(a, Cross(b, c)) == 1.0
    ensures a == Cross(b, c)
  {
    hide Dot, Cross;
    SquareOfCross(b, c);
    UnitAlong(a, Cross(b, c));
  }

  lemma TurnedDeterminant(a: Triple, b: Triple, c: Triple)
    ensures Dot(a, Cross(b, c)) == Dot(b, Cross(c, a))
  {
  }

  // ---------- Rotations ----------

  function Row(m: Mat3, i: nat): Triple {
    if i == 0 then Triple(m.m00, m.m01, m.m02)
    else if i == 1 then Triple(m.m10, m.m11, m.m12)
    else Triple(m.m20, m.m21, m.m22)
  }

  function Column(m: Mat3, j: nat): Triple {
    if j == 0 then Triple(m.m00, m.m10, m.m20)
    else if j == 1 then Triple(m.m01, m.m11, m.m21)
    else Triple(m.m02, m.m12, m.m22)
  }

  predicate Orthonormal(a: Triple, b: Triple, c: Triple) {
    && Dot(a, a) == 1.0 && Dot(b, b) == 1.0 && Dot(c, c) == 1.0
    && Dot(a, b) == 0.0 && Dot(b, c) == 0.0 && Dot(c, a) == 0.0
  }

  function Determinant(m: Mat3): real {
    Dot(Row(m, 0), Cross(Row(m, 1), Row(m, 2)))
  }

  /** Orthonormal rows and determinant 1. */
  predicate IsRotation(m: Mat3) {
    Orthonormal(Row(m, 0), Row(m, 1), Row(m, 2)) && Determinant(m) == 1.0
  }

  /** Each row is the cross product of the other two. */
  predicate RowsAreCrosses(m: Mat3) {
    && Row(m, 0) == Cross(Row(m, 1), Row(m, 2))
    && Row(m, 1) == Cross(Row(m, 2), Row(m, 0))
    && Row(m, 2) == Cross(Row(m, 0), Row(m, 1))
  }

  lemma RotationRows(m: Mat3)
    requires IsRotation(m)
    ensures RowsAreCrosses(m)
  {
    hide Dot, Cross, Row;
    var (a, b, c) := (Row(m, 0), Row(m, 1), Row(m, 2));
    TurnedDeterminant(a, b, c);
    TurnedDeterminant(b, c, a);
    IsCross(a, b, c);
    IsCross(b, c, a);
    IsCross(c, a, b);
  }

  lemma FirstColumn(m: Mat3)
    requires RowsAreCrosses(m) && Determinant(m) == 1.0
    ensures Dot(Column(m, 0), Column(m, 0)) == 1.0
  {
  }

  lemma FirstTwoColumns(m: Mat3)
    requires RowsAreCrosses(m)
    ensures Dot(Column(m, 0), Column(m, 1)) == 0.0
  {
  }

  /** The matrix with rows and columns moved up by one, the first becoming the last. */
  function Turned(m: Mat3): Mat3 {
    Mat3(m.m11, m.m12, m.m10, m.m21, m.m22, m.m20, m.m01, m.m02, m.m00)
  }

  function Turn(a: Triple): Triple {
    Triple(a.e1, a.e2, a.e0)
  }

  lemma TurnKeeps(a: Triple, b: Triple)
    ensures Dot(Turn(a), Turn(b)) == Dot(a, b) && Cross(Turn(a), Turn(b)) == Turn(Cross(a, b))
  {
  }

  lemma TurnedParts(m: Mat3)
    ensures Row(Turned(m), 0) == Turn(Row(m, 1)) && Row(Turned(m), 1) == Turn(Row(m, 2))
    ensures Row(Turned(m), 2) == Turn(Row(m, 0))
    ensures Column(Turned(m), 0) == Turn(Column(m, 1)) && Column(Turned(m), 1) == Turn(Column(m, 2))
    ensures Column(Turned(m), 2) == Turn(Column(m, 0))
  {
  }

  lemma TurnedRotation(m: Mat3)
    requires IsRotation(m)
    ensures IsRotation(Turned(m))
  {
    hide Dot, Cross, Row, Turned, Turn;
    var (a, b, c) := (Row(m, 0), Row(m, 1), Row(m, 2));
    TurnedParts(m);
    TurnKeeps(a, a);
    TurnKeeps(b, b);
    TurnKeeps(c, c);
    TurnKeeps(a, b);
    TurnKeeps(b, c);
    TurnKeeps(c, a);
    TurnKeeps(b, Cross(c, a));
    TurnedDeterminant(a, b, c);
  }

  lemma FirstColumns(m: Mat3)
    requires IsRotation(m)
    ensures Dot(Column(m, 0), Column(m, 0)) == 1.0 && Dot(Column(m, 0), Column(m, 1)) == 0.0
  {
    hide Dot, Cross, Row, Column, RowsAreCrosses;
    RotationRows(m);
    FirstColumn(m);
    FirstTwoColumns(m);
  }

  /** The columns of a rotation are orthonormal too. */
  lemma RotationColumns(m: Mat3)
    requires IsRotation(m)
    ensures Orthonormal(Column(m, 0), Column(m, 1), Column(m, 2))
  {
    hide IsRotation, Dot, Column, Turned, Turn;
    var (a, b, c) := (Column(m, 0), Column(m, 1), Column(m, 2));
    var n := Turned(m);
    TurnedRotation(m);
    TurnedRotation(n);
    TurnedParts(m);
    TurnedParts(n);
    FirstColumns(m);
    FirstColumns(n);
    FirstColumns(Turned(n));
    TurnKeeps(b, b);
    TurnKeeps(b, c);
    TurnKeeps(c, c);
    TurnKeeps(c, a);
    TurnKeeps(Turn(c), Turn(c));
    TurnKeeps(Turn(c), Turn(a));
  }

  // ---------- The outer product of a quaternion with itself ----------

  predicate AllAcross(q: Quat, f: real, k: Symmetric) {
    && Across(q.w, q.w, f, k.ww) && Across(q.x, q.x, f, k.xx) && Across(q.y, q.y, f, k.yy) && Across(q.z, q.z, f, k.zz)
    && Across(q.w, q.x, f, k.wx) && Across(q.w, q.y, f, k.wy) && Across(q.w, q.z, f, k.wz)
    && Across(q.x, q.y, f, k.xy) && Across(q.x, q.z, f, k.xz) && Across(q.y, q.z, f, k.yz)
  }

  lemma AcrossTurns(a: real, b: real, f: real, c: real)
    ensures Across(a, b, f, c) == Across(b, a, f, c) == Across(a, b, c, f)
    ensures Across(a, b, a, b) && Across(b, a, a, b)
  {
  }

  lemma OuterIsAllAcross(q: Quat, f: real, k: Symmetric)
    ensures Outer(q) == Scaled(k, f) <==> AllAcross(q, f, k)
  {
  }

  /** Every product of two entries of the pivot's row is the pivot times the entry across. */
  predicate RankOneAt(k: Symmetric, b: Branch) {
    AllAcross(PivotRow(k, b), Pivot(k, b), k)
  }

  function TurnedK(k: Symmetric): Symmetric {
    Symmetric(k.ww, k.yy, k.zz, k.xx, k.wy, k.wz, k.wx, k.yz, k.xy, k.xz)
  }

  lemma KOfTurned(m: Mat3)
    ensures KOf(Turned(m)) == TurnedK(KOf(m))
  {
  }

  lemma SquareAtWScalars(m00: real, m10: real, m11: real, m12: real, m20: real, m21: real, m22: real, wx: real,
                         ww: real, xx: real)
    requires m00 == m11 * m22 - m12 * m21
    requires m10 * m10 + m11 * m11 + m12 * m12 == 1.0
    requires m20 * m20 + m21 * m21 + m22 * m22 == 1.0
    requires m00 * m00 + m10 * m10 + m20 * m20 == 1.0
    requires wx == m21 - m12 && ww == 1.0 + m00 + m11 + m22 && xx == 1.0 + m00 - m11 - m22
    ensures Across(wx, wx, ww, xx)
  {
  }

  lemma SquareAtW(m: Mat3)
    requires m.m00 == m.m11 * m.m22 - m.m12 * m.m21
    requires m.m10 * m.m10 + m.m11 * m.m11 + m.m12 * m.m12 == 1.0
    requires m.m20 * m.m20 + m.m21 * m.m21 + m.m22 * m.m22 == 1.0
    requires m.m00 * m.m00 + m.m10 * m.m10 + m.m20 * m.m20 == 1.0
    ensures Across(KOf(m).wx, KOf(m).wx, KOf(m).ww, KOf(m).xx)
  {
    hide Across;
    var k := KOf(m);
    SquareAtWScalars(m.m00, m.m10, m.m11, m.m12, m.m20, m.m21, m.m22, k.wx, k.ww, k.xx);
  }

  lemma CrossAtWScalars(m00: real, m01: real, m02: real, m10: real, m11: real, m12: real, m20: real, m21: real,
                        m22: real, wx: real, wy: real, ww: real, xy: real)
    requires m01 == m12 * m20 - m10 * m22 && m10 == m02 * m21 - m01 * m22
    requires m00 * m10 + m01 * m11 + m02 * m12 == 0.0
    requires m00 * m01 + m10 * m11 + m20 * m21 == 0.0
    requires wx == m21 - m12 && wy == m02 - m20 && ww == 1.0 + m00 + m11 + m22 && xy == m01 + m10
    ensures Across(wx, wy, ww, xy)
  {
  }

  lemma CrossAtW(m: Mat3)
    requires m.m01 == m.m12 * m.m20 - m.m10 * m.m22 && m.m10 == m.m02 * m.m21 - m.m01 * m.m22
    requires m.m00 * m.m10 + m.m01 * m.m11 + m.m02 * m.m12 == 0.0
    requires m.m00 * m.m01 + m.m10 * m.m11 + m.m20 * m.m21 == 0.0
    ensures Across(KOf(m).wx, KOf(m).wy, KOf(m).ww, KOf(m).xy)
  {
    hide Across;
    var k := KOf(m);
    CrossAtWScalars(m.m00, m.m01, m.m02, m.m10, m.m11, m.m12, m.m20, m.m21, m.m22, k.wx, k.wy, k.ww, k.xy);
  }

  lemma SquareAtXScalars(m00: real, m01: real, m02: real, m10: real, m11: real, m12: real, m22: real, xy: real,
                         xx: real, yy: real)
    requires m22 == m00 * m11 - m01 * m10
    requires m00 * m00 + m01 * m01 + m02 * m02 == 1.0
    requires m10 * m10 + m11 * m11 + m12 * m12 == 1.0
    requires m02 * m02 + m12 * m12 + m22 * m22 == 1.0
    requires xy == m01 + m10 && xx == 1.0 + m00 - m11 - m22 && yy == 1.0 + m11 - m00 - m22
    ensures Across(xy, xy, xx, yy)
  {
  }

  lemma SquareAtX(m: Mat3)
    requires m.m22 == m.m00 * m.m11 - m.m01 * m.m10
    requires m.m00 * m.m00 + m.m01 * m.m01 + m.m02 * m.m02 == 1.0
    requires m.m10 * m.m10 + m.m11 * m.m11 + m.m12 * m.m12 == 1.0
    requires m.m02 * m.m02 + m.m12 * m.m12 + m.m22 * m.m22 == 1.0
    ensures Across(KOf(m).xy, KOf(m).xy, KOf(m).xx, KOf(m).yy)
  {
    hide Across;
    var k := KOf(m);
    SquareAtXScalars(m.m00, m.m01, m.m02, m.m10, m.m11, m.m12, m.m22, k.xy, k.xx, k.yy);
  }

  lemma CrossXYScalars(m00: real, m01: real, m02: real, m10: real, m11: real, m12: real, m20: real, m21: real,
                       m22: real, wx: real, xy: real, xx: real, wy: real)
    requires m20 == m01 * m12 - m02 * m11 && m02 == m10 * m21 - m11 * m20
    requires m00 * m20 + m01 * m21 + m02 * m22 == 0.0
    requires m00 * m02 + m10 * m12 + m20 * m22 == 0.0
    requires wx == m21 - m12 && xy == m01 + m10 && xx == 1.0 + m00 - m11 - m22 && wy == m02 - m20
    ensures Across(wx, xy, xx, wy)
  {
  }

  lemma CrossXY(m: Mat3)
    requires m.m20 == m.m01 * m.m12 - m.m02 * m.m11 && m.m02 == m.m10 * m.m21 - m.m11 * m.m20
    requires m.m00 * m.m20 + m.m01 * m.m21 + m.m02 * m.m22 == 0.0
    requires m.m00 * m.m02 + m.m10 * m.m12 + m.m20 * m.m22 == 0.0
    ensures Across(KOf(m).wx, KOf(m).xy, KOf(m).xx, KOf(m).wy)
  {
    hide Across;
    var k := KOf(m);
    CrossXYScalars(m.m00, m.m01, m.m02, m.m10, m.m11, m.m12, m.m20, m.m21, m.m22, k.wx, k.xy, k.xx, k.wy);
  }

  lemma CrossXZScalars(m00: real, m01: real, m02: real, m10: real, m11: real, m12: real, m20: real, m21: real,
                       m22: real, wx: real, xz: real, xx: real, wz: real)
    requires m10 == m21 * m02 - m22 * m01 && m01 == m12 * m20 - m10 * m22
    requires m00 * m10 + m01 * m11 + m02 * m12 == 0.0
    requires m00 * m01 + m10 * m11 + m20 * m21 == 0.0
    requires wx == m21 - m12 && xz == m02 + m20 && xx == 1.0 + m00 - m11 - m22 && wz == m10 - m01
    ensures Across(wx, xz, xx, wz)
  {
  }

  lemma CrossXZ(m: Mat3)
    requires m.m10 == m.m21 * m.m02 - m.m22 * m.m01 && m.m01 == m.m12 * m.m20 - m.m10 * m.m22
    requires m.m00 * m.m10 + m.m01 * m.m11 + m.m02 * m.m12 == 0.0
    requires m.m00 * m.m01 + m.m10 * m.m11 + m.m20 * m.m21 == 0.0
    ensures Across(KOf(m).wx, KOf(m).xz, KOf(m).xx, KOf(m).wz)
  {
    hide Across;
    var k := KOf(m);
    CrossXZScalars(m.m00, m.m01, m.m02, m.m10, m.m11, m.m12, m.m20, m.m21, m.m22, k.wx, k.xz, k.xx, k.wz);
  }

  lemma CrossYZScalars(m00: real, m01: real, m02: real, m10: real, m11: real, m12: real, m20: real, m21: real,
                       m22: real, xy: real, xz: real, xx: real, yz: real)
    requires m12 == m20 * m01 - m21 * m00 && m21 == m02 * m10 - m00 * m12
    requires m10 * m20 + m11 * m21 + m12 * m22 == 0.0
    requires m01 * m02 + m11 * m12 + m21 * m22 == 0.0
    requires xy == m01 + m10 && xz == m02 + m20 && xx == 1.0 + m00 - m11 - m22 && yz == m12 + m21
    ensures Across(xy, xz, xx, yz)
  {
  }

  lemma CrossYZ(m: Mat3)
    requires m.m12 == m.m20 * m.m01 - m.m21 * m.m00 && m.m21 == m.m02 * m.m10 - m.m00 * m.m12
    requires m.m10 * m.m20 + m.m11 * m.m21 + m.m12 * m.m22 == 0.0
    requires m.m01 * m.m02 + m.m11 * m.m12 + m.m21 * m.m22 == 0.0
    ensures Across(KOf(m).xy, KOf(m).xz, KOf(m).xx, KOf(m).yz)
  {
    hide Across;
    var k := KOf(m);
    CrossYZScalars(m.m00, m.m01, m.m02, m.m10, m.m11, m.m12, m.m20, m.m21, m.m22, k.xy, k.xz, k.xx, k.yz);
  }

  lemma SquaresFromRows(m: Mat3)
    requires IsRotation(m)
    ensures Across(KOf(m).wx, KOf(m).wx, KOf(m).ww, KOf(m).xx) && Across(KOf(m).xy, KOf(m).xy, KOf(m).xx, KOf(m).yy)
  {
    hide KOf, Across;
    RotationRows(m);
    RotationColumns(m);
    SquareAtW(m);
    SquareAtX(m);
  }

  lemma CrossesFromRows(m: Mat3)
    requires IsRotation(m)
    ensures Across(KOf(m).wx, KOf(m).wy, KOf(m).ww, KOf(m).xy) && Across(KOf(m).wx, KOf(m).xz, KOf(m).xx, KOf(m).wz)
  {
    hide KOf, Across;
    RotationRows(m);
    RotationColumns(m);
    CrossAtW(m);
    CrossXZ(m);
  }

  lemma MoreCrossesFromRows(m: Mat3)
    requires IsRotation(m)
    ensures Across(KOf(m).wx, KOf(m).xy, KOf(m).xx, KOf(m).wy) && Across(KOf(m).xy, KOf(m).xz, KOf(m).xx, KOf(m).yz)
  {
    hide KOf, Across;
    RotationRows(m);
    RotationColumns(m);
    CrossXY(m);
    CrossYZ(m);
  }

  lemma RankOneAtW(k: Symmetric)
    requires Across(k.wx, k.wx, k.ww, k.xx) && Across(k.wy, k.wy, k.ww, k.yy) && Across(k.wz, k.wz, k.ww, k.zz)
    requires Across(k.wx, k.wy, k.ww, k.xy) && Across(k.wy, k.wz, k.ww, k.yz) && Across(k.wz, k.wx, k.ww, k.xz)
    ensures RankOneAt(k, PivotW)
  {
    hide Across;
    AcrossTurns(k.wz, k.wx, k.ww, k.xz);
    AcrossTurns(k.ww, k.ww, k.ww, k.ww);
    AcrossTurns(k.ww, k.wx, k.ww, k.wx);
    AcrossTurns(k.ww, k.wy, k.ww, k.wy);
    AcrossTurns(k.ww, k.wz, k.ww, k.wz);
  }

  lemma RankOneAtX(k: Symmetric)
    requires Across(k.wx, k.wx, k.ww, k.xx) && Across(k.xy, k.xy, k.xx, k.yy) && Across(k.xz, k.xz, k.zz, k.xx)
    requires Across(k.wx, k.xy, k.xx, k.wy) && Across(k.wx, k.xz, k.xx, k.wz) && Across(k.xy, k.xz, k.xx, k.yz)
    ensures RankOneAt(k, PivotX)
  {
    hide Across;
    AcrossTurns(k.wx, k.wx, k.ww, k.xx);
    AcrossTurns(k.xz, k.xz, k.zz, k.xx);
    AcrossTurns(k.xx, k.xx, k.xx, k.xx);
    AcrossTurns(k.xx, k.wx, k.xx, k.wx);
    AcrossTurns(k.xx, k.xy, k.xx, k.xy);
    AcrossTurns(k.xx, k.xz, k.xx, k.xz);
  }

  lemma RotationAtW(m: Mat3)
    requires IsRotation(m)
    ensures RankOneAt(KOf(m), PivotW)
  {
    hide IsRotation, KOf, Turned, RankOneAt, Across;
    var n := Turned(m);
    TurnedRotation(m);
    TurnedRotation(n);
    KOfTurned(m);
    KOfTurned(n);
    SquaresFromRows(m);
    SquaresFromRows(n);
    SquaresFromRows(Turned(n));
    CrossesFromRows(m);
    CrossesFromRows(n);
    CrossesFromRows(Turned(n));
    RankOneAtW(KOf(m));
  }

  lemma RotationAtX(m: Mat3)
    requires IsRotation(m)
    ensures RankOneAt(KOf(m), PivotX)
  {
    hide IsRotation, KOf, Turned, RankOneAt, Across;
    var n := Turned(m);
    TurnedRotation(m);
    TurnedRotation(n);
    KOfTurned(m);
    KOfTurned(n);
    SquaresFromRows(m);
    SquaresFromRows(Turned(n));
    CrossesFromRows(m);
    MoreCrossesFromRows(m);
    RankOneAtX(KOf(m));
  }

  lemma TurnedPivots(k: Symmetric)
    ensures RankOneAt(TurnedK(k), PivotX) ==> RankOneAt(k, PivotY)
    ensures RankOneAt(TurnedK(k), PivotY) ==> RankOneAt(k, PivotZ)
  {
    hide Across;
    AcrossTurns(k.yy, k.xy, k.yy, k.xy);
    AcrossTurns(k.yz, k.xy, k.yy, k.xz);
    AcrossTurns(k.zz, k.xz, k.zz, k.xz);
    AcrossTurns(k.zz, k.yz, k.zz, k.yz);
    AcrossTurns(k.yz, k.xz, k.zz, k.xy);
    AcrossTurns(k.xz, k.zz, k.zz, k.xz);
  }

  lemma RotationIsRankOne(m: Mat3, b: Branch)
    requires IsRotation(m)
    ensures RankOneAt(KOf(m), b)
  {
    hide IsRotation, KOf, Turned, TurnedK, RankOneAt;
    var n := Turned(m);
    TurnedRotation(m);
    TurnedRotation(n);
    KOfTurned(m);
    KOfTurned(n);
    TurnedPivots(KOf(m));
    TurnedPivots(KOf(n));
    RotationAtW(m);
    RotationAtX(m);
    RotationAtX(n);
    RotationAtX(Turned(n));
  }

  // ---------- From a rotation to a quaternion and back ----------

  /** x and y are the quotients of ka and kb. */
  lemma ProductOfQuotients(kpp: real, ka: real, kb: real, kab: real, s: real, x: real, y: real)
    requires kpp > 0.0 && Across(s, s, 4.0, kpp) && Across(ka, kb, kpp, kab)
    requires Across(x, s, 1.0, ka) && Across(y, s, 1.0, kb)
    ensures Across(x, y, 0.25, kab)
  {
    assert x * s == ka && y * s == kb;
    assert (x * y) * (s * s) == (x * s) * (y * s);
    assert (4.0 * (x * y)) * kpp == kab * kpp;
    assert (4.0 * (x * y) - kab) * kpp == 0.0;
    ZeroProduct(4.0 * (x * y) - kab, kpp);
  }

  /** Dividing the pivot's row by twice the root of the pivot. */
  lemma OuterOfQuotients(k: Symmetric, row: Quat, kpp: real, s: real, q: Quat)
    requires kpp > 0.0 && Across(s, s, 4.0, kpp) && AllAcross(row, kpp, k) && Times(q, s, row)
    ensures AllAcross(q, 0.25, k)
  {
    hide Across;
    ProductOfQuotients(kpp, row.w, row.w, k.ww, s, q.w, q.w);
    ProductOfQuotients(kpp, row.x, row.x, k.xx, s, q.x, q.x);
    ProductOfQuotients(kpp, row.y, row.y, k.yy, s, q.y, q.y);
    ProductOfQuotients(kpp, row.z, row.z, k.zz, s, q.z, q.z);
    ProductOfQuotients(kpp, row.w, row.x, k.wx, s, q.w, q.x);
    ProductOfQuotients(kpp, row.w, row.y, k.wy, s, q.w, q.y);
    ProductOfQuotients(kpp, row.w, row.z, k.wz, s, q.w, q.z);
    ProductOfQuotients(kpp, row.x, row.y, k.xy, s, q.x, q.y);
    ProductOfQuotients(kpp, row.x, row.z, k.xz, s, q.x, q.z);
    ProductOfQuotients(kpp, row.y, row.z, k.yz, s, q.y, q.z);
  }

  /** The quaternion of a rotation is a unit quaternion, and its matrix is the rotation. */
  lemma RotationComesBack(m: Mat3, root: real -> real)
    requires IsSquareRoot(root) && IsRotation(m)
    ensures var r := Mat3ToQuaternion(m, root);
            r.Some? && r.value.IsUnit() && QuaternionToMat3(r.value) == m
  {
    hide IsRotation, Outer, Scaled, Times, Across, AllAcross, KOf, PivotRow, Pivot, Mat3ToQuaternion, Radicand, Select,
      QuaternionToMat3;
    RadicandIsAtLeastOne(m);
    RadicandIsPivot(m);
    TwiceTheRoot(Radicand(m), root(Radicand(m)));
    RotationIsRankOne(m, Select(m));
    ConversionDividesRow(m, root);
    var (k, row, q) := (KOf(m), PivotRow(KOf(m), Select(m)), Mat3ToQuaternion(m, root).value);
    OuterOfQuotients(k, row, Radicand(m), root(Radicand(m)) * 2.0, q);
    OuterIsAllAcross(q, 0.25, k);
    MatrixOfOuter(q, m);
  }

  // ---------- From a unit quaternion to a rotation ----------

  /** The first row of a unit quaternion's matrix, from the products of its components. */
  lemma RowNorm(p: Symmetric, a: real, b: real, c: real)
    requires p.ww + p.xx + p.yy + p.zz == 1.0
    requires Across(p.xy, p.xy, p.xx, p.yy) && Across(p.wz, p.wz, p.ww, p.zz) && Across(p.xz, p.xz, p.xx, p.zz)
    requires Across(p.wy, p.wy, p.ww, p.yy) && Across(p.xy, p.wz, p.xz, p.wy)
    requires a == 1.0 - 2.0 * (p.yy + p.zz) && b == 2.0 * (p.xy - p.wz) && c == 2.0 * (p.xz + p.wy)
    ensures a * a + b * b + c * c == 1.0
  {
    var d := p.yy + p.zz;
    assert p.ww == 1.0 - p.xx - d;
    assert b * b == 4.0 * (p.xy * p.xy - 2.0 * (p.xy * p.wz) + p.wz * p.wz);
    assert c * c == 4.0 * (p.xz * p.xz + 2.0 * (p.xz * p.wy) + p.wy * p.wy);
    assert a * a == 1.0 - 4.0 * d + 4.0 * (d * d);
    assert p.xx * p.yy + p.xx * p.zz + p.ww * p.yy + p.ww * p.zz == (p.xx + p.ww) * d;
    assert (p.xx + p.ww) * d == d - d * d;
  }

  lemma RowDot(p: Symmetric, a: real, b: real, c: real, d: real, e: real, f: real)
    requires p.ww + p.xx + p.yy + p.zz == 1.0
    requires Across(p.xz, p.yz, p.zz, p.xy) && Across(p.xz, p.wx, p.xx, p.wz)
    requires Across(p.wy, p.yz, p.yy, p.wz) && Across(p.wy, p.wx, p.ww, p.xy)
    requires a == 1.0 - 2.0 * (p.yy + p.zz) && b == 2.0 * (p.xy - p.wz) && c == 2.0 * (p.xz + p.wy)
    requires d == 2.0 * (p.xy + p.wz) && e == 1.0 - 2.0 * (p.xx + p.zz) && f == 2.0 * (p.yz - p.wx)
    ensures a * d + b * e + c * f == 0.0
  {
    var (xx, yy, zz, xy, wz) := (p.xx, p.yy, p.zz, p.xy, p.wz);
    assert a * d == 2.0 * xy + 2.0 * wz - 4.0 * (yy * xy + zz * xy + yy * wz + zz * wz);
    assert b * e == 2.0 * xy - 2.0 * wz - 4.0 * (xx * xy + zz * xy - xx * wz - zz * wz);
    assert c * f == 4.0 * (p.xz * p.yz - p.xz * p.wx + p.wy * p.yz - p.wy * p.wx);
    assert p.ww * xy == xy - xx * xy - yy * xy - zz * xy;
  }

  lemma Cofactor0(p: Symmetric, a: real, b: real, c: real, d: real)
    requires p.ww + p.xx + p.yy + p.zz == 1.0 && Across(p.yz, p.yz, p.yy, p.zz) && Across(p.wx, p.wx, p.ww, p.xx)
    requires a == 1.0 - 2.0 * (p.xx + p.zz) && b == 1.0 - 2.0 * (p.xx + p.yy)
    requires c == 2.0 * (p.yz - p.wx) && d == 2.0 * (p.yz + p.wx)
    ensures a * b - c * d == 1.0 - 2.0 * (p.yy + p.zz)
  {
    assert p.ww * p.xx == p.xx - p.xx * p.xx - p.yy * p.xx - p.zz * p.xx;
  }

  lemma Cofactor1(p: Symmetric, a: real, b: real, c: real, d: real)
    requires p.ww + p.xx + p.yy + p.zz == 1.0
    requires Across(p.yz, p.xz, p.zz, p.xy) && Across(p.yz, p.wy, p.yy, p.wz)
    requires Across(p.wx, p.xz, p.xx, p.wz) && Across(p.wx, p.wy, p.ww, p.xy)
    requires a == 2.0 * (p.yz - p.wx) && b == 2.0 * (p.xz - p.wy)
    requires c == 2.0 * (p.xy + p.wz) && d == 1.0 - 2.0 * (p.xx + p.yy)
    ensures a * b - c * d == 2.0 * (p.xy - p.wz)
  {
    assert p.ww * p.xy == p.xy - p.xx * p.xy - p.yy * p.xy - p.zz * p.xy;
  }

  lemma Cofactor2(p: Symmetric, a: real, b: real, c: real, d: real)
    requires p.ww + p.xx + p.yy + p.zz == 1.0
    requires Across(p.xy, p.yz, p.yy, p.xz) && Across(p.xy, p.wx, p.xx, p.wy)
    requires Across(p.wz, p.yz, p.zz, p.wy) && Across(p.wz, p.wx, p.ww, p.xz)
    requires a == 2.0 * (p.xy + p.wz) && b == 2.0 * (p.yz + p.wx)
    requires c == 1.0 - 2.0 * (p.xx + p.zz) && d == 2.0 * (p.xz - p.wy)
    ensures a * b - c * d == 2.0 * (p.xz + p.wy)
  {
    assert p.ww * p.xz == p.xz - p.xx * p.xz - p.yy * p.xz - p.zz * p.xz;
  }

  /** Products of components, multiplied in pairs. */
  lemma PairsAcross(a: real, b: real, c: real, d: real, ab: real, cd: real, ac: real, bd: real)
    requires Across(a, b, 1.0, ab) && Across(c, d, 1.0, cd) && Across(a, c, 1.0, ac) && Across(b, d, 1.0, bd)
    ensures Across(ab, cd, ac, bd)
  {
  }

  /** The relations between the products of a quaternion's components that the first row needs. */
  predicate SquaresRelated(p: Symmetric) {
    && Across(p.xy, p.xy, p.xx, p.yy) && Across(p.wz, p.wz, p.ww, p.zz) && Across(p.xz, p.xz, p.xx, p.zz)
    && Across(p.wy, p.wy, p.ww, p.yy) && Across(p.yz, p.yz, p.yy, p.zz) && Across(p.wx, p.wx, p.ww, p.xx)
  }

  predicate CrossesRelated(p: Symmetric) {
    && Across(p.xy, p.wz, p.xz, p.wy)
    && Across(p.xz, p.yz, p.zz, p.xy) && Across(p.xz, p.wx, p.xx, p.wz)
    && Across(p.wy, p.yz, p.yy, p.wz) && Across(p.wy, p.wx, p.ww, p.xy)
    && Across(p.xy, p.yz, p.yy, p.xz) && Across(p.xy, p.wx, p.xx, p.wy)
    && Across(p.wz, p.yz, p.zz, p.wy) && Across(p.wz, p.wx, p.ww, p.xz)
  }

  lemma SquaresAreRelated(q: Quat, p: Symmetric)
    requires p == Outer(q)
    ensures SquaresRelated(p)
  {
    hide Across, Outer;
    OuterProducts(q);
    PairsAcross(q.x, q.y, q.x, q.y, p.xy, p.xy, p.xx, p.yy);
    PairsAcross(q.w, q.z, q.w, q.z, p.wz, p.wz, p.ww, p.zz);
    PairsAcross(q.x, q.z, q.x, q.z, p.xz, p.xz, p.xx, p.zz);
    PairsAcross(q.w, q.y, q.w, q.y, p.wy, p.wy, p.ww, p.yy);
    PairsAcross(q.y, q.z, q.y, q.z, p.yz, p.yz, p.yy, p.zz);
    PairsAcross(q.w, q.x, q.w, q.x, p.wx, p.wx, p.ww, p.xx);
  }

  lemma CrossesAreRelated(q: Quat, p: Symmetric)
    requires p == Outer(q)
    ensures CrossesRelated(p)
  {
    hide Across, Outer;
    OuterProducts(q);
    PairsAcross(q.x, q.y, q.z, q.w, p.xy, p.wz, p.xz, p.wy);
    PairsAcross(q.z, q.x, q.z, q.y, p.xz, p.yz, p.zz, p.xy);
    PairsAcross(q.x, q.z, q.x, q.w, p.xz, p.wx, p.xx, p.wz);
    PairsAcross(q.y, q.w, q.y, q.z, p.wy, p.yz, p.yy, p.wz);
    PairsAcross(q.w, q.y, q.w, q.x, p.wy, p.wx, p.ww, p.xy);
    PairsAcross(q.y, q.x, q.y, q.z, p.xy, p.yz, p.yy, p.xz);
    PairsAcross(q.x, q.y, q.x, q.w, p.xy, p.wx, p.xx, p.wy);
    PairsAcross(q.z, q.w, q.z, q.y, p.wz, p.yz, p.zz, p.wy);
    PairsAcross(q.w, q.z, q.w, q.x, p.wz, p.wx, p.ww, p.xz);
  }

  lemma FirstRow(p: Symmetric)
    requires SquaresRelated(p) && CrossesRelated(p) && p.ww + p.xx + p.yy + p.zz == 1.0
    ensures var m := MatrixFrom(p);
            && Dot(Row(m, 0), Row(m, 0)) == 1.0 && Dot(Row(m, 0), Row(m, 1)) == 0.0
            && Row(m, 0) == Cross(Row(m, 1), Row(m, 2))
  {
    hide Across;
    var m := MatrixFrom(p);
    AcrossTurns(p.xz, p.yz, p.zz, p.xy);
    AcrossTurns(p.wy, p.yz, p.yy, p.wz);
    AcrossTurns(p.xz, p.wx, p.xx, p.wz);
    AcrossTurns(p.wy, p.wx, p.ww, p.xy);
    FirstRowNorm(p, m);
    FirstRowDot(p, m);
    FirstRowCross(p, m);
  }

  lemma FirstRowNorm(p: Symmetric, m: Mat3)
    requires SquaresRelated(p) && CrossesRelated(p) && p.ww + p.xx + p.yy + p.zz == 1.0 && m == MatrixFrom(p)
    ensures Dot(Row(m, 0), Row(m, 0)) == 1.0
  {
    hide Across;
    RowNorm(p, m.m00, m.m01, m.m02);
  }

  lemma FirstRowDot(p: Symmetric, m: Mat3)
    requires SquaresRelated(p) && CrossesRelated(p) && p.ww + p.xx + p.yy + p.zz == 1.0 && m == MatrixFrom(p)
    ensures Dot(Row(m, 0), Row(m, 1)) == 0.0
  {
    hide Across;
    RowDot(p, m.m00, m.m01, m.m02, m.m10, m.m11, m.m12);
  }

  lemma FirstRowCross(p: Symmetric, m: Mat3)
    requires SquaresRelated(p) && CrossesRelated(p) && p.ww + p.xx + p.yy + p.zz == 1.0 && m == MatrixFrom(p)
    requires Across(p.yz, p.xz, p.zz, p.xy) && Across(p.yz, p.wy, p.yy, p.wz)
    requires Across(p.wx, p.xz, p.xx, p.wz) && Across(p.wx, p.wy, p.ww, p.xy)
    ensures Row(m, 0) == Cross(Row(m, 1), Row(m, 2))
  {
    hide Across;
    Cofactor0(p, m.m11, m.m22, m.m12, m.m21);
    Cofactor1(p, m.m12, m.m20, m.m10, m.m22);
    Cofactor2(p, m.m10, m.m21, m.m11, m.m20);
  }

  lemma UnitFirstRow(q: Quat)
    requires q.IsUnit()
    ensures var m := QuaternionToMat3(q);
            && Dot(Row(m, 0), Row(m, 0)) == 1.0 && Dot(Row(m, 0), Row(m, 1)) == 0.0
            && Row(m, 0) == Cross(Row(m, 1), Row(m, 2))
  {
    hide SquaresRelated, CrossesRelated, Dot, Row, Cross;
    SquaresAreRelated(q, Outer(q));
    CrossesAreRelated(q, Outer(q));
    FirstRow(Outer(q));
  }

  function TurnedQ(q: Quat): Quat {
    Quat(q.y, q.z, q.x, q.w)
  }

  lemma TurnedProducts(p: Symmetric)
    ensures MatrixFrom(TurnedK(p)) == Turned(MatrixFrom(p))
  {
  }

  lemma TurnedOuter(q: Quat)
    ensures Outer(TurnedQ(q)) == TurnedK(Outer(q))
  {
    Commute(q.x, q.y);
    Commute(q.x, q.z);
  }

  lemma TurnedQuaternion(q: Quat)
    ensures QuaternionToMat3(TurnedQ(q)) == Turned(QuaternionToMat3(q)) && TurnedQ(q).IsUnit() == q.IsUnit()
  {
    hide MatrixFrom, Outer, TurnedK, Turned;
    TurnedProducts(Outer(q));
    TurnedOuter(q);
  }

  lemma UnitGivesRotation(q: Quat)
    requires q.IsUnit()
    ensures IsRotation(QuaternionToMat3(q))
  {
    hide Dot, Cross, Row, Turned, Turn, TurnedQ, QuaternionToMat3;
    var m := QuaternionToMat3(q);
    var (n, r) := (Turned(m), TurnedQ(q));
    var (a, b, c) := (Row(m, 0), Row(m, 1), Row(m, 2));
    TurnedQuaternion(q);
    TurnedQuaternion(r);
    UnitFirstRow(q);
    UnitFirstRow(r);
    UnitFirstRow(TurnedQ(r));
    TurnedParts(m);
    TurnedParts(n);
    TurnKeeps(b, b);
    TurnKeeps(b, c);
    TurnKeeps(c, c);
    TurnKeeps(c, a);
    TurnKeeps(Turn(c), Turn(c));
    TurnKeeps(Turn(c), Turn(a));
  }

  /** A matrix becomes a unit quaternion whose matrix it is exactly when it is a rotation. */
  lemma ComesBackExactlyWhenRotation(m: Mat3, root: real -> real)
    requires IsSquareRoot(root)
    ensures IsRotation(m) <==>
            var r := Mat3ToQuaternion(m, root);
            r.Some? && r.value.IsUnit() && QuaternionToMat3(r.value) == m
  {
    hide IsRotation, QuaternionToMat3, Mat3ToQuaternion;
    if IsRotation(m) {
      RotationComesBack(m, root);
    }
    var r := Mat3ToQuaternion(m, root);
    if r.Some? && r.value.IsUnit() {
      UnitGivesRotation(r.value);
    }
  }
}
