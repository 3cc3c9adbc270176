/** Quaternion and rotation-matrix conversion over exact reals (util/quaternion.go). */
module Quaternions {
  import opened Common

  datatype Quat = Quat(x: real, y: real, z: real, w: real) {
    function Neg(): Quat {
      Quat(-x, -y, -z, -w)
    }

    predicate IsUnit() {
      x * x + y * y + z * z + w * w == 1.0
    }
  }

  datatype Mat3 = Mat3(
    m00: real, m01: real, m02: real,
    m10: real, m11: real, m12: real,
    m20: real, m21: real, m22: real)

  /** A symmetric matrix over the components of a quaternion. */
  datatype Symmetric = Symmetric(
    ww: real, xx: real, yy: real, zz: real,
    wx: real, wy: real, wz: real, xy: real, xz: real, yz: real)

  /** The products of a quaternion's components. */
  function Outer(q: Quat): Symmetric {
    Symmetric(q.w * q.w, q.x * q.x, q.y * q.y, q.z * q.z,
              q.w * q.x, q.w * q.y, q.w * q.z, q.x * q.y, q.x * q.z, q.y * q.z)
  }

  function MatrixFrom(p: Symmetric): Mat3 {
    Mat3(1.0 - 2.0 * (p.yy + p.zz), 2.0 * (p.xy - p.wz), 2.0 * (p.xz + p.wy),
         2.0 * (p.xy + p.wz), 1.0 - 2.0 * (p.xx + p.zz), 2.0 * (p.yz - p.wx),
         2.0 * (p.xz - p.wy), 2.0 * (p.yz + p.wx), 1.0 - 2.0 * (p.xx + p.yy))
  }

  function QuaternionToMat3(q: Quat): Mat3 {
    MatrixFrom(Outer(q))
  }

  /** `root` stands for math.Sqrt; it is only ever relied on for non-negative arguments. */
  ghost predicate IsSquareRoot(root: real -> real) {
    forall a | a >= 0.0 :: root(a) >= 0.0 && root(a) * root(a) == a
  }

  /** The four ways the conversion can go, named after the component it divides by. */
  datatype Branch = PivotW | PivotX | PivotY | PivotZ

  function Select(m: Mat3): Branch {
    if m.m00 + m.m11 + m.m22 > 0.0 then PivotW
    else if m.m00 > m.m11 && m.m00 > m.m22 then PivotX
    else if m.m11 > m.m22 then PivotY
    else PivotZ
  }

  function Radicand(m: Mat3): real {
    match Select(m)
    case PivotW => m.m00 + m.m11 + m.m22 + 1.0
    case PivotX => 1.0 + m.m00 - m.m11 - m.m22
    case PivotY => 1.0 + m.m11 - m.m00 - m.m22
    case PivotZ => 1.0 + m.m22 - m.m00 - m.m11
  }

  /** None stands for the NaN and infinite components that a negative radicand or a zero divisor gives. */
  function Mat3ToQuaternion(m: Mat3, root: real -> real): Option<Quat> {
    var s := root(Radicand(m)) * 2.0;
    if Radicand(m) < 0.0 || s == 0.0 then None
    else Some(
      match Select(m)
      case PivotW => Quat((m.m21 - m.m12) / s, (m.m02 - m.m20) / s, (m.m10 - m.m01) / s, 0.25 * s)
      case PivotX => Quat(0.25 * s, (m.m01 + m.m10) / s, (m.m02 + m.m20) / s, (m.m21 - m.m12) / s)
      case PivotY => Quat((m.m01 + m.m10) / s, 0.25 * s, (m.m12 + m.m21) / s, (m.m02 - m.m20) / s)
      case PivotZ => Quat((m.m02 + m.m20) / s, (m.m12 + m.m21) / s, 0.25 * s, (m.m10 - m.m01) / s))
  }

  function Component(q: Quat, b: Branch): real {
    match b
    case PivotW => q.w
    case PivotX => q.x
    case PivotY => q.y
    case PivotZ => q.z
  }

  // ---------- What a matrix says about the products ----------

  /** Radicands on the diagonal, numerators off it. */
  function KOf(m: Mat3): Symmetric {
    Symmetric(1.0 + m.m00 + m.m11 + m.m22, 1.0 + m.m00 - m.m11 - m.m22,
              1.0 + m.m11 - m.m00 - m.m22, 1.0 + m.m22 - m.m00 - m.m11,
              m.m21 - m.m12, m.m02 - m.m20, m.m10 - m.m01, m.m01 + m.m10, m.m02 + m.m20, m.m12 + m.m21)
  }

  function Scaled(k: Symmetric, f: real): Symmetric {
    Symmetric(f * k.ww, f * k.xx, f * k.yy, f * k.zz, f * k.wx, f * k.wy, f * k.wz, f * k.xy, f * k.xz, f * k.yz)
  }

  /** A matrix comes from a unit quaternion exactly when the products are a quarter of what the matrix says. */
  lemma MatrixOfOuter(q: Quat, m: Mat3)
    ensures q.IsUnit() && QuaternionToMat3(q) == m <==> Outer(q) == Scaled(KOf(m), 0.25)
  {
  }

  function Pivot(k: Symmetric, b: Branch): real {
    match b
    case PivotW => k.ww
    case PivotX => k.xx
    case PivotY => k.yy
    case PivotZ => k.zz
  }

  function PivotRow(k: Symmetric, b: Branch): Quat {
    match b
    case PivotW => Quat(k.wx, k.wy, k.wz, k.ww)
    case PivotX => Quat(k.xx, k.xy, k.xz, k.wx)
    case PivotY => Quat(k.xy, k.yy, k.yz, k.wy)
    case PivotZ => Quat(k.xz, k.yz, k.zz, k.wz)
  }

  lemma RadicandIsPivot(m: Mat3)
    ensures Radicand(m) == Pivot(KOf(m), Select(m))
  {
  }

  /** Whatever the matrix, the branch taken has a radicand of at least one: the four candidates add up to four, and
      when the first is small the largest of the other three is taken. */
  lemma RadicandIsAtLeastOne(m: Mat3)
    ensures Radicand(m) >= 1.0
  {
  }

  // ---------- The division ----------

  /** A product of two entries, against a multiple of the one across. */
  predicate Across(a: real, b: real, f: real, c: real) {
    a * b == f * c
  }

  /** Dividing the row by s gives q. */
  predicate Times(q: Quat, s: real, row: Quat) {
    Across(q.x, s, 1.0, row.x) && Across(q.y, s, 1.0, row.y) && Across(q.z, s, 1.0, row.z) && Across(q.w, s, 1.0, row.w)
  }

  lemma ZeroProduct(a: real, b: real)
    requires a * b == 0.0
    ensures a == 0.0 || b == 0.0
  {
  }

  lemma TwiceTheRoot(a: real, r: real)
    requires a >= 1.0 && r >= 0.0 && r * r == a
    ensures r * 2.0 > 0.0 && Across(r * 2.0, r * 2.0, 4.0, a)
  {
    assert r != 0.0;
  }

  lemma QuotientTimes(a: real, s: real)
    requires s != 0.0
    ensures Across(a / s, s, 1.0, a)
  {
  }

  lemma PivotTimes(kpp: real, s: real)
    requires Across(s, s, 4.0, kpp)
    ensures Across(0.25 * s, s, 1.0, kpp)
  {
  }

  /** No matrix makes the conversion divide by zero or take the root of a negative number. */
  lemma AlwaysAQuaternion(m: Mat3, root: real -> real)
    requires IsSquareRoot(root)
    ensures Mat3ToQuaternion(m, root).Some?
  {
    RadicandIsAtLeastOne(m);
    TwiceTheRoot(Radicand(m), root(Radicand(m)));
  }

  /** The conversion divides the pivot's row by twice the root. */
  lemma ConversionDividesRow(m: Mat3, root: real -> real)
    requires IsSquareRoot(root)
    ensures var r := Mat3ToQuaternion(m, root);
            r.Some? && Times(r.value, root(Radicand(m)) * 2.0, PivotRow(KOf(m), Select(m)))
  {
    hide Across, Select;
    RadicandIsAtLeastOne(m);
    RadicandIsPivot(m);
    var s := root(Radicand(m)) * 2.0;
    TwiceTheRoot(Radicand(m), root(Radicand(m)));
    PivotTimes(Radicand(m), s);
    QuotientTimes(m.m21 - m.m12, s);
    QuotientTimes(m.m02 - m.m20, s);
    QuotientTimes(m.m10 - m.m01, s);
    QuotientTimes(m.m01 + m.m10, s);
    QuotientTimes(m.m02 + m.m20, s);
    QuotientTimes(m.m12 + m.m21, s);
  }

  // ---------- From a unit quaternion and back ----------

  lemma OuterProducts(q: Quat)
    ensures var p := Outer(q);
            && Across(q.w, q.w, 1.0, p.ww) && Across(q.x, q.x, 1.0, p.xx)
            && Across(q.y, q.y, 1.0, p.yy) && Across(q.z, q.z, 1.0, p.zz)
            && Across(q.w, q.x, 1.0, p.wx) && Across(q.w, q.y, 1.0, p.wy) && Across(q.w, q.z, 1.0, p.wz)
            && Across(q.x, q.w, 1.0, p.wx) && Across(q.y, q.w, 1.0, p.wy) && Across(q.z, q.w, 1.0, p.wz)
            && Across(q.x, q.y, 1.0, p.xy) && Across(q.x, q.z, 1.0, p.xz) && Across(q.y, q.z, 1.0, p.yz)
            && Across(q.y, q.x, 1.0, p.xy) && Across(q.z, q.x, 1.0, p.xz) && Across(q.z, q.y, 1.0, p.yz)
  {
  }

  /** The pivot's row of the products is the quaternion times the pivot's component. */
  lemma RowOfOuter(q: Quat, b: Branch)
    ensures Times(q, Component(q, b), PivotRow(Outer(q), b))
    ensures Across(Component(q, b), Component(q, b), 1.0, Pivot(Outer(q), b))
  {
    hide Across, Outer;
    OuterProducts(q);
  }

  lemma QuarterParts(k: Symmetric, b: Branch)
    ensures var row := PivotRow(Scaled(k, 0.25), b);
            && Pivot(k, b) == 4.0 * Pivot(Scaled(k, 0.25), b)
            && PivotRow(k, b) == Quat(4.0 * row.x, 4.0 * row.y, 4.0 * row.z, 4.0 * row.w)
  {
  }

  /** The selected component of a unit quaternion is never zero: its square is at least a quarter, and the radicand is
      four times that. */
  lemma PivotIsNonZero(q: Quat)
    requires q.IsUnit()
    ensures var m := QuaternionToMat3(q);
            var c := Component(q, Select(m));
            c * c >= 0.25 && Radicand(m) == 4.0 * (c * c)
  {
    hide Outer, Scaled, KOf, Pivot, PivotRow, Select, Radicand, QuaternionToMat3, Component;
    var m := QuaternionToMat3(q);
    MatrixOfOuter(q, m);
    RadicandIsAtLeastOne(m);
    RadicandIsPivot(m);
    QuarterParts(KOf(m), Select(m));
    RowOfOuter(q, Select(m));
  }

  /** The non-negative root of (2c)^2 is 2|c|. */
  lemma RootOfSquare(c: real, r: real)
    requires r >= 0.0 && r * r == 4.0 * (c * c)
    ensures r == if c >= 0.0 then 2.0 * c else -2.0 * c
  {
    var d := if c >= 0.0 then 2.0 * c else -2.0 * c;
    assert (r - d) * (r + d) == r * r - d * d == 0.0;
    ZeroProduct(r - d, r + d);
  }

  /** A quotient by four times |c|, of four times the product of c and v. */
  lemma QuotientByPivot(r: real, s: real, c: real, v: real, cv: real)
    requires c != 0.0 && s == (if c > 0.0 then 4.0 * c else -4.0 * c)
    requires Across(v, c, 1.0, cv) && Across(r, s, 1.0, 4.0 * cv)
    ensures r == if c > 0.0 then v else -v
  {
    var t := if c > 0.0 then v else -v;
    assert (r - t) * s == 0.0;
    ZeroProduct(r - t, s);
  }

  lemma QuotientsByPivot(r: Quat, s: real, c: real, q: Quat, row: Quat)
    requires c != 0.0 && s == (if c > 0.0 then 4.0 * c else -4.0 * c)
    requires Times(q, c, row) && Times(r, s, Quat(4.0 * row.x, 4.0 * row.y, 4.0 * row.z, 4.0 * row.w))
    ensures r == if c > 0.0 then q else q.Neg()
  {
    hide Across;
    QuotientByPivot(r.x, s, c, q.x, row.x);
    QuotientByPivot(r.y, s, c, q.y, row.y);
    QuotientByPivot(r.z, s, c, q.z, row.z);
    QuotientByPivot(r.w, s, c, q.w, row.w);
  }

  lemma NotZero(c: real)
    requires c * c >= 0.25
    ensures c != 0.0
  {
  }

  /** Converting a unit quaternion to a matrix and back gives q or -q: q exactly when the pivot is positive. */
  lemma RoundTrip(q: Quat, root: real -> real)
    requires q.IsUnit() && IsSquareRoot(root)
    ensures var m := QuaternionToMat3(q);
            Mat3ToQuaternion(m, root) == Some(if Component(q, Select(m)) > 0.0 then q else q.Neg())
  {
    hide Outer, Scaled, KOf, PivotRow, Select, Radicand, QuaternionToMat3, Component, Mat3ToQuaternion, Across;
    var m := QuaternionToMat3(q);
    var c := Component(q, Select(m));
    PivotIsNonZero(q);
    NotZero(c);
    RootOfSquare(c, root(Radicand(m)));
    ConversionDividesRow(m, root);
    MatrixOfOuter(q, m);
    QuarterParts(KOf(m), Select(m));
    RowOfOuter(q, Select(m));
    QuotientsByPivot(Mat3ToQuaternion(m, root).value, root(Radicand(m)) * 2.0, c, q, PivotRow(Outer(q), Select(m)));
  }

  lemma NegatedProduct(a: real, b: real)
    ensures (-a) * (-b) == a * b
  {
  }

  lemma NegHasSameProducts(q: Quat)
    ensures Outer(q.Neg()) == Outer(q)
  {
    NegatedProduct(q.x, q.x);
    NegatedProduct(q.y, q.y);
    NegatedProduct(q.z, q.z);
    NegatedProduct(q.w, q.w);
    NegatedProduct(q.x, q.y);
    NegatedProduct(q.x, q.z);
    NegatedProduct(q.y, q.z);
    NegatedProduct(q.w, q.x);
    NegatedProduct(q.w, q.y);
    NegatedProduct(q.w, q.z);
  }

  /** q and -q are the same rotation. */
  lemma NegHasSameMatrix(q: Quat)
    ensures QuaternionToMat3(q.Neg()) == QuaternionToMat3(q)
  {
    hide Outer, MatrixFrom;
    NegHasSameProducts(q);
  }

  /** The matrix of a unit quaternion comes back exactly, whichever of q and -q it was turned into. */
  lemma MatrixRoundTrip(q: Quat, root: real -> real)
    requires q.IsUnit() && IsSquareRoot(root)
    ensures var r := Mat3ToQuaternion(QuaternionToMat3(q), root);
            r.Some? && QuaternionToMat3(r.value) == QuaternionToMat3(q)
  {
    hide QuaternionToMat3, Mat3ToQuaternion, Select;
    RoundTrip(q, root);
    NegHasSameMatrix(q);
  }
}
