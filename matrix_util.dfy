/**
 * Homogeneous 3x3 matrix algebra behind the image warp: adjugate, products,
 * the closed-form map from the canonical projective basis onto four points,
 * the perspective divide, and the quad-to-quad projective map normalised so
 * that its last entry is 1.
 */
module MatrixUtil {
  import opened Geometry

  /** A 3x3 matrix in row-major order: entry (i, j) is m[3 * i + j]. */
  type Matrix = m: seq<real> | |m| == 9 witness [1.0, 0.0, 0.0, 0.0, 1.0, 0.0, 0.0, 0.0, 1.0]

  /** A homogeneous 3-vector. */
  type Vector = v: seq<real> | |v| == 3 witness [0.0, 0.0, 0.0]

  const Identity: Matrix := [1.0, 0.0, 0.0, 0.0, 1.0, 0.0, 0.0, 0.0, 1.0]

  /** The canonical projective basis: the three unit vectors and their sum. */
  const E1: Vector := [1.0, 0.0, 0.0]
  const E2: Vector := [0.0, 1.0, 0.0]
  const E3: Vector := [0.0, 0.0, 1.0]
  const Ones: Vector := [1.0, 1.0, 1.0]

  /** The homogeneous coordinates (x, y, 1) of a planar point. */
  function Homogeneous(x: real, y: real): Vector { [x, y, 1.0] }

  function Det(m: Matrix): real {
    m[0] * (m[4] * m[8] - m[5] * m[7])
    - m[1] * (m[3] * m[8] - m[5] * m[6])
    + m[2] * (m[3] * m[7] - m[4] * m[6])
  }

  /** The adjugate (transposed cofactor matrix) of m. */
  function Adj(m: Matrix): Matrix {
    [
      m[4] * m[8] - m[5] * m[7], m[2] * m[7] - m[1] * m[8], m[1] * m[5] - m[2] * m[4],
      m[5] * m[6] - m[3] * m[8], m[0] * m[8] - m[2] * m[6], m[2] * m[3] - m[0] * m[5],
      m[3] * m[7] - m[4] * m[6], m[1] * m[6] - m[0] * m[7], m[0] * m[4] - m[1] * m[3]
    ]
  }

  /** Entry (i, j) of the matrix product a . b: row i of a against column j of b. */
  function RowCol(a: Matrix, b: Matrix, i: nat, j: nat): real
    requires i < 3 && j < 3
  {
    a[3 * i] * b[j] + a[3 * i + 1] * b[3 + j] + a[3 * i + 2] * b[6 + j]
  }

  /** The standard matrix product a . b. */
  function Product(a: Matrix, b: Matrix): Matrix {
    [
      RowCol(a, b, 0, 0), RowCol(a, b, 0, 1), RowCol(a, b, 0, 2),
      RowCol(a, b, 1, 0), RowCol(a, b, 1, 1), RowCol(a, b, 1, 2),
      RowCol(a, b, 2, 0), RowCol(a, b, 2, 1), RowCol(a, b, 2, 2)
    ]
  }

  /** Multiplication of every entry of a matrix by the scalar s. */
  function Scale(s: real, m: Matrix): Matrix {
    [s * m[0], s * m[1], s * m[2], s * m[3], s * m[4], s * m[5], s * m[6], s * m[7], s * m[8]]
  }

  /** Multiplication of every coordinate of a vector by the scalar s. */
  function ScaleVector(s: real, v: Vector): Vector {
    [s * v[0], s * v[1], s * v[2]]
  }

  /** The matrix-vector product m . v. */
  function MultMV(m: Matrix, v: Vector): Vector {
    [
      m[0] * v[0] + m[1] * v[1] + m[2] * v[2],
      m[3] * v[0] + m[4] * v[1] + m[5] * v[2],
      m[6] * v[0] + m[7] * v[1] + m[8] * v[2]
    ]
  }

  /**
   * multmm: the triple loop that fills the product entry by entry. The value
   * functions below use Product, which this method is proved to compute.
   */
  method MultMM(a: Matrix, b: Matrix) returns (c: Matrix)
    ensures c == Product(a, b)
  {
    var cells := new real[9];
    for i := 0 to 3
      invariant forall i', j' :: 0 <= i' < i && 0 <= j' < 3 ==> cells[3 * i' + j'] == RowCol(a, b, i', j')
    {
      for j := 0 to 3
        invariant forall i', j' :: 0 <= i' < i && 0 <= j' < 3 ==> cells[3 * i' + j'] == RowCol(a, b, i', j')
        invariant forall j' :: 0 <= j' < j ==> cells[3 * i + j'] == RowCol(a, b, i, j')
      {
        var cij := 0.0;
        for k := 0 to 3
          invariant cij == PartialDot(a, b, i, j, k)
        {
          cij := cij + a[3 * i + k] * b[3 * k + j];
        }
        cells[3 * i + j] := cij;
      }
    }
    c := cells[..];
    MatrixExt(c, Product(a, b));
  }

  /** The first k terms of row i of a against column j of b, added left to right. */
  function PartialDot(a: Matrix, b: Matrix, i: nat, j: nat, k: nat): real
    requires i < 3 && j < 3 && k <= 3
  {
    (if 0 < k then a[3 * i] * b[j] else 0.0)
    + (if 1 < k then a[3 * i + 1] * b[3 + j] else 0.0)
    + (if 2 < k then a[3 * i + 2] * b[6 + j] else 0.0)
  }

  /**
   * multsm: the loop that pushes s times each entry. The value functions below
   * use Scale, which this method is proved to compute.
   */
  method MultSM(s: real, m: Matrix) returns (r: Matrix)
    ensures r == Scale(s, m)
  {
    var pushed: seq<real> := [];
    for i := 0 to |m|
      invariant |pushed| == i
      invariant forall n :: 0 <= n < i ==> pushed[n] == s * m[n]
    {
      pushed := pushed + [s * m[i]];
    }
    r := pushed;
    MatrixExt(r, Scale(s, m));
  }

  /** The matrix whose columns are the homogeneous coordinates of three points. */
  function PointMatrix(x1: real, y1: real, x2: real, y2: real, x3: real, y3: real): Matrix {
    [x1, x2, x3, y1, y2, y3, 1.0, 1.0, 1.0]
  }

  /** The homogeneous weights that make the fourth point the sum of the first three. */
  function Weights(x1: real, y1: real, x2: real, y2: real, x3: real, y3: real, x4: real, y4: real): Vector {
    MultMV(Adj(PointMatrix(x1, y1, x2, y2, x3, y3)), Homogeneous(x4, y4))
  }

  function Diagonal(v: Vector): Matrix {
    [v[0], 0.0, 0.0, 0.0, v[1], 0.0, 0.0, 0.0, v[2]]
  }

  /** basisToPoints: the projective map taking the canonical basis onto four points. */
  function BasisToPoints(x1: real, y1: real, x2: real, y2: real, x3: real, y3: real, x4: real, y4: real): Matrix {
    var m := PointMatrix(x1, y1, x2, y2, x3, y3);
    var v := MultMV(Adj(m), Homogeneous(x4, y4));
    Product(m, Diagonal(v))
  }

  /**
   * project: homogeneous apply followed by the perspective divide. A zero
   * third coordinate (a point sent to infinity) gives None.
   */
  function Project(m: Matrix, x: real, y: real): (r: Option<Point>)
    ensures r.Some? <==> MultMV(m, Homogeneous(x, y))[2] != 0.0
    ensures r.Some? ==> var v := MultMV(m, Homogeneous(x, y));
      r.value.x * v[2] == v[0] && r.value.y * v[2] == v[1]
  {
    var v := MultMV(m, Homogeneous(x, y));
    if v[2] == 0.0 then None else Some(Point(v[0] / v[2], v[1] / v[2]))
  }

  /**
   * general2DProjection: basisToPoints(destination) . adj(basisToPoints(source)),
   * scaled so that entry 8 is 1. A zero entry 8 before scaling gives None.
   */
  function General2DProjection(
    x1s: real, y1s: real, x1d: real, y1d: real,
    x2s: real, y2s: real, x2d: real, y2d: real,
    x3s: real, y3s: real, x3d: real, y3d: real,
    x4s: real, y4s: real, x4d: real, y4d: real): Option<Matrix>
  {
    Normalise(UnnormalisedProjection(x1s, y1s, x1d, y1d, x2s, y2s, x2d, y2d, x3s, y3s, x3d, y3d, x4s, y4s, x4d, y4d))
  }

  /** The unique multiple of m whose entry 8 is 1, when there is one. */
  function Normalise(m: Matrix): (r: Option<Matrix>)
    ensures r.Some? <==> m[8] != 0.0
    ensures r.Some? ==> r.value[8] == 1.0 && Scale(m[8], r.value) == m
  {
    if m[8] == 0.0 then None
    else
      ScaleInverse(m[8], m);
      Some(Scale(1.0 / m[8], m))
  }

  lemma ScaleInverse(k: real, m: Matrix)
    requires k != 0.0
    ensures Scale(k, Scale(1.0 / k, m)) == m
  {
    var q := 1.0 / k;
    ReciprocalProduct(k, q);
    var r := Scale(k, Scale(q, m));
    forall i | 0 <= i < 9
      ensures r[i] == m[i]
    {
      InverseCancels(k, q, m[i]);
    }
    MatrixExt(r, m);
  }

  lemma ReciprocalProduct(k: real, q: real)
    requires k != 0.0 && q == 1.0 / k
    ensures k * q == 1.0
  {
  }

  lemma InverseCancels(k: real, q: real, x: real)
    requires k * q == 1.0
    ensures k * (q * x) == x
  {
    calc {
      k * (q * x);
      (k * q) * x;
    }
  }

  /** The quad-to-quad map before normalisation. */
  function UnnormalisedProjection(
    x1s: real, y1s: real, x1d: real, y1d: real,
    x2s: real, y2s: real, x2d: real, y2d: real,
    x3s: real, y3s: real, x3d: real, y3d: real,
    x4s: real, y4s: real, x4d: real, y4d: real): Matrix
  {
    var s := BasisToPoints(x1s, y1s, x2s, y2s, x3s, y3s, x4s, y4s);
    var d := BasisToPoints(x1d, y1d, x2d, y2d, x3d, y3d, x4d, y4d);
    Product(d, Adj(s))
  }

  // ---------------------------------------------------------------------
  // Non-degenerate quadruples

  /** Twice the signed area of the triangle abc; zero exactly when a, b, c are collinear. */
  function Cross(a: Point, b: Point, c: Point): real {
    (b.x - a.x) * (c.y - a.y) - (b.y - a.y) * (c.x - a.x)
  }

  /**
   * The closed form is well defined: the point matrix is invertible and no
   * homogeneous weight vanishes.
   */
  predicate NonDegenerate(p1: Point, p2: Point, p3: Point, p4: Point) {
    var m := PointMatrix(p1.x, p1.y, p2.x, p2.y, p3.x, p3.y);
    var v := Weights(p1.x, p1.y, p2.x, p2.y, p3.x, p3.y, p4.x, p4.y);
    Det(m) != 0.0 && v[0] != 0.0 && v[1] != 0.0 && v[2] != 0.0
  }

  predicate NoThreeCollinear(p1: Point, p2: Point, p3: Point, p4: Point) {
    Cross(p1, p2, p3) != 0.0 && Cross(p4, p2, p3) != 0.0
    && Cross(p1, p4, p3) != 0.0 && Cross(p1, p2, p4) != 0.0
  }

  /** The determinant and the weights are the signed areas of Cramer's rule. */
  lemma WeightsAreCrossProducts(p1: Point, p2: Point, p3: Point, p4: Point)
    ensures Det(PointMatrix(p1.x, p1.y, p2.x, p2.y, p3.x, p3.y)) == Cross(p1, p2, p3)
    ensures Weights(p1.x, p1.y, p2.x, p2.y, p3.x, p3.y, p4.x, p4.y)
      == [Cross(p4, p2, p3), Cross(p1, p4, p3), Cross(p1, p2, p4)]
  {
    var w := Weights(p1.x, p1.y, p2.x, p2.y, p3.x, p3.y, p4.x, p4.y);
    VectorExt(w, [Cross(p4, p2, p3), Cross(p1, p4, p3), Cross(p1, p2, p4)]);
  }

  /** The algebraic side condition is exactly "no three of the four points are collinear". */
  lemma NonDegenerateIffNoThreeCollinear(p1: Point, p2: Point, p3: Point, p4: Point)
    ensures NonDegenerate(p1, p2, p3, p4) <==> NoThreeCollinear(p1, p2, p3, p4)
  {
    WeightsAreCrossProducts(p1, p2, p3, p4);
  }

  // ---------------------------------------------------------------------
  // Algebra of the operations

  /** Vectors are equal when their three coordinates are. */
  lemma VectorExt(u: Vector, v: Vector)
    requires u[0] == v[0] && u[1] == v[1] && u[2] == v[2]
    ensures u == v
  {
    assert forall i | 0 <= i < 3 :: u[i] == v[i];
  }

  /** Matrices are equal when their nine entries are. */
  lemma MatrixExt(a: Matrix, b: Matrix)
    requires a[0] == b[0] && a[1] == b[1] && a[2] == b[2]
    requires a[3] == b[3] && a[4] == b[4] && a[5] == b[5]
    requires a[6] == b[6] && a[7] == b[7] && a[8] == b[8]
    ensures a == b
  {
    assert forall i | 0 <= i < 9 :: a[i] == b[i];
  }

  // Polynomial identities over plain reals. Every intermediate quantity is a
  // parameter tied to its definition by a requires, so that callers match
  // these facts against the entries of their sequences term by term.

  /** A row against (matrix . vector) equals (row . matrix) against the vector. */
  lemma RowAssociates(a0: real, a1: real, a2: real,
                      b0: real, b1: real, b2: real, b3: real, b4: real, b5: real, b6: real, b7: real, b8: real,
                      v0: real, v1: real, v2: real,
                      p0: real, p1: real, p2: real, w0: real, w1: real, w2: real)
    requires p0 == a0 * b0 + a1 * b3 + a2 * b6 && p1 == a0 * b1 + a1 * b4 + a2 * b7 && p2 == a0 * b2 + a1 * b5 + a2 * b8
    requires w0 == b0 * v0 + b1 * v1 + b2 * v2 && w1 == b3 * v0 + b4 * v1 + b5 * v2 && w2 == b6 * v0 + b7 * v1 + b8 * v2
    ensures p0 * v0 + p1 * v1 + p2 * v2 == a0 * w0 + a1 * w1 + a2 * w2
  {
  }

  /** A dot product whose left side is scaled by k is k times the dot product. */
  lemma DotScaledLeft(k: real, a0: real, a1: real, a2: real, b0: real, b1: real, b2: real,
                      s0: real, s1: real, s2: real, t: real, r: real)
    requires s0 == k * a0 && s1 == k * a1 && s2 == k * a2
    requires t == a0 * b0 + a1 * b1 + a2 * b2 && r == k * t
    ensures s0 * b0 + s1 * b1 + s2 * b2 == r
  {
  }

  /** A dot product whose right side is scaled by k is k times the dot product. */
  lemma DotScaledRight(k: real, a0: real, a1: real, a2: real, b0: real, b1: real, b2: real,
                       s0: real, s1: real, s2: real, t: real, r: real)
    requires s0 == k * b0 && s1 == k * b1 && s2 == k * b2
    requires t == a0 * b0 + a1 * b1 + a2 * b2 && r == k * t
    ensures a0 * s0 + a1 * s1 + a2 * s2 == r
  {
  }

  /** The adjugate applied to v, with the cofactors written out. */
  lemma AdjugateApplied(m0: real, m1: real, m2: real, m3: real, m4: real, m5: real, m6: real, m7: real, m8: real,
                        v0: real, v1: real, v2: real,
                        c0: real, c1: real, c2: real, c3: real, c4: real, c5: real, c6: real, c7: real, c8: real,
                        w0: real, w1: real, w2: real)
    requires c0 == m4 * m8 - m5 * m7 && c1 == m2 * m7 - m1 * m8 && c2 == m1 * m5 - m2 * m4
    requires c3 == m5 * m6 - m3 * m8 && c4 == m0 * m8 - m2 * m6 && c5 == m2 * m3 - m0 * m5
    requires c6 == m3 * m7 - m4 * m6 && c7 == m1 * m6 - m0 * m7 && c8 == m0 * m4 - m1 * m3
    requires w0 == c0 * v0 + c1 * v1 + c2 * v2 && w1 == c3 * v0 + c4 * v1 + c5 * v2 && w2 == c6 * v0 + c7 * v1 + c8 * v2
    ensures w0 == (m4 * m8 - m5 * m7) * v0 + (m2 * m7 - m1 * m8) * v1 + (m1 * m5 - m2 * m4) * v2
    ensures w1 == (m5 * m6 - m3 * m8) * v0 + (m0 * m8 - m2 * m6) * v1 + (m2 * m3 - m0 * m5) * v2
    ensures w2 == (m3 * m7 - m4 * m6) * v0 + (m1 * m6 - m0 * m7) * v1 + (m0 * m4 - m1 * m3) * v2
  {
  }

  // Row r of adj(m) . (m . v) == det(m) v, over plain reals.

  lemma CofactorAfter0(m0: real, m1: real, m2: real, m3: real, m4: real, m5: real, m6: real, m7: real, m8: real,
                         v0: real, v1: real, v2: real, c0: real, c1: real, c2: real,
                         w0: real, w1: real, w2: real, e: real)
    requires c0 == m4 * m8 - m5 * m7 && c1 == m2 * m7 - m1 * m8 && c2 == m1 * m5 - m2 * m4
    requires w0 == m0 * v0 + m1 * v1 + m2 * v2 && w1 == m3 * v0 + m4 * v1 + m5 * v2 && w2 == m6 * v0 + m7 * v1 + m8 * v2
    requires e == m0 * (m4 * m8 - m5 * m7) - m1 * (m3 * m8 - m5 * m6) + m2 * (m3 * m7 - m4 * m6)
    ensures c0 * w0 + c1 * w1 + c2 * w2 == e * v0
  {
  }

  lemma CofactorAfter1(m0: real, m1: real, m2: real, m3: real, m4: real, m5: real, m6: real, m7: real, m8: real,
                         v0: real, v1: real, v2: real, c3: real, c4: real, c5: real,
                         w0: real, w1: real, w2: real, e: real)
    requires c3 == m5 * m6 - m3 * m8 && c4 == m0 * m8 - m2 * m6 && c5 == m2 * m3 - m0 * m5
    requires w0 == m0 * v0 + m1 * v1 + m2 * v2 && w1 == m3 * v0 + m4 * v1 + m5 * v2 && w2 == m6 * v0 + m7 * v1 + m8 * v2
    requires e == m0 * (m4 * m8 - m5 * m7) - m1 * (m3 * m8 - m5 * m6) + m2 * (m3 * m7 - m4 * m6)
    ensures c3 * w0 + c4 * w1 + c5 * w2 == e * v1
  {
  }

  lemma CofactorAfter2(m0: real, m1: real, m2: real, m3: real, m4: real, m5: real, m6: real, m7: real, m8: real,
                         v0: real, v1: real, v2: real, c6: real, c7: real, c8: real,
                         w0: real, w1: real, w2: real, e: real)
    requires c6 == m3 * m7 - m4 * m6 && c7 == m1 * m6 - m0 * m7 && c8 == m0 * m4 - m1 * m3
    requires w0 == m0 * v0 + m1 * v1 + m2 * v2 && w1 == m3 * v0 + m4 * v1 + m5 * v2 && w2 == m6 * v0 + m7 * v1 + m8 * v2
    requires e == m0 * (m4 * m8 - m5 * m7) - m1 * (m3 * m8 - m5 * m6) + m2 * (m3 * m7 - m4 * m6)
    ensures c6 * w0 + c7 * w1 + c8 * w2 == e * v2
  {
  }

  // Row r of m . (adj(m) . v) == det(m) v, over plain reals.

  lemma CofactorBefore0(m0: real, m1: real, m2: real, m3: real, m4: real, m5: real, m6: real, m7: real, m8: real,
                          v0: real, v1: real, v2: real, w0: real, w1: real, w2: real, e: real)
    requires w0 == (m4 * m8 - m5 * m7) * v0 + (m2 * m7 - m1 * m8) * v1 + (m1 * m5 - m2 * m4) * v2
    requires w1 == (m5 * m6 - m3 * m8) * v0 + (m0 * m8 - m2 * m6) * v1 + (m2 * m3 - m0 * m5) * v2
    requires w2 == (m3 * m7 - m4 * m6) * v0 + (m1 * m6 - m0 * m7) * v1 + (m0 * m4 - m1 * m3) * v2
    requires e == m0 * (m4 * m8 - m5 * m7) - m1 * (m3 * m8 - m5 * m6) + m2 * (m3 * m7 - m4 * m6)
    ensures m0 * w0 + m1 * w1 + m2 * w2 == e * v0
  {
  }

  lemma CofactorBefore1(m0: real, m1: real, m2: real, m3: real, m4: real, m5: real, m6: real, m7: real, m8: real,
                          v0: real, v1: real, v2: real, w0: real, w1: real, w2: real, e: real)
    requires w0 == (m4 * m8 - m5 * m7) * v0 + (m2 * m7 - m1 * m8) * v1 + (m1 * m5 - m2 * m4) * v2
    requires w1 == (m5 * m6 - m3 * m8) * v0 + (m0 * m8 - m2 * m6) * v1 + (m2 * m3 - m0 * m5) * v2
    requires w2 == (m3 * m7 - m4 * m6) * v0 + (m1 * m6 - m0 * m7) * v1 + (m0 * m4 - m1 * m3) * v2
    requires e == m0 * (m4 * m8 - m5 * m7) - m1 * (m3 * m8 - m5 * m6) + m2 * (m3 * m7 - m4 * m6)
    ensures m3 * w0 + m4 * w1 + m5 * w2 == e * v1
  {
  }

  lemma CofactorBefore2(m0: real, m1: real, m2: real, m3: real, m4: real, m5: real, m6: real, m7: real, m8: real,
                          v0: real, v1: real, v2: real, w0: real, w1: real, w2: real, e: real)
    requires w0 == (m4 * m8 - m5 * m7) * v0 + (m2 * m7 - m1 * m8) * v1 + (m1 * m5 - m2 * m4) * v2
    requires w1 == (m5 * m6 - m3 * m8) * v0 + (m0 * m8 - m2 * m6) * v1 + (m2 * m3 - m0 * m5) * v2
    requires w2 == (m3 * m7 - m4 * m6) * v0 + (m1 * m6 - m0 * m7) * v1 + (m0 * m4 - m1 * m3) * v2
    requires e == m0 * (m4 * m8 - m5 * m7) - m1 * (m3 * m8 - m5 * m6) + m2 * (m3 * m7 - m4 * m6)
    ensures m6 * w0 + m7 * w1 + m8 * w2 == e * v2
  {
  }

  lemma AdjugateBefore0(m0: real, m1: real, m2: real, m3: real, m4: real, m5: real, m6: real, m7: real, m8: real,
                          v0: real, v1: real, v2: real,
                          c0: real, c1: real, c2: real, c3: real, c4: real, c5: real, c6: real, c7: real, c8: real,
                          w0: real, w1: real, w2: real, e: real)
    requires c0 == m4 * m8 - m5 * m7 && c1 == m2 * m7 - m1 * m8 && c2 == m1 * m5 - m2 * m4
    requires c3 == m5 * m6 - m3 * m8 && c4 == m0 * m8 - m2 * m6 && c5 == m2 * m3 - m0 * m5
    requires c6 == m3 * m7 - m4 * m6 && c7 == m1 * m6 - m0 * m7 && c8 == m0 * m4 - m1 * m3
    requires w0 == c0 * v0 + c1 * v1 + c2 * v2 && w1 == c3 * v0 + c4 * v1 + c5 * v2 && w2 == c6 * v0 + c7 * v1 + c8 * v2
    requires e == m0 * (m4 * m8 - m5 * m7) - m1 * (m3 * m8 - m5 * m6) + m2 * (m3 * m7 - m4 * m6)
    ensures m0 * w0 + m1 * w1 + m2 * w2 == e * v0
  {
    AdjugateApplied(m0, m1, m2, m3, m4, m5, m6, m7, m8, v0, v1, v2, c0, c1, c2, c3, c4, c5, c6, c7, c8, w0, w1, w2);
    CofactorBefore0(m0, m1, m2, m3, m4, m5, m6, m7, m8, v0, v1, v2, w0, w1, w2, e);
  }

  lemma AdjugateBefore1(m0: real, m1: real, m2: real, m3: real, m4: real, m5: real, m6: real, m7: real, m8: real,
                          v0: real, v1: real, v2: real,
                          c0: real, c1: real, c2: real, c3: real, c4: real, c5: real, c6: real, c7: real, c8: real,
                          w0: real, w1: real, w2: real, e: real)
    requires c0 == m4 * m8 - m5 * m7 && c1 == m2 * m7 - m1 * m8 && c2 == m1 * m5 - m2 * m4
    requires c3 == m5 * m6 - m3 * m8 && c4 == m0 * m8 - m2 * m6 && c5 == m2 * m3 - m0 * m5
    requires c6 == m3 * m7 - m4 * m6 && c7 == m1 * m6 - m0 * m7 && c8 == m0 * m4 - m1 * m3
    requires w0 == c0 * v0 + c1 * v1 + c2 * v2 && w1 == c3 * v0 + c4 * v1 + c5 * v2 && w2 == c6 * v0 + c7 * v1 + c8 * v2
    requires e == m0 * (m4 * m8 - m5 * m7) - m1 * (m3 * m8 - m5 * m6) + m2 * (m3 * m7 - m4 * m6)
    ensures m3 * w0 + m4 * w1 + m5 * w2 == e * v1
  {
    AdjugateApplied(m0, m1, m2, m3, m4, m5, m6, m7, m8, v0, v1, v2, c0, c1, c2, c3, c4, c5, c6, c7, c8, w0, w1, w2);
    CofactorBefore1(m0, m1, m2, m3, m4, m5, m6, m7, m8, v0, v1, v2, w0, w1, w2, e);
  }

  lemma AdjugateBefore2(m0: real, m1: real, m2: real, m3: real, m4: real, m5: real, m6: real, m7: real, m8: real,
                          v0: real, v1: real, v2: real,
                          c0: real, c1: real, c2: real, c3: real, c4: real, c5: real, c6: real, c7: real, c8: real,
                          w0: real, w1: real, w2: real, e: real)
    requires c0 == m4 * m8 - m5 * m7 && c1 == m2 * m7 - m1 * m8 && c2 == m1 * m5 - m2 * m4
    requires c3 == m5 * m6 - m3 * m8 && c4 == m0 * m8 - m2 * m6 && c5 == m2 * m3 - m0 * m5
    requires c6 == m3 * m7 - m4 * m6 && c7 == m1 * m6 - m0 * m7 && c8 == m0 * m4 - m1 * m3
    requires w0 == c0 * v0 + c1 * v1 + c2 * v2 && w1 == c3 * v0 + c4 * v1 + c5 * v2 && w2 == c6 * v0 + c7 * v1 + c8 * v2
    requires e == m0 * (m4 * m8 - m5 * m7) - m1 * (m3 * m8 - m5 * m6) + m2 * (m3 * m7 - m4 * m6)
    ensures m6 * w0 + m7 * w1 + m8 * w2 == e * v2
  {
    AdjugateApplied(m0, m1, m2, m3, m4, m5, m6, m7, m8, v0, v1, v2, c0, c1, c2, c3, c4, c5, c6, c7, c8, w0, w1, w2);
    CofactorBefore2(m0, m1, m2, m3, m4, m5, m6, m7, m8, v0, v1, v2, w0, w1, w2, e);
  }

  // Matrix facts.

  /** Applying a product is applying its factors in turn. */
  lemma ProductApply(a: Matrix, b: Matrix, v: Vector)
    ensures MultMV(Product(a, b), v) == MultMV(a, MultMV(b, v))
  {
    ProductApplyAt(a, b, v, 0);
    ProductApplyAt(a, b, v, 1);
    ProductApplyAt(a, b, v, 2);
    VectorExt(MultMV(Product(a, b), v), MultMV(a, MultMV(b, v)));
  }

  lemma ProductApplyAt(a: Matrix, b: Matrix, v: Vector, r: nat)
    requires r < 3
    ensures MultMV(Product(a, b), v)[r] == MultMV(a, MultMV(b, v))[r]
  {
    var p, w := Product(a, b), MultMV(b, v);
    if r == 0 {
      RowAssociates(a[0], a[1], a[2], b[0], b[1], b[2], b[3], b[4], b[5], b[6], b[7], b[8],
                    v[0], v[1], v[2], p[0], p[1], p[2], w[0], w[1], w[2]);
    } else if r == 1 {
      RowAssociates(a[3], a[4], a[5], b[0], b[1], b[2], b[3], b[4], b[5], b[6], b[7], b[8],
                    v[0], v[1], v[2], p[3], p[4], p[5], w[0], w[1], w[2]);
    } else {
      RowAssociates(a[6], a[7], a[8], b[0], b[1], b[2], b[3], b[4], b[5], b[6], b[7], b[8],
                    v[0], v[1], v[2], p[6], p[7], p[8], w[0], w[1], w[2]);
    }
  }

  /** Applying is linear in the vector. */
  lemma ApplyScaled(m: Matrix, k: real, v: Vector)
    ensures MultMV(m, ScaleVector(k, v)) == ScaleVector(k, MultMV(m, v))
  {
    ApplyScaledAt0(m, k, v);
    ApplyScaledAt1(m, k, v);
    ApplyScaledAt2(m, k, v);
    VectorExt(MultMV(m, ScaleVector(k, v)), ScaleVector(k, MultMV(m, v)));
  }

  lemma ApplyScaledAt0(m: Matrix, k: real, v: Vector)
    ensures MultMV(m, ScaleVector(k, v))[0] == ScaleVector(k, MultMV(m, v))[0]
  {
    var u, t := ScaleVector(k, v), MultMV(m, v);
    var kt := ScaleVector(k, t);
    DotScaledRight(k, m[0], m[1], m[2], v[0], v[1], v[2], u[0], u[1], u[2], t[0], kt[0]);
  }

  lemma ApplyScaledAt1(m: Matrix, k: real, v: Vector)
    ensures MultMV(m, ScaleVector(k, v))[1] == ScaleVector(k, MultMV(m, v))[1]
  {
    var u, t := ScaleVector(k, v), MultMV(m, v);
    var kt := ScaleVector(k, t);
    DotScaledRight(k, m[3], m[4], m[5], v[0], v[1], v[2], u[0], u[1], u[2], t[1], kt[1]);
  }

  lemma ApplyScaledAt2(m: Matrix, k: real, v: Vector)
    ensures MultMV(m, ScaleVector(k, v))[2] == ScaleVector(k, MultMV(m, v))[2]
  {
    var u, t := ScaleVector(k, v), MultMV(m, v);
    var kt := ScaleVector(k, t);
    DotScaledRight(k, m[6], m[7], m[8], v[0], v[1], v[2], u[0], u[1], u[2], t[2], kt[2]);
  }

  /** Applying is linear in the matrix. */
  lemma ScaledApply(k: real, m: Matrix, v: Vector)
    ensures MultMV(Scale(k, m), v) == ScaleVector(k, MultMV(m, v))
  {
    ScaleIsProduct(k, m);
    ProductApply(Scale(k, Identity), m, v);
    ScaledIdentityApply(k, MultMV(m, v));
  }

  /** Scaling a matrix is multiplying it on the left by a scaled identity. */
  lemma ScaleIsProduct(k: real, m: Matrix)
    ensures Scale(k, m) == Product(Scale(k, Identity), m)
  {
    MatrixExt(Scale(k, m), Product(Scale(k, Identity), m));
  }

  lemma ScaleScale(a: real, b: real, v: Vector)
    ensures ScaleVector(a, ScaleVector(b, v)) == ScaleVector(a * b, v)
  {
    VectorExt(ScaleVector(a, ScaleVector(b, v)), ScaleVector(a * b, v));
  }

  /** adj(m) . m . v == det(m) v */
  lemma AdjugateLeft(m: Matrix, v: Vector)
    ensures MultMV(Adj(m), MultMV(m, v)) == ScaleVector(Det(m), v)
  {
    AdjugateLeftAt0(m, v);
    AdjugateLeftAt1(m, v);
    AdjugateLeftAt2(m, v);
    VectorExt(MultMV(Adj(m), MultMV(m, v)), ScaleVector(Det(m), v));
  }

  lemma AdjugateLeftAt0(m: Matrix, v: Vector)
    ensures MultMV(Adj(m), MultMV(m, v))[0] == ScaleVector(Det(m), v)[0]
  {
    var c, w := Adj(m), MultMV(m, v);
    CofactorAfter0(m[0], m[1], m[2], m[3], m[4], m[5], m[6], m[7], m[8], v[0], v[1], v[2],
                   c[0], c[1], c[2], w[0], w[1], w[2], Det(m));
  }

  lemma AdjugateLeftAt1(m: Matrix, v: Vector)
    ensures MultMV(Adj(m), MultMV(m, v))[1] == ScaleVector(Det(m), v)[1]
  {
    var c, w := Adj(m), MultMV(m, v);
    CofactorAfter1(m[0], m[1], m[2], m[3], m[4], m[5], m[6], m[7], m[8], v[0], v[1], v[2],
                   c[3], c[4], c[5], w[0], w[1], w[2], Det(m));
  }

  lemma AdjugateLeftAt2(m: Matrix, v: Vector)
    ensures MultMV(Adj(m), MultMV(m, v))[2] == ScaleVector(Det(m), v)[2]
  {
    var c, w := Adj(m), MultMV(m, v);
    CofactorAfter2(m[0], m[1], m[2], m[3], m[4], m[5], m[6], m[7], m[8], v[0], v[1], v[2],
                   c[6], c[7], c[8], w[0], w[1], w[2], Det(m));
  }

  /** m . adj(m) . v == det(m) v */
  lemma AdjugateRight(m: Matrix, v: Vector)
    ensures MultMV(m, MultMV(Adj(m), v)) == ScaleVector(Det(m), v)
  {
    AdjugateRightAt0(m, v);
    AdjugateRightAt1(m, v);
    AdjugateRightAt2(m, v);
    VectorExt(MultMV(m, MultMV(Adj(m), v)), ScaleVector(Det(m), v));
  }

  lemma AdjugateRightAt0(m: Matrix, v: Vector)
    ensures MultMV(m, MultMV(Adj(m), v))[0] == ScaleVector(Det(m), v)[0]
  {
    var c := Adj(m);
    var w := MultMV(c, v);
    AdjugateBefore0(m[0], m[1], m[2], m[3], m[4], m[5], m[6], m[7], m[8], v[0], v[1], v[2],
                     c[0], c[1], c[2], c[3], c[4], c[5], c[6], c[7], c[8], w[0], w[1], w[2], Det(m));
  }

  lemma AdjugateRightAt1(m: Matrix, v: Vector)
    ensures MultMV(m, MultMV(Adj(m), v))[1] == ScaleVector(Det(m), v)[1]
  {
    var c := Adj(m);
    var w := MultMV(c, v);
    AdjugateBefore1(m[0], m[1], m[2], m[3], m[4], m[5], m[6], m[7], m[8], v[0], v[1], v[2],
                     c[0], c[1], c[2], c[3], c[4], c[5], c[6], c[7], c[8], w[0], w[1], w[2], Det(m));
  }

  lemma AdjugateRightAt2(m: Matrix, v: Vector)
    ensures MultMV(m, MultMV(Adj(m), v))[2] == ScaleVector(Det(m), v)[2]
  {
    var c := Adj(m);
    var w := MultMV(c, v);
    AdjugateBefore2(m[0], m[1], m[2], m[3], m[4], m[5], m[6], m[7], m[8], v[0], v[1], v[2],
                     c[0], c[1], c[2], c[3], c[4], c[5], c[6], c[7], c[8], w[0], w[1], w[2], Det(m));
  }

  /** Column j of a matrix is its image of the j-th unit vector. */
  lemma ColumnsDetermine(a: Matrix, b: Matrix)
    requires MultMV(a, [1.0, 0.0, 0.0]) == MultMV(b, [1.0, 0.0, 0.0])
    requires MultMV(a, [0.0, 1.0, 0.0]) == MultMV(b, [0.0, 1.0, 0.0])
    requires MultMV(a, [0.0, 0.0, 1.0]) == MultMV(b, [0.0, 0.0, 1.0])
    ensures a == b
  {
    assert MultMV(a, [1.0, 0.0, 0.0])[0] == a[0] && MultMV(b, [1.0, 0.0, 0.0])[0] == b[0];
    assert MultMV(a, [1.0, 0.0, 0.0])[1] == a[3] && MultMV(b, [1.0, 0.0, 0.0])[1] == b[3];
    assert MultMV(a, [1.0, 0.0, 0.0])[2] == a[6] && MultMV(b, [1.0, 0.0, 0.0])[2] == b[6];
    assert MultMV(a, [0.0, 1.0, 0.0])[0] == a[1] && MultMV(b, [0.0, 1.0, 0.0])[0] == b[1];
    assert MultMV(a, [0.0, 1.0, 0.0])[1] == a[4] && MultMV(b, [0.0, 1.0, 0.0])[1] == b[4];
    assert MultMV(a, [0.0, 1.0, 0.0])[2] == a[7] && MultMV(b, [0.0, 1.0, 0.0])[2] == b[7];
    assert MultMV(a, [0.0, 0.0, 1.0])[0] == a[2] && MultMV(b, [0.0, 0.0, 1.0])[0] == b[2];
    assert MultMV(a, [0.0, 0.0, 1.0])[1] == a[5] && MultMV(b, [0.0, 0.0, 1.0])[1] == b[5];
    assert MultMV(a, [0.0, 0.0, 1.0])[2] == a[8] && MultMV(b, [0.0, 0.0, 1.0])[2] == b[8];
    MatrixExt(a, b);
  }

  /** Scaling the identity, applied to v, scales v. */
  lemma ScaledIdentityApply(d: real, v: Vector)
    ensures MultMV(Scale(d, Identity), v) == ScaleVector(d, v)
  {
    VectorExt(MultMV(Scale(d, Identity), v), ScaleVector(d, v));
  }

  /** adj is the classical adjugate: m . adj(m) == adj(m) . m == det(m) I. */
  lemma AdjugateIdentity(m: Matrix)
    ensures Product(m, Adj(m)) == Scale(Det(m), Identity)
    ensures Product(Adj(m), m) == Scale(Det(m), Identity)
  {
    var di := Scale(Det(m), Identity);
    var units: seq<Vector> := [[1.0, 0.0, 0.0], [0.0, 1.0, 0.0], [0.0, 0.0, 1.0]];
    forall e | e in units
      ensures MultMV(Product(m, Adj(m)), e) == MultMV(di, e)
      ensures MultMV(Product(Adj(m), m), e) == MultMV(di, e)
    {
      ProductApply(m, Adj(m), e);
      AdjugateRight(m, e);
      ProductApply(Adj(m), m, e);
      AdjugateLeft(m, e);
      ScaledIdentityApply(Det(m), e);
    }
    ColumnsDetermine(Product(m, Adj(m)), di);
    ColumnsDetermine(Product(Adj(m), m), di);
  }

  // ---------------------------------------------------------------------
  // basisToPoints and general2DProjection

  // Point-argument forms of Homogeneous, BasisToPoints, Weights and the point
  // matrix's determinant: the same quantities, taking Points so that the
  // correspondence lemmas below can name a quadruple in one argument list.

  /** Homogeneous, for a Point. */
  function Lift(p: Point): Vector { Homogeneous(p.x, p.y) }

  /** BasisToPoints, for four Points. */
  function Basis(p1: Point, p2: Point, p3: Point, p4: Point): Matrix {
    BasisToPoints(p1.x, p1.y, p2.x, p2.y, p3.x, p3.y, p4.x, p4.y)
  }

  /** Weights, for four Points. */
  function WeightsOf(p1: Point, p2: Point, p3: Point, p4: Point): Vector {
    Weights(p1.x, p1.y, p2.x, p2.y, p3.x, p3.y, p4.x, p4.y)
  }

  /** The determinant of the point matrix, for three Points. */
  function DetOf(p1: Point, p2: Point, p3: Point): real {
    Det(PointMatrix(p1.x, p1.y, p2.x, p2.y, p3.x, p3.y))
  }

  /** A diagonal matrix scales each unit vector by its diagonal entry. */
  lemma DiagonalApply(w: Vector)
    ensures MultMV(Diagonal(w), E1) == ScaleVector(w[0], E1)
    ensures MultMV(Diagonal(w), E2) == ScaleVector(w[1], E2)
    ensures MultMV(Diagonal(w), E3) == ScaleVector(w[2], E3)
    ensures MultMV(Diagonal(w), Ones) == w
  {
    VectorExt(MultMV(Diagonal(w), E1), ScaleVector(w[0], E1));
    VectorExt(MultMV(Diagonal(w), E2), ScaleVector(w[1], E2));
    VectorExt(MultMV(Diagonal(w), E3), ScaleVector(w[2], E3));
    VectorExt(MultMV(Diagonal(w), Ones), w);
  }

  /** The point matrix sends each unit vector to the corresponding point. */
  lemma PointMatrixApply(p1: Point, p2: Point, p3: Point)
    ensures MultMV(PointMatrix(p1.x, p1.y, p2.x, p2.y, p3.x, p3.y), E1) == Lift(p1)
    ensures MultMV(PointMatrix(p1.x, p1.y, p2.x, p2.y, p3.x, p3.y), E2) == Lift(p2)
    ensures MultMV(PointMatrix(p1.x, p1.y, p2.x, p2.y, p3.x, p3.y), E3) == Lift(p3)
  {
    var m := PointMatrix(p1.x, p1.y, p2.x, p2.y, p3.x, p3.y);
    VectorExt(MultMV(m, E1), Lift(p1));
    VectorExt(MultMV(m, E2), Lift(p2));
    VectorExt(MultMV(m, E3), Lift(p3));
  }

  /** The image of a unit vector whose diagonal factor is wi. */
  lemma BasisUnitImage(m: Matrix, w: Vector, e: Vector, wi: real, p: Point)
    requires MultMV(Diagonal(w), e) == ScaleVector(wi, e)
    requires MultMV(m, e) == Lift(p)
    ensures MultMV(Product(m, Diagonal(w)), e) == ScaleVector(wi, Lift(p))
  {
    ProductApply(m, Diagonal(w), e);
    ApplyScaled(m, wi, e);
  }

  /**
   * basisToPoints sends e1, e2, e3 to the homogeneous points p1, p2, p3 scaled by
   * their weights, and (1, 1, 1) to p4 scaled by the determinant of the point matrix.
   */
  lemma BasisImages(p1: Point, p2: Point, p3: Point, p4: Point)
    ensures MultMV(Basis(p1, p2, p3, p4), E1) == ScaleVector(WeightsOf(p1, p2, p3, p4)[0], Lift(p1))
    ensures MultMV(Basis(p1, p2, p3, p4), E2) == ScaleVector(WeightsOf(p1, p2, p3, p4)[1], Lift(p2))
    ensures MultMV(Basis(p1, p2, p3, p4), E3) == ScaleVector(WeightsOf(p1, p2, p3, p4)[2], Lift(p3))
    ensures MultMV(Basis(p1, p2, p3, p4), Ones) == ScaleVector(DetOf(p1, p2, p3), Lift(p4))
  {
    var m := PointMatrix(p1.x, p1.y, p2.x, p2.y, p3.x, p3.y);
    var w := WeightsOf(p1, p2, p3, p4);
    DiagonalApply(w);
    PointMatrixApply(p1, p2, p3);
    BasisUnitImage(m, w, E1, w[0], p1);
    BasisUnitImage(m, w, E2, w[1], p2);
    BasisUnitImage(m, w, E3, w[2], p3);
    ProductApply(m, Diagonal(w), Ones);
    AdjugateRight(m, Lift(p4));
  }

  /** The determinant of m . diag(w) is det(m) w0 w1 w2, over plain reals. */
  lemma DetColumnsScaled(m0: real, m1: real, m2: real, m3: real, m4: real, m5: real, m6: real, m7: real, m8: real,
                         w0: real, w1: real, w2: real,
                         p0: real, p1: real, p2: real, p3: real, p4: real, p5: real, p6: real, p7: real, p8: real,
                         dm: real, dp: real)
    requires p0 == m0 * w0 && p1 == m1 * w1 && p2 == m2 * w2
    requires p3 == m3 * w0 && p4 == m4 * w1 && p5 == m5 * w2
    requires p6 == m6 * w0 && p7 == m7 * w1 && p8 == m8 * w2
    requires dm == m0 * (m4 * m8 - m5 * m7) - m1 * (m3 * m8 - m5 * m6) + m2 * (m3 * m7 - m4 * m6)
    requires dp == p0 * (p4 * p8 - p5 * p7) - p1 * (p3 * p8 - p5 * p6) + p2 * (p3 * p7 - p4 * p6)
    ensures dp == dm * (w0 * w1 * w2)
  {
  }

  /** det(m . diag(w)) == det(m) w0 w1 w2 */
  lemma DetTimesDiagonal(m: Matrix, w: Vector)
    ensures Det(Product(m, Diagonal(w))) == Det(m) * (w[0] * w[1] * w[2])
  {
    var b := Product(m, Diagonal(w));
    DetColumnsScaled(m[0], m[1], m[2], m[3], m[4], m[5], m[6], m[7], m[8], w[0], w[1], w[2],
                     b[0], b[1], b[2], b[3], b[4], b[5], b[6], b[7], b[8], Det(m), Det(b));
  }

  lemma NonzeroProduct(a: real, b: real)
    requires a != 0.0 && b != 0.0
    ensures a * b != 0.0
  {
  }

  /** An invertible matrix times an invertible diagonal is invertible. */
  lemma DiagonalKeepsInvertible(m: Matrix, w: Vector)
    requires Det(m) != 0.0 && w[0] != 0.0 && w[1] != 0.0 && w[2] != 0.0
    ensures Det(Product(m, Diagonal(w))) != 0.0
  {
    DetTimesDiagonal(m, w);
    NonzeroProduct(w[0], w[1]);
    NonzeroProduct(w[0] * w[1], w[2]);
    NonzeroProduct(Det(m), w[0] * w[1] * w[2]);
  }

  /** Non-degenerate quadruples give an invertible basisToPoints matrix. */
  lemma BasisInvertible(p1: Point, p2: Point, p3: Point, p4: Point)
    requires NonDegenerate(p1, p2, p3, p4)
    ensures Det(Basis(p1, p2, p3, p4)) != 0.0
  {
    var m, w := PointMatrix(p1.x, p1.y, p2.x, p2.y, p3.x, p3.y), WeightsOf(p1, p2, p3, p4);
    assert Basis(p1, p2, p3, p4) == Product(m, Diagonal(w));
    DiagonalKeepsInvertible(m, w);
  }

  /** x / y, kept as a named quantity in the lemmas that carry points through. */
  function Ratio(x: real, y: real): real
    requires y != 0.0
  {
    x / y
  }

  /** Scaling by a and then by 1/a is the identity. */
  lemma Unscale(a: real, x: Vector, y: Vector)
    requires a != 0.0 && ScaleVector(a, x) == y
    ensures x == ScaleVector(1.0 / a, y)
  {
    var z := ScaleVector(1.0 / a, y);
    Divide(a, x[0], y[0], z[0]);
    Divide(a, x[1], y[1], z[1]);
    Divide(a, x[2], y[2], z[2]);
    VectorExt(x, z);
  }

  /** From a x == d e with a != 0 follows x == (d / a) e. */
  lemma UnscaleTo(a: real, d: real, x: Vector, e: Vector)
    requires a != 0.0 && ScaleVector(a, x) == ScaleVector(d, e)
    ensures x == ScaleVector(Ratio(d, a), e)
  {
    var c := 1.0 / a;
    Unscale(a, x, ScaleVector(d, e));
    ScaleScale(c, d, e);
    assert c * d == Ratio(d, a);
  }

  lemma Divide(a: real, x: real, y: real, z: real)
    requires a != 0.0 && y == a * x && z == (1.0 / a) * y
    ensures x == z
  {
  }

  /** If m sends e to a multiple a q (a != 0), then adj(m) sends q to det(m)/a times e. */
  lemma AdjugatePreimage(m: Matrix, e: Vector, a: real, q: Vector)
    requires a != 0.0 && MultMV(m, e) == ScaleVector(a, q)
    ensures MultMV(Adj(m), q) == ScaleVector(Ratio(Det(m), a), e)
  {
    var x := MultMV(Adj(m), q);
    var y := ScaleVector(Det(m), e);
    calc {
      ScaleVector(a, x);
      { ApplyScaled(Adj(m), a, q); }
      MultMV(Adj(m), ScaleVector(a, q));
      { AdjugateLeft(m, e); }
      y;
    }
    UnscaleTo(a, Det(m), x, e);
  }

  /** The composite d . adj(s) carries src to a multiple of dst through the basis vector e. */
  lemma CarriesThrough(s: Matrix, d: Matrix, src: Vector, e: Vector, dst: Vector, c: real, b: real)
    requires MultMV(Adj(s), src) == ScaleVector(c, e)
    requires MultMV(d, e) == ScaleVector(b, dst)
    ensures MultMV(Product(d, Adj(s)), src) == ScaleVector(c * b, dst)
  {
    ProductApply(d, Adj(s), src);
    ApplyScaled(d, c, e);
    ScaleScale(c, b, dst);
  }

  /** The perspective divide of a nonzero multiple of (x, y, 1) is (x, y). */
  lemma ProjectMultiple(m: Matrix, p: Point, q: Point, k: real)
    requires k != 0.0 && MultMV(m, Lift(p)) == ScaleVector(k, Lift(q))
    ensures Project(m, p.x, p.y) == Some(q)
  {
    var v := MultMV(m, Lift(p));
    assert v[0] == k * q.x && v[1] == k * q.y && v[2] == k * 1.0;
    QuotientOfMultiple(k, q.x, v[0], v[2]);
    QuotientOfMultiple(k, q.y, v[1], v[2]);
  }

  lemma QuotientOfMultiple(k: real, x: real, a: real, b: real)
    requires k != 0.0 && a == k * x && b == k * 1.0
    ensures a / b == x
  {
  }

  /** Normalising by a nonzero entry 8 keeps the image a nonzero multiple. */
  lemma NormalisedCarries(u: Matrix, p: Point, q: Point, k: real)
    requires u[8] != 0.0 && k != 0.0 && MultMV(u, Lift(p)) == ScaleVector(k, Lift(q))
    ensures Project(Scale(1.0 / u[8], u), p.x, p.y) == Some(q)
  {
    var c := 1.0 / u[8];
    calc {
      MultMV(Scale(c, u), Lift(p));
      { ScaledApply(c, u, Lift(p)); }
      ScaleVector(c, ScaleVector(k, Lift(q)));
      { ScaleScale(c, k, Lift(q)); }
      ScaleVector(c * k, Lift(q));
    }
    NonzeroProduct(c, k);
    ProjectMultiple(Scale(c, u), p, q, c * k);
  }

  lemma NonzeroQuotient(a: real, b: real)
    requires a != 0.0 && b != 0.0
    ensures Ratio(a, b) != 0.0
  {
  }

  /**
   * One correspondence: when s sends e to a multiple of src and d sends e to a
   * multiple of dst, the normalised d . adj(s) projects src onto dst.
   */
  lemma CorrespondenceAt(u: Matrix, s: Matrix, d: Matrix, e: Vector, src: Point, dst: Point, a: real, b: real)
    requires u == Product(d, Adj(s)) && u[8] != 0.0 && Det(s) != 0.0
    requires a != 0.0 && MultMV(s, e) == ScaleVector(a, Lift(src))
    requires b != 0.0 && MultMV(d, e) == ScaleVector(b, Lift(dst))
    ensures Project(Scale(1.0 / u[8], u), src.x, src.y) == Some(dst)
  {
    CarriesAt(s, d, e, src, dst, a, b);
    var k :| k != 0.0 && MultMV(u, Lift(src)) == ScaleVector(k, Lift(dst));
    NormalisedCarries(u, src, dst, k);
  }

  /** The same correspondence before normalisation: src goes to a nonzero multiple of dst. */
  lemma CarriesAt(s: Matrix, d: Matrix, e: Vector, src: Point, dst: Point, a: real, b: real)
    requires Det(s) != 0.0
    requires a != 0.0 && MultMV(s, e) == ScaleVector(a, Lift(src))
    requires b != 0.0 && MultMV(d, e) == ScaleVector(b, Lift(dst))
    ensures Sends(Product(d, Adj(s)), src, dst)
  {
    var c := Ratio(Det(s), a);
    AdjugatePreimage(s, e, a, Lift(src));
    CarriesThrough(s, d, Lift(src), e, Lift(dst), c, b);
    NonzeroQuotient(Det(s), a);
    NonzeroProduct(c, b);
    assert c * b != 0.0 && MultMV(Product(d, Adj(s)), Lift(src)) == ScaleVector(c * b, Lift(dst));
  }

  /** m sends the point p to the point q projectively: m (p, 1) is a nonzero multiple of (q, 1). */
  ghost predicate Sends(m: Matrix, p: Point, q: Point) {
    exists k :: k != 0.0 && MultMV(m, Lift(p)) == ScaleVector(k, Lift(q))
  }

  /**
   * general2DProjection with its sixteen coordinates taken from eight points
   * (the same function; Points keep the correspondence statements short).
   */
  function QuadToQuad(s1: Point, s2: Point, s3: Point, s4: Point, d1: Point, d2: Point, d3: Point, d4: Point): Option<Matrix> {
    General2DProjection(s1.x, s1.y, d1.x, d1.y, s2.x, s2.y, d2.x, d2.y,
                        s3.x, s3.y, d3.x, d3.y, s4.x, s4.y, d4.x, d4.y)
  }

  /** UnnormalisedProjection, with its sixteen coordinates taken from eight points. */
  function QuadToQuadRaw(s1: Point, s2: Point, s3: Point, s4: Point, d1: Point, d2: Point, d3: Point, d4: Point): Matrix {
    UnnormalisedProjection(s1.x, s1.y, d1.x, d1.y, s2.x, s2.y, d2.x, d2.y,
                           s3.x, s3.y, d3.x, d3.y, s4.x, s4.y, d4.x, d4.y)
  }

  /**
   * For non-degenerate source and destination quadruples whose unnormalised map
   * has a nonzero entry 8, general2DProjection returns a matrix with entry 8 equal
   * to 1 that projects each source point onto its destination point.
   */
  lemma QuadToQuadCorrespondence(s1: Point, s2: Point, s3: Point, s4: Point, d1: Point, d2: Point, d3: Point, d4: Point)
    requires NonDegenerate(s1, s2, s3, s4) && NonDegenerate(d1, d2, d3, d4)
    requires QuadToQuadRaw(s1, s2, s3, s4, d1, d2, d3, d4)[8] != 0.0
    ensures QuadToQuad(s1, s2, s3, s4, d1, d2, d3, d4).Some?
    ensures QuadToQuad(s1, s2, s3, s4, d1, d2, d3, d4).value[8] == 1.0
    ensures Project(QuadToQuad(s1, s2, s3, s4, d1, d2, d3, d4).value, s1.x, s1.y) == Some(d1)
    ensures Project(QuadToQuad(s1, s2, s3, s4, d1, d2, d3, d4).value, s2.x, s2.y) == Some(d2)
    ensures Project(QuadToQuad(s1, s2, s3, s4, d1, d2, d3, d4).value, s3.x, s3.y) == Some(d3)
    ensures Project(QuadToQuad(s1, s2, s3, s4, d1, d2, d3, d4).value, s4.x, s4.y) == Some(d4)
  {
    var u := QuadToQuadRaw(s1, s2, s3, s4, d1, d2, d3, d4);
    var s, d := Basis(s1, s2, s3, s4), Basis(d1, d2, d3, d4);
    var a, b := WeightsOf(s1, s2, s3, s4), WeightsOf(d1, d2, d3, d4);
    assert u == Product(d, Adj(s));
    assert QuadToQuad(s1, s2, s3, s4, d1, d2, d3, d4) == Some(Scale(1.0 / u[8], u));
    BasisImages(s1, s2, s3, s4);
    BasisImages(d1, d2, d3, d4);
    BasisInvertible(s1, s2, s3, s4);
    CorrespondenceAt(u, s, d, E1, s1, d1, a[0], b[0]);
    CorrespondenceAt(u, s, d, E2, s2, d2, a[1], b[1]);
    CorrespondenceAt(u, s, d, E3, s3, d3, a[2], b[2]);
    CorrespondenceAt(u, s, d, Ones, s4, d4, DetOf(s1, s2, s3), DetOf(d1, d2, d3));
  }

  /**
   * When the first source point is the origin, entry 8 of the unnormalised map
   * is the third coordinate of the image of the origin, so it cannot vanish.
   */
  lemma OriginSourceNormalises(s1: Point, s2: Point, s3: Point, s4: Point, d1: Point, d2: Point, d3: Point, d4: Point)
    requires NonDegenerate(s1, s2, s3, s4) && NonDegenerate(d1, d2, d3, d4) && s1 == Origin
    ensures QuadToQuadRaw(s1, s2, s3, s4, d1, d2, d3, d4)[8] != 0.0
  {
    var u := QuadToQuadRaw(s1, s2, s3, s4, d1, d2, d3, d4);
    var s, d := Basis(s1, s2, s3, s4), Basis(d1, d2, d3, d4);
    var a, b := WeightsOf(s1, s2, s3, s4), WeightsOf(d1, d2, d3, d4);
    assert u == Product(d, Adj(s));
    BasisImages(s1, s2, s3, s4);
    BasisImages(d1, d2, d3, d4);
    BasisInvertible(s1, s2, s3, s4);
    CarriesAt(s, d, E1, s1, d1, a[0], b[0]);
    var k :| k != 0.0 && MultMV(u, Lift(s1)) == ScaleVector(k, Lift(d1));
    ThirdCoordinate(u, s1, d1, k);
  }

  lemma ThirdCoordinate(u: Matrix, p: Point, q: Point, k: real)
    requires p == Origin && k != 0.0 && MultMV(u, Lift(p)) == ScaleVector(k, Lift(q))
    ensures u[8] != 0.0
  {
    assert MultMV(u, Lift(p))[2] == u[8];
  }
}
