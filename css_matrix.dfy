/**
 * The embedding of a 3x3 homogeneous matrix into the 4x4 matrix that CSS
 * matrix3d() takes: an identity row and column are added for the z axis and
 * the sixteen entries are listed column by column, as the matrix3d function
 * of CSS Transforms Module Level 2 requires.
 */
module CssMatrix {
  import opened MatrixUtil

  /** Sixteen values in column-major order: entry (row r, column c) is at 4 c + r. */
  type Matrix4 = a: seq<real> | |a| == 16
    witness [1.0, 0.0, 0.0, 0.0, 0.0, 1.0, 0.0, 0.0, 0.0, 0.0, 1.0, 0.0, 0.0, 0.0, 0.0, 1.0]

  type Vector4 = v: seq<real> | |v| == 4 witness [0.0, 0.0, 0.0, 0.0]

  /** getMatrixString's list of matrix3d arguments for the 3x3 matrix m. */
  function Matrix3d(m: Matrix): Matrix4 {
    [
      m[0], m[3], 0.0, m[6],
      m[1], m[4], 0.0, m[7],
      0.0, 0.0, 1.0, 0.0,
      m[2], m[5], 0.0, m[8]
    ]
  }

  /** The 3x3 matrix read back from the rows and columns that do not touch z. */
  function FromMatrix3d(a: Matrix4): Matrix {
    [a[0], a[4], a[12], a[1], a[5], a[13], a[3], a[7], a[15]]
  }

  /** How CSS applies a column-major 4x4 matrix to (x, y, z, w). */
  function Apply4(a: Matrix4, v: Vector4): Vector4 {
    [
      a[0] * v[0] + a[4] * v[1] + a[8] * v[2] + a[12] * v[3],
      a[1] * v[0] + a[5] * v[1] + a[9] * v[2] + a[13] * v[3],
      a[2] * v[0] + a[6] * v[1] + a[10] * v[2] + a[14] * v[3],
      a[3] * v[0] + a[7] * v[1] + a[11] * v[2] + a[15] * v[3]
    ]
  }

  /** No entry of the 3x3 matrix is lost: the embedding has a left inverse. */
  lemma Matrix3dRoundTrip(m: Matrix)
    ensures FromMatrix3d(Matrix3d(m)) == m
  {
    MatrixExt(FromMatrix3d(Matrix3d(m)), m);
  }

  /**
   * The embedded matrix acts as m on (x, y, w) and as the identity on z, so
   * the CSS warp of a plane point is the homogeneous map m.
   */
  lemma Matrix3dActsAsMatrix(m: Matrix, x: real, y: real, z: real, w: real)
    ensures var r, h := Apply4(Matrix3d(m), [x, y, z, w]), MultMV(m, [x, y, w]);
      r[0] == h[0] && r[1] == h[1] && r[2] == z && r[3] == h[2]
  {
  }

  /** The embedding is injective. */
  lemma Matrix3dInjective(m: Matrix, n: Matrix)
    requires Matrix3d(m) == Matrix3d(n)
    ensures m == n
  {
    Matrix3dRoundTrip(m);
    Matrix3dRoundTrip(n);
  }
}
