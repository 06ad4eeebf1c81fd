/** Real vectors and matrices: the few numpy operations the notebooks use
    (elementwise sum, scaling by a scalar, dot product, matrix product,
    transpose, horizontal stacking). Row vectors are `seq<real>`; a
    two-dimensional array is a sequence of rows. */
module Vectors {

  type Vector = seq<real>
  type Matrix = seq<seq<real>>

  /** Elementwise sum `a + b` of two vectors of the same length. */
  function Add(a: Vector, b: Vector): (r: Vector)
    requires |a| == |b|
    ensures |r| == |a|
    ensures forall i :: 0 <= i < |r| ==> r[i] == a[i] + b[i]
  {
    seq(|a|, i requires 0 <= i < |a| => a[i] + b[i])
  }

  /** `c * a` for a scalar c. */
  function Scale(c: real, a: Vector): (r: Vector)
    ensures |r| == |a|
    ensures forall i :: 0 <= i < |r| ==> r[i] == c * a[i]
  {
    seq(|a|, i requires 0 <= i < |a| => c * a[i])
  }

  function Zeros(n: nat): (r: Vector)
    ensures |r| == n
    ensures forall i :: 0 <= i < n ==> r[i] == 0.0
  {
    seq(n, i => 0.0)
  }

  ghost predicate IsZero(v: Vector)
  {
    forall i :: 0 <= i < |v| ==> v[i] == 0.0
  }

  /** `a @ b` for two one-dimensional arrays of the same length. */
  function Dot(a: Vector, b: Vector): real
    requires |a| == |b|
  {
    if |a| == 0 then 0.0 else a[0] * b[0] + Dot(a[1..], b[1..])
  }

  lemma Dot3(a: Vector, b: Vector)
    requires |a| == 3 && |b| == 3
    ensures Dot(a, b) == a[0] * b[0] + a[1] * b[1] + a[2] * b[2]
  {
    assert Dot(a[1..][1..][1..], b[1..][1..][1..]) == 0.0;
    assert Dot(a[1..][1..], b[1..][1..]) == a[2] * b[2];
    assert Dot(a[1..], b[1..]) == a[1] * b[1] + a[2] * b[2];
  }

  lemma Dot2(a: Vector, b: Vector)
    requires |a| == 2 && |b| == 2
    ensures Dot(a, b) == a[0] * b[0] + a[1] * b[1]
  {
    assert Dot(a[1..][1..], b[1..][1..]) == 0.0;
    assert Dot(a[1..], b[1..]) == a[1] * b[1];
  }

  lemma {:induction false} DotZero(a: Vector, b: Vector)
    requires |a| == |b| && IsZero(b)
    ensures Dot(a, b) == 0.0
  {
    if |a| > 0 {
      DotZero(a[1..], b[1..]);
    }
  }

  lemma {:induction false} DotZeroLeft(a: Vector, b: Vector)
    requires |a| == |b| && IsZero(a)
    ensures Dot(a, b) == 0.0
  {
    if |a| > 0 {
      DotZeroLeft(a[1..], b[1..]);
    }
  }

  lemma {:induction false} DotAddLeft(a: Vector, b: Vector, w: Vector)
    requires |a| == |b| == |w|
    ensures Dot(Add(a, b), w) == Dot(a, w) + Dot(b, w)
  {
    if |a| > 0 {
      assert Add(a, b)[1..] == Add(a[1..], b[1..]);
      DotAddLeft(a[1..], b[1..], w[1..]);
    }
  }

  lemma ScaleTail(c: real, a: Vector)
    requires |a| > 0
    ensures Scale(c, a)[1..] == Scale(c, a[1..])
  {
    forall i | 0 <= i < |a| - 1
      ensures Scale(c, a)[1..][i] == Scale(c, a[1..])[i]
    {
      assert Scale(c, a)[1..][i] == Scale(c, a)[i + 1];
    }
  }

  lemma {:induction false} DotScaleLeft(c: real, a: Vector, w: Vector)
    requires |a| == |w|
    ensures Dot(Scale(c, a), w) == c * Dot(a, w)
  {
    if |a| > 0 {
      ScaleTail(c, a);
      DotScaleLeft(c, a[1..], w[1..]);
    }
  }

  lemma {:induction false} DotSub(k: Vector, x: Vector, y: Vector)
    requires |k| == |x| == |y|
    ensures Dot(k, x) - Dot(k, y) == Dot(k, Add(x, Scale(-1.0, y)))
  {
    if |k| > 0 {
      assert Add(x, Scale(-1.0, y))[1..] == Add(x[1..], Scale(-1.0, y[1..]));
      DotSub(k[1..], x[1..], y[1..]);
    }
  }

  /** `M` has `rows` rows of `cols` entries each. */
  ghost predicate IsMatrix(m: Matrix, rows: nat, cols: nat)
  {
    |m| == rows && forall i :: 0 <= i < |m| ==> |m[i]| == cols
  }

  /** The number of columns of a non-empty rectangular matrix. */
  function Width(m: Matrix): nat
  {
    if |m| == 0 then 0 else |m[0]|
  }

  /** Column j of M. */
  function Col(m: Matrix, j: nat): (r: Vector)
    requires forall i :: 0 <= i < |m| ==> j < |m[i]|
    ensures |r| == |m|
    ensures forall i :: 0 <= i < |m| ==> r[i] == m[i][j]
  {
    seq(|m|, i requires 0 <= i < |m| => m[i][j])
  }

  /** `M @ x` for a matrix and a one-dimensional array. */
  function MatVec(m: Matrix, x: Vector): (r: Vector)
    requires forall i :: 0 <= i < |m| ==> |m[i]| == |x|
    ensures |r| == |m|
    ensures forall i :: 0 <= i < |m| ==> r[i] == Dot(m[i], x)
  {
    seq(|m|, i requires 0 <= i < |m| => Dot(m[i], x))
  }

  /** The row vector `v @ Y` with `cols` entries, for Y with |v| rows of `cols` entries. */
  function VecMat(v: Vector, y: Matrix, cols: nat): (r: Vector)
    requires IsMatrix(y, |v|, cols)
    ensures |r| == cols
    ensures forall j :: 0 <= j < cols ==> r[j] == Dot(v, Col(y, j))
  {
    seq(cols, j requires 0 <= j < cols => Dot(v, Col(y, j)))
  }

  /** `X @ Y` for X with k columns and Y of k rows. */
  function MatMul(x: Matrix, y: Matrix): (r: Matrix)
    requires forall i :: 0 <= i < |x| ==> |x[i]| == |y|
    requires IsMatrix(y, |y|, Width(y))
    ensures IsMatrix(r, |x|, Width(y))
    ensures forall i :: 0 <= i < |x| ==> r[i] == VecMat(x[i], y, Width(y))
  {
    seq(|x|, i requires 0 <= i < |x| => VecMat(x[i], y, Width(y)))
  }

  /** Elementwise sum of two matrices of one shape. */
  function MatAdd(a: Matrix, b: Matrix): (r: Matrix)
    requires |a| == |b| && forall i :: 0 <= i < |a| ==> |a[i]| == |b[i]|
    ensures |r| == |a|
    ensures forall i :: 0 <= i < |a| ==> r[i] == Add(a[i], b[i])
  {
    seq(|a|, i requires 0 <= i < |a| => Add(a[i], b[i]))
  }

  /** `c * M` for a scalar c. */
  function MatScale(c: real, m: Matrix): (r: Matrix)
    ensures |r| == |m|
    ensures forall i :: 0 <= i < |m| ==> r[i] == Scale(c, m[i])
  {
    seq(|m|, i requires 0 <= i < |m| => Scale(c, m[i]))
  }

  /** `M.T` of a rectangular matrix. */
  function Transpose(m: Matrix): (r: Matrix)
    requires IsMatrix(m, |m|, Width(m))
    ensures IsMatrix(r, Width(m), |m|)
    ensures forall j, i :: 0 <= j < Width(m) && 0 <= i < |m| ==> r[j][i] == m[i][j]
  {
    seq(Width(m), j requires 0 <= j < Width(m) => Col(m, j))
  }

  /** `np.hstack((A, B))` for two matrices with the same number of rows. */
  function HStack(a: Matrix, b: Matrix): (r: Matrix)
    requires |a| == |b|
    ensures |r| == |a|
    ensures forall i :: 0 <= i < |a| ==> r[i] == a[i] + b[i]
  {
    seq(|a|, i requires 0 <= i < |a| => a[i] + b[i])
  }

  /** The n-by-1 column `np.atleast_2d(v).T` of a row vector v. */
  function Column(v: Vector): (r: Matrix)
    ensures IsMatrix(r, |v|, 1)
    ensures forall i :: 0 <= i < |v| ==> r[i] == [v[i]]
  {
    seq(|v|, i requires 0 <= i < |v| => [v[i]])
  }

  lemma TransposeRow(v: Vector)
    requires |v| > 0
    ensures Transpose([v]) == Column(v)
  {
    assert Width([v]) == |v|;
    forall j | 0 <= j < |v|
      ensures Transpose([v])[j] == Column(v)[j]
    {
      assert Col([v], j) == [v[j]];
    }
  }

  lemma TransposeColumn(v: Vector)
    requires |v| > 0
    ensures Transpose(Column(v)) == [v]
  {
    assert Width(Column(v)) == 1;
    assert Col(Column(v), 0) == v;
  }

  lemma ColumnAdd(a: Vector, b: Vector)
    requires |a| == |b|
    ensures MatAdd(Column(a), Column(b)) == Column(Add(a, b))
  {
    forall i | 0 <= i < |a|
      ensures MatAdd(Column(a), Column(b))[i] == Column(Add(a, b))[i]
    {
      assert Add([a[i]], [b[i]]) == [a[i] + b[i]];
    }
  }

  lemma ColumnScale(c: real, a: Vector)
    ensures MatScale(c, Column(a)) == Column(Scale(c, a))
  {
    forall i | 0 <= i < |a|
      ensures MatScale(c, Column(a))[i] == Column(Scale(c, a))[i]
    {
      var s := Scale(c, [a[i]]);
      assert |s| == 1 && s[0] == c * a[i];
      assert s == [c * a[i]];
    }
  }

  lemma ColumnMatMul(m: Matrix, v: Vector)
    requires |v| > 0
    requires forall i :: 0 <= i < |m| ==> |m[i]| == |v|
    ensures MatMul(m, Column(v)) == Column(MatVec(m, v))
  {
    var c := Column(v);
    assert Width(c) == 1;
    assert Col(c, 0) == v;
    forall i | 0 <= i < |m|
      ensures MatMul(m, c)[i] == Column(MatVec(m, v))[i]
    {
      assert VecMat(m[i], c, 1) == [Dot(m[i], v)];
    }
  }

  /** `v @ Y` split into the contribution of the first row of Y and the rest. */
  lemma VecMatTail(v: Vector, y: Matrix, cols: nat)
    requires |v| > 0 && IsMatrix(y, |v|, cols)
    ensures VecMat(v, y, cols) == Add(Scale(v[0], y[0]), VecMat(v[1..], y[1..], cols))
  {
    forall j | 0 <= j < cols
      ensures VecMat(v, y, cols)[j] == Add(Scale(v[0], y[0]), VecMat(v[1..], y[1..], cols))[j]
    {
      assert Col(y, j)[1..] == Col(y[1..], j);
    }
  }

  /** `(v @ Y) @ w == v @ (Y @ w)`: a row vector, a matrix and a column vector associate. */
  lemma {:induction false} VecMatDot(v: Vector, y: Matrix, w: Vector)
    requires IsMatrix(y, |v|, |w|)
    ensures Dot(VecMat(v, y, |w|), w) == Dot(v, MatVec(y, w))
  {
    if |v| == 0 {
      DotZeroLeft(VecMat(v, y, |w|), w);
    } else {
      VecMatTail(v, y, |w|);
      DotAddLeft(Scale(v[0], y[0]), VecMat(v[1..], y[1..], |w|), w);
      DotScaleLeft(v[0], y[0], w);
      VecMatDot(v[1..], y[1..], w);
      assert MatVec(y, w)[1..] == MatVec(y[1..], w);
    }
  }

  /** Matrix product is associative: `(X @ Y) @ Z == X @ (Y @ Z)`. */
  lemma MatMulAssoc(x: Matrix, y: Matrix, z: Matrix, n: nat, m: nat)
    requires |y| > 0 && |z| > 0
    requires forall i :: 0 <= i < |x| ==> |x[i]| == |y|
    requires IsMatrix(y, |y|, n) && IsMatrix(z, n, m)
    ensures MatMul(MatMul(x, y), z) == MatMul(x, MatMul(y, z))
  {
    var xy := MatMul(x, y);
    var yz := MatMul(y, z);
    assert Width(y) == n && Width(z) == m && Width(yz) == m;
    forall i | 0 <= i < |x|
      ensures MatMul(xy, z)[i] == MatMul(x, yz)[i]
    {
      forall j | 0 <= j < m
        ensures MatMul(xy, z)[i][j] == MatMul(x, yz)[i][j]
      {
        assert Col(yz, j) == MatVec(y, Col(z, j));
        VecMatDot(x[i], y, Col(z, j));
      }
    }
  }
}
