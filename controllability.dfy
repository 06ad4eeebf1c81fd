/** The controllability matrix `C = [B  AB  A^2 B ... A^(n-1) B]` of a
    state-space model `x' = A x + B u` with n states, and the determinant
    test the notebook uses to decide whether the model is controllable. */
module Controllability {
  import opened Vectors

  /** `matrix_power(A, i)` for i >= 1: the product of i copies of A. */
  function MatPow(a: Matrix, i: nat): (r: Matrix)
    requires |a| > 0 && IsMatrix(a, |a|, |a|) && i >= 1
    ensures IsMatrix(r, |a|, |a|) && Width(r) == |a|
    decreases i
  {
    if i == 1 then a else MatMul(a, MatPow(a, i - 1))
  }

  /** Block i of the controllability matrix: B for i = 0 and `A^i B` after. */
  function Block(a: Matrix, b: Matrix, i: nat): (r: Matrix)
    requires |a| > 0 && IsMatrix(a, |a|, |a|) && IsMatrix(b, |a|, Width(b))
    ensures IsMatrix(r, |a|, Width(b))
  {
    if i == 0 then b else MatMul(MatPow(a, i), b)
  }

  /** The Krylov recurrence: each block is A times the block before it. */
  lemma {:induction false} BlockRecurrence(a: Matrix, b: Matrix, i: nat)
    requires |a| > 0 && IsMatrix(a, |a|, |a|) && IsMatrix(b, |a|, Width(b)) && Width(b) > 0
    ensures Block(a, b, i + 1) == MatMul(a, Block(a, b, i))
  {
    if i > 0 {
      assert Width(MatPow(a, i)) == |a|;
      MatMulAssoc(a, MatPow(a, i), b, |a|, Width(b));
    }
  }

  /** c holds the first `count` blocks side by side: it has n rows of
      `count` entries and column k is block k. */
  ghost predicate Blocks(a: Matrix, b: Matrix, c: Matrix, count: nat)
    requires |a| > 0 && IsMatrix(a, |a|, |a|) && IsMatrix(b, |a|, 1)
  {
    && IsMatrix(c, |a|, count)
    && forall k, r :: 0 <= k < count && 0 <= r < |a| ==> c[r][k] == Block(a, b, k)[r][0]
  }

  lemma {:induction false} BlocksSnoc(a: Matrix, b: Matrix, c: Matrix, count: nat)
    requires |a| > 0 && IsMatrix(a, |a|, |a|) && IsMatrix(b, |a|, 1)
    requires Blocks(a, b, c, count)
    ensures Blocks(a, b, HStack(c, Block(a, b, count)), count + 1)
  {
    var blk := Block(a, b, count);
    var d := HStack(c, blk);
    forall k, r | 0 <= k < count + 1 && 0 <= r < |a|
      ensures |d[r]| == count + 1 && d[r][k] == Block(a, b, k)[r][0]
    {
      assert d[r] == c[r] + blk[r] && |c[r]| == count && |blk[r]| == 1;
      if k < count {
        assert d[r][k] == c[r][k];
      } else {
        assert d[r][k] == blk[r][0];
      }
    }
  }

  /** `ctrb` for a single-input model (B a column): start from B and append
      `matrix_power(A, i) @ B` for i = 1 .. n-1, so the result is the n-by-n
      matrix `[B  AB ... A^(n-1) B]`. */
  method Ctrb(a: Matrix, b: Matrix) returns (c: Matrix)
    requires |a| > 0 && IsMatrix(a, |a|, |a|) && IsMatrix(b, |a|, 1)
    ensures Blocks(a, b, c, |a|)
  {
    c := b;
    assert Blocks(a, b, c, 1);
    for i := 1 to |a|
      invariant Blocks(a, b, c, i)
    {
      var tempA := MatPow(a, i);
      BlocksSnoc(a, b, c, i);
      c := HStack(c, MatMul(tempA, b));
    }
  }

  /** The worked example: A = [[1, 2], [0, -3]], B = [[0], [1]] has
      AB = [[2], [-3]] and the controllability matrix [[0, 2], [1, -3]]. */
  lemma {:induction false} CtrbExample(c: Matrix)
    requires Blocks([[1.0, 2.0], [0.0, -3.0]], [[0.0], [1.0]], c, 2)
    ensures c == [[0.0, 2.0], [1.0, -3.0]]
  {
    var a, b := [[1.0, 2.0], [0.0, -3.0]], [[0.0], [1.0]];
    var ab := Block(a, b, 1);
    assert ab == MatMul(a, b);
    assert Col(b, 0) == [0.0, 1.0];
    Dot2(a[0], Col(b, 0));
    Dot2(a[1], Col(b, 0));
    assert ab[0] == VecMat(a[0], b, 1) && ab[1] == VecMat(a[1], b, 1);
    assert Block(a, b, 0) == b;
    assert c[0][0] == Block(a, b, 0)[0][0] && c[1][0] == Block(a, b, 0)[1][0];
    assert c[0][1] == ab[0][0] && c[1][1] == ab[1][0];
    assert |c[0]| == 2 && |c[1]| == 2;
    assert c[0] == [0.0, 2.0] && c[1] == [1.0, -3.0];
  }

  // ------------------------------------------------ the determinant test

  /** The matrix left after removing row 0 and column j. */
  function Minor(m: Matrix, j: nat): (r: Matrix)
    requires |m| > 0 && IsMatrix(m, |m|, |m|) && j < |m|
    ensures IsMatrix(r, |m| - 1, |m| - 1)
  {
    seq(|m| - 1, i requires 0 <= i < |m| - 1 => m[i + 1][..j] + m[i + 1][j + 1..])
  }

  /** The determinant, by cofactor expansion along the first row. */
  function Det(m: Matrix): real
    requires IsMatrix(m, |m|, |m|)
    decreases |m|, |m| + 1
  {
    if |m| == 0 then 1.0 else Expand(m, 0)
  }

  /** The cofactor terms for columns j .. n-1 of the first row. */
  function Expand(m: Matrix, j: nat): real
    requires |m| > 0 && IsMatrix(m, |m|, |m|) && j <= |m|
    decreases |m|, |m| - j
  {
    if j == |m| then 0.0
    else (if j % 2 == 0 then 1.0 else -1.0) * m[0][j] * Det(Minor(m, j)) + Expand(m, j + 1)
  }

  /** The determinant of a 1-by-1 matrix is its entry. */
  lemma Det1(row: Vector)
    requires |row| == 1
    ensures Det([row]) == row[0]
  {
    assert Minor([row], 0) == [];
    assert Det(Minor([row], 0)) == 1.0;
    assert Expand([row], 1) == 0.0;
    assert Expand([row], 0) == 1.0 * row[0] * 1.0 + 0.0;
  }

  /** The 2-by-2 determinant is `ad - bc`. */
  lemma Det2(m: Matrix)
    requires IsMatrix(m, 2, 2)
    ensures Det(m) == m[0][0] * m[1][1] - m[0][1] * m[1][0]
  {
    assert m[1][..0] + m[1][1..] == [m[1][1]];
    assert m[1][..1] + m[1][2..] == [m[1][0]];
    assert Minor(m, 0) == [[m[1][1]]];
    assert Minor(m, 1) == [[m[1][0]]];
    Det1([m[1][1]]);
    Det1([m[1][0]]);
    assert Expand(m, 2) == 0.0;
    assert Expand(m, 1) == -1.0 * m[0][1] * m[1][0];
    assert Expand(m, 0) == 1.0 * m[0][0] * m[1][1] + Expand(m, 1);
  }

  /** `is_controllable` as written: it compares the determinant with the
      string '0'. Python evaluates `==` between a float and a str to False
      whatever the float, so the else branch is always taken and every
      square matrix is reported controllable. */
  function IsControllableAsWritten(c: Matrix): (r: bool)
    requires IsMatrix(c, |c|, |c|)
    ensures r
  {
    var detEqualsText := false;
    if detEqualsText then false else true
  }

  /** The test the docstring describes: controllable exactly when the
      controllability matrix is nonsingular. */
  function IsControllable(c: Matrix): (r: bool)
    requires IsMatrix(c, |c|, |c|)
  {
    Det(c) != 0.0
  }

  /** Expanding along a zero first row gives 0: every cofactor term has the factor 0. */
  lemma {:induction false} ExpandZeroRow(m: Matrix, j: nat)
    requires |m| > 0 && IsMatrix(m, |m|, |m|) && j <= |m| && IsZero(m[0])
    ensures Expand(m, j) == 0.0
    decreases |m| - j
  {
    if j < |m| {
      ExpandZeroRow(m, j + 1);
    }
  }

  /** A square matrix whose first row is zero is singular. */
  lemma DetZeroFirstRow(m: Matrix)
    requires |m| > 0 && IsMatrix(m, |m|, |m|) && IsZero(m[0])
    ensures Det(m) == 0.0
  {
    ExpandZeroRow(m, 0);
  }

  /** A zero input matrix gives a zero controllability matrix, which the
      written test calls controllable and the intended test does not. */
  lemma {:induction false} ZeroInputNotControllable(c: Matrix)
    requires Blocks([[1.0, 2.0], [0.0, -3.0]], [[0.0], [0.0]], c, 2)
    ensures c == [[0.0, 0.0], [0.0, 0.0]]
    ensures IsControllableAsWritten(c) && !IsControllable(c)
  {
    var a, b := [[1.0, 2.0], [0.0, -3.0]], [[0.0], [0.0]];
    var ab := Block(a, b, 1);
    assert ab == MatMul(a, b);
    assert Col(b, 0) == [0.0, 0.0];
    Dot2(a[0], Col(b, 0));
    Dot2(a[1], Col(b, 0));
    assert ab[0] == VecMat(a[0], b, 1) && ab[1] == VecMat(a[1], b, 1);
    assert ab[0][0] == 0.0 && ab[1][0] == 0.0;
    assert Block(a, b, 0) == b;
    assert c[0][0] == Block(a, b, 0)[0][0] && c[1][0] == Block(a, b, 0)[1][0];
    assert c[0][1] == ab[0][0] && c[1][1] == ab[1][0];
    assert |c[0]| == 2 && |c[1]| == 2;
    assert c[0] == [0.0, 0.0] && c[1] == [0.0, 0.0];
    Det2(c);
  }

  /** The worked example is controllable: its determinant is -2. */
  lemma {:induction false} CtrbExampleControllable(c: Matrix)
    requires Blocks([[1.0, 2.0], [0.0, -3.0]], [[0.0], [1.0]], c, 2)
    ensures IsControllable(c)
  {
    CtrbExample(c);
    Det2(c);
  }
}
