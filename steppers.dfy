/** One-step integrators. A dynamics function maps a state and a scalar
    input to the state's derivative; a stepper advances the state by one
    time step `dt`. The notebooks first write the step inside each driver
    loop and later factor it out as `rk2_step`. */
module Steppers {
  import opened Vectors

  /** `f(x, u)`: the derivative of state x under input u. Partial, because a
      dynamics function indexes its state and only accepts some dimensions. */
  type Dynamics = (Vector, real) --> Vector

  /** The same on n-by-1 column arrays, the form the later DC motor expects. */
  type ColumnDynamics = (Matrix, real) --> Matrix

  /** f accepts every state of dimension n and returns a derivative of dimension n. */
  ghost predicate Preserves(f: Dynamics, n: nat)
  {
    forall x: Vector, u: real :: |x| == n ==> f.requires(x, u) && |f(x, u)| == n
  }

  /** f accepts every n-by-1 column and returns an n-by-1 column. */
  ghost predicate PreservesColumn(f: ColumnDynamics, n: nat)
  {
    forall x: Matrix, u: real :: IsMatrix(x, n, 1) ==> f.requires(x, u) && IsMatrix(f(x, u), n, 1)
  }

  /** The input function that returns v at every time: a held input. */
  function Hold(v: real): (h: real -> real)
    ensures forall s :: h(s) == v
  {
    s => v
  }

  /** The Euler step `x + dt * f(x, u(t))`: the input is sampled at the
      start of the step. */
  function EulerStep(f: Dynamics, u: real -> real, x: Vector, t: real, dt: real): (r: Vector)
    requires Preserves(f, |x|)
    ensures |r| == |x|
    ensures var v := u(t); forall i :: 0 <= i < |x| ==> r[i] == x[i] + dt * f(x, v)[i]
  {
    var v := u(t);
    Add(x, Scale(dt, f(x, v)))
  }

  /** The midpoint (RK2) update with the two inputs given explicitly:
      `f1 = f(x, u1)`, `f2 = f(x + dt/2 * f1, u2)`, result `x + dt * f2`. */
  function Rk2Update(f: Dynamics, x: Vector, dt: real, u1: real, u2: real): (r: Vector)
    requires Preserves(f, |x|)
    ensures |r| == |x|
  {
    var f1 := f(x, u1);
    var f2 := f(Add(x, Scale(dt / 2.0, f1)), u2);
    Add(x, Scale(dt, f2))
  }

  /** The update is a full step along the derivative taken at the Euler
      half step under the first input, with the second input. */
  lemma Rk2UpdateIsEulerAtMidpoint(f: Dynamics, x: Vector, dt: real, u1: real, u2: real)
    requires Preserves(f, |x|)
    ensures var mid := EulerStep(f, Hold(u1), x, 0.0, dt / 2.0);
            forall i :: 0 <= i < |x| ==> Rk2Update(f, x, dt, u1, u2)[i] == x[i] + dt * f(mid, u2)[i]
  {
  }

  /** `rk2_step`: the RK2 update with the input function sampled at `t` and
      at `t + dt/2`. The second evaluation is taken at the Euler half step
      from x, and the result is a full step along the derivative found there. */
  function Rk2Step(f: Dynamics, u: real -> real, x: Vector, t: real, dt: real): (r: Vector)
    requires Preserves(f, |x|)
    ensures |r| == |x|
    ensures var mid, v := EulerStep(f, u, x, t, dt / 2.0), u(t + dt / 2.0);
            forall i :: 0 <= i < |x| ==> r[i] == x[i] + dt * f(mid, v)[i]
  {
    Rk2UpdateIsEulerAtMidpoint(f, x, dt, u(t), u(t + dt / 2.0));
    Rk2Update(f, x, dt, u(t), u(t + dt / 2.0))
  }

  lemma AddZeroScaled(x: Vector, c: real, z: Vector)
    requires |x| == |z| && IsZero(z)
    ensures Add(x, Scale(c, z)) == x
  {
  }

  /** A rest point of the dynamics stays put: when the derivative at x is zero
      under both inputs, one RK2 update returns x unchanged. */
  lemma {:induction false} Rk2KeepsRestPoint(f: Dynamics, x: Vector, dt: real, u1: real, u2: real)
    requires Preserves(f, |x|)
    requires IsZero(f(x, u1)) && IsZero(f(x, u2))
    ensures Rk2Update(f, x, dt, u1, u2) == x
  {
    AddZeroScaled(x, dt / 2.0, f(x, u1));
    AddZeroScaled(x, dt, f(x, u2));
  }

  /** Two inputs that are equal give the update of one held input
      (a zero-order hold): the time arguments no longer matter. */
  lemma HeldInput(f: Dynamics, u: real -> real, x: Vector, t: real, dt: real)
    requires Preserves(f, |x|)
    requires forall s :: u(s) == u(t)
    ensures Rk2Step(f, u, x, t, dt) == Rk2Update(f, x, dt, u(t), u(t))
  {
  }

  /** The later `rk2_step`: transpose the row state into a column, take the
      RK2 step on columns, transpose the result back into a 1-by-n row. */
  function Rk2StepColumn(f: ColumnDynamics, u: real -> real, x: Vector, t: real, dt: real): (r: Matrix)
    requires PreservesColumn(f, |x|)
    ensures |x| > 0 ==> IsMatrix(r, 1, |x|)
  {
    var col := Transpose([x]);
    assert col == Column(x) by {
      assert Width([x]) == |x|;
      forall j | 0 <= j < |x|
        ensures col[j] == Column(x)[j]
      {
        assert Col([x], j) == [x[j]];
      }
    }
    var u1, u2 := u(t), u(t + dt / 2.0);
    var f1 := f(col, u1);
    var f2 := f(MatAdd(col, MatScale(dt / 2.0, f1)), u2);
    var next := MatAdd(col, MatScale(dt, f2));
    assert IsMatrix(next, |x|, 1);
    assert |x| > 0 ==> Width(next) == 1;
    Transpose(next)
  }

  /** F computes f on columns. */
  ghost predicate ColumnForm(bigF: ColumnDynamics, f: Dynamics, n: nat)
  {
    forall y: Vector, v: real :: |y| == n ==>
      f.requires(y, v) && bigF.requires(Column(y), v) && bigF(Column(y), v) == Column(f(y, v))
  }

  /** The transposing `rk2_step` gives the same values, as a 1-by-n row, as
      the row-vector `rk2_step` when its dynamics compute the same derivative
      on columns. */
  lemma {:induction false} Rk2StepColumnAgrees(bigF: ColumnDynamics, f: Dynamics, u: real -> real, x: Vector, t: real, dt: real)
    requires |x| > 0
    requires PreservesColumn(bigF, |x|) && Preserves(f, |x|)
    requires ColumnForm(bigF, f, |x|)
    ensures Rk2StepColumn(bigF, u, x, t, dt) == [Rk2Step(f, u, x, t, dt)]
  {
    var col := Column(x);
    TransposeRow(x);
    var u1, u2 := u(t), u(t + dt / 2.0);
    var f1 := f(x, u1);
    var mid := Add(x, Scale(dt / 2.0, f1));
    ColumnScale(dt / 2.0, f1);
    ColumnAdd(x, Scale(dt / 2.0, f1));
    assert MatAdd(col, MatScale(dt / 2.0, bigF(col, u1))) == Column(mid);
    var f2 := f(mid, u2);
    ColumnScale(dt, f2);
    ColumnAdd(x, Scale(dt, f2));
    var next := Add(x, Scale(dt, f2));
    assert MatAdd(col, MatScale(dt, bigF(Column(mid), u2))) == Column(next);
    TransposeColumn(next);
  }

  // ------------------------------------------------ rows of a grid-based run

  ghost predicate SameDimension(rows: seq<Vector>, n: nat)
  {
    forall i :: 0 <= i < |rows| ==> |rows[i]| == n
  }

  /** The rows of an Euler driver filled so far: all of dimension n, and row
      i is the Euler step from row i-1 at grid time `ts[i-1]` alone. */
  ghost predicate EulerRows(f: Dynamics, u: real -> real, rows: seq<Vector>, ts: seq<real>, dt: real, n: nat)
  {
    && |rows| <= |ts|
    && SameDimension(rows, n)
    && Preserves(f, n)
    && forall i :: 1 <= i < |rows| ==> rows[i] == EulerStep(f, u, rows[i - 1], ts[i - 1], dt)
  }

  /** The same for an RK2 driver. */
  ghost predicate Rk2Rows(f: Dynamics, u: real -> real, rows: seq<Vector>, ts: seq<real>, dt: real, n: nat)
  {
    && |rows| <= |ts|
    && SameDimension(rows, n)
    && Preserves(f, n)
    && forall i :: 1 <= i < |rows| ==> rows[i] == Rk2Step(f, u, rows[i - 1], ts[i - 1], dt)
  }

  /** Filling the next row with the Euler step from the last one keeps the rows an Euler run. */
  lemma EulerRowsSnoc(f: Dynamics, u: real -> real, rows: seq<Vector>, ts: seq<real>, dt: real, n: nat, x: Vector)
    requires EulerRows(f, u, rows, ts, dt, n) && 0 < |rows| < |ts|
    requires x == EulerStep(f, u, rows[|rows| - 1], ts[|rows| - 1], dt)
    ensures EulerRows(f, u, rows + [x], ts, dt, n)
  {
  }

  lemma Rk2RowsSnoc(f: Dynamics, u: real -> real, rows: seq<Vector>, ts: seq<real>, dt: real, n: nat, x: Vector)
    requires Rk2Rows(f, u, rows, ts, dt, n) && 0 < |rows| < |ts|
    requires x == Rk2Step(f, u, rows[|rows| - 1], ts[|rows| - 1], dt)
    ensures Rk2Rows(f, u, rows + [x], ts, dt, n)
  {
  }

  /** Row i depends on row i-1 only, so the first row fixes the whole run:
      two RK2 runs over the same grid from the same first row agree. */
  lemma {:induction false} Rk2RowsDetermined(f: Dynamics, u: real -> real, a: seq<Vector>, b: seq<Vector>,
                                             ts: seq<real>, dt: real, n: nat)
    requires Rk2Rows(f, u, a, ts, dt, n) && Rk2Rows(f, u, b, ts, dt, n)
    requires |a| == |b| && |a| > 0 && a[0] == b[0]
    ensures a == b
  {
    if |a| > 1 {
      var k := |a| - 1;
      Rk2RowsDetermined(f, u, a[..k], b[..k], ts, dt, n);
      assert a[..k][k - 1] == b[..k][k - 1];
      assert a == a[..k] + [a[k]] && b == b[..k] + [b[k]];
    }
  }

  /** The same for Euler runs. */
  lemma {:induction false} EulerRowsDetermined(f: Dynamics, u: real -> real, a: seq<Vector>, b: seq<Vector>,
                                               ts: seq<real>, dt: real, n: nat)
    requires EulerRows(f, u, a, ts, dt, n) && EulerRows(f, u, b, ts, dt, n)
    requires |a| == |b| && |a| > 0 && a[0] == b[0]
    ensures a == b
  {
    if |a| > 1 {
      var k := |a| - 1;
      EulerRowsDetermined(f, u, a[..k], b[..k], ts, dt, n);
      assert a[..k][k - 1] == b[..k][k - 1];
      assert a == a[..k] + [a[k]] && b == b[..k] + [b[k]];
    }
  }
}
