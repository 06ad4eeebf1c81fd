/** The first notebook: the RC circuit and the pendulum, integrated by the
    list-building Euler loops and by the grid-based Euler and RK2 drivers. */
module Practicum1 {
  import opened Vectors
  import opened TimeGrid
  import opened Steppers

  // ---------------------------------------------------------------- RC circuit

  const Capacitance: real := 0.001
  const Resistance: real := 2000.0

  /** `rc_dynamics`: the capacitor voltage x charges toward the source
      voltage u with time constant C*R = 2: the derivative is zero exactly
      at x == u, negative when the capacitor is above the source and
      positive when below. */
  function RcDynamics(x: real, u: real): (r: real)
    ensures Capacitance * Resistance == 2.0
    ensures r * 2.0 == u - x
    ensures r == 0.0 <==> x == u
    ensures r < 0.0 <==> x > u
    ensures r > 0.0 <==> u > x
  {
    (u - x) / (Capacitance * Resistance)
  }

  // ---------------------------------------------------- list-based Euler loops

  /** A scalar dynamics function `dyn_func(x, u)`. */
  type ScalarDynamics = (real, real) -> real

  /** One `[t, x]` entry of a list-based run. */
  datatype Sample = Sample(t: real, x: real)

  /** A scalar dynamics function as a dynamics on one-entry states. */
  function Lift(f: ScalarDynamics): (g: Dynamics)
    ensures Preserves(g, 1)
  {
    (x: Vector, u: real) requires |x| == 1 => [f(x[0], u)]
  }

  /** One pass of the loop body: `x = x + dt * f(x, u(t))`, then `t += dt`;
      on x it is the Euler step of the lifted dynamics at the entry's time. */
  function EulerEntry(f: ScalarDynamics, u: real -> real, s: Sample, dt: real): (r: Sample)
    ensures r.t == s.t + dt
    ensures [r.x] == EulerStep(Lift(f), u, [s.x], s.t, dt)
  {
    var x := s.x + dt * f(s.x, u(s.t));
    assert [x] == EulerStep(Lift(f), u, [s.x], s.t, dt) by {
      var e := EulerStep(Lift(f), u, [s.x], s.t, dt);
      assert Lift(f)([s.x], u(s.t)) == [f(s.x, u(s.t))];
      assert |e| == 1 && e[0] == x;
    }
    Sample(s.t + dt, x)
  }

  /** The entries of a list-based Euler run: it starts at `[t_0, x_0]`, every
      entry advances t by exactly dt, and x by `dt * f(x, u(t))` with u taken
      at the time of the entry before. */
  ghost predicate EulerEntries(f: ScalarDynamics, u: real -> real, x0: real, t0: real, dt: real, result: seq<Sample>)
  {
    && |result| > 0
    && result[0] == Sample(t0, x0)
    && forall i :: 1 <= i < |result| ==> result[i] == EulerEntry(f, u, result[i - 1], dt)
  }

  /** The loop `while t < t_f` stops at the first entry whose time reaches t_f. */
  ghost predicate StopsAtFirstReach(tf: real, result: seq<Sample>)
  {
    && |result| > 0
    && (forall i :: 0 <= i < |result| - 1 ==> result[i].t < tf)
    && result[|result| - 1].t >= tf
  }

  /** The number of Euler steps a list-based run takes. */
  function StepCount(t0: real, tf: real, dt: real): nat
  {
    if dt > 0.0 then ArangeLength(t0, tf, dt) else 0
  }

  /** While the loop test `t_0 + k*dt < t_f` holds, k is below the step count. */
  lemma {:induction false} BeforeLastStep(t0: real, tf: real, dt: real, k: nat)
    requires dt > 0.0 && t0 + (k as real) * dt < tf
    ensures k < StepCount(t0, tf, dt)
  {
    BelowQuotient(k as real, tf - t0, dt);
  }

  /** Once the loop test fails, k is the step count. */
  lemma {:induction false} AtLastStep(t0: real, tf: real, dt: real, k: nat)
    requires dt > 0.0 && k <= StepCount(t0, tf, dt) && t0 + (k as real) * dt >= tf
    ensures k == StepCount(t0, tf, dt)
  {
    BelowQuotient(k as real, tf - t0, dt);
  }

  lemma NextTime(t0: real, dt: real, k: nat)
    ensures t0 + (k as real) * dt + dt == t0 + ((k + 1) as real) * dt
  {
  }

  /** Appending the Euler step from the last entry keeps the entries an Euler run. */
  lemma EulerEntriesSnoc(f: ScalarDynamics, u: real -> real, x0: real, t0: real, dt: real, result: seq<Sample>)
    requires EulerEntries(f, u, x0, t0, dt, result)
    ensures EulerEntries(f, u, x0, t0, dt, result + [EulerEntry(f, u, result[|result| - 1], dt)])
  {
  }

  /** Entry i of a list-based run is at time `t_0 + i*dt`: the times are the grid points. */
  lemma {:induction false} EulerEntryTimes(f: ScalarDynamics, u: real -> real, x0: real, t0: real, dt: real,
                                           result: seq<Sample>, i: nat)
    requires EulerEntries(f, u, x0, t0, dt, result) && i < |result|
    ensures result[i].t == t0 + (i as real) * dt
  {
    if i > 0 {
      EulerEntryTimes(f, u, x0, t0, dt, result, i - 1);
      NextTime(t0, dt, i - 1);
    }
  }

  /** The list-based Euler loop, shared by both list versions: `u` is the
      input function (the first version passes a constant). */
  method EulerLoop(f: ScalarDynamics, u: real -> real, x0: real, t0: real, tf: real, dt: real)
    returns (result: seq<Sample>)
    requires dt > 0.0 || t0 >= tf
    ensures EulerEntries(f, u, x0, t0, dt, result)
    ensures StopsAtFirstReach(tf, result)
    ensures |result| == StepCount(t0, tf, dt) + 1
  {
    var t, x := t0, x0;
    result := [Sample(t, x)];
    ghost var k: nat := 0;
    ghost var n := StepCount(t0, tf, dt);
    while t < tf
      invariant t == t0 + (k as real) * dt
      invariant |result| == k + 1 && result[k] == Sample(t, x)
      invariant k <= n && (dt <= 0.0 ==> k == 0)
      invariant EulerEntries(f, u, x0, t0, dt, result)
      invariant forall i :: 0 <= i < k ==> result[i].t < tf
      decreases n - k
    {
      BeforeLastStep(t0, tf, dt, k);
      NextTime(t0, dt, k);
      EulerEntriesSnoc(f, u, x0, t0, dt, result);
      x := x + dt * f(x, u(t));
      t := t + dt;
      k := k + 1;
      result := result + [Sample(t, x)];
      assert result[k] == EulerEntry(f, u, result[k - 1], dt);
    }
    if dt > 0.0 {
      AtLastStep(t0, tf, dt, k);
    }
  }

  /** The first `euler_integration`: a constant input u. */
  method EulerIntegrationV1(f: ScalarDynamics, u: real, x0: real, t0: real, tf: real, dt: real)
    returns (result: seq<Sample>)
    requires dt > 0.0 || t0 >= tf
    ensures EulerEntries(f, Hold(u), x0, t0, dt, result)
    ensures forall i :: 1 <= i < |result| ==> result[i].x == result[i - 1].x + dt * f(result[i - 1].x, u)
    ensures StopsAtFirstReach(tf, result)
    ensures |result| == StepCount(t0, tf, dt) + 1
    ensures |result| == 1 <==> t0 >= tf
  {
    result := EulerLoop(f, Hold(u), x0, t0, tf, dt);
  }

  /** The second `euler_integration`: the input is a function of time,
      sampled at the time of the entry being advanced. */
  method EulerIntegrationV2(f: ScalarDynamics, u: real -> real, x0: real, t0: real, tf: real, dt: real)
    returns (result: seq<Sample>)
    requires dt > 0.0 || t0 >= tf
    ensures EulerEntries(f, u, x0, t0, dt, result)
    ensures StopsAtFirstReach(tf, result)
    ensures |result| == StepCount(t0, tf, dt) + 1
    ensures |result| == 1 <==> t0 >= tf
  {
    result := EulerLoop(f, u, x0, t0, tf, dt);
  }

  /** When t_0 <= t_f the list-based loop produces as many entries as the
      grid `arange(t_0, t_f + dt, dt)` the array-based drivers use. */
  lemma ListLengthMatchesGrid(t0: real, tf: real, dt: real)
    requires dt > 0.0 && t0 <= tf
    ensures StepCount(t0, tf, dt) + 1 == |Grid(t0, tf, dt)|
  {
    var q := (tf - t0) / dt;
    assert q * dt == tf - t0;
    DivUnique(tf + dt - t0, dt, q + 1.0);
    BelowQuotient(0.0, tf - t0, dt);
    assert Ceil(q + 1.0) == Ceil(q) + 1;
  }

  // -------------------------------------------------- the first RK2 driver

  /** The RK2 update of the RC circuit with the two inputs given. */
  function RcRk2Update(x: real, dt: real, u1: real, u2: real): (r: real)
    ensures 8.0 * (r - x) == dt * (4.0 * (u2 - x) - dt * (u1 - x))
  {
    var f1 := RcDynamics(x, u1);
    var f2 := RcDynamics(x + dt / 2.0 * f1, u2);
    x + dt * f2
  }

  /** The RC circuit as a one-dimensional vector dynamics. */
  function RcVector(x: Vector, u: real): Vector
    requires |x| == 1
  {
    [RcDynamics(x[0], u)]
  }

  lemma RcVectorPreserves()
    ensures Preserves(RcVector, 1)
  {
  }

  /** The scalar RC update is the generic RK2 update on one-dimensional states. */
  lemma RcRk2IsRk2Update(x: real, dt: real, u1: real, u2: real)
    ensures Preserves(RcVector, 1)
    ensures [RcRk2Update(x, dt, u1, u2)] == Rk2Update(RcVector, [x], dt, u1, u2)
  {
    var v := [x];
    var f1 := RcVector(v, u1);
    var mid := Add(v, Scale(dt / 2.0, f1));
    assert |mid| == 1 && mid[0] == x + dt / 2.0 * RcDynamics(x, u1);
    var f2 := RcVector(mid, u2);
    var next := Add(v, Scale(dt, f2));
    assert |next| == 1 && next[0] == RcRk2Update(x, dt, u1, u2);
    assert next == [RcRk2Update(x, dt, u1, u2)];
  }

  /** The first `rk2_integration`: it builds the grid, starts the list with
      `[t_0, x_0]` and appends one entry per later grid point. Whatever
      dynamics it is given, it integrates the RC circuit, and it samples the
      input at the new grid time `t_vals[i]` (and half a step after it)
      rather than at `t_vals[i-1]`; each new entry carries `t_vals[i]`. */
  method Rk2IntegrationV1(f: ScalarDynamics, u: real -> real, x0: real, t0: real, tf: real, dt: real)
    returns (result: seq<Sample>)
    requires dt != 0.0
    ensures |result| == if |Grid(t0, tf, dt)| == 0 then 1 else |Grid(t0, tf, dt)|
    ensures result[0] == Sample(t0, x0)
    ensures forall i :: 1 <= i < |result| ==>
              var t := Grid(t0, tf, dt)[i];
              result[i] == Sample(t, RcRk2Update(result[i - 1].x, dt, u(t), u(t + dt / 2.0)))
  {
    var tVals := Grid(t0, tf, dt);
    result := [Sample(t0, x0)];
    var i := 1;
    while i < |tVals|
      invariant 1 <= i && |result| == i
      invariant i <= |tVals| || |tVals| == 0
      invariant |tVals| == 0 ==> i == 1
      invariant result[0] == Sample(t0, x0)
      invariant forall j :: 1 <= j < |result| ==>
                  result[j] == Sample(tVals[j], RcRk2Update(result[j - 1].x, dt, u(tVals[j]), u(tVals[j] + dt / 2.0)))
    {
      var t := tVals[i];
      var xk := result[i - 1].x;
      var f1 := RcDynamics(xk, u(t));
      var f2 := RcDynamics(xk + dt / 2.0 * f1, u(t + dt / 2.0));
      var xk1 := xk + dt * f2;
      result := result + [Sample(t, xk1)];
      i := i + 1;
    }
  }

  /** The input sampled one step late changes the result: for the ramp input
      u(s) = s from rest at time 0 with dt = 1, the first driver's update
      (inputs at t = 1 and 1.5) gives 0.625, while the update at the step's
      own start (inputs at t = 0 and 0.5) gives 0.25. */
  lemma Rk2V1SamplesLate()
    ensures var u := (s: real) => s;
            RcRk2Update(0.0, 1.0, u(1.0), u(1.5)) == 0.625
    ensures var u := (s: real) => s;
            RcRk2Update(0.0, 1.0, u(0.0), u(0.5)) == 0.25
  {
  }

  // ------------------------------------------------------------------ pendulum

  const Gravity: real := 9.8

  /** Mass m, length l and damping b of the pendulum. */
  datatype PendulumParams = PendulumParams(m: real, l: real, b: real)

  /** `pendulum_dynamics` with state `[theta, theta_dot]`: the derivative of
      theta is theta_dot, and `m*l*l*theta_dd = u - b*theta_dot - m*g*l*sin(theta)`.
      Sine is a parameter. */
  function PendulumDynamics(sin: real -> real, x: Vector, u: real, p: PendulumParams): (r: Vector)
    requires |x| >= 2 && p.m != 0.0 && p.l != 0.0
    ensures |r| == 2 && r[0] == x[1]
    ensures r[1] * (p.m * p.l * p.l) == u - p.b * x[1] - p.m * Gravity * p.l * sin(x[0])
  {
    var theta := x[0];
    var thetaDot := x[1];
    var thetaDDot := (u - p.b * thetaDot - p.m * Gravity * p.l * sin(theta)) * (1.0 / (p.m * p.l * p.l));
    [thetaDot, thetaDDot]
  }

  /** Released at rest at the bottom of the swing, the angle does not move. */
  lemma PendulumAtBottom(sin: real -> real, p: PendulumParams)
    requires p.m != 0.0 && p.l != 0.0
    ensures PendulumDynamics(sin, [0.0, 0.0], 0.0, p)[0] == 0.0
  {
  }

  /** Released at rest with no input, the pendulum accelerates against the
      side gravity pulls it to: positively where sin(theta) < 0 (theta = -pi/4)
      and negatively where sin(theta) > 0 (theta = pi/4). */
  lemma {:induction false} PendulumRestoring(sin: real -> real, theta: real, p: PendulumParams)
    requires p.m > 0.0 && p.l > 0.0
    ensures sin(theta) < 0.0 ==> PendulumDynamics(sin, [theta, 0.0], 0.0, p)[1] > 0.0
    ensures sin(theta) > 0.0 ==> PendulumDynamics(sin, [theta, 0.0], 0.0, p)[1] < 0.0
  {
    var r := PendulumDynamics(sin, [theta, 0.0], 0.0, p);
    var w := p.m * p.l * p.l;
    assert w > 0.0 by {
      assert p.m * p.l > 0.0;
    }
    assert r[1] * w == -(p.m * Gravity * p.l * sin(theta));
    assert p.m * Gravity * p.l > 0.0 by {
      assert p.m * p.l > 0.0;
    }
    if sin(theta) < 0.0 {
      assert r[1] * w > 0.0;
    }
    if sin(theta) > 0.0 {
      assert r[1] * w < 0.0;
    }
  }

  // ------------------------------------------- grid-based Euler and RK2 drivers

  /** A dynamics function called as `dyn_func(x=..., u=..., m=m, l=l, b=b)`. */
  type ParamDynamics = (Vector, real, PendulumParams) --> Vector

  /** The dynamics with the driver's m, l, b forwarded. */
  function Bind(dyn: ParamDynamics, p: PendulumParams): Dynamics
  {
    (x: Vector, u: real) requires dyn.requires(x, u, p) => dyn(x, u, p)
  }

  function Pendulum(sin: real -> real): ParamDynamics
  {
    (x: Vector, u: real, p: PendulumParams) requires |x| >= 2 && p.m != 0.0 && p.l != 0.0 => PendulumDynamics(sin, x, u, p)
  }

  lemma PendulumPreserves(sin: real -> real, p: PendulumParams)
    requires p.m != 0.0 && p.l != 0.0
    ensures Preserves(Bind(Pendulum(sin), p), 2)
  {
  }

  /** The third `euler_integration`: `x_vals` has one row per grid point, row 0
      is x_0 and row i is the Euler step from row i-1 at `t_vals[i-1]`. An
      empty grid fails at `x_vals[0] = x_0` (an IndexError): `ok` is false. */
  method EulerIntegrationV3(dyn: ParamDynamics, u: real -> real, x0: Vector, t0: real, tf: real, dt: real,
                            m: real, l: real, b: real)
    returns (tVals: seq<real>, xVals: array<Vector>, ok: bool)
    requires dt != 0.0
    requires Preserves(Bind(dyn, PendulumParams(m, l, b)), |x0|)
    ensures tVals == Grid(t0, tf, dt)
    ensures fresh(xVals)
    ensures ok <==> |tVals| > 0
    ensures ok ==> xVals.Length == |tVals| && xVals[0] == x0
    ensures ok ==> EulerRows(Bind(dyn, PendulumParams(m, l, b)), u, xVals[..], tVals, dt, |x0|)
  {
    var f := Bind(dyn, PendulumParams(m, l, b));
    tVals := Grid(t0, tf, dt);
    if |tVals| == 0 {
      xVals := new Vector[0];
      ok := false;
      return;
    }
    ok := true;
    xVals := new Vector[|tVals|](_ => Zeros(|x0|));
    xVals[0] := x0;
    assert xVals[..1] == [x0];
    for i := 1 to |tVals|
      invariant xVals[0] == x0
      invariant EulerRows(f, u, xVals[..i], tVals, dt, |x0|)
    {
      var t := tVals[i - 1];
      var xk := xVals[i - 1];
      assert xk == xVals[..i][i - 1];
      var v := u(t);
      var xk1 := Add(xk, Scale(dt, f(xk, v)));
      ghost var done := xVals[..i];
      assert |done| == i && done[i - 1] == xk && tVals[|done| - 1] == t;
      assert xk1 == EulerStep(f, u, xk, t, dt);
      EulerRowsSnoc(f, u, done, tVals, dt, |x0|, xk1);
      xVals[i] := xk1;
      assert xVals[..i + 1] == done + [xk1];
    }
    assert xVals[..] == xVals[..|tVals|];
  }

  /** The second `rk2_integration`: as the third Euler driver, with row i the
      RK2 step from row i-1 at `t_vals[i-1]`. */
  method Rk2IntegrationV2(dyn: ParamDynamics, u: real -> real, x0: Vector, t0: real, tf: real, dt: real,
                          m: real, l: real, b: real)
    returns (tVals: seq<real>, xVals: array<Vector>, ok: bool)
    requires dt != 0.0
    requires Preserves(Bind(dyn, PendulumParams(m, l, b)), |x0|)
    ensures tVals == Grid(t0, tf, dt)
    ensures fresh(xVals)
    ensures ok <==> |tVals| > 0
    ensures ok ==> xVals.Length == |tVals| && xVals[0] == x0
    ensures ok ==> Rk2Rows(Bind(dyn, PendulumParams(m, l, b)), u, xVals[..], tVals, dt, |x0|)
  {
    var p := PendulumParams(m, l, b);
    var f := Bind(dyn, p);
    tVals := Grid(t0, tf, dt);
    if |tVals| == 0 {
      xVals := new Vector[0];
      ok := false;
      return;
    }
    ok := true;
    xVals := new Vector[|tVals|](_ => Zeros(|x0|));
    xVals[0] := x0;
    assert xVals[..1] == [x0];
    for i := 1 to |tVals|
      invariant xVals[0] == x0
      invariant Rk2Rows(f, u, xVals[..i], tVals, dt, |x0|)
    {
      var t := tVals[i - 1];
      var xk := xVals[i - 1];
      assert xk == xVals[..i][i - 1];
      var u1, u2 := u(t), u(t + dt / 2.0);
      var f1 := f(xk, u1);
      var f2 := f(Add(xk, Scale(dt / 2.0, f1)), u2);
      var xk1 := Add(xk, Scale(dt, f2));
      ghost var done := xVals[..i];
      assert |done| == i && done[i - 1] == xk && tVals[|done| - 1] == t;
      assert xk1 == Rk2Step(f, u, xk, t, dt);
      Rk2RowsSnoc(f, u, done, tVals, dt, |x0|, xk1);
      xVals[i] := xk1;
      assert xVals[..i + 1] == done + [xk1];
    }
    assert xVals[..] == xVals[..|tVals|];
  }
}
