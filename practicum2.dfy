/** The second notebook's drivers: the open-loop `rk2_integration` of the DC
    motor and the closed-loop `simulate`, which steps the plant with
    `rk2_step` and feeds the controller the plant's output. */
module Practicum2 {
  import opened Vectors
  import opened TimeGrid
  import opened Steppers
  import opened Motor
  import opened Controllers

  /** `rk2_integration`: one row per grid point, row 0 is x_0, and row i is
      `rk2_step` from row i-1 at `t_vals[i-1]`. An empty grid fails at
      `x_vals[0] = x_0` (an IndexError): `ok` is false. */
  method Rk2Integration(f: Dynamics, u: real -> real, x0: Vector, t0: real, tf: real, dt: real)
    returns (tVals: seq<real>, xVals: array<Vector>, ok: bool)
    requires dt != 0.0
    requires Preserves(f, |x0|)
    ensures tVals == Grid(t0, tf, dt)
    ensures fresh(xVals)
    ensures ok <==> |tVals| > 0
    ensures ok ==> xVals.Length == |tVals| && xVals[0] == x0
    ensures ok ==> Rk2Rows(f, u, xVals[..], tVals, dt, |x0|)
  {
    tVals := Grid(t0, tf, dt);
    if |tVals| == 0 {
      xVals := new Vector[0];
      ok := false;
      return;
    }
    ok := true;
    xVals := new Vector[|tVals|](_ => Zeros(|x0|));
    xVals[0] := x0;
    assert xVals[..1] == [x0];
    for i := 1 to |tVals|
      invariant xVals[0] == x0
      invariant Rk2Rows(f, u, xVals[..i], tVals, dt, |x0|)
    {
      var t := tVals[i - 1];
      var xk := xVals[i - 1];
      assert xk == xVals[..i][i - 1];
      var u1, u2 := u(t), u(t + dt / 2.0);
      var f1 := f(xk, u1);
      var f2 := f(Add(xk, Scale(dt / 2.0, f1)), u2);
      var xk1 := Add(xk, Scale(dt, f2));
      ghost var done := xVals[..i];
      assert |done| == i && done[i - 1] == xk && tVals[|done| - 1] == t;
      assert xk1 == Rk2Step(f, u, xk, t, dt);
      Rk2RowsSnoc(f, u, done, tVals, dt, |x0|, xk1);
      xVals[i] := xk1;
      assert xVals[..i + 1] == done + [xk1];
    }
    assert xVals[..] == xVals[..|tVals|];
  }

  // ------------------------------------------------------- closed loop, as written

  /** The next state of a closed-loop step and the controller after it. */
  datatype StepResult = StepResult(x: Vector, ctrl: ScalarController)

  /** One step of `simulate`: the input function ignores its time argument
      and calls the controller on the output of the state the step starts
      from. `rk2_step` calls it twice, first for f1 and then for f2, so the
      controller object is advanced twice and the two sub-evaluations get
      the inputs of the first and of the second call. */
  function ClosedLoopStep(cfg: DCMotorConfig, c: ScalarController, x: Vector, dt: real): (r: StepResult)
    requires Admissible(cfg) && |x| == 3 && WellFormed(c)
    ensures |r.x| == 3 && WellFormed(r.ctrl)
    ensures r.ctrl == RespondTimes(c, Output(x), 2)
  {
    DynamicsPreserves(cfg);
    var m := Output(x);
    var r1 := Respond(c, m);
    var r2 := Respond(r1.next, m);
    StepResult(Rk2Update(DynamicsOf(cfg), x, dt, r1.u, r2.u), r2.next)
  }

  /** The rows of a closed-loop run and the controller state after each:
      all rows have the motor's dimension, and row j with controller j is
      the closed-loop step from row j-1 with controller j-1. */
  ghost predicate ClosedLoopRows(cfg: DCMotorConfig, rows: seq<Vector>, ctrls: seq<ScalarController>, dt: real)
    requires Admissible(cfg)
  {
    && |rows| == |ctrls| && |rows| > 0
    && SameDimension(rows, 3)
    && (forall j :: 0 <= j < |ctrls| ==> WellFormed(ctrls[j]))
    && forall j :: 1 <= j < |rows| ==>
         StepResult(rows[j], ctrls[j]) == ClosedLoopStep(cfg, ctrls[j - 1], rows[j - 1], dt)
  }

  lemma ClosedLoopRowsSnoc(cfg: DCMotorConfig, rows: seq<Vector>, ctrls: seq<ScalarController>, dt: real, s: StepResult)
    requires Admissible(cfg) && ClosedLoopRows(cfg, rows, ctrls, dt)
    requires s == ClosedLoopStep(cfg, ctrls[|ctrls| - 1], rows[|rows| - 1], dt)
    ensures ClosedLoopRows(cfg, rows + [s.x], ctrls + [s.ctrl], dt)
  {
    var rs, cs := rows + [s.x], ctrls + [s.ctrl];
    assert SameDimension(rs, 3);
    forall j | 1 <= j < |rs|
      ensures StepResult(rs[j], cs[j]) == ClosedLoopStep(cfg, cs[j - 1], rs[j - 1], dt)
    {
      if j < |rows| {
        assert rs[j] == rows[j] && rs[j - 1] == rows[j - 1] && cs[j] == ctrls[j] && cs[j - 1] == ctrls[j - 1];
      }
    }
  }

  /** Row j depends on row j-1 and the controller's state only, so the
      initial state and controller fix the whole run. */
  lemma {:induction false} ClosedLoopRowsDetermined(cfg: DCMotorConfig, a: seq<Vector>, ca: seq<ScalarController>,
                                                    b: seq<Vector>, cb: seq<ScalarController>, dt: real)
    requires Admissible(cfg) && ClosedLoopRows(cfg, a, ca, dt) && ClosedLoopRows(cfg, b, cb, dt)
    requires |a| == |b| && a[0] == b[0] && ca[0] == cb[0]
    ensures a == b && ca == cb
  {
    var n := |a|;
    if n > 1 {
      var k := n - 1;
      assert ClosedLoopRows(cfg, a[..k], ca[..k], dt) by {
        forall j | 1 <= j < k
          ensures StepResult(a[..k][j], ca[..k][j]) == ClosedLoopStep(cfg, ca[..k][j - 1], a[..k][j - 1], dt)
        {
          assert a[..k][j] == a[j] && a[..k][j - 1] == a[j - 1] && ca[..k][j] == ca[j] && ca[..k][j - 1] == ca[j - 1];
        }
      }
      assert ClosedLoopRows(cfg, b[..k], cb[..k], dt) by {
        forall j | 1 <= j < k
          ensures StepResult(b[..k][j], cb[..k][j]) == ClosedLoopStep(cfg, cb[..k][j - 1], b[..k][j - 1], dt)
        {
          assert b[..k][j] == b[j] && b[..k][j - 1] == b[j - 1] && cb[..k][j] == cb[j] && cb[..k][j - 1] == cb[j - 1];
        }
      }
      ClosedLoopRowsDetermined(cfg, a[..k], ca[..k], b[..k], cb[..k], dt);
      assert a[k - 1] == a[..k][k - 1] && b[k - 1] == b[..k][k - 1];
      assert ca[k - 1] == ca[..k][k - 1] && cb[k - 1] == cb[..k][k - 1];
      assert StepResult(a[k], ca[k]) == StepResult(b[k], cb[k]);
      assert a == a[..k] + [a[k]] && b == b[..k] + [b[k]];
      assert ca == ca[..k] + [ca[k]] && cb == cb[..k] + [cb[k]];
    }
  }

  /** `simulate`: one row per grid point, row 0 is x_0 and row i the
      closed-loop step from row i-1; `ctrls[i]` is the controller object
      after step i and `cOut` the object after the run. An empty grid fails
      at `x_vals[0] = x_0` (an IndexError) before any call. */
  method Simulate(cfg: DCMotorConfig, c: ScalarController, x0: Vector, t0: real, tf: real, dt: real)
    returns (tVals: seq<real>, xVals: array<Vector>, cOut: ScalarController, ok: bool, ghost ctrls: seq<ScalarController>)
    requires dt != 0.0 && Admissible(cfg) && |x0| == 3 && WellFormed(c)
    ensures tVals == Grid(t0, tf, dt)
    ensures fresh(xVals)
    ensures ok <==> |tVals| > 0
    ensures !ok ==> cOut == c
    ensures ok ==> xVals.Length == |tVals| && xVals[0] == x0
    ensures ok ==> ClosedLoopRows(cfg, xVals[..], ctrls, dt) && ctrls[0] == c && cOut == ctrls[|ctrls| - 1]
  {
    DynamicsPreserves(cfg);
    var f := DynamicsOf(cfg);
    tVals := Grid(t0, tf, dt);
    cOut := c;
    ctrls := [c];
    if |tVals| == 0 {
      xVals := new Vector[0];
      ok := false;
      return;
    }
    ok := true;
    xVals := new Vector[|tVals|](_ => Zeros(|x0|));
    xVals[0] := x0;
    assert xVals[..1] == [x0];
    for i := 1 to |tVals|
      invariant xVals[0] == x0 && |ctrls| == i && ctrls[0] == c && cOut == ctrls[i - 1]
      invariant ClosedLoopRows(cfg, xVals[..i], ctrls, dt)
    {
      ghost var done := xVals[..i];
      var xk := xVals[i - 1];
      assert xk == done[i - 1];
      ghost var c0 := cOut;
      // u_func(t) ignores t and calls the controller on the previous output;
      // rk2_step calls it once for f1 and once for f2.
      var measurement := Output(xk);
      var r1 := Respond(cOut, measurement);
      cOut := r1.next;
      var r2 := Respond(cOut, measurement);
      cOut := r2.next;
      var xk1 := Rk2Update(f, xk, dt, r1.u, r2.u);
      assert ClosedLoopStep(cfg, c0, xk, dt) == StepResult(xk1, cOut);
      ClosedLoopRowsSnoc(cfg, done, ctrls, dt, StepResult(xk1, cOut));
      ctrls := ctrls + [cOut];
      xVals[i] := xk1;
      assert xVals[..i + 1] == done + [xk1];
    }
    assert xVals[..] == xVals[..|tVals|];
  }

  /** With the dummy controller the closed loop is the open-loop RK2 step
      under the held input 0, at whatever grid time. */
  lemma DummyIsHeldZero(cfg: DCMotorConfig, x: Vector, t: real, dt: real)
    requires Admissible(cfg) && |x| == 3
    ensures Preserves(DynamicsOf(cfg), 3)
    ensures ClosedLoopStep(cfg, Dummy, x, dt) == StepResult(Rk2Step(DynamicsOf(cfg), Hold(0.0), x, t, dt), Dummy)
  {
    DynamicsPreserves(cfg);
  }

  /** A closed-loop run with the dummy controller is the run of
      `rk2_integration` under the zero input over the same grid. */
  lemma {:induction false} DummyRunIsOpenLoop(cfg: DCMotorConfig, rows: seq<Vector>, ctrls: seq<ScalarController>,
                                              ts: seq<real>, dt: real)
    requires Admissible(cfg) && ClosedLoopRows(cfg, rows, ctrls, dt) && ctrls[0] == Dummy && |rows| <= |ts|
    ensures forall j :: 0 <= j < |ctrls| ==> ctrls[j] == Dummy
    ensures Rk2Rows(DynamicsOf(cfg), Hold(0.0), rows, ts, dt, 3)
  {
    DynamicsPreserves(cfg);
    forall j | 0 <= j < |ctrls|
      ensures ctrls[j] == Dummy
    {
      DummyAt(cfg, rows, ctrls, dt, j);
    }
    forall j | 1 <= j < |rows|
      ensures rows[j] == Rk2Step(DynamicsOf(cfg), Hold(0.0), rows[j - 1], ts[j - 1], dt)
    {
      DummyAt(cfg, rows, ctrls, dt, j - 1);
      DummyIsHeldZero(cfg, rows[j - 1], ts[j - 1], dt);
    }
  }

  lemma {:induction false} DummyAt(cfg: DCMotorConfig, rows: seq<Vector>, ctrls: seq<ScalarController>, dt: real, j: nat)
    requires Admissible(cfg) && ClosedLoopRows(cfg, rows, ctrls, dt) && ctrls[0] == Dummy && j < |ctrls|
    ensures ctrls[j] == Dummy
  {
    if j > 0 {
      DummyAt(cfg, rows, ctrls, dt, j - 1);
      assert StepResult(rows[j], ctrls[j]) == ClosedLoopStep(cfg, Dummy, rows[j - 1], dt);
    }
  }

  /** As written, a PID controller is called twice per step with the same
      measurement, so its integral grows by `2*e*dt` per step. */
  lemma {:induction false} PidAdvancedTwicePerStep(cfg: DCMotorConfig, c: ScalarController, x: Vector, dt: real)
    requires Admissible(cfg) && |x| == 3 && c.Pid? && WellFormed(c)
    ensures var e := c.cfg.setpoint - x[1];
            ClosedLoopStep(cfg, c, x, dt).ctrl.cumError == c.cumError + 2.0 * e * c.cfg.deltaT
  {
    PidRepeatNoDerivative(c, Output(x));
  }

  /** As written, the two RK2 sub-evaluations of a step under a PID
      controller get the inputs of a first and a second call on the same
      measurement, and the second exceeds the first by
      `Ki*e*dt - Kd*(e - prior)/dt`. */
  lemma {:induction false} PidStepInputs(cfg: DCMotorConfig, c: ScalarController, x: Vector, dt: real)
    requires Admissible(cfg) && |x| == 3 && c.Pid? && WellFormed(c)
    ensures Preserves(DynamicsOf(cfg), 3)
    ensures var e := c.cfg.setpoint - x[1];
            var r1 := Respond(c, x[1]);
            var r2 := Respond(r1.next, x[1]);
            && ClosedLoopStep(cfg, c, x, dt).x == Rk2Update(DynamicsOf(cfg), x, dt, r1.u, r2.u)
            && r2.u - r1.u == c.cfg.ki * e * c.cfg.deltaT - c.cfg.kd * (e - c.priorError) / c.cfg.deltaT
  {
    DynamicsPreserves(cfg);
    PidSecondCallGap(c, x[1]);
  }

  /** A concrete step: a new integral-only controller (Ki = 1, dt = 1,
      setpoint 1) at the origin has error 1, yet after one step its
      cumulative error is 2, not 1, and the two RK2 sub-evaluations get the
      inputs 1 and 2 instead of one held input. */
  lemma PidDoubleCountExample(cfg: DCMotorConfig)
    requires Admissible(cfg)
    ensures var c := NewPid(PidConfig(0.0, 1.0, 0.0, 1.0, 1.0));
            var r1 := Respond(c, 0.0);
            var r2 := Respond(r1.next, 0.0);
            && r1.u == 1.0 && r2.u == 2.0
            && ClosedLoopStep(cfg, c, [0.0, 0.0, 0.0], 1.0).ctrl.cumError == 2.0
  {
  }

  // ------------------------------------------------ closed loop, one call per step

  /** The step the notebook describes: the controller is called once per
      step on the output of the state the step starts from, and that input
      is held over both RK2 sub-evaluations (a zero-order hold). */
  function ClosedLoopStepHeld(cfg: DCMotorConfig, c: ScalarController, x: Vector, dt: real): (r: StepResult)
    requires Admissible(cfg) && |x| == 3 && WellFormed(c)
    ensures |r.x| == 3 && WellFormed(r.ctrl)
    ensures r.ctrl == Respond(c, Output(x)).next
  {
    DynamicsPreserves(cfg);
    var r1 := Respond(c, Output(x));
    StepResult(Rk2Update(DynamicsOf(cfg), x, dt, r1.u, r1.u), r1.next)
  }

  /** The held step is `rk2_step` under the constant input of one controller
      call, and a PID integral grows by `e*dt` once per step. */
  lemma {:induction false} HeldStepIsRk2Step(cfg: DCMotorConfig, c: ScalarController, x: Vector, t: real, dt: real)
    requires Admissible(cfg) && |x| == 3 && WellFormed(c)
    ensures Preserves(DynamicsOf(cfg), 3)
    ensures var u := Respond(c, Output(x)).u;
            ClosedLoopStepHeld(cfg, c, x, dt).x == Rk2Step(DynamicsOf(cfg), Hold(u), x, t, dt)
    ensures c.Pid? ==> ClosedLoopStepHeld(cfg, c, x, dt).ctrl.cumError
                       == c.cumError + (c.cfg.setpoint - x[1]) * c.cfg.deltaT
  {
    DynamicsPreserves(cfg);
    if c.Pid? {
      PidTerms(c, Output(x));
    }
  }

  /** For a stateless controller one call or two make no difference: with
      the dummy the step as written and the held step agree. */
  lemma DummyStepsAgree(cfg: DCMotorConfig, x: Vector, dt: real)
    requires Admissible(cfg) && |x| == 3
    ensures ClosedLoopStep(cfg, Dummy, x, dt) == ClosedLoopStepHeld(cfg, Dummy, x, dt)
  {
  }

  /** The rows of a run with one controller call per step. */
  ghost predicate HeldLoopRows(cfg: DCMotorConfig, rows: seq<Vector>, ctrls: seq<ScalarController>, dt: real)
    requires Admissible(cfg)
  {
    && |rows| == |ctrls| && |rows| > 0
    && SameDimension(rows, 3)
    && (forall j :: 0 <= j < |ctrls| ==> WellFormed(ctrls[j]))
    && forall j :: 1 <= j < |rows| ==>
         StepResult(rows[j], ctrls[j]) == ClosedLoopStepHeld(cfg, ctrls[j - 1], rows[j - 1], dt)
  }

  lemma HeldLoopRowsSnoc(cfg: DCMotorConfig, rows: seq<Vector>, ctrls: seq<ScalarController>, dt: real, s: StepResult)
    requires Admissible(cfg) && HeldLoopRows(cfg, rows, ctrls, dt)
    requires s == ClosedLoopStepHeld(cfg, ctrls[|ctrls| - 1], rows[|rows| - 1], dt)
    ensures HeldLoopRows(cfg, rows + [s.x], ctrls + [s.ctrl], dt)
  {
    var rs, cs := rows + [s.x], ctrls + [s.ctrl];
    assert SameDimension(rs, 3);
    forall j | 1 <= j < |rs|
      ensures StepResult(rs[j], cs[j]) == ClosedLoopStepHeld(cfg, cs[j - 1], rs[j - 1], dt)
    {
      if j < |rows| {
        assert rs[j] == rows[j] && rs[j - 1] == rows[j - 1] && cs[j] == ctrls[j] && cs[j - 1] == ctrls[j - 1];
      }
    }
  }

  /** With the dummy controller the run as written is also a run with one
      call per step: the defect only shows with a stateful controller. */
  lemma {:induction false} DummyRunsAgree(cfg: DCMotorConfig, rows: seq<Vector>, ctrls: seq<ScalarController>, dt: real)
    requires Admissible(cfg) && ClosedLoopRows(cfg, rows, ctrls, dt) && ctrls[0] == Dummy
    ensures HeldLoopRows(cfg, rows, ctrls, dt)
  {
    forall j | 1 <= j < |rows|
      ensures StepResult(rows[j], ctrls[j]) == ClosedLoopStepHeld(cfg, ctrls[j - 1], rows[j - 1], dt)
    {
      DummyAt(cfg, rows, ctrls, dt, j - 1);
      DummyStepsAgree(cfg, rows[j - 1], dt);
    }
  }

  /** `simulate` with the controller called once per step. */
  method SimulateHeld(cfg: DCMotorConfig, c: ScalarController, x0: Vector, t0: real, tf: real, dt: real)
    returns (tVals: seq<real>, xVals: array<Vector>, cOut: ScalarController, ok: bool, ghost ctrls: seq<ScalarController>)
    requires dt != 0.0 && Admissible(cfg) && |x0| == 3 && WellFormed(c)
    ensures tVals == Grid(t0, tf, dt)
    ensures fresh(xVals)
    ensures ok <==> |tVals| > 0
    ensures !ok ==> cOut == c
    ensures ok ==> xVals.Length == |tVals| && xVals[0] == x0
    ensures ok ==> HeldLoopRows(cfg, xVals[..], ctrls, dt) && ctrls[0] == c && cOut == ctrls[|ctrls| - 1]
  {
    DynamicsPreserves(cfg);
    var f := DynamicsOf(cfg);
    tVals := Grid(t0, tf, dt);
    cOut := c;
    ctrls := [c];
    if |tVals| == 0 {
      xVals := new Vector[0];
      ok := false;
      return;
    }
    ok := true;
    xVals := new Vector[|tVals|](_ => Zeros(|x0|));
    xVals[0] := x0;
    assert xVals[..1] == [x0];
    for i := 1 to |tVals|
      invariant xVals[0] == x0 && |ctrls| == i && ctrls[0] == c && cOut == ctrls[i - 1]
      invariant HeldLoopRows(cfg, xVals[..i], ctrls, dt)
    {
      ghost var done := xVals[..i];
      var xk := xVals[i - 1];
      assert xk == done[i - 1];
      ghost var c0 := cOut;
      var r := Respond(cOut, Output(xk));
      cOut := r.next;
      var xk1 := Rk2Update(f, xk, dt, r.u, r.u);
      assert ClosedLoopStepHeld(cfg, c0, xk, dt) == StepResult(xk1, cOut);
      HeldLoopRowsSnoc(cfg, done, ctrls, dt, StepResult(xk1, cOut));
      ctrls := ctrls + [cOut];
      xVals[i] := xk1;
      assert xVals[..i + 1] == done + [xk1];
    }
    assert xVals[..] == xVals[..|tVals|];
  }
}
