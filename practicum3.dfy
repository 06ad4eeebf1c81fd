/** Practicum 3: the DC motor in column form under a state feedback
    regulator `u = -K x + k_f r`. The driver `simulate` takes any plant and
    any controller; it keeps its states as rows and its `rk2_step`
    transposes each row into a column, steps the column dynamics, and
    transposes the result back. The controller is called on the row the
    step starts from and its value is held over the whole step. */
module Practicum3 {
  import opened Vectors
  import opened TimeGrid
  import opened Steppers
  import opened Motor
  import opened Controllers

  /** A controller maps the measured state to a scalar input. */
  type Feedback = Vector --> real

  /** The plant steps every n-by-1 column and the controller accepts every
      state of dimension n. */
  ghost predicate Accepts(plant: ColumnDynamics, controller: Feedback, n: nat)
  {
    && PreservesColumn(plant, n)
    && forall x: Vector {:trigger controller.requires(x)} :: |x| == n ==> controller.requires(x)
  }

  /** One step of `simulate`: `rk2_step` on the plant with
      `u_func = lambda t: controller(x)`, written back into its row. */
  function FeedbackStep(plant: ColumnDynamics, controller: Feedback, x: Vector, t: real, dt: real): (r: Vector)
    requires |x| > 0 && Accepts(plant, controller, |x|)
    ensures |r| == |x|
  {
    var v := controller(x);
    Rk2StepColumn(plant, Hold(v), x, t, dt)[0]
  }

  /** The step `simulate` repeats: from the state and time at the start of
      a step to the state at its end. */
  type Step = (Vector, real) --> Vector

  /** The step of `simulate` for this plant and controller on states of
      dimension n. */
  function FeedbackStepper(plant: ColumnDynamics, controller: Feedback, dt: real, n: nat): (s: Step)
    requires n > 0 && Accepts(plant, controller, n)
    ensures forall x: Vector, t: real :: |x| == n ==>
              s.requires(x, t) && s(x, t) == FeedbackStep(plant, controller, x, t, dt)
  {
    (x: Vector, t: real) requires |x| == n => FeedbackStep(plant, controller, x, t, dt)
  }

  /** Row i is the step from row i-1 taken at grid time `ts[i-1]`. */
  ghost predicate StepRows(step: Step, rows: seq<Vector>, ts: seq<real>)
  {
    && |rows| <= |ts|
    && forall i :: 0 <= i < |rows| - 1 ==> step.requires(rows[i], ts[i]) && rows[i + 1] == step(rows[i], ts[i])
  }

  lemma StepRowsSnoc(step: Step, rows: seq<Vector>, ts: seq<real>, x: Vector)
    requires StepRows(step, rows, ts) && 0 < |rows| < |ts|
    requires step.requires(rows[|rows| - 1], ts[|rows| - 1]) && x == step(rows[|rows| - 1], ts[|rows| - 1])
    ensures StepRows(step, rows + [x], ts)
  {
    var rs := rows + [x];
    forall i | 0 <= i < |rs| - 1
      ensures step.requires(rs[i], ts[i]) && rs[i + 1] == step(rs[i], ts[i])
    {
      if i + 1 < |rows| {
        assert rs[i] == rows[i] && rs[i + 1] == rows[i + 1];
      }
    }
  }

  /** The first row and the grid fix the whole run. */
  lemma {:induction false} StepRowsDetermined(step: Step, a: seq<Vector>, b: seq<Vector>, ts: seq<real>)
    requires StepRows(step, a, ts) && StepRows(step, b, ts)
    requires |a| == |b| && |a| > 0 && a[0] == b[0]
    ensures a == b
  {
    if |a| > 1 {
      var k := |a| - 1;
      StepRowsDetermined(step, a[..k], b[..k], ts);
      assert a[k - 1] == a[..k][k - 1] == b[..k][k - 1] == b[k - 1];
      assert a == a[..k] + [a[k]] && b == b[..k] + [b[k]];
    }
  }

  /** The rows of a `simulate` run filled so far: all of dimension n, and row
      i the feedback step from row i-1 at grid time `ts[i-1]`. */
  ghost predicate FeedbackRows(plant: ColumnDynamics, controller: Feedback, rows: seq<Vector>, ts: seq<real>,
                               dt: real, n: nat)
  {
    && n > 0
    && Accepts(plant, controller, n)
    && SameDimension(rows, n)
    && StepRows(FeedbackStepper(plant, controller, dt, n), rows, ts)
  }

  lemma FeedbackRowsSnoc(plant: ColumnDynamics, controller: Feedback, rows: seq<Vector>, ts: seq<real>,
                         dt: real, n: nat, x: Vector)
    requires FeedbackRows(plant, controller, rows, ts, dt, n) && 0 < |rows| < |ts|
    requires x == FeedbackStep(plant, controller, rows[|rows| - 1], ts[|rows| - 1], dt)
    ensures FeedbackRows(plant, controller, rows + [x], ts, dt, n)
  {
    var step := FeedbackStepper(plant, controller, dt, n);
    StepRowsSnoc(step, rows, ts, x);
    assert SameDimension(rows + [x], n);
  }

  /** Two `simulate` runs over the same grid from the same initial state agree. */
  lemma FeedbackRowsDetermined(plant: ColumnDynamics, controller: Feedback, a: seq<Vector>,
                               b: seq<Vector>, ts: seq<real>, dt: real, n: nat)
    requires FeedbackRows(plant, controller, a, ts, dt, n) && FeedbackRows(plant, controller, b, ts, dt, n)
    requires |a| == |b| && |a| > 0 && a[0] == b[0]
    ensures a == b
  {
    StepRowsDetermined(FeedbackStepper(plant, controller, dt, n), a, b, ts);
  }

  /** `simulate`: one row per grid point, row 0 is x_0 and row i the
      feedback step from row i-1. An empty grid fails at `x_vals[0] = x_0`
      (an IndexError). */
  method Simulate(plant: ColumnDynamics, controller: Feedback, x0: Vector, t0: real, tf: real, dt: real)
    returns (tVals: seq<real>, xVals: array<Vector>, ok: bool)
    requires dt != 0.0 && |x0| > 0 && Accepts(plant, controller, |x0|)
    ensures tVals == Grid(t0, tf, dt)
    ensures fresh(xVals)
    ensures ok <==> |tVals| > 0
    ensures ok ==> xVals.Length == |tVals| && xVals[0] == x0
    ensures ok ==> FeedbackRows(plant, controller, xVals[..], tVals, dt, |x0|)
  {
    tVals := Grid(t0, tf, dt);
    if |tVals| == 0 {
      xVals := new Vector[0];
      ok := false;
      return;
    }
    ok := true;
    xVals := new Vector[|tVals|](_ => Zeros(|x0|));
    xVals[0] := x0;
    assert xVals[..1] == [x0];
    for i := 1 to |tVals|
      invariant xVals[0] == x0
      invariant FeedbackRows(plant, controller, xVals[..i], tVals, dt, |x0|)
    {
      ghost var done := xVals[..i];
      var state := xVals[i - 1];
      assert |done| == i && done[i - 1] == state;
      var xk1 := FeedbackStep(plant, controller, state, tVals[i - 1], dt);
      assert tVals[|done| - 1] == tVals[i - 1];
      assert xk1 == FeedbackStep(plant, controller, done[|done| - 1], tVals[|done| - 1], dt);
      FeedbackRowsSnoc(plant, controller, done, tVals, dt, |x0|, xk1);
      xVals[i] := xk1;
      assert xVals[..i + 1] == done + [xk1];
    }
    assert xVals[..] == xVals[..|tVals|];
  }

  /** The input history of the later `simulate`: 0 at the first grid point,
      and at point i the controller's value on row i-1. */
  ghost predicate FeedbackInputs(controller: Feedback, rows: seq<Vector>, us: seq<real>)
  {
    && |us| == |rows|
    && (|us| > 0 ==> us[0] == 0.0)
    && forall i :: 0 <= i < |us| - 1 ==> controller.requires(rows[i]) && us[i + 1] == controller(rows[i])
  }

  lemma FeedbackInputsSnoc(controller: Feedback, rows: seq<Vector>, us: seq<real>, x: Vector, v: real)
    requires FeedbackInputs(controller, rows, us) && |rows| > 0
    requires controller.requires(rows[|rows| - 1]) && v == controller(rows[|rows| - 1])
    ensures FeedbackInputs(controller, rows + [x], us + [v])
  {
    var rs, vs := rows + [x], us + [v];
    forall i | 0 <= i < |vs| - 1
      ensures controller.requires(rs[i]) && vs[i + 1] == controller(rs[i])
    {
      if i + 1 < |us| {
        assert vs[i + 1] == us[i + 1] && rs[i] == rows[i];
      } else {
        assert vs[i + 1] == v && rs[i] == rows[|rows| - 1];
      }
    }
  }

  /** The recorded input of step i is the input `rk2_step` holds over both
      of its sub-evaluations in that step. */
  lemma RecordedInputDrivesStep(plant: ColumnDynamics, controller: Feedback, rows: seq<Vector>, ts: seq<real>,
                                dt: real, n: nat, us: seq<real>)
    requires FeedbackRows(plant, controller, rows, ts, dt, n) && FeedbackInputs(controller, rows, us)
    ensures PreservesColumn(plant, n)
    ensures forall i :: 1 <= i < |rows| ==>
              rows[i] == Rk2StepColumn(plant, Hold(us[i]), rows[i - 1], ts[i - 1], dt)[0]
  {
    var step := FeedbackStepper(plant, controller, dt, n);
    forall i | 1 <= i < |rows|
      ensures rows[i] == Rk2StepColumn(plant, Hold(us[i]), rows[i - 1], ts[i - 1], dt)[0]
    {
      assert rows[i] == step(rows[i - 1], ts[i - 1]);
      assert Hold(us[i]) == Hold(controller(rows[i - 1]));
    }
  }

  /** One pass of the later `simulate` loop: `u_vals[i]` is the
      controller's value on row i-1 and row i the feedback step from it.
      The earlier rows and inputs stay as they were. */
  method RecordStep(plant: ColumnDynamics, controller: Feedback, tVals: seq<real>, dt: real, n: nat,
                    xVals: array<Vector>, uVals: array<real>, i: nat)
    requires 0 < i < xVals.Length == uVals.Length <= |tVals|
    requires FeedbackRows(plant, controller, xVals[..i], tVals, dt, n)
    requires FeedbackInputs(controller, xVals[..i], uVals[..i])
    modifies xVals, uVals
    ensures xVals[..i] == old(xVals[..i]) && uVals[..i] == old(uVals[..i])
    ensures forall j :: i < j < xVals.Length ==> xVals[j] == old(xVals[j]) && uVals[j] == old(uVals[j])
    ensures FeedbackRows(plant, controller, xVals[..i + 1], tVals, dt, n)
    ensures FeedbackInputs(controller, xVals[..i + 1], uVals[..i + 1])
  {
    ghost var done, doneU := xVals[..i], uVals[..i];
    var state := xVals[i - 1];
    assert |done| == i && done[i - 1] == state;
    var u := controller(state);
    var xk1 := FeedbackStep(plant, controller, state, tVals[i - 1], dt);
    assert tVals[|done| - 1] == tVals[i - 1];
    assert xk1 == FeedbackStep(plant, controller, done[|done| - 1], tVals[|done| - 1], dt);
    FeedbackRowsSnoc(plant, controller, done, tVals, dt, n, xk1);
    FeedbackInputsSnoc(controller, done, doneU, xk1, u);
    uVals[i] := u;
    xVals[i] := xk1;
    assert xVals[..i + 1] == done + [xk1];
    assert uVals[..i + 1] == doneU + [u];
  }

  /** The later `simulate`, which also records the input history. Its rows
      are those of `Simulate`, and `u_vals[0]` is 0 whatever the controller
      would ask for at x_0. */
  method SimulateWithInputs(plant: ColumnDynamics, controller: Feedback, x0: Vector, t0: real, tf: real, dt: real)
    returns (tVals: seq<real>, xVals: array<Vector>, uVals: array<real>, ok: bool)
    requires dt != 0.0 && |x0| > 0 && Accepts(plant, controller, |x0|)
    ensures tVals == Grid(t0, tf, dt)
    ensures fresh(xVals) && fresh(uVals)
    ensures ok <==> |tVals| > 0
    ensures ok ==> xVals.Length == |tVals| && xVals[0] == x0
    ensures ok ==> FeedbackRows(plant, controller, xVals[..], tVals, dt, |x0|)
    ensures ok ==> FeedbackInputs(controller, xVals[..], uVals[..])
  {
    tVals := Grid(t0, tf, dt);
    if |tVals| == 0 {
      xVals := new Vector[0];
      uVals := new real[0];
      ok := false;
      return;
    }
    ok := true;
    xVals := new Vector[|tVals|](_ => Zeros(|x0|));
    xVals[0] := x0;
    // The input function built before the loop is never called.
    uVals := new real[|tVals|](_ => 0.0);
    assert xVals[..1] == [x0] && uVals[..1] == [0.0];
    for i := 1 to |tVals|
      invariant FeedbackRows(plant, controller, xVals[..i], tVals, dt, |x0|)
      invariant FeedbackInputs(controller, xVals[..i], uVals[..i])
      invariant xVals[0] == x0
    {
      RecordStep(plant, controller, tVals, dt, |x0|, xVals, uVals, i);
      assert xVals[0] == xVals[..i][0];
    }
    assert xVals[..] == xVals[..|tVals|] && uVals[..] == uVals[..|tVals|];
  }

  // ------------------------------------------------ the motor under state feedback

  /** `StateFeedbackRegulator.__call__` as a controller. */
  function RegulatorOf(reg: Regulator): (c: Feedback)
    ensures forall x: Vector {:trigger c.requires(x)} {:trigger c(x)} :: |x| == |reg.k| ==> c.requires(x) && c(x) == Regulate(reg, x)
  {
    (x: Vector) requires |x| == |reg.k| => Regulate(reg, x)
  }

  /** The closed-loop step under state feedback: the RK2 update of the
      motor with the regulator's value at x held over both sub-evaluations
      (a zero-order hold). */
  function RegulatedStep(cfg: DCMotorConfig, reg: Regulator, x: Vector, dt: real): (r: Vector)
    requires Admissible(cfg) && |x| == 3 && |reg.k| == 3
    ensures |r| == 3
    ensures Preserves(DynamicsOf(cfg), 3)
    ensures forall t :: r == Rk2Step(DynamicsOf(cfg), Hold(Regulate(reg, x)), x, t, dt)
  {
    DynamicsPreserves(cfg);
    var u := Regulate(reg, x);
    Rk2Update(DynamicsOf(cfg), x, dt, u, u)
  }

  /** The motor's column dynamics and a regulator with a 3-entry gain can
      be handed to `simulate`. */
  lemma MotorAccepts(cfg: DCMotorConfig, reg: Regulator)
    requires Admissible(cfg) && |reg.k| == 3
    ensures Accepts(DynamicsColumnOf(cfg), RegulatorOf(reg), 3)
  {
    DynamicsColumnForm(cfg);
  }

  /** One step of `simulate` on the motor under the regulator, computed on
      transposed columns, is the regulated step on rows, whatever the grid
      time t. */
  lemma {:induction false} MotorStepIsRegulatedStep(cfg: DCMotorConfig, reg: Regulator, x: Vector, t: real, dt: real)
    requires Admissible(cfg) && |x| == 3 && |reg.k| == 3
    ensures Accepts(DynamicsColumnOf(cfg), RegulatorOf(reg), 3)
    ensures FeedbackStep(DynamicsColumnOf(cfg), RegulatorOf(reg), x, t, dt) == RegulatedStep(cfg, reg, x, dt)
  {
    MotorAccepts(cfg, reg);
    DynamicsColumnForm(cfg);
    DynamicsPreserves(cfg);
    var u := Hold(Regulate(reg, x));
    Rk2StepColumnAgrees(DynamicsColumnOf(cfg), DynamicsOf(cfg), u, x, t, dt);
    HeldInput(DynamicsOf(cfg), u, x, t, dt);
  }

  /** A run of `simulate` on the motor under the regulator, with its input
      history: row i is the RK2 update of row i-1 with `u_vals[i]` held over
      the step, and `u_vals[i]` is the regulator's value on row i-1. */
  lemma {:induction false} MotorRunIsRegulated(cfg: DCMotorConfig, reg: Regulator, rows: seq<Vector>, ts: seq<real>,
                                               dt: real, us: seq<real>)
    requires Admissible(cfg) && |reg.k| == 3
    requires FeedbackRows(DynamicsColumnOf(cfg), RegulatorOf(reg), rows, ts, dt, 3)
    requires FeedbackInputs(RegulatorOf(reg), rows, us)
    ensures Preserves(DynamicsOf(cfg), 3)
    ensures forall i :: 1 <= i < |rows| ==> rows[i] == RegulatedStep(cfg, reg, rows[i - 1], dt)
    ensures forall i :: 1 <= i < |rows| ==>
              us[i] == Regulate(reg, rows[i - 1])
              && rows[i] == Rk2Update(DynamicsOf(cfg), rows[i - 1], dt, us[i], us[i])
  {
    DynamicsPreserves(cfg);
    forall i | 1 <= i < |rows|
      ensures rows[i] == RegulatedStep(cfg, reg, rows[i - 1], dt)
      ensures us[i] == Regulate(reg, rows[i - 1])
      ensures rows[i] == Rk2Update(DynamicsOf(cfg), rows[i - 1], dt, us[i], us[i])
    {
      MotorStepIsRegulatedStep(cfg, reg, rows[i - 1], ts[i - 1], dt);
    }
  }

  /** The motor at rest at angle theta (no current, no speed) has zero
      derivative under zero input. */
  lemma StandstillIsRest(cfg: DCMotorConfig, theta: real)
    requires Admissible(cfg)
    ensures IsZero(Motor.Dynamics(cfg, [0.0, theta, 0.0], 0.0))
  {
    var r := Motor.Dynamics(cfg, [0.0, theta, 0.0], 0.0);
    assert r[0] * cfg.L == 0.0 && r[2] * cfg.J == 0.0;
  }

  /** A standstill at angle theta where the regulator asks for no input is
      an equilibrium of the closed loop: one step leaves it unchanged. */
  lemma {:induction false} RegulatedEquilibrium(cfg: DCMotorConfig, reg: Regulator, theta: real, dt: real)
    requires Admissible(cfg) && |reg.k| == 3
    requires Regulate(reg, [0.0, theta, 0.0]) == 0.0
    ensures RegulatedStep(cfg, reg, [0.0, theta, 0.0], dt) == [0.0, theta, 0.0]
  {
    var x := [0.0, theta, 0.0];
    DynamicsPreserves(cfg);
    StandstillIsRest(cfg, theta);
    Rk2KeepsRestPoint(DynamicsOf(cfg), x, dt, 0.0, 0.0);
  }

  /** With `K = 0` the regulator is the constant input `k_f * r` and the
      closed loop is the open-loop `rk2_step` under that held input. */
  lemma {:induction false} ZeroGainIsOpenLoop(cfg: DCMotorConfig, reg: Regulator, x: Vector, t: real, dt: real)
    requires Admissible(cfg) && |x| == 3 && |reg.k| == 3 && IsZero(reg.k)
    ensures Preserves(DynamicsOf(cfg), 3)
    ensures RegulatedStep(cfg, reg, x, dt) == Rk2Step(DynamicsOf(cfg), Hold(reg.kf * reg.setpoint), x, t, dt)
  {
    DynamicsPreserves(cfg);
    DotZeroLeft(reg.k, x);
    var c := reg.kf * reg.setpoint;
    assert Regulate(reg, x) == c;
    HeldInput(DynamicsOf(cfg), Hold(c), x, t, dt);
  }
}
