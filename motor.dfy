/** The DC motor plant of the second and third notebooks. The state is
    `[i, theta, theta_dot]` (armature current, shaft angle, shaft speed) and
    the input is the armature voltage; the dynamics are `x' = A x + B u`, with
    A and B built from the motor's constants. */
module Motor {
  import opened Vectors
  import opened Steppers

  /** `DCMotorConfig`: resistance R, inductance L, damping b, inertia J,
      back-emf constant Km and torque constant Ktau. */
  datatype DCMotorConfig = DCMotorConfig(R: real, L: real, b: real, J: real, Km: real, Ktau: real)

  /** Building A and B divides by L and by J. */
  predicate Admissible(cfg: DCMotorConfig)
  {
    cfg.L != 0.0 && cfg.J != 0.0
  }

  /** The matrix A of `DCMotorDynamics`. */
  function SystemMatrix(cfg: DCMotorConfig): (a: Matrix)
    requires Admissible(cfg)
    ensures IsMatrix(a, 3, 3)
  {
    [[-1.0 * cfg.R / cfg.L, 0.0, -1.0 * cfg.Km / cfg.L],
     [0.0, 0.0, 1.0],
     [cfg.Ktau / cfg.J, 0.0, -1.0 * cfg.b / cfg.J]]
  }

  /** The one-dimensional B of the second notebook. */
  function InputVector(cfg: DCMotorConfig): Vector
    requires Admissible(cfg)
  {
    [1.0 / cfg.L, 0.0, 0.0]
  }

  /** The 3-by-1 B of the third notebook holds the same entries as a column. */
  function InputColumn(cfg: DCMotorConfig): (bc: Matrix)
    requires Admissible(cfg)
    ensures bc == Column(InputVector(cfg))
  {
    [[1.0 / cfg.L], [0.0], [0.0]]
  }

  /** `DCMotorDynamics(x, u)` on a row state: `np.dot(A, x) + B*u`. Written
      out, the current obeys `L i' = u - R i - Km theta_dot`, the angle's
      derivative is the speed, and `J theta_dd = Ktau i - b theta_dot`. */
  function Dynamics(cfg: DCMotorConfig, x: Vector, u: real): (r: Vector)
    requires Admissible(cfg) && |x| == 3
    ensures |r| == 3
    ensures r[0] * cfg.L == u - cfg.R * x[0] - cfg.Km * x[2]
    ensures r[1] == x[2]
    ensures r[2] * cfg.J == cfg.Ktau * x[0] - cfg.b * x[2]
  {
    var a := SystemMatrix(cfg);
    Dot3(a[0], x);
    Dot3(a[1], x);
    Dot3(a[2], x);
    Add(MatVec(a, x), Scale(u, InputVector(cfg)))
  }

  /** The dynamics as a function of state and input, for the steppers. */
  function DynamicsOf(cfg: DCMotorConfig): Dynamics
    requires Admissible(cfg)
  {
    (x: Vector, u: real) requires |x| == 3 => Dynamics(cfg, x, u)
  }

  lemma DynamicsPreserves(cfg: DCMotorConfig)
    requires Admissible(cfg)
    ensures Preserves(DynamicsOf(cfg), 3)
  {
  }

  /** At rest the only nonzero derivative is the current's, `u/L`. */
  lemma DynamicsAtRest(cfg: DCMotorConfig, u: real)
    requires Admissible(cfg)
    ensures Dynamics(cfg, [0.0, 0.0, 0.0], u) == [u / cfg.L, 0.0, 0.0]
  {
    var r := Dynamics(cfg, [0.0, 0.0, 0.0], u);
    assert r[0] == u / cfg.L;
    assert r[2] == 0.0;
  }

  /** A unit current with no input: the current decays at `R/L` and the shaft
      accelerates at `Ktau/J`. */
  lemma DynamicsUnitCurrent(cfg: DCMotorConfig)
    requires Admissible(cfg)
    ensures Dynamics(cfg, [1.0, 0.0, 0.0], 0.0) == [-cfg.R / cfg.L, 0.0, cfg.Ktau / cfg.J]
  {
    var r := Dynamics(cfg, [1.0, 0.0, 0.0], 0.0);
    assert r[0] == -cfg.R / cfg.L;
    assert r[2] == cfg.Ktau / cfg.J;
  }

  /** Superposition: the response to state x and input u is the free
      response of x plus the forced response of u at rest. */
  lemma {:induction false} DynamicsSuperposition(cfg: DCMotorConfig, x: Vector, u: real)
    requires Admissible(cfg) && |x| == 3
    ensures Dynamics(cfg, x, u) == Add(Dynamics(cfg, x, 0.0), Dynamics(cfg, [0.0, 0.0, 0.0], u))
  {
    var r := Dynamics(cfg, x, u);
    var fr := Dynamics(cfg, x, 0.0);
    var fo := Dynamics(cfg, [0.0, 0.0, 0.0], u);
    var s := Add(fr, fo);
    assert r[0] * cfg.L == (fr[0] + fo[0]) * cfg.L;
    assert r[2] * cfg.J == (fr[2] + fo[2]) * cfg.J;
    assert r[0] == s[0] && r[1] == s[1] && r[2] == s[2];
  }

  /** At rest, inputs of opposite sign give opposite derivatives (the ±2 V evaluations). */
  lemma DynamicsInputOdd(cfg: DCMotorConfig, u: real)
    requires Admissible(cfg)
    ensures Dynamics(cfg, [0.0, 0.0, 0.0], -u) == Scale(-1.0, Dynamics(cfg, [0.0, 0.0, 0.0], u))
  {
    DynamicsAtRest(cfg, u);
    DynamicsAtRest(cfg, -u);
    var s := Scale(-1.0, [u / cfg.L, 0.0, 0.0]);
    assert s[0] == -u / cfg.L && s[1] == 0.0 && s[2] == 0.0;
    assert s == [-u / cfg.L, 0.0, 0.0];
  }

  /** `DCMotorDynamics(x, u)` of the third notebook on a 3-by-1 column state:
      `np.dot(A, x) + B*u` with the column B. */
  function DynamicsColumn(cfg: DCMotorConfig, x: Matrix, u: real): (r: Matrix)
    requires Admissible(cfg) && IsMatrix(x, 3, 1)
    ensures IsMatrix(r, 3, 1)
  {
    var a := SystemMatrix(cfg);
    assert Width(x) == 1;
    MatAdd(MatMul(a, x), MatScale(u, InputColumn(cfg)))
  }

  /** On a column the column form computes the row form's values, as a column. */
  lemma {:induction false} DynamicsColumnAgrees(cfg: DCMotorConfig, y: Vector, u: real)
    requires Admissible(cfg) && |y| == 3
    ensures DynamicsColumn(cfg, Column(y), u) == Column(Dynamics(cfg, y, u))
  {
    var a := SystemMatrix(cfg);
    ColumnMatMul(a, y);
    ColumnScale(u, InputVector(cfg));
    ColumnAdd(MatVec(a, y), Scale(u, InputVector(cfg)));
  }

  function DynamicsColumnOf(cfg: DCMotorConfig): ColumnDynamics
    requires Admissible(cfg)
  {
    (x: Matrix, u: real) requires IsMatrix(x, 3, 1) => DynamicsColumn(cfg, x, u)
  }

  lemma {:induction false} DynamicsColumnForm(cfg: DCMotorConfig)
    requires Admissible(cfg)
    ensures PreservesColumn(DynamicsColumnOf(cfg), 3)
    ensures ColumnForm(DynamicsColumnOf(cfg), DynamicsOf(cfg), 3)
  {
    forall y: Vector, v: real | |y| == 3
      ensures DynamicsColumnOf(cfg)(Column(y), v) == Column(DynamicsOf(cfg)(y, v))
    {
      DynamicsColumnAgrees(cfg, y, v);
    }
  }

  /** At rest the column form gives the column `[u/L, 0, 0]`. */
  lemma DynamicsColumnAtRest(cfg: DCMotorConfig, u: real)
    requires Admissible(cfg)
    ensures DynamicsColumn(cfg, [[0.0], [0.0], [0.0]], u) == [[u / cfg.L], [0.0], [0.0]]
  {
    assert [[0.0], [0.0], [0.0]] == Column([0.0, 0.0, 0.0]);
    DynamicsColumnAgrees(cfg, [0.0, 0.0, 0.0], u);
    DynamicsAtRest(cfg, u);
  }

  /** The motor constants the notebooks evaluate with. */
  const NotebookMotor := DCMotorConfig(1.8, 0.0085, 0.035, 0.032, 4.6, 6.2)

  /** The three evaluations of the notebooks: at rest with ±2 V, and a unit
      current with no input. */
  lemma NotebookEvaluations()
    ensures Admissible(NotebookMotor)
    ensures Dynamics(NotebookMotor, [0.0, 0.0, 0.0], 2.0) == [2.0 / 0.0085, 0.0, 0.0]
    ensures Dynamics(NotebookMotor, [0.0, 0.0, 0.0], -2.0) == [-2.0 / 0.0085, 0.0, 0.0]
    ensures Dynamics(NotebookMotor, [1.0, 0.0, 0.0], 0.0) == [-1.8 / 0.0085, 0.0, 6.2 / 0.032]
  {
    DynamicsAtRest(NotebookMotor, 2.0);
    DynamicsAtRest(NotebookMotor, -2.0);
    DynamicsUnitCurrent(NotebookMotor);
  }

  // ------------------------------------------------------------------ outputs

  /** `DCMotor.output` of the second notebook: the angle `x[1]`. */
  function Output(x: Vector): (y: real)
    requires |x| >= 2
    ensures y == x[1]
  {
    x[1]
  }

  /** The output sees the angle only: states that agree on it give one output. */
  lemma OutputIgnoresRest(x: Vector, y: Vector)
    requires |x| >= 2 && |y| >= 2 && x[1] == y[1]
    ensures Output(x) == Output(y)
  {
  }

  /** The output row `C = [0, 1, 0]` of the third notebook. */
  const OutputRow: Vector := [0.0, 1.0, 0.0]

  /** `DCMotor.output` of the third notebook, `C @ x`: it is the angle, as before. */
  function OutputC(x: Vector): (y: real)
    requires |x| == 3
    ensures y == x[1] && y == Output(x)
  {
    Dot3(OutputRow, x);
    Dot(OutputRow, x)
  }

  lemma OutputExample()
    ensures OutputC([0.0, 1.0, 2.0]) == 1.0
  {
  }
}
