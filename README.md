# Closed-loop simulation engine of the control-systems notebooks

Three notebooks build, step by step, a small simulation engine for
continuous-time plants.

- **Plants.** A plant is a dynamics function `f(x, u)` that maps a state and
  a scalar input to the state's derivative. The notebooks provide three:
  - the RC circuit;
  - the pendulum;
  - the linear DC motor `x' = A x + B u`, with A and B built from the
    motor's configuration record.
- **Outputs.** A plant may have an output projection, the motor's shaft
  angle.
- **One-step integrators.** There are two:
  - Euler, `x + dt*f(x, u(t))`;
  - RK2 midpoint, `x + dt*f(x + dt/2*f(x, u(t)), u(t + dt/2))`.
- **Drivers.** A driver builds the time grid `arange(t_0, t_f + dt, dt)`,
  puts x_0 in row 0 and fills row i from row i-1.
- **Open-loop inputs.** The unit impulse and the unit step are input
  functions of time, handed to `rk2_integration`.
- **Closed loop.** The closed-loop driver `simulate` wraps a controller in
  an input function that ignores its time argument and is bound to the
  previous state. Three controllers are provided:
  - the dummy controller;
  - a stateful PID controller (second notebook);
  - a state feedback regulator (third notebook).
- **Controllability.** The third notebook adds the controllability matrix
  `[B  AB ... A^(n-1) B]`.

The model works over exact reals. It has these modules:

- `Vectors`: the numpy vector and matrix operations used, on `seq<real>`.
- `TimeGrid`: `np.arange` over reals, the driver grid, and its length and
  endpoint facts.
- `Steppers`: the Euler step and the RK2 step (`rk2_step`, both the row
  form and the transposing form), together with what a driver's rows
  satisfy.
- `Practicum1`: `rc_dynamics`, `pendulum_dynamics`, the three
  `euler_integration` versions and the two `rk2_integration` versions.
- `Motor`: the DC motor configuration, its row and column dynamics, and
  both output forms.
- `Controllers`: the unit impulse and unit step, the dummy and PID
  controllers (as values and as the mutable `PIDController` class), and
  the state feedback regulator.
- `Practicum2`: `rk2_integration` and `simulate` of the second notebook.
- `Practicum3`: the transposing `simulate` of the third notebook, in both
  versions:
  - one over any plant and any state feedback controller;
  - one that also fills `u_vals`.

  It also specialises them to the motor under the regulator.
- `Controllability`: `ctrb`. As an extra beside the simulation core, it
  also holds the determinant (by cofactor expansion) and the
  `is_controllable` test.

Drivers that fill `x_vals` in place are methods over an `array` with loop
invariants. Their contracts tie every row to the step function applied to
the row before. A predicate with a "snoc" lemma (the rows stay valid when
one more row is appended in the right way) carries the loop. A determinism
lemma shows that the first row fixes the whole run.

An empty grid makes the source fail at `x_vals[0] = x_0` with an
IndexError. The drivers model this with an `ok` flag that is false exactly
when the grid is empty.

Where the notebooks' prose and their code disagree, the model follows the
code:

- The matrix A displayed in the motor derivation (python/practicum2final.py:94-101)
  has `+b/J` in its last entry. The equations above it and the code
  (python/practicum2final.py:365-367) use `-b/J`.
- The grid `arange(t_0, t_f + dt, dt)` has `ceil((t_f - t_0)/dt) + 1`
  points (`TimeGrid.GridLength`). That is `floor((t_f - t_0)/dt) + 1`
  only when `(t_f - t_0)/dt` is a whole number; otherwise the grid has
  one point more and ends after `t_f`.
- A PID controller is meant to be advanced once per step. As written, the
  second notebook's `simulate` advances it twice per step (see Findings).

## Model

| member | source | states |
|---|---|---|
| Vectors.Add | python/practicum2final.py:440-442 | numpy's elementwise sum of two vectors of one length |
| Vectors.Scale | python/practicum2final.py:440-442 | numpy's scalar times vector, entry by entry |
| Vectors.Dot3 | python/practicum3final.py:102 | a dot product of three entries is `a0*b0 + a1*b1 + a2*b2` |
| Vectors.DotSub | python/practicum3final.py:306 | the dot product with k is linear: `k.x - k.y = k.(x - y)` |
| Vectors.MatVec | python/practicum3final.py:84 | `np.dot(A, x)`: entry i is row i of A dotted with x |
| Vectors.MatMul | python/practicum3final.py:166 | `X @ Y`: row i is row i of X times Y, with |X| rows and Y's width |
| Vectors.MatMulAssoc | python/practicum3final.py:165-166 | the matrix product is associative |
| Vectors.MatAdd | python/practicum3final.py:378-380 | elementwise sum of two matrices of one shape |
| Vectors.MatScale | python/practicum3final.py:378-380 | scalar times matrix, row by row |
| Vectors.Transpose | python/practicum3final.py:376-383 | `M.T`: entry (j, i) is entry (i, j) of M |
| Vectors.HStack | python/practicum3final.py:166 | `np.hstack`: row i is row i of A followed by row i of B |
| Vectors.Column | python/practicum3final.py:376 | `np.atleast_2d(v).T` is the n-by-1 column of v |
| Vectors.TransposeRow | python/practicum3final.py:376 | transposing the 1-by-n row of v gives its column |
| Vectors.TransposeColumn | python/practicum3final.py:383 | transposing the column of v gives the 1-by-n row of v |
| TimeGrid.Arange | python/practicum1final.py:668-670 | `np.arange(start, stop, step)` has `max(0, ceil((stop-start)/step))` points, and point i is `start + i*step` |
| TimeGrid.ArangeHalfOpen | python/practicum1final.py:668-670 | with a positive step every grid point lies strictly before `stop`, and the next point would not |
| TimeGrid.GridPoints | python/practicum1final.py:668-670 | the driver grid `arange(t_0, t_f + dt, dt)`: `ArangeLength` points, point i at `t_0 + i*dt` |
| TimeGrid.GridEndpoints | python/practicum2final.py:183-185 | the driver grid is empty exactly when `t_f + dt <= t_0`; otherwise its last point lies in `[t_f, t_f + dt)` |
| TimeGrid.GridLength | python/practicum3final.py:402-404 | for `t_0 <= t_f` the grid has `q + 1` points when `q = (t_f - t_0)/dt` is whole, and `floor(q) + 2` otherwise |
| Steppers.EulerStep | python/practicum1final.py:677-682 | entry i of the Euler step is `x[i] + dt * f(x, u(t))[i]`, with the input sampled at the start of the step |
| Steppers.Rk2UpdateIsEulerAtMidpoint | python/practicum2final.py:439-442 | with the two inputs given, entry i of the RK2 update is `x[i] + dt * f(mid, u2)[i]`, where mid is the Euler half step from x under u1 |
| Steppers.Rk2Step | python/practicum2final.py:427-443 | `rk2_step` is a full step along the derivative taken at the Euler half step from x (input at t), with the input at `t + dt/2` |
| Steppers.Rk2KeepsRestPoint | python/practicum2final.py:439-443 | a state where the derivative is zero under both inputs is left unchanged by one RK2 update |
| Steppers.HeldInput | python/practicum2final.py:479 | an input function that ignores time gives both RK2 sub-evaluations the same input (a zero-order hold) |
| Steppers.Rk2StepColumn | python/practicum3final.py:360-384 | the transposing `rk2_step` returns a 1-by-n row for an n-entry state |
| Steppers.Rk2StepColumnAgrees | python/practicum3final.py:376-384 | transposing, stepping the column dynamics and transposing back gives the row-form `rk2_step` when the column dynamics compute the row dynamics on columns |
| Steppers.Rk2RowsDetermined | python/practicum1final.py:751-760 | two RK2 runs over one grid from one initial row are equal: row i depends on row i-1 and `t_vals[i-1]` only |
| Steppers.EulerRowsDetermined | python/practicum1final.py:677-682 | the same for Euler runs |
| Practicum1.RcDynamics | python/practicum1final.py:57-76 | `C*R = 2`, `2*r = u - x`; the result is 0 iff `x = u`, negative iff `x > u`, positive iff `u > x` |
| Practicum1.EulerLoop | python/practicum1final.py:126-133 | the list starts with `[t_0, x_0]`; each entry advances t by dt and x by `dt*f(x, u(t))` at the previous t; the loop stops at the first entry whose time reaches t_f; it has `StepCount + 1` entries |
| Practicum1.EulerIntegrationV1 | python/practicum1final.py:112-134 | the Euler list with a constant input; there is exactly one entry iff `t_0 >= t_f` |
| Practicum1.EulerIntegrationV2 | python/practicum1final.py:306-328 | the Euler list with the input sampled at the entry being advanced; there is exactly one entry iff `t_0 >= t_f` |
| Practicum1.EulerEntry | python/practicum1final.py:324-327 | one loop pass advances t by dt, and on x it is the Euler step of the dynamics at the entry's own time |
| Practicum1.EulerEntryTimes | python/practicum1final.py:131 | entry i of a list-based run is at time `t_0 + i*dt` |
| Practicum1.ListLengthMatchesGrid | python/practicum1final.py:130 | for `t_0 <= t_f` the list-based loop makes as many entries as the driver grid has points |
| Practicum1.RcRk2Update | python/practicum1final.py:391-394 | the RC circuit's RK2 update in closed form: `8*(x' - x) = dt*(4*(u2 - x) - dt*(u1 - x))` |
| Practicum1.RcRk2IsRk2Update | python/practicum1final.py:389-394 | the scalar RC update inside the first `rk2_integration` is the generic RK2 update on one-entry states |
| Practicum1.Rk2IntegrationV1 | python/practicum1final.py:364-397 | the first `rk2_integration` has one entry per grid point (a single entry for an empty grid), entry 0 is `(t_0, x_0)`, and entry i carries `t_vals[i]` and the RC update (whatever `dyn_func` is) with inputs sampled at `t_vals[i]` and `t_vals[i] + dt/2` |
| Practicum1.Rk2V1SamplesLate | python/practicum1final.py:386-392 | sampling the input at `t_vals[i]` instead of `t_vals[i-1]` changes the result: 0.625 instead of 0.25 for a ramp input |
| Practicum1.PendulumDynamics | python/practicum1final.py:576-599 | the derivative of theta is theta_dot, and `m*l*l*theta_dd = u - b*theta_dot - m*g*l*sin(theta)` |
| Practicum1.PendulumAtBottom | python/practicum1final.py:617 | at `[0, 0]` the first component is 0 |
| Practicum1.PendulumRestoring | python/practicum1final.py:611-614 | at rest with no input the acceleration is positive where `sin(theta) < 0` and negative where `sin(theta) > 0` |
| Practicum1.EulerIntegrationV3 | python/practicum1final.py:647-685 | `t_vals` is the grid, `x_vals` has one row per grid point, row 0 is x_0, and row i is the Euler step from row i-1 at `t_vals[i-1]`, with the driver's m, l, b forwarded; an empty grid fails |
| Practicum1.Rk2IntegrationV2 | python/practicum1final.py:722-761 | the same with row i the RK2 step from row i-1 at `t_vals[i-1]` |
| Motor.Dynamics | python/practicum2final.py:359-378 | `A x + B u` written out: `L*i' = u - R*i - Km*theta_dot`, `theta' = theta_dot`, `J*theta_dd = Ktau*i - b*theta_dot` |
| Motor.DynamicsAtRest | python/practicum2final.py:405-407 | at the origin the derivative is `[u/L, 0, 0]` |
| Motor.DynamicsUnitCurrent | python/practicum2final.py:409 | at `[1, 0, 0]` with no input the derivative is `[-R/L, 0, Ktau/J]` |
| Motor.DynamicsSuperposition | python/practicum2final.py:371-378 | the response to state x and input u is the free response of x plus the forced response of u at rest |
| Motor.DynamicsInputOdd | python/practicum3final.py:122-123 | at rest the `u` and `-u` evaluations differ only in sign |
| Motor.NotebookEvaluations | python/practicum2final.py:405-409 | the three evaluations with the notebook's motor constants give `[2/L, 0, 0]`, `[-2/L, 0, 0]` and `[-R/L, 0, Ktau/J]` |
| Motor.InputColumn | python/practicum3final.py:76-78 | the 3-by-1 B of the third notebook is the second notebook's B as a column |
| Motor.DynamicsColumn | python/practicum3final.py:67-86 | the column form maps a 3-by-1 column to a 3-by-1 column |
| Motor.DynamicsColumnAgrees | python/practicum3final.py:79-86 | on a column the column form computes the row form's values, as a column |
| Motor.DynamicsColumnForm | python/practicum3final.py:79-86 | the column dynamics accept every 3-by-1 column and compute the row dynamics on columns |
| Motor.DynamicsColumnAtRest | python/practicum3final.py:122 | at the origin the column form gives the column `[u/L, 0, 0]` |
| Motor.Output | python/practicum2final.py:389-393 | the output is the angle, entry 1 of the state |
| Motor.OutputIgnoresRest | python/practicum2final.py:389-393 | the output depends on `x[1]` only |
| Motor.OutputC | python/practicum3final.py:96-102 | `C@x` with `C = [0, 1, 0]` is `x[1]`, the second notebook's output |
| Motor.OutputExample | python/practicum3final.py:128 | the output of `[0, 1, 2]` is 1 |
| Controllers.UnitImpulse | python/practicum2final.py:207-212 | 1 iff `t == 0`, 0 iff `t != 0` |
| Controllers.UnitStep | python/practicum2final.py:218-223 | 1 iff `t >= 0`, 0 iff `t < 0` |
| Controllers.StepAfterImpulse | python/practicum2final.py:207-223 | where the impulse fires the step is on, and after time 0 the step is on and the impulse off |
| Controllers.NewPid | python/practicum2final.py:586-597 | a new PID controller keeps the config and has both errors 0 |
| Controllers.Respond | python/practicum2final.py:491-500 | the dummy returns 0 and stays unchanged; a PID call keeps the constants, records the error as the prior error and stays well formed |
| Controllers.PidTerms | python/practicum2final.py:599-612 | a PID call adds `e*dt` to the cumulative error and returns `Kp*e + Ki*cum' + Kd*(e - prior)/dt` |
| Controllers.PidFirstCall | python/practicum2final.py:594-612 | a new controller's first call returns `Kp*e + Ki*e*dt + Kd*e/dt` |
| Controllers.PidRepeatNoDerivative | python/practicum2final.py:603-610 | a second call with the same measurement has derivative term 0 and a cumulative error grown by `2*e*dt` |
| Controllers.PidHistoryGap | python/practicum2final.py:599-612 | for any two measurements m1, m2: after a call with m1, a call with m2 returns `e1*Ki*dt - Kd*e1/dt` more than a new controller's first call with m2, where e1 is the error of m1 |
| Controllers.PidHistoryCarries | python/practicum2final.py:599-612 | state carries across calls: after a call with m1, a call with m2 differs from a new controller's call with m2 iff `e1 != 0` and `Ki*dt*dt != Kd` |
| Controllers.PidStateCarries | python/practicum2final.py:603-610 | the repeated-measurement case, against the first call: for a nonzero error the second call differs from the first iff `Ki*dt*dt != Kd` |
| Controllers.PidSecondCallGap | python/practicum2final.py:603-610 | a second call with the same measurement returns `Ki*e*dt - Kd*(e - prior)/dt` more than the first |
| Controllers.RespondTimes | python/practicum2final.py:599-612 | repeated calls keep the controller well formed, of its kind and with its constants |
| Controllers.PidIntegral | python/practicum2final.py:579 | n calls with one measurement add `n*e*dt` to the cumulative error (backward rectangles) |
| Controllers.PIDController.constructor | python/practicum2final.py:586-597 | the fields hold the config and both errors are 0 |
| Controllers.PIDController.Call | python/practicum2final.py:599-612 | the constants stay, `cum_error` grows by `e*dt`, `prior_error` becomes e, and the returned input and new fields are those of `Respond` |
| Controllers.RegulateThreeStates | python/practicum3final.py:303-306 | for three states the regulator's input is `-(k0*x0 + k1*x1 + k2*x2) + k_f*setpoint` |
| Controllers.RegulateAtOrigin | python/practicum3final.py:303-306 | with the state 0 and the setpoint 0 the regulator returns 0 |
| Controllers.RegulateAffine | python/practicum3final.py:303-306 | the regulator is affine: two states' inputs differ by `-K` applied to their difference |
| Practicum2.Rk2Integration | python/practicum2final.py:168-201 | one row per grid point, row 0 is x_0, row i is `rk2_step` from row i-1 at `t_vals[i-1]`; an empty grid fails |
| Practicum2.ClosedLoopStep | python/practicum2final.py:478-484 | a closed-loop step keeps the motor's dimension and leaves the controller as two calls on the step's output leave it |
| Practicum2.PidStepInputs | python/practicum2final.py:439-440 | as written, the two sub-evaluations of a PID step get the inputs of a first and a second call on one measurement, and these differ by `Ki*e*dt - Kd*(e - prior)/dt` |
| Practicum2.ClosedLoopRowsDetermined | python/practicum2final.py:478-484 | the initial state and controller fix the whole closed-loop run and the controller states along it |
| Practicum2.Simulate | python/practicum2final.py:453-485 | `t_vals` is the grid, row 0 is x_0, each row and controller state is the closed-loop step from the previous ones, the returned controller is the last state; an empty grid fails before any call |
| Practicum2.DummyIsHeldZero | python/practicum2final.py:491-500 | with the dummy controller a closed-loop step is `rk2_step` under the held input 0 |
| Practicum2.DummyRunIsOpenLoop | python/practicum2final.py:478-484 | a closed-loop run with the dummy controller is the `rk2_integration` run under the zero input |
| Practicum2.PidAdvancedTwicePerStep | python/practicum2final.py:439-440 | as written, a PID controller's cumulative error grows by `2*e*dt` per step |
| Practicum2.PidDoubleCountExample | python/practicum2final.py:479 | for an integral-only controller the two sub-evaluations get 1 and 2, and the cumulative error is 2 after one step |
| Practicum2.ClosedLoopStepHeld | python/practicum2final.py:478-484 | the step with one controller call leaves the controller after that single call |
| Practicum2.HeldStepIsRk2Step | python/practicum2final.py:427-443 | the one-call step is `rk2_step` under the held input of that call, and a PID integral grows by `e*dt` per step |
| Practicum2.DummyStepsAgree | python/practicum2final.py:491-500 | for the dummy controller the step as written and the one-call step agree |
| Practicum2.DummyRunsAgree | python/practicum2final.py:478-484 | a dummy run as written is also a run with one call per step |
| Practicum2.SimulateHeld | python/practicum2final.py:453-485 | `simulate` with one controller call per step: same shape, with rows and controller states from the one-call step |
| Practicum3.FeedbackStep | python/practicum3final.py:411-417 | the step keeps the state's dimension |
| Practicum3.StepRowsDetermined | python/practicum3final.py:411-417 | two runs of one step function over one grid from one first row are equal |
| Practicum3.FeedbackRowsDetermined | python/practicum3final.py:411-417 | two `simulate` runs over one grid from one initial state are equal |
| Practicum3.Simulate | python/practicum3final.py:386-418 | `t_vals` is the grid, row 0 is x_0, every row has x_0's dimension, and row i is the transposing `rk2_step` from row i-1 at `t_vals[i-1]` with the controller's value on the full state held; an empty grid fails |
| Practicum3.RecordedInputDrivesStep | python/practicum3final.py:725-731 | `u_vals[i]` is the input held over both sub-evaluations of step i |
| Practicum3.RecordStep | python/practicum3final.py:725-731 | one loop pass stores `controller(x_vals[i-1])` in `u_vals[i]` and the step in `x_vals[i]`, keeping the earlier and later entries |
| Practicum3.SimulateWithInputs | python/practicum3final.py:695-732 | the rows are those of `Simulate`; `u_vals` has one entry per grid point, `u_vals[0] = 0`, and `u_vals[i]` is the controller's value on row i-1 |
| Practicum3.RegulatorOf | python/practicum3final.py:293-306 | the regulator as a controller accepts every state with as many entries as K and returns `-K.x + k_f*setpoint` |
| Practicum3.RegulatedStep | python/practicum3final.py:411-417 | the regulated motor step is `rk2_step` under the held regulator input, whatever the time |
| Practicum3.MotorStepIsRegulatedStep | python/practicum3final.py:360-384 | on the motor under the regulator the transposing step is the RK2 update with the regulator's value held, at any grid time |
| Practicum3.MotorRunIsRegulated | python/practicum3final.py:711-731 | in a motor run under the regulator, `u_vals[i]` is the regulator's value on row i-1 and row i the RK2 update with it held |
| Practicum3.StandstillIsRest | python/practicum3final.py:79-86 | the motor with no current and no speed has zero derivative under zero input |
| Practicum3.RegulatedEquilibrium | python/practicum3final.py:303-306 | a standstill where the regulator asks for no input is left unchanged by a closed-loop step |
| Practicum3.ZeroGainIsOpenLoop | python/practicum3final.py:303-306 | with `K = 0` the closed loop is the open-loop `rk2_step` under the held input `k_f*setpoint` |
| Controllability.BlockRecurrence | python/practicum3final.py:164-166 | block i+1 of the controllability matrix is A times block i |
| Controllability.MatPow | python/practicum3final.py:165 | `matrix_power(A, i)` of an n-by-n A is n-by-n |
| Controllability.Ctrb | python/practicum3final.py:160-167 | for n-by-n A and n-by-1 B the result is n-by-n and column i is `A^i B` (column 0 is B) |
| Controllability.CtrbExample | python/practicum3final.py:196-222 | for `A = [[1,2],[0,-3]]`, `B = [[0],[1]]` the result is `[[0,2],[1,-3]]` |
| Controllability.Det1 | python/practicum3final.py:177 | the determinant of a 1-by-1 matrix is its entry |
| Controllability.Det2 | python/practicum3final.py:177 | the 2-by-2 determinant is `ad - bc` |
| Controllability.DetZeroFirstRow | python/practicum3final.py:177 | a square matrix whose first row is zero has determinant 0 |
| Controllability.IsControllableAsWritten | python/practicum3final.py:174-180 | the as-written half of the third finding: since the float-versus-str `==` is always False, `is_controllable` returns True for every square matrix; the contract is this constant, and `ZeroInputNotControllable` gives it its content |
| Controllability.ZeroInputNotControllable | python/practicum3final.py:174-180 | a zero B gives a zero controllability matrix, which the test as written calls controllable and the determinant test does not |
| Controllability.CtrbExampleControllable | python/practicum3final.py:170-180 | the worked example's controllability matrix has a nonzero determinant (-2) |

## Left out

- Plotting, printing, notebook glue and the print helpers: these are display only.
- The sinusoid inputs (`u_func` in the first notebook, `sinusoid` in the second) depend on a transcendental `sin`. The drivers that take an input function of time (the second and third `euler_integration` versions, both `rk2_integration` versions and the generic `Practicum2.Rk2Integration`) take it as a parameter of type `real -> real`, so a sinusoid can be passed in. The first `euler_integration` takes a constant input, and both `simulate` drivers take a controller.
- The pendulum's `math.sin` is a parameter `sin: real -> real`. Only the sign facts the notebook's asserts use are stated, as hypotheses on `sin(theta)`. The value of pi is not modelled, so the asserts at `theta = -pi/4` and `theta = pi/4` appear as "where `sin(theta) < 0`" and "where `sin(theta) > 0`".
- Practicum1.PendulumDynamics: g is the constant 9.8, because no driver passes another value; the default arguments m, l, b become explicit parameters.
- The pole-design formulas (`rise_time`, `overshoot`, `damping_ratio`, `omega_0`, `get_eigenvalues`) use float and complex transcendental functions.
- `feedforward_gain`, `control.acker` and the floating-point `np.linalg.det`: these are library numerics. K and k_f are inputs of the regulator. The determinant is modelled exactly, by cofactor expansion.
- Float rounding: all arithmetic is over exact reals. The length of `np.arange` at the `t_f + dt` boundary is the exact-real length, and no accuracy or convergence claims are made.
- Dead code: `adam_example` refers to undefined names, and `EulerIteration` is never used.
- Practicum1.EulerLoop: the list-based Euler loops do not terminate when `dt <= 0` and `t_0 < t_f`, so the model requires `dt > 0` or `t_0 >= t_f`. The clock `t += dt` is exact, so the loop stops at the exact step count.
- TimeGrid.Grid: `np.arange` with step 0 raises an error, so every driver requires `dt != 0`.
- Controllers.PIDController.Call: a time step of 0 makes the derivative term `Kd*(e - prior)/delta_t` divide by 0. Inside `simulate` the measurement is a numpy float, so numpy gives inf or nan with a warning, not an exception. Over reals a division by 0 has no such value, so the model requires `delta_t != 0`. `WellFormed` states the same for the controller value.
- Practicum1.PendulumDynamics: `1/(m*l*l)` raises ZeroDivisionError when m or l is 0, so the model requires `m != 0` and `l != 0`.
- Motor.Admissible: building the A and B matrices divides by L and J and raises ZeroDivisionError when either is 0, so every motor member requires `L != 0` and `J != 0`.
- Controllers.Regulate: it has no contract of its own; its value is stated by `Controllers.RegulateThreeStates` and `Practicum3.RegulatorOf`, and its linearity by `Controllers.RegulateAffine`.
- Controllability.MatPow: its own contract states only the shape. That `A^(i+1) = A A^i` is its definition, and `Controllability.BlockRecurrence` states what follows for the blocks.
- Controllability.Det: cofactor expansion along the first row, with no contract of its own. Its values are stated by `Controllability.Det1`, `Controllability.Det2` and `Controllability.DetZeroFirstRow`. `Controllability.IsControllable` (`Det(c) != 0`) is stated through `Controllability.CtrbExampleControllable` and `Controllability.ZeroInputNotControllable`.
- Vectors.Dot: the recursive dot product has no contract of its own; `Vectors.Dot2`, `Vectors.Dot3` and `Vectors.DotSub` state it.
- Steppers.Rk2StepColumn: its own contract states only the 1-by-n shape; its values are stated by `Steppers.Rk2StepColumnAgrees`.
- Steppers.Rk2Update: its own contract states only the length; its values are stated by `Steppers.Rk2UpdateIsEulerAtMidpoint`, because on `Rk2Update` itself they make the drivers' proofs too costly.
- Motor.DynamicsColumn: its own contract states only the 3-by-1 shape; its values are stated by `Motor.DynamicsColumnAgrees`.
- Practicum3.FeedbackStep: its own contract states only the dimension. For the motor its value is stated by `Practicum3.MotorStepIsRegulatedStep`, and in a run by `Practicum3.RecordedInputDrivesStep`.
- Controllers.Regulate: K is a vector with as many entries as the state. The source's K is the 1-by-n array `control.acker` returns, whose product with x is a one-element array that numpy treats as a scalar.
- Practicum2.Simulate: the controller object is threaded through the run as a value (`ScalarController`), and its successive states are returned as a ghost sequence, in place of a mutable object shared by reference. The mutable `PIDController` class is modelled too, and its `Call` is proved equal to the value form.
- Practicum3.Simulate: the controller is a function of the state (a state feedback regulator), so the three calls per step of the input-recording version all return the same value. A stateful controller under this driver is not modelled; the second notebook's driver covers one.
- Controllability.Ctrb: the model covers a single-input B (n-by-1) and `n >= 1`. For n = 0 the source returns B unchanged.
- Controllability.IsControllable: the determinant of a non-square controllability matrix (numpy raises an error) is not modelled; both tests require a square matrix.

## Findings

| source | as written | input that shows it | evidently intended | confidence | as-written member | corrected member |
|---|---|---|---|---|---|---|
| python/practicum2final.py:479 | the input function calls the controller each time it is sampled, and `rk2_step` samples it twice, so a PID controller is advanced twice per step | a new integral-only PID (Ki = 1, dt = 1, setpoint 1) at the origin: the two sub-evaluations get inputs 1 and 2, and the cumulative error after one step is 2 | one controller call per step, its value held over the step, and the integral growing by `e*dt` per step | not executed | Practicum2.PidDoubleCountExample | Practicum2.HeldStepIsRk2Step |
| python/practicum1final.py:386-392 | the first `rk2_integration` calls `rc_dynamics` whatever `dyn_func` is, and samples the input at `t_vals[i]` rather than at the start of the step | the ramp input u(s) = s from 0 at time 0 with dt = 1: the first step gives 0.625 instead of 0.25 | integrate `dyn_func` with the input at `t_vals[i-1]` and `t_vals[i-1] + dt/2` | not executed | Practicum1.Rk2V1SamplesLate | Practicum1.Rk2IntegrationV2 |
| python/practicum3final.py:177 | `np.linalg.det(C) == '0'` compares a float with a string, which is never equal, so every matrix is reported controllable | A = [[1,2],[0,-3]] with B = [[0],[0]]: C = [[0,0],[0,0]] has determinant 0, yet the test returns True | return `det(C) != 0` | not executed | Controllability.ZeroInputNotControllable | Controllability.CtrbExampleControllable |
