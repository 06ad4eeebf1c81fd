/** The input sources and controllers of the second and third notebooks:
    the open-loop unit impulse and unit step, the constant `DummyController`,
    the stateful `PIDController` and the stateless `StateFeedbackRegulator`. */
module Controllers {
  import opened Vectors

  // -------------------------------------------------------- open-loop inputs

  /** `unit_impulse`: 1 at t = 0 and 0 at every other time. */
  function UnitImpulse(t: real): (r: real)
    ensures r == 1.0 <==> t == 0.0
    ensures r == 0.0 <==> t != 0.0
  {
    if t == 0.0 then 1.0 else 0.0
  }

  /** `unit_step`: 1 from t = 0 on and 0 before. */
  function UnitStep(t: real): (r: real)
    ensures r == 1.0 <==> t >= 0.0
    ensures r == 0.0 <==> t < 0.0
  {
    if t >= 0.0 then 1.0 else 0.0
  }

  /** Where the impulse fires the step is on, and after t = 0 the step is
      on while the impulse is off. */
  lemma StepAfterImpulse(t: real)
    ensures UnitImpulse(t) == 1.0 ==> UnitStep(t) == 1.0
    ensures t > 0.0 ==> UnitStep(t) == 1.0 && UnitImpulse(t) == 0.0
  {
  }

  // ------------------------------------------------------ scalar controllers

  /** The constants of `PIDControllerConfig`. */
  datatype PidConfig = PidConfig(kp: real, ki: real, kd: real, deltaT: real, setpoint: real)

  /** A controller that maps a scalar measurement to an input, with its
      state: `DummyController` has none; a PID controller holds its
      constants, its cumulative error and its prior error. */
  datatype ScalarController =
    | Dummy
    | Pid(cfg: PidConfig, cumError: real, priorError: real)

  /** A PID controller divides by its time step. */
  predicate WellFormed(c: ScalarController)
  {
    c.Pid? ==> c.cfg.deltaT != 0.0
  }

  /** A newly constructed PID controller: both errors are 0. */
  function NewPid(cfg: PidConfig): (c: ScalarController)
    ensures c.Pid? && c.cfg == cfg && c.cumError == 0.0 && c.priorError == 0.0
  {
    Pid(cfg, 0.0, 0.0)
  }

  /** The input a call returns and the controller's state after it. */
  datatype Response = Response(u: real, next: ScalarController)

  /** One call `controller(measurement)`. The dummy returns 0.0 and stays as
      it is. A PID call takes the error `e = setpoint - measurement`, adds
      `e*dt` to the cumulative error, returns `Kp*e + Ki*cum + Kd*(e - prior)/dt`
      with the new cumulative and the old prior error, and records e as the
      prior error. */
  function Respond(c: ScalarController, measurement: real): (r: Response)
    requires WellFormed(c)
    ensures WellFormed(r.next)
    ensures r.next.Pid? <==> c.Pid?
    ensures c.Dummy? ==> r.u == 0.0
    ensures c.Pid? ==> r.next.cfg == c.cfg && r.next.priorError == c.cfg.setpoint - measurement
  {
    match c
    case Dummy => Response(0.0, Dummy)
    case Pid(cfg, cum, prior) =>
      var e := cfg.setpoint - measurement;
      var cum' := cum + e * cfg.deltaT;
      var p := cfg.kp * e;
      var i := cfg.ki * cum';
      var d := cfg.kd * (e - prior) / cfg.deltaT;
      Response(p + i + d, Pid(cfg, cum', e))
  }

  /** The response of a PID controller, split into its three terms. */
  lemma PidTerms(c: ScalarController, measurement: real)
    requires c.Pid? && WellFormed(c)
    ensures var e := c.cfg.setpoint - measurement;
            var r := Respond(c, measurement);
            && r.next.cumError == c.cumError + e * c.cfg.deltaT
            && r.u == c.cfg.kp * e + c.cfg.ki * r.next.cumError + c.cfg.kd * (e - c.priorError) / c.cfg.deltaT
  {
  }

  /** The first call of a new PID controller: with no history the integral
      term is `Ki*e*dt` and the derivative term is `Kd*e/dt`. */
  lemma PidFirstCall(cfg: PidConfig, measurement: real)
    requires cfg.deltaT != 0.0
    ensures var e := cfg.setpoint - measurement;
            Respond(NewPid(cfg), measurement).u == cfg.kp * e + cfg.ki * (e * cfg.deltaT) + cfg.kd * e / cfg.deltaT
  {
  }

  /** A second call with the same measurement sees no change of error, so its
      derivative term is 0 and only the integral grows. */
  lemma {:induction false} PidRepeatNoDerivative(c: ScalarController, measurement: real)
    requires c.Pid? && WellFormed(c)
    ensures var e := c.cfg.setpoint - measurement;
            var r1 := Respond(c, measurement);
            var r2 := Respond(r1.next, measurement);
            && r2.next.cumError == c.cumError + 2.0 * e * c.cfg.deltaT
            && r2.u == c.cfg.kp * e + c.cfg.ki * r2.next.cumError
  {
    var e := c.cfg.setpoint - measurement;
    var r1 := Respond(c, measurement);
    PidTerms(c, measurement);
    PidTerms(r1.next, measurement);
    assert c.cfg.kd * (e - e) / c.cfg.deltaT == 0.0;
  }

  /** How far a second call with the same measurement moves the input: the
      integral term grows by `Ki*e*dt` and the derivative term
      `Kd*(e - prior)/dt` of the first call drops out. */
  lemma {:induction false} PidSecondCallGap(c: ScalarController, measurement: real)
    requires c.Pid? && WellFormed(c)
    ensures var e := c.cfg.setpoint - measurement;
            var r1 := Respond(c, measurement);
            var r2 := Respond(r1.next, measurement);
            r2.u - r1.u == c.cfg.ki * e * c.cfg.deltaT - c.cfg.kd * (e - c.priorError) / c.cfg.deltaT
  {
    PidTerms(c, measurement);
    PidRepeatNoDerivative(c, measurement);
  }

  /** The repeated-measurement case of `PidHistoryCarries`, compared with the
      first call: for a nonzero error, the second call with a measurement
      differs from a new controller's first call exactly when
      `Ki*dt*dt != Kd` (in particular whenever Ki != 0 and Kd == 0). */
  lemma {:induction false} PidStateCarries(cfg: PidConfig, measurement: real)
    requires cfg.deltaT != 0.0 && cfg.setpoint - measurement != 0.0
    ensures var first := Respond(NewPid(cfg), measurement);
            var second := Respond(first.next, measurement);
            second.u != first.u <==> cfg.ki * cfg.deltaT * cfg.deltaT != cfg.kd
  {
    var e := cfg.setpoint - measurement;
    var dt := cfg.deltaT;
    var first := Respond(NewPid(cfg), measurement);
    var second := Respond(first.next, measurement);
    PidFirstCall(cfg, measurement);
    PidRepeatNoDerivative(NewPid(cfg), measurement);
    assert second.u - first.u == cfg.ki * e * dt - cfg.kd * e / dt;
    assert (second.u - first.u) * dt == e * (cfg.ki * dt * dt - cfg.kd);
    if cfg.ki * dt * dt != cfg.kd {
      assert e * (cfg.ki * dt * dt - cfg.kd) != 0.0;
    }
  }

  /** State carries across calls for any two measurements: after a call with
      m1, a call with m2 returns `e1*Ki*dt - Kd*e1/dt` more than a new
      controller's first call with m2, where e1 is the error of m1. */
  lemma PidHistoryGap(cfg: PidConfig, m1: real, m2: real)
    requires cfg.deltaT != 0.0
    ensures var e1 := cfg.setpoint - m1;
            Respond(Respond(NewPid(cfg), m1).next, m2).u - Respond(NewPid(cfg), m2).u
              == e1 * (cfg.ki * cfg.deltaT) - cfg.kd * e1 / cfg.deltaT
  {
  }

  /** Two values `e1*(Ki*dt) - Kd*e1/dt` apart, with e1 the error of m1,
      differ exactly when e1 and `Ki*dt*dt - Kd` are nonzero. */
  lemma GapNonzero(a: real, b: real, cfg: PidConfig, m1: real)
    requires cfg.deltaT != 0.0
    requires var e1 := cfg.setpoint - m1;
             a - b == e1 * (cfg.ki * cfg.deltaT) - cfg.kd * e1 / cfg.deltaT
    ensures var e1 := cfg.setpoint - m1;
            a != b <==> e1 != 0.0 && cfg.ki * cfg.deltaT * cfg.deltaT != cfg.kd
  {
    var e, k, d, dt := cfg.setpoint - m1, cfg.ki, cfg.kd, cfg.deltaT;
    assert (a - b) * dt == e * (k * dt * dt - d);
    if e != 0.0 && k * dt * dt != d {
      assert e * (k * dt * dt - d) != 0.0;
    }
  }

  /** The outputs of `PidHistoryGap` differ exactly when the first error is
      nonzero and `Ki*dt*dt != Kd`: only then does the history show. */
  lemma PidHistoryCarries(cfg: PidConfig, m1: real, m2: real)
    requires cfg.deltaT != 0.0
    ensures var e1 := cfg.setpoint - m1;
            var second, initial := Respond(Respond(NewPid(cfg), m1).next, m2).u, Respond(NewPid(cfg), m2).u;
            second != initial <==> e1 != 0.0 && cfg.ki * cfg.deltaT * cfg.deltaT != cfg.kd
  {
    PidHistoryGap(cfg, m1, m2);
    GapNonzero(Respond(Respond(NewPid(cfg), m1).next, m2).u, Respond(NewPid(cfg), m2).u, cfg, m1);
  }

  /** n calls in a row with one measurement. */
  function RespondTimes(c: ScalarController, measurement: real, n: nat): (r: ScalarController)
    requires WellFormed(c)
    ensures WellFormed(r) && (r.Pid? <==> c.Pid?)
    ensures c.Pid? ==> r.cfg == c.cfg
    decreases n
  {
    if n == 0 then c else RespondTimes(Respond(c, measurement).next, measurement, n - 1)
  }

  /** The cumulative error is a backward-rectangle integral of the error: n
      calls with one measurement add `n*e*dt`. */
  lemma {:induction false} PidIntegral(c: ScalarController, measurement: real, n: nat)
    requires c.Pid? && WellFormed(c)
    ensures RespondTimes(c, measurement, n).cumError
            == c.cumError + (n as real) * (c.cfg.setpoint - measurement) * c.cfg.deltaT
    decreases n
  {
    if n > 0 {
      var next := Respond(c, measurement).next;
      PidTerms(c, measurement);
      PidIntegral(next, measurement, n - 1);
    }
  }

  /** `PIDController` as the object the notebook mutates. */
  class PIDController {
    var kp: real
    var ki: real
    var kd: real
    var deltaT: real
    var setpoint: real
    var cumError: real
    var priorError: real

    /** The controller's fields as a value. */
    function State(): ScalarController
      reads this
    {
      Pid(PidConfig(kp, ki, kd, deltaT, setpoint), cumError, priorError)
    }

    /** `__init__`: the constants from the config, both errors 0. */
    constructor (cfg: PidConfig)
      ensures State() == NewPid(cfg)
    {
      kp, ki, kd, deltaT, setpoint := cfg.kp, cfg.ki, cfg.kd, cfg.deltaT, cfg.setpoint;
      cumError, priorError := 0.0, 0.0;
    }

    /** `__call__`: the gains, the time step and the setpoint stay, the two
        errors advance, and the returned input and the new state are those of
        `Respond`. */
    method Call(measurement: real) returns (u: real)
      requires deltaT != 0.0
      modifies this
      ensures kp == old(kp) && ki == old(ki) && kd == old(kd)
      ensures deltaT == old(deltaT) && setpoint == old(setpoint)
      ensures cumError == old(cumError) + (setpoint - measurement) * deltaT
      ensures priorError == setpoint - measurement
      ensures Respond(old(State()), measurement) == Response(u, State())
    {
      var e := setpoint - measurement;
      cumError := cumError + e * deltaT;
      var p := kp * e;
      var i := ki * cumError;
      var d := kd * (e - priorError) / deltaT;
      priorError := e;
      u := p + i + d;
    }
  }

  // ------------------------------------------------- state feedback regulator

  /** `StateFeedbackRegulator`: the gain row K, the feedforward gain k_f and
      the setpoint, none of which a call changes. */
  datatype Regulator = Regulator(k: Vector, kf: real, setpoint: real)

  /** `u = -K . x + k_f * setpoint`. */
  function Regulate(reg: Regulator, x: Vector): real
    requires |x| == |reg.k|
  {
    -1.0 * Dot(reg.k, x) + reg.kf * reg.setpoint
  }

  /** For the three-state motor the regulator's input written out:
      `u = -(k0*x0 + k1*x1 + k2*x2) + k_f*setpoint`. */
  lemma RegulateThreeStates(reg: Regulator, x: Vector)
    requires |x| == 3 && |reg.k| == 3
    ensures Regulate(reg, x) == -(reg.k[0] * x[0] + reg.k[1] * x[1] + reg.k[2] * x[2]) + reg.kf * reg.setpoint
  {
    Dot3(reg.k, x);
  }

  /** At the origin with setpoint 0 the regulator asks for no input. */
  lemma RegulateAtOrigin(reg: Regulator, x: Vector)
    requires |x| == |reg.k| && IsZero(x) && reg.setpoint == 0.0
    ensures Regulate(reg, x) == 0.0
  {
    DotZero(reg.k, x);
  }

  /** The regulator is affine in the state: two states' inputs differ by
      `-K` applied to the difference of the states. */
  lemma RegulateAffine(reg: Regulator, x: Vector, y: Vector)
    requires |x| == |reg.k| && |y| == |reg.k|
    ensures Regulate(reg, x) - Regulate(reg, y) == -1.0 * Dot(reg.k, Add(x, Scale(-1.0, y)))
  {
    DotSub(reg.k, x, y);
  }
}
