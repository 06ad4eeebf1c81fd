/** The time grid `np.arange(start, stop, step)` computed over exact reals:
    the points `start + i*step` for `i < N`, where N is the number of
    steps that stay strictly before `stop`. Every driver builds its grid as
    `np.arange(t_0, t_f + delta_t, delta_t)`. */
module TimeGrid {

  /** The least integer not below r. */
  function Ceil(r: real): (c: int)
    ensures r <= c as real < r + 1.0
  {
    -((-r).Floor)
  }

  /** The length numpy gives `arange(start, stop, step)`: `ceil((stop - start)/step)`, or 0 when that is negative. */
  function ArangeLength(start: real, stop: real, step: real): nat
    requires step != 0.0
  {
    var c := Ceil((stop - start) / step);
    if c > 0 then c else 0
  }

  function Arange(start: real, stop: real, step: real): (r: seq<real>)
    requires step != 0.0
    ensures |r| == ArangeLength(start, stop, step)
    ensures forall i :: 0 <= i < |r| ==> r[i] == start + (i as real) * step
  {
    seq(ArangeLength(start, stop, step), i => start + (i as real) * step)
  }

  /** The grid every driver uses. */
  function Grid(t0: real, tf: real, dt: real): (r: seq<real>)
    requires dt != 0.0
  {
    Arange(t0, tf + dt, dt)
  }

  /** The driver grid has `ArangeLength(t_0, t_f + dt, dt)` points and point i is `t_0 + i*dt`. */
  lemma GridPoints(t0: real, tf: real, dt: real)
    requires dt != 0.0
    ensures |Grid(t0, tf, dt)| == ArangeLength(t0, tf + dt, dt)
    ensures forall i :: 0 <= i < |Grid(t0, tf, dt)| ==> Grid(t0, tf, dt)[i] == t0 + (i as real) * dt
  {
  }

  /** For k*dt against a bound b with dt > 0: k*dt < b exactly when k < b/dt. */
  lemma BelowQuotient(k: real, b: real, dt: real)
    requires dt > 0.0
    ensures k * dt < b <==> k < b / dt
  {
    assert (b / dt) * dt == b;
    if k < b / dt {
      assert k * dt < (b / dt) * dt;
    }
    if k * dt < b {
      assert k * dt < (b / dt) * dt;
    }
  }

  lemma DivUnique(x: real, d: real, y: real)
    requires d != 0.0 && y * d == x
    ensures x / d == y
  {
    assert (x / d) * d == x;
    assert (x / d - y) * d == 0.0;
  }

  /** With a positive step the grid is exactly the points `start + i*step`
      that lie strictly before `stop`: every point is below `stop`, and the
      next point would not be. */
  lemma {:induction false} ArangeHalfOpen(start: real, stop: real, step: real)
    requires step > 0.0
    ensures forall i :: 0 <= i < |Arange(start, stop, step)| ==> Arange(start, stop, step)[i] < stop
    ensures start + (|Arange(start, stop, step)| as real) * step >= stop
  {
    var n := ArangeLength(start, stop, step);
    var q := (stop - start) / step;
    forall i | 0 <= i < n
      ensures Arange(start, stop, step)[i] < stop
    {
      assert (i as real) < q;
      BelowQuotient(i as real, stop - start, step);
    }
    BelowQuotient(n as real, stop - start, step);
  }

  /** The grid `arange(t_0, t_f + dt, dt)` is empty exactly when
      `t_f + dt <= t_0`; otherwise its last point lies in `[t_f, t_f + dt)`,
      so it reaches `t_f` and may pass it by less than one step. */
  lemma {:induction false} GridEndpoints(t0: real, tf: real, dt: real)
    requires dt > 0.0
    ensures |Grid(t0, tf, dt)| == 0 <==> tf + dt <= t0
    ensures |Grid(t0, tf, dt)| > 0 ==>
              tf <= Grid(t0, tf, dt)[|Grid(t0, tf, dt)| - 1] < tf + dt
  {
    var g := Grid(t0, tf, dt);
    ArangeHalfOpen(t0, tf + dt, dt);
    if |g| == 0 {
      assert t0 >= tf + dt;
    } else {
      var n := |g|;
      assert t0 + (n as real) * dt >= tf + dt;
      assert g[n - 1] == t0 + ((n - 1) as real) * dt;
      assert ((n - 1) as real) * dt == (n as real) * dt - dt;
    }
    if tf + dt <= t0 {
      assert (tf + dt - t0) / dt <= 0.0 by {
        BelowQuotient(0.0, tf + dt - t0, dt);
      }
    }
  }

  /** When `(t_f - t_0)/dt` is a whole number q >= 0 the grid has q + 1 points
      and ends exactly at `t_f`; otherwise it has one point more than
      `floor((t_f - t_0)/dt) + 1` and ends after `t_f`. */
  lemma GridLength(t0: real, tf: real, dt: real)
    requires dt > 0.0 && t0 <= tf
    ensures var q := (tf - t0) / dt;
            |Grid(t0, tf, dt)| == if q == q.Floor as real then q.Floor + 1 else q.Floor + 2
  {
    var q := (tf - t0) / dt;
    assert q * dt == tf - t0;
    DivUnique(tf + dt - t0, dt, q + 1.0);
    BelowQuotient(0.0, tf - t0, dt);
    assert q >= 0.0;
  }
}
