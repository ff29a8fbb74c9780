/**
 Fixed-step integrators for a scalar ODE dx/dt = f(x, t): explicit Euler
 and the repository's two-stage and four-stage Runge-Kutta-style schemes,
 each run over a given time grid, plus a single classical fourth-order
 Runge-Kutta step over a two-argument right-hand side.

 The later stages of the two grid Runge-Kutta schemes are offset in time by
 k1/2 and k2/2 rather than h/2. They agree with the midpoint method and with
 classical RK4 only when f does not depend on time (Rk4UpdateIsRk4Step);
 TimeOffsetsCounterexample shows the difference when it does.

 Arithmetic is over `real`, so every recurrence holds exactly. The
 derivative is a total function value; it is only ever called.
 */
module Ode {

  /** The three grid integrators share one loop and differ in the update. */
  datatype Scheme = EulerScheme | Rk2Scheme | Rk4Scheme

  /** The step size, derived once from the first two grid points. */
  function StepSize(t: seq<real>): real
    requires |t| >= 2
  {
    t[1] - t[0]
  }

  /** One evaluation of the derivative scaled by the step: the k of a stage. */
  function Increment(f: (real, real) -> real, h: real, x: real, ti: real): real
  {
    h * f(x, ti)
  }

  /**
   One loop iteration: the value an integrator stores at x[i+1], given the
   state x = x[i] at grid time ti = t[i].
   */
  function Update(s: Scheme, f: (real, real) -> real, h: real, x: real, ti: real): (r: real)
    ensures h == 0.0 ==> r == x
  {
    match s
    case EulerScheme => EulerNext(f, h, x, ti)
    case Rk2Scheme => Rk2Next(f, h, x, ti)
    case Rk4Scheme => Rk4Next(f, h, x, ti)
  }

  /** Euler: x + h*f(x, t). */
  function EulerNext(f: (real, real) -> real, h: real, x: real, ti: real): real
  {
    x + Increment(f, h, x, ti)
  }

  /** Two stages: the second stage is taken half a k1 further in both state and time. */
  function Rk2Next(f: (real, real) -> real, h: real, x: real, ti: real): real
  {
    var k1 := Increment(f, h, x, ti);
    var k2 := Increment(f, h, x + k1 / 2.0, ti + k1 / 2.0);
    x + k2
  }

  /**
   Four stages: the time offsets of the second and third stages are k1/2
   and k2/2 (not h/2); the fourth stage is at time t + h.
   */
  function Rk4Next(f: (real, real) -> real, h: real, x: real, ti: real): real
  {
    var k1 := Increment(f, h, x, ti);
    var k2 := Increment(f, h, x + k1 / 2.0, ti + k1 / 2.0);
    var k3 := Increment(f, h, x + k2 / 2.0, ti + k2 / 2.0);
    var k4 := Increment(f, h, x + k3, ti + h);
    x + 1.0 / 6.0 * (k1 + 2.0 * k2 + 2.0 * k3 + k4)
  }

  /** The update of a scheme as a map from (state, grid time) to the next state. */
  function StepMap(s: Scheme, f: (real, real) -> real, h: real): (real, real) -> real
  {
    (x: real, ti: real) => Update(s, f, h, x, ti)
  }

  /**
   The first n entries of the trajectory of a step map, filled left to
   right: entry 0 is x0 and entry i+1 is step(entry i, t[i]).
   */
  function Trajectory(step: (real, real) -> real, x0: real, t: seq<real>, n: nat): (xs: seq<real>)
    requires 1 <= n <= |t|
    ensures |xs| == n && xs[0] == x0
    decreases n
  {
    if n == 1 then [x0]
    else
      var prev := Trajectory(step, x0, t, n - 1);
      prev + [step(prev[n - 2], t[n - 2])]
  }

  /** The whole trajectory an integrator returns for grid t: one entry per grid point. */
  function Integrate(s: Scheme, f: (real, real) -> real, x0: real, t: seq<real>): (xs: seq<real>)
    requires |t| >= 2
    ensures |xs| == |t| && xs[0] == x0
  {
    Trajectory(StepMap(s, f, StepSize(t)), x0, t, |t|)
  }

  /** Every consecutive pair of entries is related by one step. */
  lemma {:induction false} TrajectoryStep(step: (real, real) -> real, x0: real, t: seq<real>, n: nat)
    requires 1 <= n <= |t|
    ensures forall i :: 0 <= i < n - 1 ==>
      Trajectory(step, x0, t, n)[i + 1] == step(Trajectory(step, x0, t, n)[i], t[i])
  {
    if n > 1 {
      TrajectoryStep(step, x0, t, n - 1);
      TrajectoryPrefix(step, x0, t, n - 1, n);
    }
  }

  /** Computing further never changes an entry already computed. */
  lemma {:induction false} TrajectoryPrefix(step: (real, real) -> real, x0: real, t: seq<real>, m: nat, n: nat)
    requires 1 <= m <= n <= |t|
    ensures Trajectory(step, x0, t, n)[..m] == Trajectory(step, x0, t, m)
    decreases n
  {
    if m < n {
      TrajectoryPrefix(step, x0, t, m, n - 1);
      var prev := Trajectory(step, x0, t, n - 1);
      assert Trajectory(step, x0, t, n)[..m] == prev[..m];
    }
  }

  /** Appending the step of the last entry extends the trajectory by one entry. */
  lemma TrajectoryExtend(step: (real, real) -> real, x0: real, t: seq<real>, n: nat,
                         done: seq<real>, xi: real, ti: real, next: real)
    requires 1 <= n < |t|
    requires done == Trajectory(step, x0, t, n)
    requires done[n - 1] == xi && t[n - 1] == ti
    requires next == step(xi, ti)
    ensures Trajectory(step, x0, t, n + 1) == done + [next]
  {
  }

  /** Helper for IntegrateCharacterized: the recurrence fixes every prefix. */
  lemma {:induction false} RecurrenceDeterminesTrajectory(step: (real, real) -> real, x0: real, t: seq<real>, xs: seq<real>, n: nat)
    requires 1 <= n <= |t| == |xs|
    requires xs[0] == x0
    requires forall i :: 0 <= i < |t| - 1 ==> xs[i + 1] == step(xs[i], t[i])
    ensures xs[..n] == Trajectory(step, x0, t, n)
    decreases n
  {
    if n > 1 {
      RecurrenceDeterminesTrajectory(step, x0, t, xs, n - 1);
      TrajectoryExtend(step, x0, t, n - 1, xs[..n - 1], xs[n - 2], t[n - 2], xs[n - 1]);
      assert xs[..n] == xs[..n - 1] + [xs[n - 1]];
    }
  }

  /**
   A sequence is the trajectory exactly when it has one entry per grid point,
   starts at x0 and follows the update with h = t[1] - t[0] at every step.
   */
  lemma IntegrateCharacterized(s: Scheme, f: (real, real) -> real, x0: real, t: seq<real>, xs: seq<real>)
    requires |t| >= 2
    ensures xs == Integrate(s, f, x0, t) <==>
      (|xs| == |t| && xs[0] == x0 &&
       forall i :: 0 <= i < |t| - 1 ==> xs[i + 1] == Update(s, f, StepSize(t), xs[i], t[i]))
  {
    var step := StepMap(s, f, StepSize(t));
    TrajectoryStep(step, x0, t, |t|);
    if |xs| == |t| && xs[0] == x0 &&
       forall i :: 0 <= i < |t| - 1 ==> xs[i + 1] == Update(s, f, StepSize(t), xs[i], t[i])
    {
      RecurrenceDeterminesTrajectory(step, x0, t, xs, |t|);
    }
  }

  /** Helper for LastGridPointUnused: the first n entries read only t[..n-1]. */
  lemma {:induction false} TrajectoryReadsGridPrefix(step: (real, real) -> real, x0: real, t: seq<real>, u: seq<real>, n: nat)
    requires 1 <= n <= |t| && n <= |u|
    requires t[..n - 1] == u[..n - 1]
    ensures Trajectory(step, x0, t, n) == Trajectory(step, x0, u, n)
    decreases n
  {
    if n > 1 {
      assert t[..n - 2] == u[..n - 2] by {
        assert t[..n - 2] == t[..n - 1][..n - 2];
        assert u[..n - 2] == u[..n - 1][..n - 2];
      }
      assert t[n - 2] == t[..n - 1][n - 2] == u[..n - 1][n - 2] == u[n - 2];
      TrajectoryReadsGridPrefix(step, x0, t, u, n - 1);
    }
  }

  /**
   The step size is taken from t[0] and t[1] only, and the loop reads the
   grid at t[0] .. t[N-2]: on a grid of three or more points the last grid
   point, and so the spacing at the end, has no effect on the trajectory.
   */
  lemma LastGridPointUnused(s: Scheme, f: (real, real) -> real, x0: real, t: seq<real>, u: seq<real>)
    requires |t| == |u| >= 3
    requires t[..|t| - 1] == u[..|u| - 1]
    ensures Integrate(s, f, x0, t) == Integrate(s, f, x0, u)
  {
    assert t[0] == t[..|t| - 1][0] == u[..|u| - 1][0] == u[0];
    assert t[1] == t[..|t| - 1][1] == u[..|u| - 1][1] == u[1];
    TrajectoryReadsGridPrefix(StepMap(s, f, StepSize(t)), x0, t, u, |t|);
  }

  /** For f constant c every update advances the state by exactly h*c. */
  lemma UpdateConstant(s: Scheme, f: (real, real) -> real, c: real, h: real, x: real, ti: real)
    requires forall y: real, tj: real :: f(y, tj) == c
    ensures Update(s, f, h, x, ti) == x + h * c
  {
    match s
    case EulerScheme =>
    case Rk2Scheme =>
    case Rk4Scheme =>
      var k := h * c;
      assert h * f(x, ti) == k;
      assert 1.0 / 6.0 * (k + 2.0 * k + 2.0 * k + k) == k;
  }

  /**
   Helper for ConstantDerivativeLinear, on every prefix: a sequence whose
   consecutive entries differ by d has entry i equal to its first plus i*d.
   */
  lemma {:induction false} ConstantDifferences(xs: seq<real>, d: real, n: nat)
    requires n <= |xs|
    requires forall i :: 0 <= i < |xs| - 1 ==> xs[i + 1] == xs[i] + d
    ensures forall i :: 0 <= i < n ==> xs[i] == xs[0] + (i as real) * d
  {
    if n > 1 {
      ConstantDifferences(xs, d, n - 1);
      assert xs[n - 1] == xs[n - 2] + d;
      assert xs[0] + ((n - 2) as real) * d + d == xs[0] + ((n - 1) as real) * d;
    }
  }

  /** Helper for ConstantDerivativeLinear: UpdateConstant for every state and time at once. */
  lemma StepMapConstant(s: Scheme, f: (real, real) -> real, c: real, h: real)
    requires forall y: real, tj: real :: f(y, tj) == c
    ensures forall x: real, ti: real :: StepMap(s, f, h)(x, ti) == x + h * c
  {
    forall x: real, ti: real
      ensures StepMap(s, f, h)(x, ti) == x + h * c
    {
      UpdateConstant(s, f, c, h, x, ti);
    }
  }

  /** Helper for ConstantDerivativeLinear: a step that always adds d gives x0 + i*d. */
  lemma ConstantStepLinear(step: (real, real) -> real, d: real, x0: real, t: seq<real>)
    requires |t| >= 1
    requires forall x: real, ti: real :: step(x, ti) == x + d
    ensures forall i :: 0 <= i < |t| ==> Trajectory(step, x0, t, |t|)[i] == x0 + (i as real) * d
  {
    var xs := Trajectory(step, x0, t, |t|);
    TrajectoryStep(step, x0, t, |t|);
    forall i | 0 <= i < |xs| - 1
      ensures xs[i + 1] == xs[i] + d
    {
      var x, ti := xs[i], t[i];
      assert xs[i + 1] == step(x, ti) == x + d;
    }
    ConstantDifferences(xs, d, |xs|);
  }

  /** With a constant right-hand side c every integrator is exact: x[i] == x0 + i*h*c. */
  lemma ConstantDerivativeLinear(s: Scheme, f: (real, real) -> real, c: real, x0: real, t: seq<real>)
    requires |t| >= 2
    requires forall y: real, tj: real :: f(y, tj) == c
    ensures forall i :: 0 <= i < |t| ==> Integrate(s, f, x0, t)[i] == x0 + (i as real) * (StepSize(t) * c)
  {
    var h := StepSize(t);
    StepMapConstant(s, f, c, h);
    ConstantStepLinear(StepMap(s, f, h), h * c, x0, t);
  }

  /** With a zero right-hand side the trajectory stays at x0. */
  lemma ZeroDerivativeConstant(s: Scheme, f: (real, real) -> real, x0: real, t: seq<real>)
    requires |t| >= 2
    requires forall y: real, tj: real :: f(y, tj) == 0.0
    ensures forall i :: 0 <= i < |t| ==> Integrate(s, f, x0, t)[i] == x0
  {
    ConstantDerivativeLinear(s, f, 0.0, x0, t);
  }

  /**
   With a time-dependent f the k1/2 and k2/2 time offsets matter. For
   dx/dt = t from x(0) = 0 over the grid [0, h] the exact value at h is
   h*h/2, which the midpoint method and classical RK4 both reproduce. The
   two-stage scheme gives 0 and the four-stage scheme gives h*h/6.
   */
  lemma TimeOffsetsCounterexample(h: real)
    ensures Integrate(Rk2Scheme, (x: real, ti: real) => ti, 0.0, [0.0, h])[1] == 0.0
    ensures Integrate(Rk4Scheme, (x: real, ti: real) => ti, 0.0, [0.0, h])[1] == h * h / 6.0
    ensures h != 0.0 ==> Integrate(Rk4Scheme, (x: real, ti: real) => ti, 0.0, [0.0, h])[1] != h * h / 2.0
  {
  }

  /**
   Helpers for the loop iterations: the stages k1 .. k4 exactly as an
   iteration computes them, from f, determine the update.
   */
  lemma Rk2UpdateOfStages(f: (real, real) -> real, h: real, x: real, ti: real, k1: real, k2: real)
    requires k1 == h * f(x, ti)
    requires k2 == h * f(x + k1 / 2.0, ti + k1 / 2.0)
    ensures Update(Rk2Scheme, f, h, x, ti) == x + k2
  {
    assert k1 == Increment(f, h, x, ti);
    assert k2 == Increment(f, h, x + k1 / 2.0, ti + k1 / 2.0);
  }

  lemma Rk4UpdateOfStages(f: (real, real) -> real, h: real, x: real, ti: real, k1: real, k2: real, k3: real, k4: real)
    requires k1 == h * f(x, ti)
    requires k2 == h * f(x + k1 / 2.0, ti + k1 / 2.0)
    requires k3 == h * f(x + k2 / 2.0, ti + k2 / 2.0)
    requires k4 == h * f(x + k3, ti + h)
    ensures Update(Rk4Scheme, f, h, x, ti) == x + 1.0 / 6.0 * (k1 + 2.0 * k2 + 2.0 * k3 + k4)
  {
    assert k1 == Increment(f, h, x, ti);
    assert k2 == Increment(f, h, x + k1 / 2.0, ti + k1 / 2.0);
    assert k3 == Increment(f, h, x + k2 / 2.0, ti + k2 / 2.0);
    assert k4 == Increment(f, h, x + k3, ti + h);
    assert Update(Rk4Scheme, f, h, x, ti) == Rk4Next(f, h, x, ti);
  }

  /**
   Euler's method: x[0] = x0 and x[i+1] = x[i] + h*f(x[i], t[i]) with the
   fixed h = t[1] - t[0]. The result is a new array, one entry per grid point.
   */
  method Euler(x0: real, t: array<real>, f: (real, real) -> real) returns (x: array<real>)
    requires t.Length >= 2
    ensures fresh(x)
    ensures x.Length == t.Length && x[0] == x0
    ensures x[..] == Integrate(EulerScheme, f, x0, t[..])
  {
    var h := t[1] - t[0];
    x := new real[t.Length];
    x[0] := x0;
    for i := 0 to t.Length - 1
      invariant x[..i + 1] == Trajectory(StepMap(EulerScheme, f, h), x0, t[..], i + 1)
    {
      EulerIteration(f, h, x0, t, x, i);
    }
    assert StepSize(t[..]) == h;
    assert x[..] == x[..t.Length];
  }

  /** One pass of Euler's loop: stores x[i+1] from x[i] and t[i]. */
  method EulerIteration(f: (real, real) -> real, h: real, x0: real, t: array<real>, x: array<real>, i: nat)
    requires x != t && i + 1 < x.Length == t.Length
    requires x[..i + 1] == Trajectory(StepMap(EulerScheme, f, h), x0, t[..], i + 1)
    modifies x
    ensures x[..i + 2] == Trajectory(StepMap(EulerScheme, f, h), x0, t[..], i + 2)
    ensures x[..] == old(x[..])[i + 1 := x[i + 1]]
  {
    var xi, ti := x[i], t[i];
    ghost var done := x[..i + 1];
    x[i + 1] := xi + h * f(xi, ti);
    assert x[i + 1] == Update(EulerScheme, f, h, xi, ti);
    TrajectoryExtend(StepMap(EulerScheme, f, h), x0, t[..], i + 1, done, xi, ti, x[i + 1]);
    assert x[..i + 2] == done + [x[i + 1]];
  }

  /**
   The two-stage Runge-Kutta-style integrator over a grid: k1 = h*f(x[i], t[i]),
   k2 = h*f(x[i] + k1/2, t[i] + k1/2), x[i+1] = x[i] + k2.
   */
  method Rk2(x0: real, t: array<real>, f: (real, real) -> real) returns (x: array<real>)
    requires t.Length >= 2
    ensures fresh(x)
    ensures x.Length == t.Length && x[0] == x0
    ensures x[..] == Integrate(Rk2Scheme, f, x0, t[..])
  {
    var h := t[1] - t[0];
    x := new real[t.Length];
    x[0] := x0;
    for i := 0 to t.Length - 1
      invariant x[..i + 1] == Trajectory(StepMap(Rk2Scheme, f, h), x0, t[..], i + 1)
    {
      Rk2Iteration(f, h, x0, t, x, i);
    }
    assert StepSize(t[..]) == h;
    assert x[..] == x[..t.Length];
  }

  /** One pass of the two-stage loop: two stages, then x[i+1] = x[i] + k2. */
  method Rk2Iteration(f: (real, real) -> real, h: real, x0: real, t: array<real>, x: array<real>, i: nat)
    requires x != t && i + 1 < x.Length == t.Length
    requires x[..i + 1] == Trajectory(StepMap(Rk2Scheme, f, h), x0, t[..], i + 1)
    modifies x
    ensures x[..i + 2] == Trajectory(StepMap(Rk2Scheme, f, h), x0, t[..], i + 2)
    ensures x[..] == old(x[..])[i + 1 := x[i + 1]]
  {
    var xi, ti := x[i], t[i];
    var k1 := h * f(xi, ti);
    var k2 := h * f(xi + k1 / 2.0, ti + k1 / 2.0);
    ghost var done := x[..i + 1];
    x[i + 1] := xi + k2;
    Rk2UpdateOfStages(f, h, xi, ti, k1, k2);
    TrajectoryExtend(StepMap(Rk2Scheme, f, h), x0, t[..], i + 1, done, xi, ti, x[i + 1]);
    assert x[..i + 2] == done + [x[i + 1]];
  }

  /**
   The four-stage Runge-Kutta-style integrator over a grid:
   x[i+1] = x[i] + 1/6*(k1 + 2*k2 + 2*k3 + k4), with time offsets k1/2 and
   k2/2 for k2 and k3, and k4 evaluated at x[i] + k3, t[i] + h.
   */
  method Rk4Trajectory(x0: real, t: array<real>, f: (real, real) -> real) returns (x: array<real>)
    requires t.Length >= 2
    ensures fresh(x)
    ensures x.Length == t.Length && x[0] == x0
    ensures x[..] == Integrate(Rk4Scheme, f, x0, t[..])
  {
    var h := t[1] - t[0];
    x := new real[t.Length];
    x[0] := x0;
    for i := 0 to t.Length - 1
      invariant x[..i + 1] == Trajectory(StepMap(Rk4Scheme, f, h), x0, t[..], i + 1)
    {
      Rk4Iteration(f, h, x0, t, x, i);
    }
    assert StepSize(t[..]) == h;
    assert x[..] == x[..t.Length];
  }

  /** One pass of the four-stage loop: four stages, then their weighted mean. */
  method Rk4Iteration(f: (real, real) -> real, h: real, x0: real, t: array<real>, x: array<real>, i: nat)
    requires x != t && i + 1 < x.Length == t.Length
    requires x[..i + 1] == Trajectory(StepMap(Rk4Scheme, f, h), x0, t[..], i + 1)
    modifies x
    ensures x[..i + 2] == Trajectory(StepMap(Rk4Scheme, f, h), x0, t[..], i + 2)
    ensures x[..] == old(x[..])[i + 1 := x[i + 1]]
  {
    var xi, ti := x[i], t[i];
    var k1 := h * f(xi, ti);
    var k2 := h * f(xi + k1 / 2.0, ti + k1 / 2.0);
    var k3 := h * f(xi + k2 / 2.0, ti + k2 / 2.0);
    var k4 := h * f(xi + k3, ti + h);
    ghost var done := x[..i + 1];
    x[i + 1] := xi + 1.0 / 6.0 * (k1 + 2.0 * k2 + 2.0 * k3 + k4);
    Rk4UpdateOfStages(f, h, xi, ti, k1, k2, k3, k4);
    TrajectoryExtend(StepMap(Rk4Scheme, f, h), x0, t[..], i + 1, done, xi, ti, x[i + 1]);
    assert x[..i + 2] == done + [x[i + 1]];
  }

  /**
   One classical fourth-order Runge-Kutta step y_n -> y_{n+1} for
   dy/d(.) = func(ham, y), where the slopes k1..k4 are not scaled by h and
   ham is passed through unchanged to every evaluation.
   */
  function Rk4Step<H>(func: (H, real) -> real, ham: H, yn: real, h: real): (r: real)
    ensures h == 0.0 ==> r == yn
  {
    var k1 := func(ham, yn);
    var k2 := func(ham, Advance(yn, h / 2.0, k1));
    var k3 := func(ham, Advance(yn, h / 2.0, k2));
    var k4 := func(ham, Advance(yn, h, k3));
    yn + h / 6.0 * (k1 + 2.0 * k2 + 2.0 * k3 + k4)
  }

  /** The state y advanced by c times the slope k, at which a later slope is evaluated. */
  function Advance(y: real, c: real, k: real): real
  {
    y + c * k
  }

  /** Rk4Step in terms of its four named slopes. */
  lemma Rk4StepOfSlopes<H>(func: (H, real) -> real, ham: H, yn: real, h: real, k1: real, k2: real, k3: real, k4: real)
    requires k1 == func(ham, yn)
    requires k2 == func(ham, Advance(yn, h / 2.0, k1))
    requires k3 == func(ham, Advance(yn, h / 2.0, k2))
    requires k4 == func(ham, Advance(yn, h, k3))
    ensures Rk4Step(func, ham, yn, h) == yn + h / 6.0 * (k1 + 2.0 * k2 + 2.0 * k3 + k4)
  {
  }

  /** With a constant slope c the single step is exact: it returns yn + h*c. */
  lemma Rk4StepConstant<H>(func: (H, real) -> real, ham: H, c: real, yn: real, h: real)
    requires forall y: real :: func(ham, y) == c
    ensures Rk4Step(func, ham, yn, h) == yn + h * c
  {
    assert h / 6.0 * (c + 2.0 * c + 2.0 * c + c) == h * c;
  }

  /**
   When f does not depend on time and agrees with func(ham, .), one update of
   the four-stage grid integrator is exactly one Rk4Step.
   */
  lemma Rk4UpdateIsRk4Step<H>(f: (real, real) -> real, func: (H, real) -> real, ham: H, h: real, x: real, ti: real)
    requires forall y: real, tj: real :: f(y, tj) == func(ham, y)
    ensures Update(Rk4Scheme, f, h, x, ti) == Rk4Step(func, ham, x, h)
  {
    // the single step's slopes
    var k1 := func(ham, x);
    var y2 := Advance(x, h / 2.0, k1);
    var k2 := func(ham, y2);
    var y3 := Advance(x, h / 2.0, k2);
    var k3 := func(ham, y3);
    var y4 := Advance(x, h, k3);
    var k4 := func(ham, y4);
    // the grid integrator's stages, each h times a slope
    var a1 := h * f(x, ti);
    assert a1 == h * k1;
    assert x + a1 / 2.0 == y2;
    var a2 := h * f(x + a1 / 2.0, ti + a1 / 2.0);
    assert a2 == h * k2;
    assert x + a2 / 2.0 == y3;
    var a3 := h * f(x + a2 / 2.0, ti + a2 / 2.0);
    assert a3 == h * k3;
    assert x + a3 == y4;
    var a4 := h * f(x + a3, ti + h);
    assert a4 == h * k4;
    Rk4UpdateOfStages(f, h, x, ti, a1, a2, a3, a4);
    Rk4StepOfSlopes(func, ham, x, h, k1, k2, k3, k4);
  }

  /**
   For a time-independent right-hand side the four-stage grid trajectory
   is the iteration of the single step: x[i+1] == Rk4Step(func, ham, x[i], h).
   */
  lemma Rk4TrajectoryIteratesRk4Step<H>(f: (real, real) -> real, func: (H, real) -> real, ham: H, x0: real, t: seq<real>)
    requires |t| >= 2
    requires forall y: real, tj: real :: f(y, tj) == func(ham, y)
    ensures forall i :: 0 <= i < |t| - 1 ==>
      Integrate(Rk4Scheme, f, x0, t)[i + 1] == Rk4Step(func, ham, Integrate(Rk4Scheme, f, x0, t)[i], StepSize(t))
  {
    var xs := Integrate(Rk4Scheme, f, x0, t);
    TrajectoryStep(StepMap(Rk4Scheme, f, StepSize(t)), x0, t, |t|);
    forall i | 0 <= i < |t| - 1
      ensures xs[i + 1] == Rk4Step(func, ham, xs[i], StepSize(t))
    {
      Rk4UpdateIsRk4Step(f, func, ham, StepSize(t), xs[i], t[i]);
    }
  }
}
