# ode-project in Dafny

A model of the `ode` package. The package solves a scalar ordinary differential
equation dx/dt = f(x, t) numerically over a user-supplied time grid `t`. It offers
three fixed-step integrators:

- `euler(x0, t, f)`: explicit Euler;
- `rk2(x0, t, f)`: the repository's two-stage Runge-Kutta-style scheme;
- `rk4(x0, t, f)`: the repository's four-stage Runge-Kutta-style scheme.

The later stages of `rk2` and `rk4` are offset in time by k1/2 and k2/2, where
the k are the h-scaled stages, rather than by h/2. The schemes therefore equal
the midpoint method and classical RK4 only when f does not depend on t
(`Rk4UpdateIsRk4Step` shows this for `rk4`). When f does depend on t they lose
their order. For dx/dt = t from x(0) = 0 over the grid [0, h], the exact value
h*h/2 becomes 0 for `rk2` and h*h/6 for `rk4` (`TimeOffsetsCounterexample`).

Each integrator takes its step size from the first two grid points only:
h = t[1] - t[0]. Each returns a new array with one entry per grid point. Entry 0
is x0, and entry i+1 is computed from entry i and t[i]. A second
`rk4(func, ham, y_n, h)` performs a single classical fourth-order step
y_n -> y_{n+1} for a right-hand side func(ham, y) with a passed-through parameter
`ham`.

Everything lives in one module, `Ode`, in `ode.dfy`:

- `Update(s, f, h, x, ti)` is the single loop iteration of scheme `s`. It is
  defined through `EulerNext`, `Rk2Next` and `Rk4Next`, written with the source's
  own arithmetic:
  - the second and third stages are offset in time by k1/2 and k2/2, where the
    k are the h-scaled stages;
  - the fourth stage is evaluated at t[i] + h;
  - the weight 1/6 is read as true division.
- `Trajectory(step, x0, t, n)` is the forward fill of the loop for any step map.
  `Integrate(s, f, x0, t)` is that fill for the scheme's update with
  h = t[1] - t[0], over the whole grid.
- The methods `Euler`, `Rk2` and `Rk4Trajectory` work on `array<real>` as the
  source works on NumPy arrays. Each allocates a fresh result array and runs the
  loop. Each is proved to return exactly `Integrate` of its scheme.
  - Each loop body is its own method (`EulerIteration`, `Rk2Iteration`,
    `Rk4Iteration`). It stores x[i+1], leaves every later entry as it was, and
    keeps the invariant that the written prefix is the trajectory's prefix.
- `Rk4Step` is the second `rk4`, as a pure function.

The derivative is a function value that is only called. Arithmetic is over
`real`, so the recurrences hold exactly; no rounding is modelled.

## Model

| member | source | states |
|---|---|---|
| `Ode.Update` | ode/ode.py:22-46 | with a zero step size each scheme's loop iteration leaves the state unchanged |
| `Ode.Trajectory` | ode/ode.py:19-23 | the first n entries of the fill: exactly n values, the first of them x0 |
| `Ode.Integrate` | ode/ode.py:18-24 | the integrators' result has one entry per grid point and starts at the initial condition |
| `Ode.TrajectoryStep` | ode/ode.py:22-23 | every consecutive pair of the result is related by one loop iteration: x[i+1] = step(x[i], t[i]) |
| `Ode.TrajectoryPrefix` | ode/ode.py:22-23 | running the loop further never changes an entry already written |
| `Ode.IntegrateCharacterized` | ode/ode.py:18-23 | a sequence is the result if and only if it has one entry per grid point, starts at x0 and follows the update with h = t[1] - t[0] at every index |
| `Ode.TrajectoryReadsGridPrefix` | ode/ode.py:22-23 | the first n entries depend only on the grid points t[0] .. t[n-2] |
| `Ode.LastGridPointUnused` | ode/ode.py:18-23 | on a grid of three or more points, two grids that differ only in their last point give the same result |
| `Ode.UpdateConstant` | ode/ode.py:22-46 | for a constant right-hand side c, the Euler, two-stage and four-stage updates each add exactly h*c |
| `Ode.ConstantDerivativeLinear` | ode/ode.py:18-47 | for a constant right-hand side c every integrator returns x[i] = x0 + i*h*c |
| `Ode.ZeroDerivativeConstant` | ode/ode.py:18-47 | for a zero right-hand side every integrator returns x0 at every grid point |
| `Ode.Euler` | ode/ode.py:2-24 | returns a fresh array with one entry per grid point that starts at x0 and equals the Euler trajectory with h = t[1] - t[0] |
| `Ode.EulerIteration` | ode/ode.py:22-23 | storing x[i+1] = x[i] + h*f(x[i], t[i]) extends the correct prefix by one entry; entries after i+1 are unchanged |
| `Ode.Rk2` | ode/ode.py:27-35 | returns a fresh array with one entry per grid point that starts at x0 and equals the two-stage trajectory, with its k1/2 time offset |
| `Ode.Rk2Iteration` | ode/ode.py:31-34 | computing k1, k2 and storing x[i+1] = x[i] + k2 extends the correct prefix by one entry; entries after i+1 are unchanged |
| `Ode.Rk4Trajectory` | ode/ode.py:37-47 | returns a fresh array with one entry per grid point that starts at x0 and equals the four-stage trajectory, with its k1/2 and k2/2 time offsets and its last stage at t[i] + h |
| `Ode.Rk4Iteration` | ode/ode.py:41-46 | computing k1 .. k4 and storing their weighted mean step extends the correct prefix by one entry; entries after i+1 are unchanged |
| `Ode.Rk4Step` | ode/ode.py:50-56 | a single step of size zero returns y_n |
| `Ode.Rk4StepConstant` | ode/ode.py:50-56 | with a constant slope c the single step returns y_n + h*c |
| `Ode.Rk4UpdateIsRk4Step` | ode/ode.py:37-56 | if f ignores time and agrees with func(ham, .), one four-stage grid update is exactly one single step |
| `Ode.Rk4TrajectoryIteratesRk4Step` | ode/ode.py:37-56 | for such f the four-stage grid trajectory is the iteration of the single step with h = t[1] - t[0] |
| `Ode.TimeOffsetsCounterexample` | ode/ode.py:31-46 | for f(x, t) = t, x0 = 0 and the grid [0, h], the two-stage scheme gives 0 and the four-stage scheme gives h*h/6. For h != 0 that is not the exact value h*h/2 |

## Left out

- Floating point: the model works over exact reals. Rounding, overflow, NaN and
  infinities are not modelled, and neither are accuracy or convergence.
- NumPy: `np.zeros(t.size)` becomes a fresh `array<real>` as long as the grid. Its zero
  contents are not stated, because every entry is written before it is read.
- Grid shape: on a grid of fewer than two points the source raises IndexError at
  `t[1]` (ode/ode.py:18, 28, 38). The integrators' `requires t.Length >= 2`
  excludes that case rather than modelling the error. The source does not check
  that the grid is increasing or evenly spaced, and neither does the model.
- NumPy import: ode/ode.py never imports `np`, so as written each grid
  integrator raises NameError at `np.zeros` (lines 19, 29, 39). The model
  assumes `np` is NumPy.
- Exceptions raised by the user's f, and f values that are not numbers, are not
  modelled. f is a total function of (state, time).
- Name binding: the second `rk4` rebinds the module-level name, so the first
  `rk4` cannot be reached by name after import. Both are modelled, under the
  names `Rk4Trajectory` and `Rk4Step`.
- Rk4Step: the state is scalar. The source could also pass NumPy vectors for
  `y_n`.
- Loop bodies: these are factored into their own methods. The loop itself and
  its order are unchanged.
- `ode/__init__.py` holds only a package docstring and is not modelled.
