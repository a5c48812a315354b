# Circle-in-square estimation of π

The repository estimates π by Monte Carlo rejection sampling. Points are drawn
uniformly from the square [-0.5, 0.5]². A point is a hit when it lies in the
inscribed closed disk of radius 0.5, that is when x² + y² ≤ 0.25. After n
points the running estimate is 4 · hits / n. Two scripts run the same loop.
`pi_estimation.py` records the iteration numbers, the estimates and the
absolute errors |π − estimate|. `pi_simulation.py` records only the first two.
Both print the iteration count, the hit count and the last estimate at the end.

This project models that loop in Dafny:

- `circle_in_square.dfy` (module `CircleInSquare`) holds what both scripts
  share: the sample point `Point`, the sampling square `InSquare`, the disk
  test `Inside` (the source's `x**2 + y**2 <= 0.25`), the boundary circle
  `OnCircle`, Python's `abs` as `Abs`, the specification functions `Hits`
  (hits among the first k points), `Estimate`, and the three recorded series
  `Iterations`, `Estimates` and `Errors`. It also holds the final report and
  the lemmas about all of these.
- `pi_estimation.dfy` (module `PiEstimation`) and `pi_simulation.dfy` (module
  `PiSimulation`) each hold the script's `while n <= MAXN` loop as a method.
  The script's global variables `n`, `n_circle`, `n_arr`, `pi_arr` and
  `error_arr` become the method's locals. The method returns them and its
  postconditions tie them to the specification functions.
  `PiSimulation.SameEstimates` runs both loops on the same points and proves
  that they agree.

Modelling choices:

- The random draw `np.random.uniform(-0.5, 0.5, 2)` becomes an input
  sequence `points`, one point per iteration. Iteration n uses `points[n - 1]`.
  The methods require at least `MAXN` points. They do not require the points
  to lie in the square, because the loop never relies on it.
  `InsideWithinSquare` shows that every hit lies in the square.
- Coordinates and estimates are exact `real`s. Python's true division
  `4 * n_circle / n` becomes real division.
- `np.pi` becomes the parameter `pi` of `PiEstimation.Simulate`. Nothing is
  assumed about its value except in `ErrorBound`.
- `MAXN` (10000 in both scripts) becomes the parameter `maxn: nat`. With
  `maxn = 0` the loop runs zero times and the final `pi_arr[-1]` would raise
  `IndexError`. `Report` returns `Err(IndexError)` in that case.

## Model

| member | source | states |
|---|---|---|
| `CircleInSquare.Hits` | pi_estimation.py:31-32 | the number of hits among the first k points is at most k |
| `CircleInSquare.Estimate` | pi_estimation.py:37-38 | the running estimate after k ≥ 1 iterations lies in [0, 4], and estimate · k = 4 · hits |
| `CircleInSquare.Iterations` | pi_estimation.py:36 | the iteration series after k iterations has k entries and entry i is i + 1, so it is exactly 1..k |
| `CircleInSquare.Estimates` | pi_estimation.py:37-38 | the estimate series after k iterations has k entries and entry i is 4 · Hits(points, i + 1) / (i + 1) |
| `CircleInSquare.Errors` | pi_estimation.py:39 | the error series after k iterations has k entries and entry i is abs(pi − entry i of the estimate series) |
| `CircleInSquare.Abs` | pi_estimation.py:39 | the result is non-negative and equals r or −r |
| `CircleInSquare.Report` | pi_estimation.py:43 | the final line fails with IndexError exactly when no estimate was recorded (the error path of `pi_arr[-1]`); its values after a run are stated by `CircleInSquare.ReportAfterRun` |
| `CircleInSquare.SeriesFacts` | pi_estimation.py:36-39 | after k iterations the three series each hold k entries, the iteration series is 1..k, every estimate is in [0, 4], each error is abs(pi − the estimate at the same index), and the last estimate is 4 · hits / k |
| `CircleInSquare.HitsStep` | pi_estimation.py:31-32 | one iteration raises the counter by 0 or 1, and by 1 exactly when the new point is in the disk |
| `CircleInSquare.HitsMonotone` | pi_estimation.py:27-32 | for j ≤ k, Hits(j) ≤ Hits(k) ≤ Hits(j) + (k − j): the counter never decreases and gains at most one per iteration |
| `CircleInSquare.HitsCountsInside` | pi_estimation.py:31-32 | the counter equals the number of indices i < k whose point satisfies x² + y² ≤ 0.25 |
| `CircleInSquare.BoundaryIsInside` | pi_simulation.py:30-31 | a point on the circle x² + y² = 0.25 counts as inside |
| `CircleInSquare.AllOnCircleAllHit` | pi_estimation.py:31-32 | when the first k points all lie on the circle, all k are counted and the estimate is 4 |
| `CircleInSquare.InsideWithinSquare` | pi_estimation.py:28-31 | every point in the disk lies in the sampling square [-0.5, 0.5]² |
| `CircleInSquare.SeriesPrefix` | pi_estimation.py:36-39 | the three series after j iterations are prefixes of the series after k ≥ j iterations: entries once appended never change |
| `CircleInSquare.ErrorBound` | pi_estimation.py:39 | for a reference value in [0, 4], every recorded error is at most max(pi, 4 − pi) |
| `CircleInSquare.ReportAfterRun` | pi_simulation.py:40 | after maxn ≥ 1 iterations the final line reports maxn iterations, the hit count and 4 · hits / maxn |
| `PiEstimation.Simulate` | pi_estimation.py:27-40 | the loop ends with n = maxn + 1 and n_circle = Hits(points, maxn); n_arr, pi_arr and error_arr each hold maxn entries and equal the three series; every estimate is in [0, 4]; every error is abs(pi − estimate); the last estimate is 4 · n_circle / (n − 1) |
| `PiSimulation.Simulate` | pi_simulation.py:26-37 | the loop ends with n = maxn + 1 and n_circle = Hits(points, maxn); n_arr is exactly 1..maxn and pi_arr is the estimate series, both of length maxn; every estimate is in [0, 4]; the last estimate is 4 · n_circle / (n − 1) |
| `PiSimulation.SameEstimates` | pi_simulation.py:26-37 | run on the same points, the two scripts' loops end with the same n, count the same hits and record the same iteration numbers and estimate series |

## Left out

- Plotting with matplotlib: the figure, subplots, circle patch, axis limits, the per-point `ax[0].plot`, titles, legends and `plt.show`. It only presents the series.
- The formatting of the final `print`. Only the values it prints are modelled, by `Report`.
- The random source `np.random.uniform`. It is replaced by the input sequence of points. Statistical claims such as convergence to π or an O(1/√N) error are not facts about one run and are not stated.
- IEEE-754 rounding in `x**2 + y**2`, in `4 * n_circle / n`, in `abs` and in the value of `np.pi`. The model computes with exact reals.
- The half-open sampling interval: numpy draws each coordinate from [-0.5, 0.5), while `InSquare` is the closed square. The disk touches the closed square at (±0.5, 0) and (0, ±0.5), so `InsideWithinSquare` is stated for the closed square.
- `numberic_integration.py`: its estimate is computed entirely by the float library calls `np.linspace`, `np.sqrt` and `np.trapz`, whose semantics are not part of this model.
- `multi_dimensional_integration.py`: it is only `np.random.uniform`, `np.exp` and `np.mean` over floats followed by plotting, with no discrete logic to model.
