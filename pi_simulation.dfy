/** The Monte Carlo loop of the estimator without an error series: the same
    hit counter and the same running estimate, recorded in two lists. */
module PiSimulation {
  import opened CircleInSquare
  import PiEstimation

  /** Runs iterations n = 1 .. maxn. Iteration n takes points[n - 1] in
      place of the random draw, counts it when it lies in the closed disk,
      and appends n and the running estimate 4 * nCircle / n. */
  method Simulate(points: seq<Point>, maxn: nat)
      returns (n: int, nCircle: int, nArr: seq<int>, piArr: seq<real>)
    requires maxn <= |points|
    ensures n == maxn + 1
    ensures nCircle == Hits(points, maxn) && 0 <= nCircle <= maxn
    ensures nArr == Iterations(maxn)
    ensures piArr == Estimates(points, maxn)
    ensures |nArr| == |piArr| == maxn
    ensures forall i :: 0 <= i < maxn ==> nArr[i] == i + 1
    ensures forall i :: 0 <= i < maxn ==> 0.0 <= piArr[i] <= 4.0
    ensures maxn >= 1 ==> piArr[maxn - 1] == 4.0 * (nCircle as real) / ((n - 1) as real)
  {
    n := 1;
    nCircle := 0;
    nArr, piArr := [], [];
    while n <= maxn
      invariant 1 <= n <= maxn + 1
      invariant nCircle == Hits(points, n - 1)
      invariant nArr == Iterations(n - 1)
      invariant piArr == Estimates(points, n - 1)
    {
      var p := points[n - 1];
      if p.x * p.x + p.y * p.y <= 0.25 {
        nCircle := nCircle + 1;
      }
      nArr := nArr + [n];
      piArr := piArr + [4.0 * (nCircle as real) / (n as real)];
      n := n + 1;
    }
    SeriesFacts(points, maxn, 0.0);
  }

  /** Both scripts, given the same points, end with the same iteration
      counter, count the same hits and record the same iteration numbers and
      estimate series. */
  method SameEstimates(points: seq<Point>, maxn: nat, pi: real)
      returns (nWithErrors: int, n: int, hitsWithErrors: int, hits: int,
               iterationsWithErrors: seq<int>, iterations: seq<int>,
               estimatesWithErrors: seq<real>, estimates: seq<real>)
    requires maxn <= |points|
    ensures nWithErrors == n
    ensures hitsWithErrors == hits
    ensures iterationsWithErrors == iterations
    ensures estimatesWithErrors == estimates
  {
    var errorArr;
    nWithErrors, hitsWithErrors, iterationsWithErrors, estimatesWithErrors, errorArr :=
      PiEstimation.Simulate(points, maxn, pi);
    n, hits, iterations, estimates := Simulate(points, maxn);
  }
}
