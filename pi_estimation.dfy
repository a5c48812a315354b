/** The Monte Carlo loop of the estimator that also keeps an error series:
    one sample point per iteration, a hit counter, and three lists that
    grow in lock-step. */
module PiEstimation {
  import opened CircleInSquare

  /** Runs iterations n = 1 .. maxn. Iteration n takes points[n - 1] in
      place of the random draw, counts it when it lies in the closed disk,
      and appends n, the running estimate 4 * nCircle / n and its absolute
      distance from the reference value pi. */
  method Simulate(points: seq<Point>, maxn: nat, pi: real)
      returns (n: int, nCircle: int, nArr: seq<int>, piArr: seq<real>, errorArr: seq<real>)
    requires maxn <= |points|
    ensures n == maxn + 1
    ensures nCircle == Hits(points, maxn) && 0 <= nCircle <= maxn
    ensures nArr == Iterations(maxn)
    ensures piArr == Estimates(points, maxn)
    ensures errorArr == Errors(points, maxn, pi)
    ensures |nArr| == |piArr| == |errorArr| == maxn
    ensures forall i :: 0 <= i < maxn ==> nArr[i] == i + 1
    ensures forall i :: 0 <= i < maxn ==> 0.0 <= piArr[i] <= 4.0
    ensures forall i :: 0 <= i < maxn ==> errorArr[i] == Abs(pi - piArr[i])
    ensures maxn >= 1 ==> piArr[maxn - 1] == 4.0 * (nCircle as real) / ((n - 1) as real)
  {
    n := 1;
    nCircle := 0;
    nArr, piArr, errorArr := [], [], [];
    while n <= maxn
      invariant 1 <= n <= maxn + 1
      invariant nCircle == Hits(points, n - 1)
      invariant nArr == Iterations(n - 1)
      invariant piArr == Estimates(points, n - 1)
      invariant errorArr == Errors(points, n - 1, pi)
    {
      var p := points[n - 1];
      if p.x * p.x + p.y * p.y <= 0.25 {
        nCircle := nCircle + 1;
      }
      nArr := nArr + [n];
      assert nCircle == Hits(points, n);
      var piEstimate := 4.0 * (nCircle as real) / (n as real);
      assert piEstimate == Estimate(points, n);
      piArr := piArr + [piEstimate];
      errorArr := errorArr + [Abs(pi - piEstimate)];
      n := n + 1;
    }
    SeriesFacts(points, maxn, pi);
  }
}
