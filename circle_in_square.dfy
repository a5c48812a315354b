/** The geometry and the running statistics shared by both circle-in-square
    estimators: a sample point, the closed-disk test, the number of hits
    among the first k samples, the running estimate 4 * hits / k, and the
    three series (iteration numbers, estimates, absolute errors) that the
    simulation loop records, one entry per iteration. */
module CircleInSquare {

  /** A sample point of the plane; the real coordinates make the
      geometry exact. */
  datatype Point = Point(x: real, y: real)

  /** The square [-0.5, 0.5] x [-0.5, 0.5] from which the points are drawn. */
  predicate InSquare(p: Point) {
    -0.5 <= p.x <= 0.5 && -0.5 <= p.y <= 0.5
  }

  /** The closed disk of radius 0.5 centred at the origin: a point counts as
      a hit when its squared distance from the origin is at most 0.25. */
  predicate Inside(p: Point) {
    p.x * p.x + p.y * p.y <= 0.25
  }

  /** The boundary circle of that disk. */
  predicate OnCircle(p: Point) {
    p.x * p.x + p.y * p.y == 0.25
  }

  function Abs(r: real): (a: real)
    ensures a >= 0.0
    ensures a == r || a == -r
  {
    if r < 0.0 then -r else r
  }

  /** The number of the first k points that lie in the disk. */
  function Hits(points: seq<Point>, k: nat): (h: nat)
    requires k <= |points|
    ensures h <= k
    decreases k
  {
    if k == 0 then 0
    else Hits(points, k - 1) + (if Inside(points[k - 1]) then 1 else 0)
  }

  /** The indices of the first k points that lie in the disk: an independent
      description of what Hits counts. */
  ghost function InsideIndices(points: seq<Point>, k: nat): set<nat>
    requires k <= |points|
  {
    set i: nat | i < k && Inside(points[i])
  }

  /** The running estimate of pi after k iterations. */
  function Estimate(points: seq<Point>, k: nat): (e: real)
    requires 1 <= k <= |points|
    ensures 0.0 <= e <= 4.0
    ensures e * (k as real) == 4.0 * (Hits(points, k) as real)
  {
    var h := Hits(points, k) as real;
    assert 4.0 * h <= 4.0 * (k as real);
    4.0 * h / (k as real)
  }

  /** The iteration numbers recorded after k iterations. */
  function Iterations(k: nat): (s: seq<int>)
    ensures |s| == k
    ensures forall i :: 0 <= i < k ==> s[i] == i + 1
  {
    if k == 0 then [] else Iterations(k - 1) + [k]
  }

  /** The estimates recorded after k iterations. */
  function Estimates(points: seq<Point>, k: nat): (s: seq<real>)
    requires k <= |points|
    ensures |s| == k
    ensures forall i :: 0 <= i < k ==> s[i] == Estimate(points, i + 1)
  {
    if k == 0 then [] else Estimates(points, k - 1) + [Estimate(points, k)]
  }

  /** The absolute errors against the reference value pi recorded after k
      iterations. */
  function Errors(points: seq<Point>, k: nat, pi: real): (s: seq<real>)
    requires k <= |points|
    ensures |s| == k
    ensures forall i :: 0 <= i < k ==> s[i] == Abs(pi - Estimate(points, i + 1))
  {
    if k == 0 then [] else Errors(points, k - 1, pi) + [Abs(pi - Estimate(points, k))]
  }

  /** The three series after k iterations run in lock-step, the estimates lie
      in [0, 4], each error is measured from the estimate at the same index,
      and the last estimate is 4 * hits / k. */
  lemma SeriesFacts(points: seq<Point>, k: nat, pi: real)
    requires k <= |points|
    ensures |Iterations(k)| == |Estimates(points, k)| == |Errors(points, k, pi)| == k
    ensures forall i :: 0 <= i < k ==> Iterations(k)[i] == i + 1
    ensures forall i :: 0 <= i < k ==> 0.0 <= Estimates(points, k)[i] <= 4.0
    ensures forall i :: 0 <= i < k ==> Errors(points, k, pi)[i] == Abs(pi - Estimates(points, k)[i])
    ensures k >= 1 ==> Estimates(points, k)[k - 1] == 4.0 * (Hits(points, k) as real) / (k as real)
  {
  }

  /** What the final line of either script reports. */
  datatype Summary = Summary(iterations: int, pointsInCircle: int, estimate: real)

  /** Reading the last element of an empty list fails. */
  datatype Error = IndexError

  datatype Result<T> = Ok(value: T) | Err(error: Error)

  /** The values printed after the loop: n - 1, n_circle and the last
      recorded estimate, which does not exist when no iteration ran. */
  function Report(n: int, nCircle: int, piArr: seq<real>): (r: Result<Summary>)
    ensures r.Err? <==> piArr == []
    ensures r.Ok? ==> r.value.iterations == n - 1 && r.value.pointsInCircle == nCircle
    ensures r.Ok? ==> r.value.estimate == piArr[|piArr| - 1]
  {
    if piArr == [] then Err(IndexError)
    else Ok(Summary(n - 1, nCircle, piArr[|piArr| - 1]))
  }

  /** One iteration adds at most one hit, and exactly one when the new
      point lies in the disk. */
  lemma HitsStep(points: seq<Point>, k: nat)
    requires k < |points|
    ensures Hits(points, k) <= Hits(points, k + 1) <= Hits(points, k) + 1
    ensures Hits(points, k + 1) == Hits(points, k) + 1 <==> Inside(points[k])
  {
  }

  /** Over any stretch of iterations the counter never decreases and grows
      by at most the number of iterations. */
  lemma {:induction false} HitsMonotone(points: seq<Point>, j: nat, k: nat)
    requires j <= k <= |points|
    ensures Hits(points, j) <= Hits(points, k) <= Hits(points, j) + (k - j)
    decreases k - j
  {
    if j < k {
      HitsMonotone(points, j, k - 1);
    }
  }

  /** Hits counts exactly the indices of the points that lie in the disk. */
  lemma {:induction false} HitsCountsInside(points: seq<Point>, k: nat)
    requires k <= |points|
    ensures Hits(points, k) == |InsideIndices(points, k)|
  {
    if k == 0 {
      assert InsideIndices(points, 0) == {};
    } else {
      HitsCountsInside(points, k - 1);
      var before := InsideIndices(points, k - 1);
      assert k - 1 !in before;
      if Inside(points[k - 1]) {
        assert InsideIndices(points, k) == before + {k - 1};
      } else {
        assert InsideIndices(points, k) == before;
      }
    }
  }

  /** A point on the boundary circle is a hit. */
  lemma BoundaryIsInside(p: Point)
    requires OnCircle(p)
    ensures Inside(p)
  {
  }

  /** When every one of the first k points lies on the circle, every one of
      them is counted, so the estimate after k iterations is 4. */
  lemma {:induction false} AllOnCircleAllHit(points: seq<Point>, k: nat)
    requires k <= |points|
    requires forall i :: 0 <= i < k ==> OnCircle(points[i])
    ensures Hits(points, k) == k
    ensures k >= 1 ==> Estimate(points, k) == 4.0
  {
    if k > 0 {
      AllOnCircleAllHit(points, k - 1);
      BoundaryIsInside(points[k - 1]);
      assert Estimate(points, k) * (k as real) == 4.0 * (k as real);
    }
  }

  /** The disk lies within the square, so the hit fraction is the fraction of
      the square's area that the disk covers. */
  lemma InsideWithinSquare(p: Point)
    requires Inside(p)
    ensures InSquare(p)
  {
    assert p.x * p.x >= 0.0 && p.y * p.y >= 0.0;
    SquareGrows(p.x);
    SquareGrows(p.y);
  }

  /** Outside [-0.5, 0.5] the square of a number exceeds 0.25. */
  lemma SquareGrows(a: real)
    ensures a > 0.5 || a < -0.5 ==> a * a > 0.25
  {
    if a > 0.5 {
      assert a * a > 0.5 * a;
    } else if a < -0.5 {
      assert a * a > -0.5 * a;
    }
  }

  /** A shorter run records a prefix of a longer run's series: the lists are
      only ever appended to. */
  lemma SeriesPrefix(points: seq<Point>, j: nat, k: nat, pi: real)
    requires j <= k <= |points|
    ensures Iterations(j) == Iterations(k)[..j]
    ensures Estimates(points, j) == Estimates(points, k)[..j]
    ensures Errors(points, j, pi) == Errors(points, k, pi)[..j]
  {
  }

  /** For a reference value between 0 and 4 no recorded error exceeds the
      larger of pi and 4 - pi. */
  lemma ErrorBound(points: seq<Point>, k: nat, pi: real, i: nat)
    requires k <= |points| && i < k
    requires 0.0 <= pi <= 4.0
    ensures Errors(points, k, pi)[i] <= if pi >= 2.0 then pi else 4.0 - pi
  {
  }

  /** After a run of maxn >= 1 iterations the final line reports maxn
      iterations, the hit count and 4 * hits / maxn. */
  lemma ReportAfterRun(points: seq<Point>, maxn: nat)
    requires 1 <= maxn <= |points|
    ensures Report(maxn + 1, Hits(points, maxn), Estimates(points, maxn))
            == Ok(Summary(maxn, Hits(points, maxn), 4.0 * (Hits(points, maxn) as real) / (maxn as real)))
  {
  }
}
