/**
 * The shape distance of app/Captcha/TrajectoryTraceProvider.php: the dynamic programme of
 * `frechetDistance` against the definition of the discrete Frechet distance.
 */
module Frechet {

  datatype Point = Point(x: real, y: real)

  /** Any distance between points; `pointDistance` is one. */
  type Distance = (Point, Point) -> real

  datatype Length = Infinite | Finite(value: real)

  function Min(a: real, b: real): real {
    if a <= b then a else b
  }

  function Max(a: real, b: real): real {
    if a >= b then a else b
  }

  // ----- Couplings: the definition -----

  /** A walk over index pairs from (0, 0), moving forward by at most one in either sequence. */
  datatype Walk = Start | Move(before: Walk, i: nat, j: nat)

  function EndI(w: Walk): nat {
    if w.Start? then 0 else w.i
  }

  function EndJ(w: Walk): nat {
    if w.Start? then 0 else w.j
  }

  /** Each move advances the first index, the second, or both. */
  predicate Monotone(w: Walk) {
    match w
    case Start => true
    case Move(before, i, j) =>
      && Monotone(before)
      && ((i == EndI(before) + 1 && j == EndJ(before))
          || (i == EndI(before) && j == EndJ(before) + 1)
          || (i == EndI(before) + 1 && j == EndJ(before) + 1))
  }

  predicate Couples(w: Walk, i: nat, j: nat) {
    Monotone(w) && EndI(w) == i && EndJ(w) == j
  }

  /** The longest distance the walk ever sees. */
  function Cost(dist: Distance, a: seq<Point>, b: seq<Point>, w: Walk): real
    requires Monotone(w) && EndI(w) < |a| && EndJ(w) < |b|
  {
    match w
    case Start => dist(a[0], b[0])
    case Move(before, i, j) => Max(Cost(dist, a, b, before), dist(a[i], b[j]))
  }

  // ----- The recurrence -----

  /** An inner table entry from its three neighbours and the distance of its own pair. */
  function Cell(up: real, diagonal: real, left: real, d: real): real {
    Max(Min(Min(up, diagonal), left), d)
  }

  /** The table entry for prefixes ending at `i` and `j`. */
  function Entry(dist: Distance, a: seq<Point>, b: seq<Point>, i: nat, j: nat): real
    requires i < |a| && j < |b|
    decreases i + j
  {
    var d := dist(a[i], b[j]);
    if i == 0 && j == 0 then d
    else if j == 0 then Max(Entry(dist, a, b, i - 1, 0), d)
    else if i == 0 then Max(Entry(dist, a, b, 0, j - 1), d)
    else
      Cell(Entry(dist, a, b, i - 1, j), Entry(dist, a, b, i - 1, j - 1), Entry(dist, a, b, i, j - 1), d)
  }

  /** The distance of two point sequences; infinite when one is empty. */
  function Discrete(dist: Distance, a: seq<Point>, b: seq<Point>): Length {
    if a == [] || b == [] then Infinite else Finite(Entry(dist, a, b, |a| - 1, |b| - 1))
  }

  /** TrajectoryTraceProvider::frechetDistance, filling the table row by row. */
  method FrechetDistance(dist: Distance, a: seq<Point>, b: seq<Point>) returns (r: Length)
    ensures r == Discrete(dist, a, b)
  {
    var n, m := |a|, |b|;
    if n == 0 || m == 0 {
      return Infinite;
    }
    var dp := new real[n, m];
    FillFirstColumn(dp, dist, a, b);
    FillFirstRow(dp, dist, a, b);
    var i := 1;
    while i < n
      invariant 1 <= i <= n
      invariant forall p :: 0 <= p < n ==> Done(dp, dist, a, b, p, 1)
      invariant forall p :: 0 <= p < i ==> Done(dp, dist, a, b, p, m)
    {
      FillRow(dp, dist, a, b, i);
      i := i + 1;
    }
    assert Done(dp, dist, a, b, n - 1, m);
    return Finite(dp[n - 1, m - 1]);
  }

  /** The first `upTo` entries of a row are final. */
  ghost predicate Done(dp: array2<real>, dist: Distance, a: seq<Point>, b: seq<Point>, row: nat, upTo: nat)
    requires dp.Length0 == |a| && dp.Length1 == |b| && row < |a| && upTo <= |b|
    reads dp
  {
    forall q :: 0 <= q < upTo ==> dp[row, q] == Entry(dist, a, b, row, q)
  }

  method FillFirstColumn(dp: array2<real>, dist: Distance, a: seq<Point>, b: seq<Point>)
    requires dp.Length0 == |a| > 0 && dp.Length1 == |b| > 0
    modifies dp
    ensures forall p :: 0 <= p < |a| ==> Done(dp, dist, a, b, p, 1)
  {
    dp[0, 0] := dist(a[0], b[0]);
    var i := 1;
    while i < |a|
      invariant 1 <= i <= |a|
      invariant forall p :: 0 <= p < i ==> dp[p, 0] == Entry(dist, a, b, p, 0)
    {
      dp[i, 0] := Max(dp[i - 1, 0], dist(a[i], b[0]));
      i := i + 1;
    }
  }

  method FillFirstRow(dp: array2<real>, dist: Distance, a: seq<Point>, b: seq<Point>)
    requires dp.Length0 == |a| > 0 && dp.Length1 == |b| > 0
    requires Done(dp, dist, a, b, 0, 1)
    modifies dp
    ensures Done(dp, dist, a, b, 0, |b|)
    ensures forall p :: 0 <= p < |a| && old(Done(dp, dist, a, b, p, 1)) ==> Done(dp, dist, a, b, p, 1)
  {
    var j := 1;
    while j < |b|
      invariant 1 <= j <= |b|
      invariant Done(dp, dist, a, b, 0, j)
      invariant forall p :: 0 <= p < |a| ==> dp[p, 0] == old(dp[p, 0])
    {
      dp[0, j] := Max(dp[0, j - 1], dist(a[0], b[j]));
      j := j + 1;
    }
  }

  /** One inner row, left to right; no other row changes. */
  method FillRow(dp: array2<real>, dist: Distance, a: seq<Point>, b: seq<Point>, i: nat)
    requires dp.Length0 == |a| && dp.Length1 == |b| > 0 && 1 <= i < |a|
    requires Done(dp, dist, a, b, i - 1, |b|) && Done(dp, dist, a, b, i, 1)
    modifies dp
    ensures Done(dp, dist, a, b, i, |b|)
    ensures forall p, upTo :: 0 <= p < |a| && 0 <= upTo <= |b| && old(Done(dp, dist, a, b, p, upTo)) ==>
      Done(dp, dist, a, b, p, upTo)
  {
    var j := 1;
    while j < |b|
      invariant 1 <= j <= |b|
      invariant Done(dp, dist, a, b, i, j)
      invariant forall p, q :: 0 <= p < |a| && p != i && 0 <= q < |b| ==> dp[p, q] == old(dp[p, q])
    {
      dp[i, j] := Max(Min(Min(dp[i - 1, j], dp[i - 1, j - 1]), dp[i, j - 1]), dist(a[i], b[j]));
      j := j + 1;
    }
  }

  // ----- The programme computes the minimum over all couplings -----

  /** No coupling beats the table. */
  lemma {:induction false} NoWalkIsCheaper(dist: Distance, a: seq<Point>, b: seq<Point>, w: Walk)
    requires Monotone(w) && EndI(w) < |a| && EndJ(w) < |b|
    ensures Cost(dist, a, b, w) >= Entry(dist, a, b, EndI(w), EndJ(w))
    decreases w
  {
    if w.Move? {
      NoWalkIsCheaper(dist, a, b, w.before);
    }
  }

  /** Some coupling attains the table. */
  lemma {:induction false} BestWalk(dist: Distance, a: seq<Point>, b: seq<Point>, i: nat, j: nat) returns (w: Walk)
    requires i < |a| && j < |b|
    ensures Couples(w, i, j) && Cost(dist, a, b, w) == Entry(dist, a, b, i, j)
    decreases i + j
  {
    if i == 0 && j == 0 {
      w := Start;
    } else if j == 0 {
      var v := BestWalk(dist, a, b, i - 1, 0);
      w := Move(v, i, j);
    } else if i == 0 {
      var v := BestWalk(dist, a, b, 0, j - 1);
      w := Move(v, i, j);
    } else {
      var up, left := Entry(dist, a, b, i - 1, j), Entry(dist, a, b, i, j - 1);
      var diagonal := Entry(dist, a, b, i - 1, j - 1);
      var v;
      if up <= diagonal && up <= left {
        v := BestWalk(dist, a, b, i - 1, j);
      } else if diagonal <= left {
        v := BestWalk(dist, a, b, i - 1, j - 1);
      } else {
        v := BestWalk(dist, a, b, i, j - 1);
      }
      w := Move(v, i, j);
    }
  }

  /** `v` is the least cost over all couplings of two non-empty sequences. */
  ghost predicate IsMinimum(dist: Distance, a: seq<Point>, b: seq<Point>, v: real)
    requires a != [] && b != []
  {
    && (exists w :: Couples(w, |a| - 1, |b| - 1) && Cost(dist, a, b, w) == v)
    && (forall w :: Couples(w, |a| - 1, |b| - 1) ==> Cost(dist, a, b, w) >= v)
  }

  /** The computed distance is the minimum over all couplings of the longest pair distance. */
  lemma DistanceIsMinimum(dist: Distance, a: seq<Point>, b: seq<Point>, v: real)
    requires a != [] && b != []
    ensures Discrete(dist, a, b) == Finite(v) <==> IsMinimum(dist, a, b, v)
  {
    var least := Entry(dist, a, b, |a| - 1, |b| - 1);
    var best := BestWalk(dist, a, b, |a| - 1, |b| - 1);
    forall w | Couples(w, |a| - 1, |b| - 1) ensures Cost(dist, a, b, w) >= least {
      NoWalkIsCheaper(dist, a, b, w);
    }
  }

  /** Every pair the walk visits lies within a tolerance. */
  predicate Within(dist: Distance, a: seq<Point>, b: seq<Point>, w: Walk, tolerance: real)
    requires Monotone(w) && EndI(w) < |a| && EndJ(w) < |b|
  {
    match w
    case Start => dist(a[0], b[0]) <= tolerance
    case Move(before, i, j) => Within(dist, a, b, before, tolerance) && dist(a[i], b[j]) <= tolerance
  }

  lemma {:induction false} CostWithin(dist: Distance, a: seq<Point>, b: seq<Point>, w: Walk, tolerance: real)
    requires Monotone(w) && EndI(w) < |a| && EndJ(w) < |b|
    ensures Cost(dist, a, b, w) <= tolerance <==> Within(dist, a, b, w, tolerance)
    decreases w
  {
    if w.Move? {
      CostWithin(dist, a, b, w.before, tolerance);
    }
  }

  /** The gate of `verify`: not a shape mismatch. */
  predicate ShapeMatches(dist: Distance, shape: seq<Point>, points: seq<Point>, tolerance: real) {
    var d := Discrete(dist, shape, points);
    d.Finite? && d.value <= tolerance
  }

  /** Some coupling keeps every visited pair within the tolerance. */
  ghost predicate WalkableWithin(dist: Distance, a: seq<Point>, b: seq<Point>, tolerance: real) {
    a != [] && b != [] && exists w :: Couples(w, |a| - 1, |b| - 1) && Within(dist, a, b, w, tolerance)
  }

  /**
   * The captcha's shape test passes exactly when shape and trace can be walked together,
   * never apart by more than the tolerance.
   */
  lemma ShapeTestMeaning(dist: Distance, shape: seq<Point>, points: seq<Point>, tolerance: real)
    ensures ShapeMatches(dist, shape, points, tolerance) <==> WalkableWithin(dist, shape, points, tolerance)
  {
    if ShapeMatches(dist, shape, points, tolerance) {
      var best := BestWalk(dist, shape, points, |shape| - 1, |points| - 1);
      CostWithin(dist, shape, points, best, tolerance);
    }
    if WalkableWithin(dist, shape, points, tolerance) {
      var w :| Couples(w, |shape| - 1, |points| - 1) && Within(dist, shape, points, w, tolerance);
      NoWalkIsCheaper(dist, shape, points, w);
      CostWithin(dist, shape, points, w, tolerance);
    }
  }

  // ----- Symmetry, and independence of the square root -----

  lemma {:induction false} EntrySymmetric(d1: Distance, d2: Distance, a: seq<Point>, b: seq<Point>, i: nat, j: nat)
    requires (forall p, q :: d1(p, q) == d2(q, p)) && i < |a| && j < |b|
    ensures Entry(d1, a, b, i, j) == Entry(d2, b, a, j, i)
    decreases i + j
  {
    if i > 0 { EntrySymmetric(d1, d2, a, b, i - 1, j); }
    if j > 0 { EntrySymmetric(d1, d2, a, b, i, j - 1); }
    if i > 0 && j > 0 { EntrySymmetric(d1, d2, a, b, i - 1, j - 1); }
  }

  /** Swapping the arguments changes nothing when the point distance is symmetric. */
  lemma DistanceIsSymmetric(dist: Distance, a: seq<Point>, b: seq<Point>)
    requires forall p, q :: dist(p, q) == dist(q, p)
    ensures Discrete(dist, a, b) == Discrete(dist, b, a)
  {
    if a != [] && b != [] {
      EntrySymmetric(dist, dist, a, b, |a| - 1, |b| - 1);
    }
  }

  /** Squared Euclidean distance, the exact radicand of `pointDistance`. */
  function Squared(p: Point, q: Point): real {
    var dx, dy := p.x - q.x, p.y - q.y;
    dx * dx + dy * dy
  }

  /** The plane turned by the angle with this cosine and sine. */
  function Turned(p: Point, cos: real, sin: real): Point {
    Point(cos * p.x - sin * p.y, sin * p.x + cos * p.y)
  }

  /**
   * The squared distance is the Euclidean one: it is the square of the difference along an
   * axis, and neither moving nor turning the plane changes it.
   */
  lemma SquaredIsEuclidean(p: Point, q: Point, x: real, y: real, cos: real, sin: real)
    requires cos * cos + sin * sin == 1.0
    ensures Squared(Point(x, 0.0), Point(y, 0.0)) == (x - y) * (x - y)
    ensures Squared(Point(p.x + x, p.y + y), Point(q.x + x, q.y + y)) == Squared(p, q)
    ensures Squared(Turned(p, cos, sin), Turned(q, cos, sin)) == Squared(p, q)
  {
    var dx, dy := p.x - q.x, p.y - q.y;
    assert Turned(p, cos, sin).x - Turned(q, cos, sin).x == cos * dx - sin * dy;
    assert Turned(p, cos, sin).y - Turned(q, cos, sin).y == sin * dx + cos * dy;
    TurnKeepsLength(dx, dy, cos, sin);
  }

  lemma TurnKeepsLength(dx: real, dy: real, cos: real, sin: real)
    requires cos * cos + sin * sin == 1.0
    ensures (cos * dx - sin * dy) * (cos * dx - sin * dy) + (sin * dx + cos * dy) * (sin * dx + cos * dy)
         == dx * dx + dy * dy
  {
    SquareOfSum(cos * dx, -(sin * dy));
    SquareOfSum(sin * dx, cos * dy);
    var cc, ss, xx, yy := cos * cos, sin * sin, dx * dx, dy * dy;
    SquareOfProduct(cos, dx);
    SquareOfProduct(sin, dx);
    SquareOfProduct(cos, dy);
    SquareOfProduct(sin, dy);
    assert (cos * dx) * (sin * dy) == (sin * dx) * (cos * dy);
    assert cc * xx + ss * xx == (cc + ss) * xx && cc * yy + ss * yy == (cc + ss) * yy;
  }

  lemma SquareOfSum(a: real, b: real)
    ensures (a + b) * (a + b) == a * a + 2.0 * (a * b) + b * b
  {
  }

  lemma SquareOfProduct(a: real, b: real)
    ensures (a * b) * (a * b) == (a * a) * (b * b)
  {
  }

  ghost predicate Ordered(f: real -> real, x: real, y: real) {
    x <= y ==> f(x) <= f(y)
  }

  ghost predicate NonDecreasing(f: real -> real) {
    forall x, y :: Ordered(f, x, y)
  }

  lemma PairCommutes(f: real -> real, x: real, y: real)
    requires NonDecreasing(f)
    ensures Min(f(x), f(y)) == f(Min(x, y)) && Max(f(x), f(y)) == f(Max(x, y))
  {
    assert Ordered(f, x, y) && Ordered(f, y, x);
  }

  lemma CellCommutes(f: real -> real, up: real, diagonal: real, left: real, d: real)
    requires NonDecreasing(f)
    ensures Cell(f(up), f(diagonal), f(left), f(d)) == f(Cell(up, diagonal, left, d))
  {
    PairCommutes(f, up, diagonal);
    PairCommutes(f, Min(up, diagonal), left);
    PairCommutes(f, Min(Min(up, diagonal), left), d);
  }

  /** Entry (i, j) is the root of its counterpart. */
  ghost predicate Commutes(f: real -> real, base: Distance, dist: Distance, a: seq<Point>, b: seq<Point>,
    i: nat, j: nat)
    requires i < |a| && j < |b|
  {
    Entry(dist, a, b, i, j) == f(Entry(base, a, b, i, j))
  }

  /** One point distance is the root of the other, everywhere. */
  ghost predicate RootOf(f: real -> real, base: Distance, dist: Distance) {
    NonDecreasing(f) && forall p, q :: dist(p, q) == f(base(p, q))
  }

  lemma ColumnCommutes(f: real -> real, base: Distance, dist: Distance, a: seq<Point>, b: seq<Point>, i: nat)
    requires RootOf(f, base, dist) && 0 < i < |a| && b != [] && Commutes(f, base, dist, a, b, i - 1, 0)
    ensures Commutes(f, base, dist, a, b, i, 0)
  {
    PairCommutes(f, Entry(base, a, b, i - 1, 0), base(a[i], b[0]));
  }

  lemma RowCommutes(f: real -> real, base: Distance, dist: Distance, a: seq<Point>, b: seq<Point>, j: nat)
    requires RootOf(f, base, dist) && 0 < j < |b| && a != [] && Commutes(f, base, dist, a, b, 0, j - 1)
    ensures Commutes(f, base, dist, a, b, 0, j)
  {
    PairCommutes(f, Entry(base, a, b, 0, j - 1), base(a[0], b[j]));
  }

  lemma InnerCommutes(f: real -> real, base: Distance, dist: Distance, a: seq<Point>, b: seq<Point>, i: nat, j: nat)
    requires RootOf(f, base, dist) && 0 < i < |a| && 0 < j < |b|
    requires Commutes(f, base, dist, a, b, i - 1, j) && Commutes(f, base, dist, a, b, i - 1, j - 1)
    requires Commutes(f, base, dist, a, b, i, j - 1)
    ensures Commutes(f, base, dist, a, b, i, j)
  {
    CellCommutes(f, Entry(base, a, b, i - 1, j), Entry(base, a, b, i - 1, j - 1), Entry(base, a, b, i, j - 1),
      base(a[i], b[j]));
  }

  lemma {:induction false} EntryCommutes(f: real -> real, base: Distance, dist: Distance, a: seq<Point>,
    b: seq<Point>, i: nat, j: nat)
    requires RootOf(f, base, dist) && i < |a| && j < |b|
    ensures Commutes(f, base, dist, a, b, i, j)
    decreases i + j
  {
    if i > 0 { EntryCommutes(f, base, dist, a, b, i - 1, j); }
    if j > 0 { EntryCommutes(f, base, dist, a, b, i, j - 1); }
    if i > 0 && j > 0 {
      EntryCommutes(f, base, dist, a, b, i - 1, j - 1);
      InnerCommutes(f, base, dist, a, b, i, j);
    } else if i > 0 {
      ColumnCommutes(f, base, dist, a, b, i);
    } else if j > 0 {
      RowCommutes(f, base, dist, a, b, j);
    }
  }

  /**
   * For any non-decreasing `root` the distance under `root` of the squared distance is
   * `root` of the distance under squares: taking square roots early or late is the same.
   */
  lemma RootCommutes(root: real -> real, dist: Distance, a: seq<Point>, b: seq<Point>)
    requires NonDecreasing(root) && (forall p, q :: dist(p, q) == root(Squared(p, q)))
    requires a != [] && b != []
    ensures Discrete(dist, a, b) == Finite(root(Discrete(Squared, a, b).value))
    ensures Discrete(dist, a, b) == Discrete(dist, b, a)
  {
    EntryCommutes(root, Squared, dist, a, b, |a| - 1, |b| - 1);
    forall p, q ensures dist(p, q) == dist(q, p) {
      assert Squared(p, q) == Squared(q, p);
    }
    DistanceIsSymmetric(dist, a, b);
  }
}
