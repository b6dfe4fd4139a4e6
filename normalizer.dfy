/** The landmark normalizer of machine-learning-client/src/mediapipe_utils.py
    (`normalize_landmarks`); dataset_asl_mnist.py carries a line-for-line
    copy of it, which is this same function.

    The 21 hand landmarks are translated so the wrist (landmark 0) sits at
    the origin, divided by the largest wrist distance when that distance is
    positive, and flattened row by row into 63 numbers. Coordinates are
    reals; the square root the source takes through `np.linalg.norm` is a
    parameter `sqrt` that returns the non-negative root. */
module Normalizer {

  const NumLandmarks: nat := 21
  const FeatureLength: nat := 63

  datatype Point = Point(x: real, y: real, z: real)

  const Origin := Point(0.0, 0.0, 0.0)

  function Sub(p: Point, q: Point): Point {
    Point(p.x - q.x, p.y - q.y, p.z - q.z)
  }

  function Add(p: Point, q: Point): Point {
    Point(p.x + q.x, p.y + q.y, p.z + q.z)
  }

  function DivBy(p: Point, d: real): Point
    requires d != 0.0
  {
    Point(p.x / d, p.y / d, p.z / d)
  }

  /** Squared Euclidean norm; the norm itself is its square root, and since
      the root is monotone the farthest point is the one with the largest
      squared norm. */
  function SqNorm(p: Point): real {
    Sq(p.x) + Sq(p.y) + Sq(p.z)
  }

  /** Real products are kept behind these functions so that the solver
      meets them only through the lemmas below; `Sq` goes through the
      recursive `Power`, which the solver unfolds only one step at a time. */
  function Mul(a: real, b: real): real {
    a * b
  }

  function Sq(a: real): real {
    Power(a, 2)
  }

  function Power(a: real, n: nat): real
    decreases n
  {
    if n == 0 then 1.0 else a * Power(a, n - 1)
  }

  /** `sqrt` returns the non-negative square root of every non-negative real. */
  ghost predicate IsSqrt(sqrt: real -> real) {
    forall x: real :: 0.0 <= x ==> IsRoot(sqrt(x), x)
  }

  /** r is the non-negative square root of x. */
  predicate IsRoot(r: real, x: real) {
    0.0 <= r && Sq(r) == x
  }

  /** `pts - wrist`: every point relative to landmark 0. */
  function Centered(pts: seq<Point>): (c: seq<Point>)
    requires |pts| > 0
    ensures |c| == |pts|
    ensures forall i :: 0 <= i < |pts| ==> c[i] == Sub(pts[i], pts[0])
  {
    seq(|pts|, i requires 0 <= i < |pts| => Sub(pts[i], pts[0]))
  }

  /** An index of a row with the largest squared norm (the last one on a tie
      with a later row); `FarthestIsMax` states that it is one. */
  function FarthestIndex(c: seq<Point>): (k: nat)
    requires |c| > 0
    ensures k < |c|
    decreases |c|
  {
    if |c| == 1 then 0
    else
      var k := FarthestIndex(c[..|c| - 1]);
      if SqNorm(c[|c| - 1]) >= SqNorm(c[k]) then |c| - 1 else k
  }

  /** The largest squared distance of a landmark from the wrist;
      `MaxSqDistIsMax` states that it is one. */
  function MaxSqDist(pts: seq<Point>): (m: real)
    requires |pts| > 0
    ensures 0.0 <= m
  {
    var c := Centered(pts);
    SqNormNonNegative(c[FarthestIndex(c)]);
    SqNorm(c[FarthestIndex(c)])
  }

  /** `max_dist`: the largest distance of a landmark from the wrist. */
  function ScaleFactor(pts: seq<Point>, sqrt: real -> real): (d: real)
    requires |pts| > 0
    requires IsSqrt(sqrt)
    ensures IsRoot(d, MaxSqDist(pts))
  {
    sqrt(MaxSqDist(pts))
  }

  /** `flatten()` of an n-by-3 array: row i lands at positions 3i, 3i+1, 3i+2. */
  function Flatten(rows: seq<Point>): (r: seq<real>)
    ensures |r| == 3 * |rows|
  {
    seq(3 * |rows|, k requires 0 <= k < 3 * |rows| => Coord(rows[k / 3], k % 3))
  }

  /** Coordinate j (0 = x, 1 = y, 2 = z) of a point. */
  function Coord(p: Point, j: nat): real {
    if j == 0 then p.x else if j == 1 then p.y else p.z
  }

  /** Row i of a flat feature vector reshaped to 21-by-3. */
  function Row(r: seq<real>, i: nat): Point
    requires 3 * i + 2 < |r|
  {
    Point(r[3 * i], r[3 * i + 1], r[3 * i + 2])
  }

  /** `centered /= max_dist` for one row: the division happens only when the
      factor is positive. */
  function Scale(p: Point, d: real): Point {
    if d > 0.0 then DivBy(p, d) else p
  }

  function ScaledRows(pts: seq<Point>, sqrt: real -> real): (rows: seq<Point>)
    requires |pts| > 0
    requires IsSqrt(sqrt)
    ensures |rows| == |pts|
  {
    var c := Centered(pts);
    var d := ScaleFactor(pts, sqrt);
    seq(|pts|, i requires 0 <= i < |pts| => Scale(c[i], d))
  }

  /** `normalize_landmarks(pts)`: the 63-entry feature vector. The source
      asserts the (21, 3) shape, so a 21-point input is required here. */
  function Normalize(pts: seq<Point>, sqrt: real -> real): (r: seq<real>)
    requires |pts| == NumLandmarks
    requires IsSqrt(sqrt)
    ensures |r| == FeatureLength
  {
    Flatten(ScaledRows(pts, sqrt))
  }

  /** Every point equals the wrist. */
  predicate AllAtWrist(pts: seq<Point>) {
    forall i :: 0 <= i < |pts| ==> pts[i] == pts[0]
  }

  /** Adds the same vector to every landmark. */
  function Translate(pts: seq<Point>, v: Point): (t: seq<Point>)
    ensures |t| == |pts|
  {
    seq(|pts|, i requires 0 <= i < |pts| => Add(pts[i], v))
  }

  // ---------------------------------------------------------------------
  // Arithmetic facts about points

  lemma MulPositive(a: real, b: real)
    requires a > 0.0 && b > 0.0
    ensures Mul(a, b) > 0.0
  {
  }

  lemma SquareSign(a: real)
    ensures 0.0 <= Sq(a)
    ensures Sq(a) == 0.0 ==> a == 0.0
  {
    if a > 0.0 {
      MulPositive(a, a);
    } else if a < 0.0 {
      MulPositive(-a, -a);
      assert Sq(a) == Mul(-a, -a);
    }
  }

  lemma SqNormNonNegative(p: Point)
    ensures 0.0 <= SqNorm(p)
  {
    SquareSign(p.x);
    SquareSign(p.y);
    SquareSign(p.z);
  }

  lemma SqNormZero(p: Point)
    ensures SqNorm(p) == 0.0 <==> p == Origin
  {
    SquareSign(p.x);
    SquareSign(p.y);
    SquareSign(p.z);
  }

  /** A point whose squared norm is not positive is the origin. */
  lemma NonPositiveNorm(p: Point)
    requires SqNorm(p) <= 0.0
    ensures p == Origin
  {
    SqNormNonNegative(p);
    SqNormZero(p);
  }

  /** Two points at no distance from each other are equal. */
  lemma NoDistanceSamePoint(p: Point, q: Point)
    requires SqNorm(Sub(p, q)) <= 0.0
    ensures p == q
  {
    NonPositiveNorm(Sub(p, q));
    assert p.x == q.x && p.y == q.y && p.z == q.z;
  }

  lemma RootZero(d: real, m: real)
    requires IsRoot(d, m)
    ensures d == 0.0 <==> m == 0.0
  {
    SquareSign(d);
  }

  lemma ScaleOrigin(d: real)
    ensures Scale(Origin, d) == Origin
  {
  }

  lemma SqDiv(a: real, d: real)
    requires d > 0.0
    ensures Mul(Sq(a / d), Sq(d)) == Sq(a)
  {
    var q := a / d;
    assert q * d == a;
    assert (q * q) * (d * d) == (q * d) * (q * d);
  }

  lemma SqNormDiv(p: Point, d: real)
    requires d > 0.0
    ensures Mul(SqNorm(DivBy(p, d)), Sq(d)) == SqNorm(p)
  {
    var q := DivBy(p, d);
    SqDiv(p.x, d);
    SqDiv(p.y, d);
    SqDiv(p.z, d);
    assert Mul(Sq(q.x) + Sq(q.y) + Sq(q.z), Sq(d))
        == Mul(Sq(q.x), Sq(d)) + Mul(Sq(q.y), Sq(d)) + Mul(Sq(q.z), Sq(d));
  }

  lemma AtMostOne(s: real, m: real)
    requires m > 0.0 && Mul(s, m) <= m
    ensures s <= 1.0
    ensures Mul(s, m) == m ==> s == 1.0
  {
    assert Mul(s - 1.0, m) == Mul(s, m) - m;
    assert Mul(1.0 - s, m) == m - Mul(s, m);
    if s > 1.0 {
      MulPositive(s - 1.0, m);
    } else if s < 1.0 {
      MulPositive(1.0 - s, m);
    }
  }

  /** The squared norm of a scaled row, compared with 1. */
  lemma ScaledAtMostOne(p: Point, d: real)
    requires d > 0.0 && SqNorm(p) <= Sq(d)
    ensures SqNorm(DivBy(p, d)) <= 1.0
    ensures SqNorm(p) == Sq(d) ==> SqNorm(DivBy(p, d)) == 1.0
  {
    SqNormDiv(p, d);
    MulPositive(d, d);
    AtMostOne(SqNorm(DivBy(p, d)), Sq(d));
  }

  lemma RootOfFour(d: real)
    requires 0.0 <= d && Sq(d) == 4.0
    ensures d == 2.0
  {
    assert Mul(d - 2.0, d + 2.0) == Sq(d) - 4.0;
    assert Mul(2.0 - d, d + 2.0) == 4.0 - Sq(d);
    if d > 2.0 {
      MulPositive(d - 2.0, d + 2.0);
    } else if d < 2.0 {
      MulPositive(2.0 - d, d + 2.0);
    }
  }

  // ---------------------------------------------------------------------
  // Properties of Normalize

  /** No row has a larger squared norm than the one FarthestIndex picks. */
  lemma {:induction false} FarthestIsMax(c: seq<Point>)
    requires |c| > 0
    ensures forall i :: 0 <= i < |c| ==> SqNorm(c[i]) <= SqNorm(c[FarthestIndex(c)])
    decreases |c|
  {
    if |c| > 1 {
      var init := c[..|c| - 1];
      FarthestIsMax(init);
      assert forall i :: 0 <= i < |c| - 1 ==> init[i] == c[i];
    }
  }

  /** MaxSqDist bounds every squared wrist distance and is attained by the
      farthest landmark. */
  lemma MaxSqDistIsMax(pts: seq<Point>)
    requires |pts| > 0
    ensures forall i :: 0 <= i < |pts| ==> SqNorm(Sub(pts[i], pts[0])) <= MaxSqDist(pts)
    ensures MaxSqDist(pts) == SqNorm(Sub(pts[FarthestIndex(Centered(pts))], pts[0]))
  {
    FarthestIsMax(Centered(pts));
  }

  /** Reshaping the flat vector back to rows recovers the rows. */
  lemma FlattenRows(rows: seq<Point>)
    ensures forall i :: 0 <= i < |rows| ==> Row(Flatten(rows), i) == rows[i]
  {
    forall i | 0 <= i < |rows| ensures Row(Flatten(rows), i) == rows[i] {
      assert (3 * i) / 3 == i && (3 * i + 1) / 3 == i && (3 * i + 2) / 3 == i;
    }
  }


  /** Row i of the output is landmark i minus the wrist, divided by the
      largest wrist distance d when d > 0 and left as it is otherwise. */
  lemma NormalizeRows(pts: seq<Point>, sqrt: real -> real)
    requires |pts| == NumLandmarks && IsSqrt(sqrt)
    ensures forall i :: 0 <= i < NumLandmarks ==>
      Row(Normalize(pts, sqrt), i) == Scale(Sub(pts[i], pts[0]), ScaleFactor(pts, sqrt))
  {
    FlattenRows(ScaledRows(pts, sqrt));
  }

  /** The wrist row of the output is zero. */
  lemma WristIsZero(pts: seq<Point>, sqrt: real -> real)
    requires |pts| == NumLandmarks && IsSqrt(sqrt)
    ensures Row(Normalize(pts, sqrt), 0) == Origin
  {
    NormalizeRows(pts, sqrt);
    ScaleOrigin(ScaleFactor(pts, sqrt));
    assert Sub(pts[0], pts[0]) == Origin;
    assert Row(Normalize(pts, sqrt), 0) == Origin;
  }

  /** The largest squared wrist distance is zero exactly when every landmark
      equals the wrist. */
  lemma MaxSqDistZeroIffAllAtWrist(pts: seq<Point>)
    requires |pts| > 0
    ensures MaxSqDist(pts) == 0.0 <==> AllAtWrist(pts)
  {
    MaxSqDistIsMax(pts);
    if MaxSqDist(pts) == 0.0 {
      forall i | 0 <= i < |pts| ensures pts[i] == pts[0] {
        NoDistanceSamePoint(pts[i], pts[0]);
      }
    } else {
      var k := FarthestIndex(Centered(pts));
      SqNormZero(Sub(pts[k], pts[0]));
    }
  }

  /** The scale factor is zero exactly when every landmark equals the wrist. */
  lemma ScaleZeroIffAllAtWrist(pts: seq<Point>, sqrt: real -> real)
    requires |pts| > 0 && IsSqrt(sqrt)
    ensures ScaleFactor(pts, sqrt) == 0.0 <==> AllAtWrist(pts)
  {
    RootZero(ScaleFactor(pts, sqrt), MaxSqDist(pts));
    MaxSqDistZeroIffAllAtWrist(pts);
  }

  /** A flat vector is zero everywhere when each of its rows is. */
  lemma ZeroRowsZeroEntries(r: seq<real>)
    requires |r| == FeatureLength
    ensures (forall i :: 0 <= i < NumLandmarks ==> Row(r, i) == Origin) <==>
            (forall k :: 0 <= k < |r| ==> r[k] == 0.0)
  {
    if forall i :: 0 <= i < NumLandmarks ==> Row(r, i) == Origin {
      forall k | 0 <= k < |r| ensures r[k] == 0.0 {
        var i := k / 3;
        assert Row(r, i) == Origin;
        assert k == 3 * i || k == 3 * i + 1 || k == 3 * i + 2;
      }
    }
  }

  /** When every landmark equals the wrist, every output row is zero. */
  lemma AllAtWristZeroRows(pts: seq<Point>, sqrt: real -> real)
    requires |pts| == NumLandmarks && IsSqrt(sqrt)
    requires AllAtWrist(pts)
    ensures forall i :: 0 <= i < NumLandmarks ==> Row(Normalize(pts, sqrt), i) == Origin
  {
    NormalizeRows(pts, sqrt);
    ScaleOrigin(ScaleFactor(pts, sqrt));
    forall i | 0 <= i < NumLandmarks ensures Sub(pts[i], pts[0]) == Origin {
      assert pts[i] == pts[0];
    }
  }

  /** Unless every landmark equals the wrist, some output row is not zero. */
  lemma NonZeroRow(pts: seq<Point>, sqrt: real -> real)
    requires |pts| == NumLandmarks && IsSqrt(sqrt)
    requires !AllAtWrist(pts)
    ensures exists i :: 0 <= i < NumLandmarks && Row(Normalize(pts, sqrt), i) != Origin
  {
    UnitMaxNorm(pts, sqrt);
    var i :| 0 <= i < NumLandmarks && SqNorm(Row(Normalize(pts, sqrt), i)) == 1.0;
    assert SqNorm(Origin) == 0.0;
  }

  /** The output is all zeros exactly when every landmark equals the wrist. */
  lemma DegenerateIffAllZero(pts: seq<Point>, sqrt: real -> real)
    requires |pts| == NumLandmarks && IsSqrt(sqrt)
    ensures AllAtWrist(pts) <==>
            forall k :: 0 <= k < FeatureLength ==> Normalize(pts, sqrt)[k] == 0.0
  {
    ZeroRowsZeroEntries(Normalize(pts, sqrt));
    if AllAtWrist(pts) {
      AllAtWristZeroRows(pts, sqrt);
    } else {
      NonZeroRow(pts, sqrt);
    }
  }

  /** Unless every landmark equals the wrist, every output row has norm at
      most 1 and the farthest one has norm exactly 1. */
  lemma UnitMaxNorm(pts: seq<Point>, sqrt: real -> real)
    requires |pts| == NumLandmarks && IsSqrt(sqrt)
    requires !AllAtWrist(pts)
    ensures ScaleFactor(pts, sqrt) > 0.0
    ensures forall i :: 0 <= i < NumLandmarks ==> SqNorm(Row(Normalize(pts, sqrt), i)) <= 1.0
    ensures exists i :: 0 <= i < NumLandmarks && SqNorm(Row(Normalize(pts, sqrt), i)) == 1.0
  {
    var r := Normalize(pts, sqrt);
    var d := ScaleFactor(pts, sqrt);
    ScaleZeroIffAllAtWrist(pts, sqrt);
    MaxSqDistIsMax(pts);
    NormalizeRows(pts, sqrt);
    forall i | 0 <= i < NumLandmarks ensures SqNorm(Row(r, i)) <= 1.0 {
      ScaledAtMostOne(Sub(pts[i], pts[0]), d);
    }
    var k := FarthestIndex(Centered(pts));
    ScaledAtMostOne(Sub(pts[k], pts[0]), d);
    assert SqNorm(Row(r, k)) == 1.0;
  }

  /** Moving every landmark by the same vector leaves the output unchanged. */
  lemma TranslationInvariant(pts: seq<Point>, v: Point, sqrt: real -> real)
    requires |pts| == NumLandmarks && IsSqrt(sqrt)
    ensures Normalize(Translate(pts, v), sqrt) == Normalize(pts, sqrt)
  {
    var t := Translate(pts, v);
    assert Centered(t) == Centered(pts) by {
      forall i | 0 <= i < |pts| ensures Centered(t)[i] == Centered(pts)[i] {
        assert Sub(Add(pts[i], v), Add(pts[0], v)) == Sub(pts[i], pts[0]);
      }
    }
    assert MaxSqDist(t) == MaxSqDist(pts);
    assert ScaledRows(t, sqrt) == ScaledRows(pts, sqrt);
  }

  /** The worked example: every landmark at the origin except landmark 1 at
      (2, 0, 0). The largest squared wrist distance is 4. */
  lemma ExampleMaxSqDist(pts: seq<Point>)
    requires |pts| == NumLandmarks
    requires pts[1] == Point(2.0, 0.0, 0.0)
    requires forall i :: 0 <= i < NumLandmarks && i != 1 ==> pts[i] == Origin
    ensures MaxSqDist(pts) == 4.0
  {
    var k := FarthestIndex(Centered(pts));
    assert SqNorm(Sub(pts[1], pts[0])) == 4.0;
    assert SqNorm(Sub(pts[k], pts[0])) <= 4.0 by {
      if k != 1 {
        assert Sub(pts[k], pts[0]) == Origin;
        assert SqNorm(Origin) == 0.0;
      }
    }
    MaxSqDistIsMax(pts);
  }

  /** In the worked example landmark 1 comes out as the unit vector (1, 0, 0). */
  lemma UnitPointExample(pts: seq<Point>, sqrt: real -> real)
    requires |pts| == NumLandmarks && IsSqrt(sqrt)
    requires pts[1] == Point(2.0, 0.0, 0.0)
    requires forall i :: 0 <= i < NumLandmarks && i != 1 ==> pts[i] == Origin
    ensures Row(Normalize(pts, sqrt), 0) == Origin
    ensures Row(Normalize(pts, sqrt), 1) == Point(1.0, 0.0, 0.0)
  {
    ExampleScale(pts, sqrt);
    ExampleRowOne(pts, sqrt);
    WristIsZero(pts, sqrt);
    FlattenRows(ScaledRows(pts, sqrt));
  }

  lemma ExampleScale(pts: seq<Point>, sqrt: real -> real)
    requires |pts| == NumLandmarks && IsSqrt(sqrt)
    requires pts[1] == Point(2.0, 0.0, 0.0)
    requires forall i :: 0 <= i < NumLandmarks && i != 1 ==> pts[i] == Origin
    ensures ScaleFactor(pts, sqrt) == 2.0
  {
    ExampleMaxSqDist(pts);
    RootOfFour(ScaleFactor(pts, sqrt));
  }

  /** In the worked example, landmark 1's row is (2, 0, 0) divided by 2. */
  lemma ExampleRowOne(pts: seq<Point>, sqrt: real -> real)
    requires |pts| == NumLandmarks && IsSqrt(sqrt)
    requires pts[1] == Point(2.0, 0.0, 0.0)
    requires forall i :: 0 <= i < NumLandmarks && i != 1 ==> pts[i] == Origin
    ensures ScaledRows(pts, sqrt)[1] == Point(1.0, 0.0, 0.0)
  {
    ExampleScale(pts, sqrt);
    ScaledByTwo(pts, sqrt);
  }

  lemma ScaledByTwo(pts: seq<Point>, sqrt: real -> real)
    requires |pts| == NumLandmarks && IsSqrt(sqrt)
    requires Sub(pts[1], pts[0]) == Point(2.0, 0.0, 0.0)
    requires ScaleFactor(pts, sqrt) == 2.0
    ensures ScaledRows(pts, sqrt)[1] == Point(1.0, 0.0, 0.0)
  {
    HalfOfTwo();
  }

  lemma HalfOfTwo()
    ensures Scale(Point(2.0, 0.0, 0.0), 2.0) == Point(1.0, 0.0, 0.0)
  {
  }
}
