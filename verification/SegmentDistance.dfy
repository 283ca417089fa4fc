/** The distance between two segments: a closed form against the minimum over all pairs of their points. */
module SegmentDistance {
  import opened Reals

  datatype Point = Point(x: real, y: real)

  function Sub(a: Point, b: Point): Point { Point(a.x - b.x, a.y - b.y) }

  function Dot(a: Point, b: Point): real { a.x * b.x + a.y * b.y }

  /** Twice the signed area of the triangle a, b, c. */
  function Ccw(a: Point, b: Point, c: Point): real {
    (b.x - a.x) * (c.y - a.y) - (b.y - a.y) * (c.x - a.x)
  }

  function Norm2(a: Point): real { Dot(a, a) }

  function Dist2(a: Point, b: Point): real { Norm2(Sub(a, b)) }

  /** The point at fraction t of the way from a to b. */
  function At(a: Point, b: Point, t: real): Point {
    Point(a.x + t * (b.x - a.x), a.y + t * (b.y - a.y))
  }

  function Unit(t: real): real { Clamp(t, 0.0, 1.0) }

  /** Where on the segment a-b the point nearest to p lies. */
  function Foot(p: Point, a: Point, b: Point): real {
    var ab := Sub(b, a);
    if Dot(ab, ab) == 0.0 then 0.0 else Unit(Dot(Sub(p, a), ab) / Dot(ab, ab))
  }

  function PointSeg2(p: Point, a: Point, b: Point): real {
    Dist2(p, At(a, b, Foot(p, a, b)))
  }

  predicate Cross(p1: Point, p2: Point, q1: Point, q2: Point) {
    && ((Ccw(p1, p2, q1) > 0.0) != (Ccw(p1, p2, q2) > 0.0))
    && ((Ccw(q1, q2, p1) > 0.0) != (Ccw(q1, q2, p2) > 0.0))
  }

  /** The squared distance of two segments, in closed form. */
  function SegSeg2(p1: Point, p2: Point, q1: Point, q2: Point): real {
    if Cross(p1, p2, q1, q2) then 0.0
    else EndDistance(p1, p2, q1, q2)
  }

  /** The least squared distance of an end point from the other segment. */
  function EndDistance(p1: Point, p2: Point, q1: Point, q2: Point): real {
    Min(Min(PointSeg2(q1, p1, p2), PointSeg2(q2, p1, p2)), Min(PointSeg2(p1, q1, q2), PointSeg2(p2, q1, q2)))
  }

  predicate InUnit(t: real) { 0.0 <= t <= 1.0 }

  // --- point and segment ---

  lemma SquareOfMinus(x: real)
    ensures Mul(-x, -x) == Mul(x, x)
  {
  }

  lemma SquareNotNegative(x: real)
    ensures Mul(x, x) >= 0.0 && (Mul(x, x) == 0.0 ==> x == 0.0)
  {
    hide Mul;
    SquareOfMinus(x);
    MulUnits(x);
    if x > 0.0 {
      MulPositive(x, x);
    } else if x < 0.0 {
      MulPositive(-x, -x);
    }
  }

  lemma ProductNotNegative(x: real, y: real)
    requires (x >= 0.0 && y >= 0.0) || (x <= 0.0 && y <= 0.0)
    ensures Mul(x, y) >= 0.0
  {
  }

  lemma Norm2NotNegative(a: Point)
    ensures Norm2(a) >= 0.0
    ensures Norm2(a) == 0.0 ==> a.x == 0.0 && a.y == 0.0
  {
    SquareNotNegative(a.x);
    SquareNotNegative(a.y);
  }

  /** The squared distance from p along a-b, as a parabola in t. */
  lemma Parabola(p: Point, a: Point, b: Point, t: real)
    ensures var ab, ap := Sub(b, a), Sub(p, a);
      Dist2(p, At(a, b, t)) == Dot(ap, ap) - 2.0 * t * Dot(ap, ab) + t * t * Dot(ab, ab)
  {
  }

  lemma ParabolaStep(d: real, e: real, t: real, u: real)
    ensures t * t * d - 2.0 * t * e - (u * u * d - 2.0 * u * e) == Mul(t - u, Mul(d, t + u) - 2.0 * e)
  {
  }

  /** Clamping the vertex of an upward parabola to the unit interval minimises it there. */
  lemma VertexIsLeast(d: real, e: real, t: real)
    requires d > 0.0 && InUnit(t)
    ensures var u := Unit(e / d); t * t * d - 2.0 * t * e >= u * u * d - 2.0 * u * e
  {
    var v := e / d;
    assert v * d == e;
    var u := Unit(v);
    ParabolaStep(d, e, t, u);
    assert Mul(d, t + u) - 2.0 * e == Mul(d, t + u - 2.0 * v);
    if u == v {
      assert t + u - 2.0 * v == t - u;
      ProductNotNegative(d, if t >= u then t - u else u - t);
      ThreeFactors(d, t - u, t - u);
    } else {
      ThreeFactors(d, t - u, t + u - 2.0 * v);
    }
  }

  lemma ThreeFactors(d: real, x: real, y: real)
    requires d > 0.0 && ((x >= 0.0 && y >= 0.0) || (x <= 0.0 && y <= 0.0))
    ensures Mul(x, Mul(d, y)) >= 0.0
  {
    ProductNotNegative(x, y);
    ProductNotNegative(d, Mul(x, y));
    assert Mul(x, Mul(d, y)) == Mul(d, Mul(x, y));
  }

  /** The foot point is the nearest point of the segment. */
  lemma FootIsNearest(p: Point, a: Point, b: Point, t: real)
    requires InUnit(t)
    ensures InUnit(Foot(p, a, b)) && PointSeg2(p, a, b) <= Dist2(p, At(a, b, t))
  {
    hide Dot, Dist2, At, Sub;
    var ab, ap := Sub(b, a), Sub(p, a);
    Norm2NotNegative(ab);
    Parabola(p, a, b, t);
    Parabola(p, a, b, Foot(p, a, b));
    if Dot(ab, ab) == 0.0 {
      PointSegment(a, b, t);
      PointSegment(a, b, 0.0);
    } else {
      VertexIsLeast(Dot(ab, ab), Dot(ap, ab), t);
    }
  }

  /** A segment of length zero is one point. */
  lemma PointSegment(a: Point, b: Point, t: real)
    requires Dot(Sub(b, a), Sub(b, a)) == 0.0
    ensures At(a, b, t) == a
  {
    hide Dot;
    Norm2NotNegative(Sub(b, a));
    assert b.x - a.x == 0.0 && b.y - a.y == 0.0;
    assert t * 0.0 == 0.0;
  }

  // --- two segments ---

  /** One coordinate of the gap. */
  function GapAt(a: real, b: real, c: real, d: real, s: real, t: real): real {
    a + s * (b - a) - (c + t * (d - c))
  }

  /** From the second segment's point at t to the first one's at s. */
  function Gap(p1: Point, p2: Point, q1: Point, q2: Point, s: real, t: real): Point {
    Point(GapAt(p1.x, p2.x, q1.x, q2.x, s, t), GapAt(p1.y, p2.y, q1.y, q2.y, s, t))
  }

  function Toward(from: real, to: real, m: real): real { from + m * (to - from) }

  /** Moving both points at constant speed changes the gap linearly. */
  lemma GapMovesLinearly(p1: Point, p2: Point, q1: Point, q2: Point, s: real, t: real, s0: real, t0: real, m: real)
    ensures var g, g0 := Gap(p1, p2, q1, q2, s, t), Gap(p1, p2, q1, q2, s0, t0);
      Gap(p1, p2, q1, q2, Toward(s, s0, m), Toward(t, t0, m)) == Point(Toward(g.x, g0.x, m), Toward(g.y, g0.y, m))
  {
    hide Toward, GapAt;
    CoordinateMovesLinearly(p1.x, p2.x, q1.x, q2.x, s, t, s0, t0, m);
    CoordinateMovesLinearly(p1.y, p2.y, q1.y, q2.y, s, t, s0, t0, m);
  }

  lemma CoordinateMovesLinearly(a: real, b: real, c: real, d: real, s: real, t: real, s0: real, t0: real, m: real)
    ensures GapAt(a, b, c, d, Toward(s, s0, m), Toward(t, t0, m)) ==
      Toward(GapAt(a, b, c, d, s, t), GapAt(a, b, c, d, s0, t0), m)
  {
  }

  /** On the border of the unit square one of the two points is an end point. */
  predicate OnBorder(s: real, t: real) {
    InUnit(s) && InUnit(t) && (s == 0.0 || s == 1.0 || t == 0.0 || t == 1.0)
  }

  predicate Inside(s: real, t: real) { 0.0 < s < 1.0 && 0.0 < t < 1.0 }

  lemma EndsOfSegment(a: Point, b: Point)
    ensures At(a, b, 0.0) == a && At(a, b, 1.0) == b
  {
  }

  lemma Dist2Symmetric(a: Point, b: Point)
    ensures Dist2(a, b) == Dist2(b, a)
  {
  }

  /** On the border the gap is no shorter than the least end-point distance. */
  lemma BorderGap(p1: Point, p2: Point, q1: Point, q2: Point, s: real, t: real)
    requires OnBorder(s, t)
    ensures EndDistance(p1, p2, q1, q2) <= Norm2(Gap(p1, p2, q1, q2, s, t))
  {
    hide PointSeg2, Norm2, Sub, At, Gap;
    GapIsDistance(p1, p2, q1, q2, s, t);
    EndsOfSegment(p1, p2);
    EndsOfSegment(q1, q2);
    FootIsNearest(p1, q1, q2, t);
    FootIsNearest(p2, q1, q2, t);
    FootIsNearest(q1, p1, p2, s);
    FootIsNearest(q2, p1, p2, s);
    Dist2Symmetric(At(p1, p2, s), At(q1, q2, t));
  }

  /** How far one coordinate can move from x towards x0 before leaving the unit interval. */
  lemma Reach(x: real, x0: real) returns (m: real)
    requires InUnit(x)
    ensures InUnit(m)
    ensures forall k :: 0.0 <= k <= m ==> InUnit(Toward(x, x0, k))
    ensures 0.0 < x0 < 1.0 ==> m == 1.0
    ensures !(0.0 < x0 < 1.0) ==> Toward(x, x0, m) == 0.0 || Toward(x, x0, m) == 1.0
  {
    if 0.0 < x0 < 1.0 {
      m := 1.0;
      forall k | 0.0 <= k <= m
        ensures InUnit(Toward(x, x0, k))
      {
        TowardBetween(x, x0, k);
      }
    } else if x0 <= 0.0 {
      m := if x == x0 then 0.0 else x / (x - x0);
      ReachDown(x, x0, m);
    } else {
      m := if x == x0 then 0.0 else (1.0 - x) / (x0 - x);
      ReachUp(x, x0, m);
    }
  }

  lemma TowardBetween(x: real, y: real, k: real)
    requires 0.0 <= k <= 1.0
    ensures if x <= y then x <= Toward(x, y, k) <= y else y <= Toward(x, y, k) <= x
  {
    hide Mul;
    var d := if x <= y then y - x else x - y;
    MulMonotone(d, 0.0, k);
    MulMonotone(d, k, 1.0);
    MulUnits(d);
    TowardIsMul(x, y, k);
  }

  lemma TowardIsMul(x: real, y: real, k: real)
    ensures Toward(x, y, k) == x + Mul(y - x, k) == x - Mul(x - y, k)
  {
  }

  lemma ReachDown(x: real, x0: real, m: real)
    requires InUnit(x) && x0 <= 0.0 && m == if x == x0 then 0.0 else x / (x - x0)
    ensures InUnit(m) && Toward(x, x0, m) == 0.0
    ensures forall k :: 0.0 <= k <= m ==> InUnit(Toward(x, x0, k))
  {
    if x == x0 {
    } else {
      var d := x - x0;
      Quotient(x, d);
      assert Mul(d, m) == x;
      TowardIsMul(x, x0, m);
      forall k | 0.0 <= k <= m
        ensures InUnit(Toward(x, x0, k))
      {
        TowardIsMul(x, x0, k);
        MulMonotone(d, 0.0, k);
        MulMonotone(d, k, m);
        MulUnits(d);
      }
    }
  }

  lemma Quotient(a: real, b: real)
    requires 0.0 <= a <= b && b > 0.0
    ensures InUnit(a / b) && Mul(b, a / b) == a
  {
  }

  lemma ReachUp(x: real, x0: real, m: real)
    requires InUnit(x) && x0 >= 1.0 && m == if x == x0 then 0.0 else (1.0 - x) / (x0 - x)
    ensures InUnit(m) && Toward(x, x0, m) == 1.0
    ensures forall k :: 0.0 <= k <= m ==> InUnit(Toward(x, x0, k))
  {
    if x == x0 {
    } else {
      var d := x0 - x;
      Quotient(1.0 - x, d);
      assert Mul(d, m) == 1.0 - x;
      TowardIsMul(x, x0, m);
      forall k | 0.0 <= k <= m
        ensures InUnit(Toward(x, x0, k))
      {
        TowardIsMul(x, x0, k);
        MulMonotone(d, 0.0, k);
        MulMonotone(d, k, m);
        MulUnits(d);
      }
    }
  }

  /** Moving from a point of the unit square towards one that is not inside it meets the border. */
  lemma MeetBorder(s: real, t: real, s0: real, t0: real) returns (m: real)
    requires InUnit(s) && InUnit(t) && !Inside(s0, t0)
    ensures InUnit(m) && OnBorder(Toward(s, s0, m), Toward(t, t0, m))
  {
    hide Toward;
    var a := Reach(s, s0);
    var b := Reach(t, t0);
    m := if (0.0 < s0 < 1.0) || (!(0.0 < t0 < 1.0) && b < a) then b else a;
  }

  /** The gap shrinks on the way to a meeting point, and keeps its length on the way to an equal gap. */
  lemma GapOnTheWay(g: Point, g0: Point, m: real)
    requires InUnit(m) && (g0 == Point(0.0, 0.0) || g0 == g)
    ensures Norm2(Point(Toward(g.x, g0.x, m), Toward(g.y, g0.y, m))) <= Norm2(g)
  {
    if g0 == Point(0.0, 0.0) {
      var k := 1.0 - m;
      assert Toward(g.x, 0.0, m) == k * g.x && Toward(g.y, 0.0, m) == k * g.y;
      assert Norm2(Point(k * g.x, k * g.y)) == Mul(k * k, Norm2(g));
      ShrinkSquare(k, g);
    }
  }

  lemma ShrinkSquare(k: real, g: Point)
    requires InUnit(k)
    ensures Mul(k * k, Norm2(g)) <= Norm2(g)
  {
    hide Mul, Norm2;
    Norm2NotNegative(g);
    assert 0.0 <= k * k <= 1.0 by {
      MulMonotone(k, 0.0, k);
      MulMonotone(k, k, 1.0);
      MulUnits(k);
      MulIsProduct(k, k);
    }
    MulMonotone(Norm2(g), k * k, 1.0);
    MulUnits(Norm2(g));
    MulCommutes(Norm2(g), k * k);
  }

  lemma MulIsProduct(x: real, y: real)
    ensures Mul(x, y) == x * y
  {
  }

  /** If the lines cross outside the segments, or the gap repeats there, the gap is no shorter than an end-point distance. */
  lemma SlideToBorder(p1: Point, p2: Point, q1: Point, q2: Point, s: real, t: real, s0: real, t0: real)
    requires InUnit(s) && InUnit(t) && !Inside(s0, t0)
    requires Gap(p1, p2, q1, q2, s0, t0) == Point(0.0, 0.0)
      || Gap(p1, p2, q1, q2, s0, t0) == Gap(p1, p2, q1, q2, s, t)
    ensures EndDistance(p1, p2, q1, q2) <= Norm2(Gap(p1, p2, q1, q2, s, t))
  {
    hide Gap, Norm2, EndDistance, Toward;
    var m := MeetBorder(s, t, s0, t0);
    GapMovesLinearly(p1, p2, q1, q2, s, t, s0, t0, m);
    GapOnTheWay(Gap(p1, p2, q1, q2, s, t), Gap(p1, p2, q1, q2, s0, t0), m);
    BorderGap(p1, p2, q1, q2, Toward(s, s0, m), Toward(t, t0, m));
  }

  /** The cross product of the two directions; zero for parallel segments. */
  function Turn(p1: Point, p2: Point, q1: Point, q2: Point): real {
    (p2.x - p1.x) * (q2.y - q1.y) - (p2.y - p1.y) * (q2.x - q1.x)
  }

  /** How the four orientations relate to the turn of the two directions. */
  lemma TurnFromOrientations(p1: Point, p2: Point, q1: Point, q2: Point)
    ensures Ccw(p1, p2, q2) - Ccw(p1, p2, q1) == Turn(p1, p2, q1, q2)
    ensures Ccw(q1, q2, p1) - Ccw(q1, q2, p2) == Turn(p1, p2, q1, q2)
  {
  }

  /** Cramer's rule, multiplied out. */
  lemma Cramer(p1: Point, p2: Point, q1: Point, q2: Point)
    ensures var d1, d3, turn := Ccw(p1, p2, q1), Ccw(q1, q2, p1), Turn(p1, p2, q1, q2);
      && turn * (p1.x - q1.x) + d3 * (p2.x - p1.x) + d1 * (q2.x - q1.x) == 0.0
      && turn * (p1.y - q1.y) + d3 * (p2.y - p1.y) + d1 * (q2.y - q1.y) == 0.0
  {
  }

  /** Where the lines through two segments that are not parallel meet. */
  lemma LinesMeet(p1: Point, p2: Point, q1: Point, q2: Point) returns (s: real, t: real)
    requires Turn(p1, p2, q1, q2) != 0.0
    ensures s == Ccw(q1, q2, p1) / Turn(p1, p2, q1, q2) && t == -Ccw(p1, p2, q1) / Turn(p1, p2, q1, q2)
    ensures Gap(p1, p2, q1, q2, s, t) == Point(0.0, 0.0)
  {
    var d1, d3, turn := Ccw(p1, p2, q1), Ccw(q1, q2, p1), Turn(p1, p2, q1, q2);
    s, t := d3 / turn, -d1 / turn;
    hide Ccw, Turn;
    Cramer(p1, p2, q1, q2);
    MeetCoordinate(turn, d1, d3, p1.x - q1.x, p2.x - p1.x, q2.x - q1.x);
    MeetCoordinate(turn, d1, d3, p1.y - q1.y, p2.y - p1.y, q2.y - q1.y);
  }

  lemma MeetCoordinate(turn: real, d1: real, d3: real, w: real, u: real, v: real)
    requires turn != 0.0 && turn * w + d3 * u + d1 * v == 0.0
    ensures w + d3 / turn * u - -d1 / turn * v == 0.0
  {
    var a, b := d3 / turn, -d1 / turn;
    assert a * turn == d3 && b * turn == -d1;
    assert turn * (w + a * u - b * v) == turn * w + d3 * u + d1 * v;
    NoZeroDivisors(turn, w + a * u - b * v);
  }

  lemma NoZeroDivisors(x: real, y: real)
    requires x != 0.0 && x * y == 0.0
    ensures y == 0.0
  {
    assert y == (x * y) / x;
  }

  /** The crossing test fires only if the segments meet, and fires if they meet inside both. */
  lemma CrossingTest(p1: Point, p2: Point, q1: Point, q2: Point) returns (s: real, t: real)
    requires Turn(p1, p2, q1, q2) != 0.0
    ensures Gap(p1, p2, q1, q2, s, t) == Point(0.0, 0.0)
    ensures Cross(p1, p2, q1, q2) ==> InUnit(s) && InUnit(t)
    ensures Inside(s, t) ==> Cross(p1, p2, q1, q2)
  {
    s, t := LinesMeet(p1, p2, q1, q2);
    TurnFromOrientations(p1, p2, q1, q2);
    hide Ccw, Turn, Gap;
    SignedFraction(Ccw(q1, q2, p1), Ccw(q1, q2, p2), Turn(p1, p2, q1, q2));
    SignedFraction(-Ccw(p1, p2, q1), -Ccw(p1, p2, q2), Turn(p1, p2, q1, q2));
    MinusSigns(Ccw(p1, p2, q1), Ccw(p1, p2, q2));
  }

  /** The fraction d / (d - e) lies in the unit interval when d and e have opposite signs, and only then inside it. */
  lemma SignedFraction(d: real, e: real, turn: real)
    requires turn != 0.0 && turn == d - e
    ensures (d >= 0.0 && e <= 0.0) || (d <= 0.0 && e >= 0.0) ==> InUnit(d / turn)
    ensures 0.0 < d / turn < 1.0 ==> (d > 0.0 && e < 0.0) || (d < 0.0 && e > 0.0)
  {
    var f := d / turn;
    assert f * turn == d;
    if turn > 0.0 {
      FractionOfPositive(f, d, turn);
    } else {
      assert f * -turn == -d;
      FractionOfPositive(f, -d, -turn);
    }
  }

  lemma FractionOfPositive(f: real, d: real, turn: real)
    requires turn > 0.0 && f * turn == d
    ensures f < 0.0 <==> d < 0.0
    ensures f > 1.0 <==> d > turn
    ensures f > 0.0 <==> d > 0.0
    ensures f < 1.0 <==> d < turn
  {
    assert (f - 1.0) * turn == d - turn;
    SignOfProduct(f, turn);
    SignOfProduct(f - 1.0, turn);
  }

  lemma SignOfProduct(x: real, y: real)
    requires y > 0.0
    ensures x * y > 0.0 <==> x > 0.0
    ensures x * y < 0.0 <==> x < 0.0
  {
  }

  lemma MinusSigns(d: real, e: real)
    ensures ((d > 0.0) != (e > 0.0)) ==> (-d >= 0.0 && -e <= 0.0) || (-d <= 0.0 && -e >= 0.0)
  {
  }

  /** Parallel segments: the gap repeats where one of the two points is at an end or beyond. */
  lemma ParallelGap(p1: Point, p2: Point, q1: Point, q2: Point, s: real, t: real) returns (s0: real, t0: real)
    requires Turn(p1, p2, q1, q2) == 0.0
    ensures !Inside(s0, t0) && Gap(p1, p2, q1, q2, s0, t0) == Gap(p1, p2, q1, q2, s, t)
  {
    hide GapAt;
    var ux, uy := p2.x - p1.x, p2.y - p1.y;
    var vx, vy := q2.x - q1.x, q2.y - q1.y;
    if ux == 0.0 && uy == 0.0 {
      s0, t0 := 0.0, t;
      GapStays(p1.x, p2.x, q1.x, q2.x, s, t);
      GapStays(p1.y, p2.y, q1.y, q2.y, s, t);
    } else {
      var k := if ux != 0.0 then vx / ux else vy / uy;
      ParallelRatio(ux, uy, vx, vy, k);
      s0, t0 := s + (1.0 - t) * k, 1.0;
      GapSlides(p1.x, p2.x, q1.x, q2.x, s, t, k);
      GapSlides(p1.y, p2.y, q1.y, q2.y, s, t, k);
    }
  }

  lemma GapStays(a: real, b: real, c: real, d: real, s: real, t: real)
    requires b - a == 0.0
    ensures GapAt(a, b, c, d, 0.0, t) == GapAt(a, b, c, d, s, t)
  {
    assert s * 0.0 == 0.0;
  }

  lemma GapSlides(a: real, b: real, c: real, d: real, s: real, t: real, k: real)
    requires k * (b - a) == d - c
    ensures GapAt(a, b, c, d, s + (1.0 - t) * k, 1.0) == GapAt(a, b, c, d, s, t)
  {
    assert (s + (1.0 - t) * k) * (b - a) == s * (b - a) + (1.0 - t) * (k * (b - a));
  }

  lemma ParallelRatio(ux: real, uy: real, vx: real, vy: real, k: real)
    requires ux * vy - uy * vx == 0.0 && (ux != 0.0 || uy != 0.0)
    requires k == if ux != 0.0 then vx / ux else vy / uy
    ensures k * ux == vx && k * uy == vy
  {
    if ux != 0.0 {
      assert k * ux == vx;
      assert ux * (vy - k * uy) == ux * vy - uy * (k * ux);
      NoZeroDivisors(ux, vy - k * uy);
    } else {
      assert ux * vy == 0.0;
      NoZeroDivisors(uy, vx);
    }
  }

  /** The closed form is no larger than the distance of any two points of the segments. */
  lemma SegSegIsLowerBound(p1: Point, p2: Point, q1: Point, q2: Point, s: real, t: real)
    requires InUnit(s) && InUnit(t)
    ensures SegSeg2(p1, p2, q1, q2) <= Dist2(At(p1, p2, s), At(q1, q2, t))
  {
    hide Norm2, Gap, EndDistance, Cross, At;
    GapIsDistance(p1, p2, q1, q2, s, t);
    if Cross(p1, p2, q1, q2) {
      Norm2NotNegative(Gap(p1, p2, q1, q2, s, t));
    } else if Turn(p1, p2, q1, q2) == 0.0 {
      var s0, t0 := ParallelGap(p1, p2, q1, q2, s, t);
      SlideToBorder(p1, p2, q1, q2, s, t, s0, t0);
      EndDistanceIs(p1, p2, q1, q2);
    } else {
      var s0, t0 := CrossingTest(p1, p2, q1, q2);
      SlideToBorder(p1, p2, q1, q2, s, t, s0, t0);
      EndDistanceIs(p1, p2, q1, q2);
    }
  }

  lemma GapIsDistance(p1: Point, p2: Point, q1: Point, q2: Point, s: real, t: real)
    ensures Norm2(Gap(p1, p2, q1, q2, s, t)) == Dist2(At(p1, p2, s), At(q1, q2, t))
  {
  }

  lemma EndDistanceIs(p1: Point, p2: Point, q1: Point, q2: Point)
    ensures SegSeg2(p1, p2, q1, q2) == if Cross(p1, p2, q1, q2) then 0.0 else EndDistance(p1, p2, q1, q2)
  {
    hide PointSeg2, Cross;
  }

  /** Some two points of the segments are exactly that far apart. */
  lemma SegSegIsAttained(p1: Point, p2: Point, q1: Point, q2: Point) returns (s: real, t: real)
    ensures InUnit(s) && InUnit(t)
    ensures SegSeg2(p1, p2, q1, q2) == Dist2(At(p1, p2, s), At(q1, q2, t))
  {
    hide Norm2, Gap, At, Foot, Turn, Ccw;
    EndDistanceIs(p1, p2, q1, q2);
    if Cross(p1, p2, q1, q2) {
      TurnFromOrientations(p1, p2, q1, q2);
      s, t := CrossingTest(p1, p2, q1, q2);
      GapIsDistance(p1, p2, q1, q2, s, t);
      ZeroNorm();
    } else {
      s, t := NearestEnds(p1, p2, q1, q2);
    }
  }

  lemma ZeroNorm()
    ensures Norm2(Point(0.0, 0.0)) == 0.0
  {
  }

  lemma NearestEnds(p1: Point, p2: Point, q1: Point, q2: Point) returns (s: real, t: real)
    ensures InUnit(s) && InUnit(t)
    ensures EndDistance(p1, p2, q1, q2) == Dist2(At(p1, p2, s), At(q1, q2, t))
  {
    hide Norm2, At, Foot;
    EndsOfSegment(p1, p2);
    EndsOfSegment(q1, q2);
    var e := EndDistance(p1, p2, q1, q2);
    if e == PointSeg2(q1, p1, p2) {
      s, t := Foot(q1, p1, p2), 0.0;
      FootIsNearest(q1, p1, p2, 0.0);
      Dist2Symmetric(q1, At(p1, p2, s));
    } else if e == PointSeg2(q2, p1, p2) {
      s, t := Foot(q2, p1, p2), 1.0;
      FootIsNearest(q2, p1, p2, 0.0);
      Dist2Symmetric(q2, At(p1, p2, s));
    } else if e == PointSeg2(p1, q1, q2) {
      s, t := 0.0, Foot(p1, q1, q2);
      FootIsNearest(p1, q1, q2, 0.0);
    } else {
      s, t := 1.0, Foot(p2, q1, q2);
      FootIsNearest(p2, q1, q2, 0.0);
    }
  }
}
