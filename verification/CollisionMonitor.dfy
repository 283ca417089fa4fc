/** Which cars to stop: near misses and crossing plans, and who gives way. */
module CollisionMonitor {
  import opened SegmentDistance

  datatype Plan = Standing | Heading(target: Point)

  datatype Pose = Pose(car: int, position: Point, plan: Plan, progress: real, moving: bool)

  datatype Reason = Proximity | PathConflict

  /** `gap2` is the squared distance the decision was based on. */
  datatype SafetyEvent = SafetyEvent(stop: int, keep: int, reason: Reason, gap2: real)

  datatype Check = Clear | Danger(event: SafetyEvent)

  /** The distance whose square is g2 is less than d. */
  predicate Within(g2: real, d: real) { d > 0.0 && g2 < d * d }

  /** Of a distance g, the test on squares is the test on distances. */
  lemma WithinExactly(g: real, d: real)
    requires g >= 0.0
    ensures Within(g * g, d) <==> g < d
  {
    if g < d {
      Factors(d, g);
      Positive(d - g, d + g);
    } else if d > 0.0 {
      Factors(g, d);
      if g > d {
        Positive(g - d, g + d);
      }
    }
  }

  lemma Factors(x: real, y: real)
    ensures (x - y) * (x + y) == x * x - y * y
  {
  }

  lemma Positive(x: real, y: real)
    requires x > 0.0 && y > 0.0
    ensures x * y > 0.0
  {
  }

  /** The car with less progress waits; of equals, the one with the larger id. */
  function PickWaiter(a: Pose, b: Pose): (r: (int, int)) {
    if a.progress == b.progress then (if a.car > b.car then (a.car, b.car) else (b.car, a.car))
    else if a.progress < b.progress then (a.car, b.car)
    else (b.car, a.car)
  }

  /** A standing car cannot be stopped, so the moving one is. */
  function PickMovingWaiter(a: Pose, b: Pose): (r: (int, int)) {
    if !a.moving then (b.car, a.car) else if !b.moving then (a.car, b.car) else PickWaiter(a, b)
  }

  function PathGap2(a: Pose, b: Pose): real
    requires a.plan.Heading? && b.plan.Heading?
  {
    SegSeg2(a.position, a.plan.target, b.position, b.plan.target)
  }

  function CheckPair(a: Pose, b: Pose, safety: real, clearance: real): Check {
    var gap2 := Dist2(a.position, b.position);
    if Within(gap2, safety) && (a.moving || b.moving) then
      var (stop, keep) := PickMovingWaiter(a, b);
      Danger(SafetyEvent(stop, keep, Proximity, gap2))
    else if a.moving && b.moving && a.plan.Heading? && b.plan.Heading? && Within(PathGap2(a, b), clearance) then
      var (stop, keep) := PickWaiter(a, b);
      Danger(SafetyEvent(stop, keep, PathConflict, PathGap2(a, b)))
    else Clear
  }

  /** The events of car i with the cars after it, up to j. */
  function Row(poses: seq<Pose>, i: nat, j: nat, safety: real, clearance: real): seq<SafetyEvent>
    requires i < |poses| && j <= |poses|
  {
    if j <= i + 1 then []
    else
      var check := CheckPair(poses[i], poses[j - 1], safety, clearance);
      Row(poses, i, j - 1, safety, clearance) + (if check.Danger? then [check.event] else [])
  }

  /** The events of all pairs whose first car comes before n. */
  function Rows(poses: seq<Pose>, n: nat, safety: real, clearance: real): seq<SafetyEvent>
    requires n <= |poses|
  {
    if n == 0 then [] else Rows(poses, n - 1, safety, clearance) + Row(poses, n - 1, |poses|, safety, clearance)
  }

  lemma NoRows(poses: seq<Pose>, safety: real, clearance: real)
    ensures Rows(poses, 0, safety, clearance) == []
  {
  }

  lemma RowsNext(poses: seq<Pose>, i: nat, safety: real, clearance: real)
    requires i < |poses|
    ensures Rows(poses, i + 1, safety, clearance) ==
      Rows(poses, i, safety, clearance) + Row(poses, i, |poses|, safety, clearance)
    ensures Row(poses, i, i + 1, safety, clearance) == []
  {
  }

  lemma RowNext(poses: seq<Pose>, i: nat, j: nat, safety: real, clearance: real)
    requires i < j < |poses|
    ensures var check := CheckPair(poses[i], poses[j], safety, clearance);
      Row(poses, i, j + 1, safety, clearance) ==
      Row(poses, i, j, safety, clearance) + (if check.Danger? then [check.event] else [])
  {
  }

  class CollisionMonitor {
    const safety: real
    const clearance: real

    constructor (safety: real, clearance: real)
      ensures this.safety == safety && this.clearance == clearance
    {
      this.safety, this.clearance := safety, clearance;
    }

    method CheckAll(poses: seq<Pose>) returns (events: seq<SafetyEvent>)
      ensures events == Rows(poses, |poses|, safety, clearance)
    {
      hide CheckPair, Row, Rows;
      NoRows(poses, safety, clearance);
      events := [];
      for i := 0 to |poses|
        invariant events == Rows(poses, i, safety, clearance)
      {
        RowsNext(poses, i, safety, clearance);
        for j := i + 1 to |poses|
          invariant events == Rows(poses, i, safety, clearance) + Row(poses, i, j, safety, clearance)
        {
          RowNext(poses, i, j, safety, clearance);
          var check := CheckPair(poses[i], poses[j], safety, clearance);
          if check.Danger? {
            events := events + [check.event];
          }
        }
      }
    }
  }

  // --- what the events mean ---

  /** An event is raised exactly for the pairs in danger. */
  lemma {:induction false} RowHas(poses: seq<Pose>, i: nat, j: nat, safety: real, clearance: real, e: SafetyEvent)
    requires i < |poses| && j <= |poses|
    ensures e in Row(poses, i, j, safety, clearance) <==>
      exists k :: i < k < j && CheckPair(poses[i], poses[k], safety, clearance) == Danger(e)
    decreases j
  {
    hide CheckPair;
    if j > i + 1 {
      RowHas(poses, i, j - 1, safety, clearance, e);
    }
  }

  lemma {:induction false} RowsHave(poses: seq<Pose>, n: nat, safety: real, clearance: real, e: SafetyEvent)
    requires n <= |poses|
    ensures e in Rows(poses, n, safety, clearance) <==>
      exists i, k :: 0 <= i < n && i < k < |poses| && CheckPair(poses[i], poses[k], safety, clearance) == Danger(e)
  {
    hide CheckPair, Row;
    if n > 0 {
      RowsHave(poses, n - 1, safety, clearance, e);
      RowHas(poses, n - 1, |poses|, safety, clearance, e);
    }
  }

  /** Some point of a's way to its target comes within the clearance of some point of b's. */
  ghost predicate PlansMeet(a: Pose, b: Pose, clearance: real) {
    && a.plan.Heading? && b.plan.Heading?
    && exists s, t :: InUnit(s) && InUnit(t)
         && Within(Dist2(At(a.position, a.plan.target, s), At(b.position, b.plan.target, t)), clearance)
  }

  lemma PathGapIsNearest(a: Pose, b: Pose, clearance: real)
    requires a.plan.Heading? && b.plan.Heading?
    ensures Within(PathGap2(a, b), clearance) <==> PlansMeet(a, b, clearance)
  {
    hide SegSeg2, Dist2, At;
    if Within(PathGap2(a, b), clearance) {
      var s, t := SegSegIsAttained(a.position, a.plan.target, b.position, b.plan.target);
    }
    if PlansMeet(a, b, clearance) {
      var s, t :| InUnit(s) && InUnit(t)
        && Within(Dist2(At(a.position, a.plan.target, s), At(b.position, b.plan.target, t)), clearance);
      SegSegIsLowerBound(a.position, a.plan.target, b.position, b.plan.target, s, t);
    }
  }

  /**
   A pair is reported exactly when it is too close with at least one car moving, or both cars move and their
   planned ways come too close anywhere along them.
   */
  lemma DangerExactly(a: Pose, b: Pose, safety: real, clearance: real)
    ensures CheckPair(a, b, safety, clearance).Danger? <==>
      (Within(Dist2(a.position, b.position), safety) && (a.moving || b.moving))
      || (a.moving && b.moving && PlansMeet(a, b, clearance))
  {
    hide Dist2, PlansMeet, PathGap2, PickWaiter, PickMovingWaiter;
    if a.plan.Heading? && b.plan.Heading? {
      PathGapIsNearest(a, b, clearance);
    }
    PlansNeedTargets(a, b, clearance);
  }

  lemma PlansNeedTargets(a: Pose, b: Pose, clearance: real)
    ensures PlansMeet(a, b, clearance) ==> a.plan.Heading? && b.plan.Heading?
  {
  }

  /** The order in which cars go first; of cars with equal progress the smaller id. */
  predicate GoesFirst(a: Pose, b: Pose) {
    a.progress > b.progress || (a.progress == b.progress && a.car <= b.car)
  }

  /** The car told to stop is a moving one of the two, and the other one goes first or stands still anyway. */
  lemma WaiterYields(a: Pose, b: Pose, safety: real, clearance: real)
    requires CheckPair(a, b, safety, clearance).Danger?
    ensures var e := CheckPair(a, b, safety, clearance).event;
      || (e.stop == a.car && e.keep == b.car && a.moving && (b.moving ==> GoesFirst(b, a)))
      || (e.stop == b.car && e.keep == a.car && b.moving && (a.moving ==> GoesFirst(a, b)))
  {
    hide Dist2, PathGap2;
  }

  ghost predicate DistinctCars(poses: seq<Pose>) {
    forall i, j :: 0 <= i < j < |poses| ==> poses[i].car != poses[j].car
  }

  lemma {:induction false} SomeoneGoesFirst(poses: seq<Pose>, n: nat) returns (first: nat)
    requires 0 < n <= |poses|
    ensures first < n && forall k :: 0 <= k < n ==> GoesFirst(poses[first], poses[k])
  {
    if n == 1 {
      first := 0;
    } else {
      first := SomeoneGoesFirst(poses, n - 1);
      if !GoesFirst(poses[first], poses[n - 1]) {
        first := n - 1;
      }
    }
  }

  /** While all cars move, the events never stop every one of them: the one that goes first keeps going. */
  lemma FirstKeepsGoing(poses: seq<Pose>, safety: real, clearance: real) returns (first: nat)
    requires |poses| > 0 && DistinctCars(poses) && forall i :: 0 <= i < |poses| ==> poses[i].moving
    ensures first < |poses|
    ensures forall e :: e in Rows(poses, |poses|, safety, clearance) ==> e.stop != poses[first].car
  {
    hide CheckPair, Rows;
    first := SomeoneGoesFirst(poses, |poses|);
    forall e | e in Rows(poses, |poses|, safety, clearance)
      ensures e.stop != poses[first].car
    {
      RowsHave(poses, |poses|, safety, clearance, e);
      var i, k :| 0 <= i < |poses| && i < k < |poses| && CheckPair(poses[i], poses[k], safety, clearance) == Danger(e);
      WaiterYields(poses[i], poses[k], safety, clearance);
    }
  }

  lemma WaiterIsSymmetric(a: Pose, b: Pose)
    requires a.moving || b.moving
    ensures PickMovingWaiter(a, b) == PickMovingWaiter(b, a) && PickWaiter(a, b) == PickWaiter(b, a)
  {
  }

  lemma DistanceIsSymmetric(a: Point, b: Point)
    ensures Dist2(a, b) == Dist2(b, a)
  {
    var x, y := a.x - b.x, a.y - b.y;
    assert x * x == (-x) * (-x) && y * y == (-y) * (-y);
  }

  lemma SegmentGapIsSymmetric(p1: Point, p2: Point, q1: Point, q2: Point)
    ensures SegSeg2(p1, p2, q1, q2) == SegSeg2(q1, q2, p1, p2)
  {
    hide PointSeg2, Ccw;
  }

  /** The verdict on a pair, who stops included, does not depend on the order the two are listed in. */
  lemma CheckIsSymmetric(a: Pose, b: Pose, safety: real, clearance: real)
    ensures CheckPair(a, b, safety, clearance) == CheckPair(b, a, safety, clearance)
  {
    hide SegSeg2, Dist2, Within, PickMovingWaiter, PickWaiter;
    DistanceIsSymmetric(a.position, b.position);
    if a.moving || b.moving {
      WaiterIsSymmetric(a, b);
    }
    if a.plan.Heading? && b.plan.Heading? {
      SegmentGapIsSymmetric(a.position, a.plan.target, b.position, b.plan.target);
    }
  }
}
